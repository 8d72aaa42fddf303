/** The CU event spider: `parse_list` makes every banner of the event list
    an absolute URL, and `parse` collects the image sources of an event page
    as absolute URLs, in page order, into the event's image. The page has
    already been read: `parse` gets the `src` of each img, in order. */
module CuEvent {
  import opened Wrappers
  import opened Strings
  import Items

  const ImgBaseUrl: string := "https://arqachylpmku8348141.cdn.ntruss.com"

  /** `parse_list`: a banner that is not already an http URL is put on the
      image host, with a "/" between them when it has none. */
  function Banner(banner: string): (r: string)
    ensures StartsWith(r, "http")
    ensures StartsWith(banner, "http") ==> r == banner
    ensures !StartsWith(banner, "http") ==> StartsWith(r, ImgBaseUrl + "/") && EndsWith(r, banner)
  {
    if !StartsWith(banner, "http") then
      if StartsWith(banner, "/") then ImgBaseUrl + banner
      else ImgBaseUrl + "/" + banner
    else banner
  }

  /** One image source of an event page, in the order the prefixes are
      checked: an http URL is kept, "//", "/" and ":" get the scheme in front,
      anything else is dropped. */
  function SrcUrl(src: string): (r: Option<string>)
    ensures r.Some? ==> StartsWith(r.value, "http") && EndsWith(r.value, src)
    ensures r.None? <==>
      !StartsWith(src, "http") && !StartsWith(src, "/") && !StartsWith(src, ":")
  {
    if StartsWith(src, "http") then Some(src)
    else if StartsWith(src, "//") then Some("https:" + src)
    else if StartsWith(src, "/") then Some("https:/" + src)
    else if StartsWith(src, ":") then Some("https" + src)
    else None
  }

  /** The sources `normalise` keeps, normalised, in page order. */
  function Kept(normalise: string -> Option<string>, srcs: seq<string>): (r: seq<string>)
    ensures |r| <= |srcs|
    decreases |srcs|
  {
    if srcs == [] then []
    else
      var last := normalise(srcs[|srcs| - 1]);
      Kept(normalise, srcs[..|srcs| - 1]) + (if last.Some? then [last.value] else [])
  }

  /** The image URLs of an event page. */
  function Images(srcs: seq<string>): (r: seq<string>)
    ensures |r| <= |srcs|
  {
    Kept(SrcUrl, srcs)
  }

  /** The event record `parse` builds; the two dates are left out. */
  datatype Event = Event(
    id: string,                   // crawled_info.id: the event code
    url: string,                  // crawled_info.url: the event page
    name: string,                 // the event title
    description: Option<string>,
    image: Items.Image)

  /** `parse`: the images are collected in one pass over the page's img
      sources, and the banner becomes the thumbnail. */
  method Parse(crawlId: string, url: string, title: string, banner: string, srcs: seq<string>)
    returns (e: Event)
    ensures e == Event(crawlId, url, title, None, Items.Image(Some(banner), Images(srcs)))
  {
    var imgs: seq<string> := [];
    for i := 0 to |srcs|
      invariant imgs == Images(srcs[..i])
    {
      assert srcs[..i + 1][..i] == srcs[..i];
      var src := srcs[i];
      if StartsWith(src, "http") {
        imgs := imgs + [src];
        continue;
      } else if StartsWith(src, "//") {
        imgs := imgs + ["https:" + src];
        continue;
      } else if StartsWith(src, "/") {
        imgs := imgs + ["https:/" + src];
      } else if StartsWith(src, ":") {
        imgs := imgs + ["https" + src];
      }
    }
    assert srcs[..|srcs|] == srcs;
    e := Event(crawlId, url, title, None, Items.Image(Some(banner), imgs));
  }

  // ----- properties -----

  /** Normalising a banner twice changes nothing. */
  lemma BannerIdempotent(banner: string)
    ensures Banner(Banner(banner)) == Banner(banner)
  {
  }

  /** Normalised sources are kept as they are. */
  lemma SrcUrlIdempotent(src: string)
    requires SrcUrl(src).Some?
    ensures SrcUrl(SrcUrl(src).value) == SrcUrl(src)
  {
  }

  /** "//" is checked before "/": a protocol-relative source and a source
      with a single leading "/" both become "https://" URLs. */
  lemma SlashForms(rest: string)
    requires !StartsWith(rest, "/")
    ensures SrcUrl("//" + rest) == Some("https://" + rest)
    ensures SrcUrl("/" + rest) == Some("https://" + rest)
    ensures SrcUrl("://" + rest) == Some("https://" + rest)
  {
    ProtocolRelative(rest);
    RootRelative(rest);
    SchemeRelative(rest);
  }

  lemma ProtocolRelative(rest: string)
    ensures SrcUrl("//" + rest) == Some("https://" + rest)
  {
    assert ("//" + rest)[0] == '/';
    assert "https:" + ("//" + rest) == "https://" + rest;
  }

  lemma RootRelative(rest: string)
    requires !StartsWith(rest, "/")
    ensures SrcUrl("/" + rest) == Some("https://" + rest)
  {
    assert ("/" + rest)[0] == '/';
    assert "/" + "/" == "//";
    PrefixShift('/', rest, "/");
    assert "https:/" + ("/" + rest) == "https://" + rest;
  }

  lemma SchemeRelative(rest: string)
    ensures SrcUrl("://" + rest) == Some("https://" + rest)
  {
    assert ("://" + rest)[0] == ':';
    assert "https" + ("://" + rest) == "https://" + rest;
  }

  /** A prefix test is unchanged by putting the same character in front. */
  lemma PrefixShift(c: char, rest: string, p: string)
    ensures StartsWith([c] + rest, [c] + p) <==> StartsWith(rest, p)
  {
    if StartsWith([c] + rest, [c] + p) {
      assert forall k :: 0 <= k < |p| ==> p[k] == ([c] + p)[k + 1] == ([c] + rest)[k + 1] == rest[k];
    }
  }

  /** The page's order is kept: the images of two runs of sources are the
      images of the first followed by those of the second. */
  lemma ImagesAppend(a: seq<string>, b: seq<string>)
    ensures Images(a + b) == Images(a) + Images(b)
  {
    KeptAppend(SrcUrl, a, b);
  }

  /** Every image is an http URL. */
  lemma ImagesAreUrls(srcs: seq<string>)
    ensures forall j :: 0 <= j < |Images(srcs)| ==> StartsWith(Images(srcs)[j], "http")
  {
    ImagesFromSources(srcs);
    forall j | 0 <= j < |Images(srcs)| ensures StartsWith(Images(srcs)[j], "http") {
      var i :| 0 <= i < |srcs| && SrcUrl(srcs[i]) == Some(Images(srcs)[j]);
    }
  }

  /** Each image comes from one source. */
  lemma ImagesFromSources(srcs: seq<string>)
    ensures forall j :: 0 <= j < |Images(srcs)| ==>
      exists i :: 0 <= i < |srcs| && SrcUrl(srcs[i]) == Some(Images(srcs)[j])
  {
    KeptFromSources(SrcUrl, srcs);
    var r := Images(srcs);
    assert r == Kept(SrcUrl, srcs);
    forall j | 0 <= j < |r| ensures exists i :: 0 <= i < |srcs| && SrcUrl(srcs[i]) == Some(r[j]) {
      var i :| 0 <= i < |srcs| && SrcUrl(srcs[i]) == Some(Kept(SrcUrl, srcs)[j]);
    }
  }

  /** No source is dropped exactly when every source is kept by `SrcUrl`. */
  lemma ImagesKeepAll(srcs: seq<string>)
    ensures |Images(srcs)| == |srcs| <==> forall i :: 0 <= i < |srcs| ==> SrcUrl(srcs[i]).Some?
  {
    if |Images(srcs)| == |srcs| {
      forall i | 0 <= i < |srcs| ensures SrcUrl(srcs[i]).Some? {
        if SrcUrl(srcs[i]).None? {
          DroppedShortens(SrcUrl, srcs, i);
        }
      }
    }
    if forall i :: 0 <= i < |srcs| ==> SrcUrl(srcs[i]).Some? {
      AllKept(SrcUrl, srcs);
    }
  }

  // ----- the generic collector -----

  /** Collecting a concatenation collects each part in turn: page order is kept. */
  lemma {:induction false} KeptAppend(normalise: string -> Option<string>, a: seq<string>, b: seq<string>)
    ensures Kept(normalise, a + b) == Kept(normalise, a) + Kept(normalise, b)
    decreases |b|
  {
    if b == [] {
      assert a + b == a;
    } else {
      var ab, init := a + b, b[..|b| - 1];
      var last := normalise(b[|b| - 1]);
      var t := if last.Some? then [last.value] else [];
      assert ab[..|ab| - 1] == a + init;
      assert ab[|ab| - 1] == b[|b| - 1];
      KeptAppend(normalise, a, init);
      calc {
        Kept(normalise, ab);
        Kept(normalise, a + init) + t;
        (Kept(normalise, a) + Kept(normalise, init)) + t;
        Kept(normalise, a) + (Kept(normalise, init) + t);
        Kept(normalise, a) + Kept(normalise, b);
      }
    }
  }

  /** Every kept entry is the normal form of some source. */
  lemma {:induction false} KeptFromSources(normalise: string -> Option<string>, srcs: seq<string>)
    ensures forall j :: 0 <= j < |Kept(normalise, srcs)| ==>
      exists i :: 0 <= i < |srcs| && normalise(srcs[i]) == Some(Kept(normalise, srcs)[j])
    decreases |srcs|
  {
    if srcs != [] {
      var init, last := srcs[..|srcs| - 1], normalise(srcs[|srcs| - 1]);
      KeptFromSources(normalise, init);
      var r := Kept(normalise, srcs);
      assert r == Kept(normalise, init) + (if last.Some? then [last.value] else []);
      forall j | 0 <= j < |r|
        ensures exists i :: 0 <= i < |srcs| && normalise(srcs[i]) == Some(r[j])
      {
        if j < |Kept(normalise, init)| {
          assert r[j] == Kept(normalise, init)[j];
          var i :| 0 <= i < |init| && normalise(init[i]) == Some(Kept(normalise, init)[j]);
          assert srcs[i] == init[i];
        } else {
          assert r[j] == last.value;
          assert normalise(srcs[|srcs| - 1]) == Some(r[j]);
        }
      }
    } else {
      assert Kept(normalise, srcs) == [];
    }
  }

  /** When every source has a normal form, none is lost. */
  lemma {:induction false} AllKept(normalise: string -> Option<string>, srcs: seq<string>)
    requires forall i :: 0 <= i < |srcs| ==> normalise(srcs[i]).Some?
    ensures |Kept(normalise, srcs)| == |srcs|
    decreases |srcs|
  {
    if srcs != [] {
      var init := srcs[..|srcs| - 1];
      assert forall i :: 0 <= i < |init| ==> init[i] == srcs[i];
      AllKept(normalise, init);
      assert normalise(srcs[|srcs| - 1]).Some?;
    }
  }

  /** A dropped source makes the list shorter than the sources. */
  lemma DroppedShortens(normalise: string -> Option<string>, srcs: seq<string>, i: nat)
    requires i < |srcs| && normalise(srcs[i]).None?
    ensures |Kept(normalise, srcs)| < |srcs|
  {
    var a, b := srcs[..i + 1], srcs[i + 1..];
    assert srcs == a + b;
    KeptAppend(normalise, a, b);
    assert a[..i] == srcs[..i];
    assert |Kept(normalise, a)| <= i;
  }
}
