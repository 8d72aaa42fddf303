/** The image pipeline (`S3ImagePipeline`): where a downloaded image is
    stored (`file_path`), how the item's image record is rewritten to the
    `s3://` addresses once its downloads finish (`item_completed`), the size
    an image is stored at (`get_images`), and how the stored sizes are
    recorded on the item (`image_downloaded`). Downloading, Pillow and the
    S3 upload are outside the model: each download result and each stored
    size is an input. */
module ImagePipeline {
  import opened Wrappers
  import opened Values
  import opened Strings
  import opened Items
  import opened PurePath

  predicate IsS3(s: string) { StartsWith(s, "s3") }

  // ----- file_path -----

  /** The directory of an item's images: "products" for a product, "events"
      for an event, nothing for any other item. */
  function KindPrefix(item: Item): Option<string>
  {
    match item
    case ProductItem(_) => Some("products")
    case EventItem(_) => Some("events")
    case _ => None
  }

  /** `re.sub(r"^full", prefix, path)` */
  function ReplaceLeadingFull(path: string, prefix: string): string
  {
    if StartsWith(path, "full") then prefix + path[4..] else path
  }

  /** `file_path(request, item=item)`, given the path scrapy's own
      `file_path` chose. */
  function FilePath(item: Item, path: string): (r: Result<string, Exc>)
    ensures r.Ok? <==> item.ProductItem? || item.EventItem?
    ensures r.Err? ==> r.error == ValueError("Invalid item type")
  {
    match KindPrefix(item)
    case None => Err(ValueError("Invalid item type"))
    case Some(prefix) => Ok(ReplaceLeadingFull(path, prefix))
  }

  /** Only a leading "full" is replaced: the rest of the path is kept, and a
      path that does not start with "full" is kept whole. */
  lemma FilePathRewrite(item: Item, path: string)
    requires KindPrefix(item).Some?
    ensures var prefix := KindPrefix(item).value;
      StartsWith(path, "full") ==>
        FilePath(item, path) == Ok(prefix + path[4..]) && StartsWith(FilePath(item, path).value, prefix)
    ensures !StartsWith(path, "full") ==> FilePath(item, path) == Ok(path)
  {
  }

  /** scrapy's own paths are "full/<name>": they become
      "products/<name>" or "events/<name>". */
  lemma ScrapyPathsMoved(p: Product, e: Event, name: string)
    ensures FilePath(ProductItem(p), "full/" + name) == Ok("products/" + name)
    ensures FilePath(EventItem(e), "full/" + name) == Ok("events/" + name)
  {
    var path := "full/" + name;
    assert StartsWith(path, "full");
    assert path[4..] == "/" + name;
    assert "products" + path[4..] == "products/" + name;
    assert "events" + path[4..] == "events/" + name;
  }

  // ----- item_completed -----

  /** One entry of the `results` scrapy hands to `item_completed`: a
      download that succeeded, with the URL asked for and the path stored
      under, or one that failed. */
  datatype DownloadResult = Downloaded(url: string, path: string) | Failed

  /** The address of a stored file: the prefix segment only when the store
      has one, and the path's suffix changed to ".webp". */
  function S3Url(bucket: string, prefix: string, path: string): (r: string)
    ensures IsS3(r)
  {
    "s3://" + bucket + "/" + (if prefix != "" then prefix + "/" else "") + WithSuffix(path, ".webp")
  }

  /** The S3 address ends with the stored path, its suffix now ".webp". */
  lemma S3UrlLayout(bucket: string, prefix: string, path: string)
    requires Name(path) != []
    ensures var r := S3Url(bucket, prefix, path);
      var dir := "s3://" + bucket + "/" + (if prefix != "" then prefix + "/" else "");
      r == dir + WithSuffix(path, ".webp") && Suffix(WithSuffix(path, ".webp")) == ".webp"
      && Stem(WithSuffix(path, ".webp")) == Stem(path)
  {
    WithSuffixParts(path, ".webp");
  }

  /** `[o if o != from_ else to for o in xs]` */
  function Replace(xs: seq<string>, from: string, to: string): (r: seq<string>)
    ensures |r| == |xs|
    ensures forall i :: 0 <= i < |xs| ==> r[i] == (if xs[i] == from then to else xs[i])
  {
    seq(|xs|, i requires 0 <= i < |xs| => if xs[i] != from then xs[i] else to)
  }

  /** One pass of the loop of `item_completed`. */
  function Step(img: Image, r: DownloadResult, bucket: string, prefix: string): Image
  {
    match r
    case Failed => img
    case Downloaded(u, p) =>
      var url := S3Url(bucket, prefix, p);
      if img.thumb == Some(u) then img.(thumb := Some(url))
      else img.(others := Replace(img.others, u, url))
  }

  /** The loop over the first results, in order. */
  function Steps(img: Image, rs: seq<DownloadResult>, bucket: string, prefix: string): Image
    decreases |rs|
  {
    if rs == [] then img
    else Step(Steps(img, rs[..|rs| - 1], bucket, prefix), rs[|rs| - 1], bucket, prefix)
  }

  /** `[o for o in xs if not o.startswith("s3")]` */
  function NonS3(xs: seq<string>): (r: seq<string>)
    ensures forall o :: o in r ==> o in xs && !IsS3(o)
    ensures forall o :: o in xs && !IsS3(o) ==> o in r
    ensures |r| <= |xs|
  {
    if xs == [] then []
    else (if IsS3(xs[0]) then [] else [xs[0]]) + NonS3(xs[1..])
  }

  /** The two statements after the loop: a non-empty thumb that is not an
      S3 address is dropped, and the S3 addresses are filtered out of
      `others`. */
  function Finish(img: Image): Image
  {
    var thumb := if img.thumb.Some? && img.thumb.value != "" && !IsS3(img.thumb.value) then None else img.thumb;
    Image(thumb, NonS3(img.others))
  }

  /** What `item_completed` leaves in the item's image. */
  function Completed(img: Image, rs: seq<DownloadResult>, bucket: string, prefix: string): Image
  {
    Finish(Steps(img, rs, bucket, prefix))
  }

  /** A failed download changes nothing; a successful one either sets the
      thumb to the S3 address, or puts the address in place of every equal
      entry of `others`, keeping their number and order. */
  lemma StepShape(img: Image, r: DownloadResult, bucket: string, prefix: string)
    ensures r.Failed? ==> Step(img, r, bucket, prefix) == img
    ensures r.Downloaded? && img.thumb == Some(r.url) ==>
      Step(img, r, bucket, prefix) == Image(Some(S3Url(bucket, prefix, r.path)), img.others)
    ensures r.Downloaded? && img.thumb != Some(r.url) ==>
      var s := Step(img, r, bucket, prefix);
      s.thumb == img.thumb && |s.others| == |img.others|
      && forall i :: 0 <= i < |img.others| ==>
           s.others[i] == (if img.others[i] == r.url then S3Url(bucket, prefix, r.path) else img.others[i])
  {
  }

  /** The loop only brings S3 addresses into the image: every entry of
      `others`, and the thumb, is an original or an S3 address. */
  lemma {:induction false} StepsIntroduceOnlyS3(img: Image, rs: seq<DownloadResult>, bucket: string, prefix: string)
    ensures var s := Steps(img, rs, bucket, prefix);
      (forall o :: o in s.others ==> o in img.others || IsS3(o))
      && (s.thumb.Some? ==> s.thumb == img.thumb || IsS3(s.thumb.value))
    decreases |rs|
  {
    if rs != [] {
      StepsIntroduceOnlyS3(img, rs[..|rs| - 1], bucket, prefix);
      var before := Steps(img, rs[..|rs| - 1], bucket, prefix);
      var r := rs[|rs| - 1];
      if r.Downloaded? && before.thumb != Some(r.url) {
        var after := Step(before, r, bucket, prefix);
        forall o | o in after.others ensures o in img.others || IsS3(o) {
          var i :| 0 <= i < |after.others| && after.others[i] == o;
          assert before.others[i] in before.others;
        }
      }
    }
  }

  /** After `item_completed` the thumb is None, empty or an S3 address, and
      `others` holds no S3 address at all: every entry it kept is one of
      the item's original URLs, so each one that was downloaded is gone. */
  lemma CompletedShape(img: Image, rs: seq<DownloadResult>, bucket: string, prefix: string)
    ensures var c := Completed(img, rs, bucket, prefix);
      (c.thumb == None || c.thumb == Some("") || IsS3(c.thumb.value))
      && (forall o :: o in c.others ==> o in img.others && !IsS3(o))
  {
    StepsIntroduceOnlyS3(img, rs, bucket, prefix);
  }

  /** Once the thumb is an S3 address it stays one. */
  lemma {:induction false} S3ThumbStays(img: Image, rs: seq<DownloadResult>, bucket: string, prefix: string)
    requires img.thumb.Some? && IsS3(img.thumb.value)
    ensures var s := Steps(img, rs, bucket, prefix); s.thumb.Some? && IsS3(s.thumb.value)
    decreases |rs|
  {
    if rs != [] {
      S3ThumbStays(img, rs[..|rs| - 1], bucket, prefix);
    }
  }

  /** Steps over a sequence can be split where a result is looked at. */
  lemma {:induction false} StepsSplit(img: Image, rs: seq<DownloadResult>, k: nat, bucket: string, prefix: string)
    requires k <= |rs|
    ensures Steps(img, rs, bucket, prefix) == Steps(Steps(img, rs[..k], bucket, prefix), rs[k..], bucket, prefix)
    decreases |rs|
  {
    if k < |rs| {
      StepsSplit(img, rs[..|rs| - 1], k, bucket, prefix);
      assert rs[..|rs| - 1][..k] == rs[..k];
      assert rs[k..][..|rs[k..]| - 1] == rs[..|rs| - 1][k..];
    } else {
      assert rs[..k] == rs;
    }
  }

  /** A thumb that was downloaded ends up as its S3 address. */
  lemma DownloadedThumbIsS3(img: Image, rs: seq<DownloadResult>, k: nat, bucket: string, prefix: string)
    requires k < |rs| && rs[k].Downloaded?
    requires Steps(img, rs[..k], bucket, prefix).thumb == Some(rs[k].url)
    ensures var c := Completed(img, rs, bucket, prefix); c.thumb.Some? && IsS3(c.thumb.value)
  {
    StepsSplit(img, rs, k + 1, bucket, prefix);
    assert rs[..k + 1][..k] == rs[..k];
    var mid := Steps(img, rs[..k + 1], bucket, prefix);
    S3ThumbStays(mid, rs[k + 1..], bucket, prefix);
  }

  // ----- get_images: the stored size -----

  datatype Dim = Dim(width: int, height: int)

  /** The largest side WebP can store. */
  const MaxSide: int := 16383

  function Max(a: int, b: int): int { if a >= b then a else b }
  function Min(a: int, b: int): int { if a <= b then a else b }

  /** The size `get_images` resizes an image of size (w, h) to: first up to
      the minimum when either side is short, then down to the WebP maximum
      when either side is long. */
  function StoredSize(w: int, h: int, minWidth: int, minHeight: int): (r: Dim)
    ensures r == Dim(Min(Max(w, minWidth), MaxSide), Min(Max(h, minHeight), MaxSide))
  {
    var up := if w < minWidth || h < minHeight then Dim(Max(w, minWidth), Max(h, minHeight)) else Dim(w, h);
    if up.width > MaxSide || up.height > MaxSide then Dim(Min(up.width, MaxSide), Min(up.height, MaxSide))
    else up
  }

  /** The minimums of the crawler's settings. */
  const MinWidth: int := 360
  const MinHeight: int := 360

  /** With those settings every stored side lies in [360, 16383], a size in
      range is kept, and resizing a stored size again changes nothing. */
  lemma StoredSizeBounds(w: int, h: int)
    ensures var r := StoredSize(w, h, MinWidth, MinHeight);
      MinWidth <= r.width <= MaxSide && MinHeight <= r.height <= MaxSide
      && (MinWidth <= w <= MaxSide && MinHeight <= h <= MaxSide ==> r == Dim(w, h))
      && StoredSize(r.width, r.height, MinWidth, MinHeight) == r
  {
  }

  // ----- image_downloaded: size bookkeeping -----

  /** `item.image` while the pipeline runs, with its `size` dictionary: the
      thumb's size and the list of the other images' sizes, each absent
      until first written. */
  class ImageState {
    var thumb: Option<string>
    var others: seq<string>
    var thumbSize: Option<Dim>
    var otherSizes: Option<seq<Dim>>

    constructor (img: Image)
      ensures thumb == img.thumb && others == img.others && thumbSize == None && otherSizes == None
    {
      thumb := img.thumb;
      others := img.others;
      thumbSize := None;
      otherSizes := None;
    }

    function Value(): Image
      reads this
    {
      Image(thumb, others)
    }
  }

  /** Whether a request is the thumb's: `item.image.thumb and
      Path(request.url) == Path(item.image.thumb)`, paths compared as
      written. */
  predicate IsThumbRequest(thumb: Option<string>, url: string)
  {
    thumb.Some? && thumb.value != "" && url == thumb.value
  }

  /** The sizes after recording one image of size `d`: `size["thumb"]` is
      overwritten, or `d` is appended to `size["others"]`, which is created
      when absent. */
  function RecordOne(sizes: (Option<Dim>, Option<seq<Dim>>), isThumb: bool, d: Dim): (Option<Dim>, Option<seq<Dim>>)
  {
    if isThumb then (Some(d), sizes.1)
    else (sizes.0, Some((if sizes.1.Some? then sizes.1.value else []) + [d]))
  }

  /** The sizes after recording images of sizes `dims`, in order. */
  function Recorded(sizes: (Option<Dim>, Option<seq<Dim>>), isThumb: bool, dims: seq<Dim>)
    : (Option<Dim>, Option<seq<Dim>>)
    decreases |dims|
  {
    if dims == [] then sizes
    else RecordOne(Recorded(sizes, isThumb, dims[..|dims| - 1]), isThumb, dims[|dims| - 1])
  }

  /** For the thumb's request only the last size stays; for any other, every
      size is appended to the others' list in order. */
  lemma {:induction false} RecordedKeepsLastOrAll(sizes: (Option<Dim>, Option<seq<Dim>>), isThumb: bool, dims: seq<Dim>)
    ensures var r := Recorded(sizes, isThumb, dims);
      (isThumb ==> r.1 == sizes.1 && r.0 == (if dims == [] then sizes.0 else Some(dims[|dims| - 1])))
      && (!isThumb ==>
            r.0 == sizes.0
            && r.1 == (if dims == [] then sizes.1 else Some((if sizes.1.Some? then sizes.1.value else []) + dims)))
    decreases |dims|
  {
    if dims != [] {
      var init := dims[..|dims| - 1];
      RecordedKeepsLastOrAll(sizes, isThumb, init);
      if !isThumb {
        var base := if sizes.1.Some? then sizes.1.value else [];
        assert dims == init + [dims[|dims| - 1]];
        if init == [] {
          assert dims == [dims[|dims| - 1]];
        } else {
          assert (base + init) + [dims[|dims| - 1]] == base + dims;
        }
      }
    }
  }

  /** The files a download stores: the path and the size of each image
      `get_images` yields (the image, then its thumbnails). */
  datatype Stored = Stored(path: string, size: Dim)

  function Sizes(outputs: seq<Stored>): (r: seq<Dim>)
    ensures |r| == |outputs| && forall i :: 0 <= i < |outputs| ==> r[i] == outputs[i].size
  {
    seq(|outputs|, i requires 0 <= i < |outputs| => outputs[i].size)
  }

  class S3ImagePipeline {
    /** The STAGE setting. */
    const stage: Option<string>
    const bucket: string
    const prefix: string
    /** What `persist_file` has been asked to store, in order. */
    var persisted: seq<Stored>

    constructor (stage: Option<string>, bucket: string, prefix: string)
      ensures this.stage == stage && this.bucket == bucket && this.prefix == prefix && persisted == []
    {
      this.stage := stage;
      this.bucket := bucket;
      this.prefix := prefix;
      persisted := [];
    }

    /** `item_completed(results, item)`: the image record is rewritten in
        place; its sizes stay as they are. */
    method ItemCompleted(results: seq<DownloadResult>, img: ImageState)
      modifies img
      ensures img.Value() == Completed(old(img.Value()), results, bucket, prefix)
      ensures img.thumbSize == old(img.thumbSize) && img.otherSizes == old(img.otherSizes)
    {
      ghost var start := img.Value();
      for i := 0 to |results|
        invariant img.Value() == Steps(start, results[..i], bucket, prefix)
        invariant img.thumbSize == old(img.thumbSize) && img.otherSizes == old(img.otherSizes)
      {
        assert results[..i + 1][..i] == results[..i];
        var r := results[i];
        if r.Downloaded? {
          var url := S3Url(bucket, prefix, r.path);
          if img.thumb == Some(r.url) {
            img.thumb := Some(url);
          } else {
            img.others := Replace(img.others, r.url, url);
          }
        }
      }
      assert results[..|results|] == results;
      if img.thumb.Some? && img.thumb.value != "" && !IsS3(img.thumb.value) {
        img.thumb := None;
      }
      img.others := NonS3(img.others);
    }

    /** `image_downloaded(response, request, item=item)` for the images
        `get_images` yields: each size is recorded on the item and, outside
        the test stage, each file is stored. */
    method ImageDownloaded(url: string, outputs: seq<Stored>, img: ImageState)
      modifies this, img
      ensures img.Value() == old(img.Value())
      ensures (img.thumbSize, img.otherSizes)
           == Recorded((old(img.thumbSize), old(img.otherSizes)), IsThumbRequest(old(img.thumb), url), Sizes(outputs))
      ensures persisted == old(persisted) + (if stage != Some("test") then outputs else [])
    {
      var isThumb := IsThumbRequest(img.thumb, url);
      ghost var sizes0 := (img.thumbSize, img.otherSizes);
      for i := 0 to |outputs|
        invariant img.Value() == old(img.Value())
        invariant (img.thumbSize, img.otherSizes) == Recorded(sizes0, isThumb, Sizes(outputs[..i]))
        invariant persisted == old(persisted) + (if stage != Some("test") then outputs[..i] else [])
      {
        var out := outputs[i];
        assert Sizes(outputs[..i + 1])[..i] == Sizes(outputs[..i]);
        if isThumb {
          img.thumbSize := Some(out.size);
        } else {
          if img.otherSizes.None? {
            img.otherSizes := Some([]);
          }
          img.otherSizes := Some(img.otherSizes.value + [out.size]);
        }
        if stage != Some("test") {
          persisted := persisted + [out];
          assert outputs[..i + 1] == outputs[..i] + [out];
        }
      }
      assert outputs[..|outputs|] == outputs;
    }
  }
}
