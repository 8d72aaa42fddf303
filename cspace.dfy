/** The cspace web spider's `parse_product`, after the product tile has been
    read out of the page: the tile's CSS classes, the `src` of its image (if
    it has one) and the texts of its name and price elements (if present). */
module Cspace {
  import opened Wrappers
  import opened Values
  import opened Strings
  import PurePath
  import ItemUtils

  const BaseUrl: string := "https://www.cspace.co.kr"
  const Brand: string := "cspace"

  /** What `parse_product` reads from one product tile. */
  datatype Tile = Tile(
    classes: seq<string>,         // item["class"]
    imgSrc: Option<string>,       // the src of the tile's img, None without an img
    nameText: Option<string>,     // the text of its dt, None without one
    priceText: Option<string>)    // the text of its dd, None without one

  /** The values the spider puts into the product record. */
  datatype Derived = Derived(
    id: string,                   // crawled_info.id
    url: string,                  // crawled_info.url: the listing page
    name: string,
    price: real,
    discounted: Option<real>,     // price.discounted_value
    thumb: Option<string>,        // image.thumb
    events: seq<string>)          // the event names, one EventVO each

  /** The spider's `events` table: a CSS class to an event name. */
  function EventOfClass(cls: string): Option<string>
  {
    match cls
    case "sale" => Some("DISCOUNT")
    case "onePlus" => Some("1+1")
    case "twoPlus" => Some("2+1")
    case _ => None
  }

  /** `[events[e] for e in classes if e in events]`: the classes the table
      knows, mapped, in order (so the KeyError it guards against cannot
      happen). */
  function Events(classes: seq<string>): (r: seq<string>)
    ensures |r| <= |classes|
    ensures forall i :: 0 <= i < |r| ==> r[i] == "DISCOUNT" || r[i] == "1+1" || r[i] == "2+1"
    decreases |classes|
  {
    if classes == [] then []
    else
      (if EventOfClass(classes[0]).Some? then [EventOfClass(classes[0]).value] else [])
      + Events(classes[1..])
  }

  /** The thumbnail: none without an image or for the "no_img" placeholder,
      otherwise the src on the site's base URL. */
  function ImageUrl(src: Option<string>): (r: Option<string>)
    ensures r.None? <==> src.None? || Contains(src.value, "no_img")
    ensures r.Some? ==> r.value == BaseUrl + src.value
  {
    match src
    case None => None
    case Some(s) => if Contains(s, "no_img") then None else Some(BaseUrl + s)
  }

  function ReadName(text: Option<string>): Result<string, Exc>
  {
    match text
    case None => Err(DropItem("Unknown name", {}))
    case Some(t) => Ok(Strip(t))
  }

  /** `float(re.sub(r"\D", "", text.strip()))`: the digits of the text read
      as a number; no digits (or no price element) drops the item. */
  function ReadPrice(text: Option<string>): (r: Result<real, Exc>)
    ensures r.Ok? <==> text.Some? && DigitsOf(Strip(text.value)) != ""
    ensures r.Ok? ==> r.value == DigitsValue(DigitsOf(Strip(text.value))) as real
    ensures r.Err? ==> r == Err(DropItem("Unknown price", {}))
  {
    match text
    case None => Err(DropItem("Unknown price", {}))
    case Some(t) =>
      var digits := DigitsOf(Strip(t));
      if digits == "" then Err(DropItem("Unknown price", {})) else Ok(DigitsValue(digits) as real)
  }

  /** `"/".join(url.split("/")[-2:])`: the last two "/"-separated pieces. */
  function LastTwo(url: string): string
  {
    var parts := Split(url, '/');
    Join(parts[|parts| - (if |parts| >= 2 then 2 else 1)..], '/')
  }

  /** The crawl id: with an image, the last two pieces of its URL without the
      final suffix and without a leading "product/" (`with_suffix` refuses a
      path with an empty name); without one, the product name. */
  function CrawlId(imageUrl: Option<string>, name: string): Result<string, Exc>
  {
    match imageUrl
    case None => Ok(name)
    case Some(u) =>
      var p := LastTwo(u);
      if PurePath.Name(p) == "" then Err(ValueError(p))
      else
        var c := PurePath.WithSuffix(p, "");
        Ok(if StartsWith(c, "product/") then c[|"product/"|..] else c)
  }

  /** The record values of one tile, in the order the spider computes them. */
  function Derive(tile: Tile, url: string): Result<Derived, Exc>
  {
    var events := Events(tile.classes);
    var thumb := ImageUrl(tile.imgSrc);
    var name :- ReadName(tile.nameText);
    var price :- ReadPrice(tile.priceText);
    var id :- CrawlId(thumb, name);
    Ok(Derived(id, url, name, price, if "DISCOUNT" in events then Some(price) else None, thumb, events))
  }

  /** `parse_product`: building the record starts with `convert_brand("cspace")`. */
  function ParseProduct(tile: Tile, url: string): Result<Derived, Exc>
  {
    WithBrand(Derive(tile, url), ItemUtils.ConvertBrand(Brand))
  }

  /** The record's arguments in evaluation order: the derived values, then
      the brand. */
  function WithBrand(d: Result<Derived, Exc>, brand: Result<int, Exc>): Result<Derived, Exc>
  {
    var v :- d;
    var b :- brand;
    Ok(v)
  }

  // ----- properties -----

  /** The mapping keeps the order of the classes. */
  lemma {:induction false} EventsAppend(a: seq<string>, b: seq<string>)
    ensures Events(a + b) == Events(a) + Events(b)
    decreases |a|
  {
    if a != [] {
      assert (a + b)[1..] == a[1..] + b;
      EventsAppend(a[1..], b);
    } else {
      assert a + b == b;
    }
  }

  /** A class yields its event exactly when the table knows it. */
  lemma {:induction false} EventsMembers(classes: seq<string>, e: string)
    ensures e in Events(classes) <==> exists i :: 0 <= i < |classes| && EventOfClass(classes[i]) == Some(e)
    decreases |classes|
  {
    if classes != [] {
      EventsMembers(classes[1..], e);
      if e in Events(classes[1..]) {
        var i :| 0 <= i < |classes[1..]| && EventOfClass(classes[1..][i]) == Some(e);
        assert EventOfClass(classes[i + 1]) == Some(e);
      }
      forall i | 0 < i < |classes| && EventOfClass(classes[i]) == Some(e)
        ensures e in Events(classes[1..])
      {
        assert classes[1..][i - 1] == classes[i];
      }
    }
  }

  /** "DISCOUNT" is among the events exactly when the "sale" class is among
      the classes. */
  lemma DiscountEvent(classes: seq<string>)
    ensures "DISCOUNT" in Events(classes) <==> "sale" in classes
  {
    EventsMembers(classes, "DISCOUNT");
    if "sale" in classes {
      var i :| 0 <= i < |classes| && classes[i] == "sale";
      assert EventOfClass(classes[i]) == Some("DISCOUNT");
    }
  }

  /** A product is discounted exactly when its tile has the "sale" class, and
      then at its full price. */
  lemma DiscountIff(tile: Tile, url: string)
    requires Derive(tile, url).Ok?
    ensures var d := Derive(tile, url).value;
      (d.discounted.Some? <==> "sale" in tile.classes)
      && (d.discounted.Some? ==> d.discounted.value == d.price)
  {
    DiscountEvent(tile.classes);
  }

  /** Every event name the table gives converts to an event id. */
  lemma EventsConvert(classes: seq<string>)
    ensures forall i :: 0 <= i < |Events(classes)| ==> ItemUtils.ConvertEvent(Events(classes)[i]).Ok?
  {
    assert ItemUtils.EventNames[0] == "1+1" && ItemUtils.EventNames[1] == "2+1";
    assert ItemUtils.EventNames[6] == "DISCOUNT";
    ItemUtils.ListedEvent(0);
    ItemUtils.ListedEvent(1);
    ItemUtils.ListedEvent(6);
  }

  /** The last two pieces of "<anything>/product/<file>" are "product/<file>". */
  lemma LastTwoOfProductImage(pre: string, file: string)
    requires '/' !in file
    ensures LastTwo(pre + "/product/" + file) == "product/" + file
  {
    SplitOfProductImage(pre, file);
    var parts := Split(pre + "/product/" + file, '/');
    var last := parts[|parts| - 2..];
    assert last == ["product", file];
    assert last[..1] == ["product"];
    assert Join(last, '/') == "product" + ['/'] + file;
  }

  lemma SplitOfProductImage(pre: string, file: string)
    requires '/' !in file
    ensures Split(pre + "/product/" + file, '/') == Split(pre, '/') + ["product", file]
  {
    var dir := pre + ['/'] + "product";
    assert pre + "/product/" + file == dir + ['/'] + file;
    SplitLast(dir, '/', file);
    SplitLast(pre, '/', "product");
  }

  /** So a product image's crawl id is the stem of its file name. */
  lemma CrawlIdOfProductImage(pre: string, file: string, name: string)
    requires '/' !in file && file != ""
    ensures CrawlId(Some(pre + "/product/" + file), name) == Ok(PurePath.Stem(file))
  {
    LastTwoOfProductImage(pre, file);
    var p := "product/" + file;
    LastAt(p, '/', 8);
    assert PurePath.NameStart(p) == 8;
    assert PurePath.Name(p) == file by { assert p[8..] == file; }
    assert PurePath.Name(file) == file by { LastAt(file, '/', 0); }
    var c := PurePath.WithSuffix(p, "");
    assert c == "product/" + PurePath.Stem(file);
    assert StartsWith(c, "product/");
    assert c[8..] == PurePath.Stem(file);
  }

  /** Without an image the name is the crawl id. */
  lemma CrawlIdWithoutImage(tile: Tile, url: string)
    requires Derive(tile, url).Ok? && ImageUrl(tile.imgSrc).None?
    ensures Derive(tile, url).value.id == Derive(tile, url).value.name == Strip(tile.nameText.value)
  {
  }

  /** A record's fields come from the tile as stated: the name stripped, the
      price from the digits, one event per known class. */
  lemma DerivedFields(tile: Tile, url: string)
    requires Derive(tile, url).Ok?
    ensures var d := Derive(tile, url).value;
      d.name == Strip(tile.nameText.value)
      && d.price == DigitsValue(DigitsOf(Strip(tile.priceText.value))) as real
      && d.thumb == ImageUrl(tile.imgSrc) && d.events == Events(tile.classes) && d.url == url
  {
  }

  /** A tile without a name or with a price text without digits is dropped. */
  lemma DropRules(tile: Tile, url: string)
    ensures tile.nameText.None? ==> Derive(tile, url) == Err(DropItem("Unknown name", {}))
    ensures tile.nameText.Some? && (tile.priceText.None? || DigitsOf(Strip(tile.priceText.value)) == "")
      ==> Derive(tile, url) == Err(DropItem("Unknown price", {}))
  {
  }

  /** The brand "cspace" is not in the brand table, so building the record
      always fails, with the ValueError of `convert_brand` once the values
      were derived. */
  lemma ParseProductAlwaysFails(tile: Tile, url: string)
    ensures ParseProduct(tile, url).Err?
    ensures Derive(tile, url).Ok? ==> ParseProduct(tile, url) == Err(ValueError("CSPACE"))
    ensures Derive(tile, url).Err? ==> ParseProduct(tile, url) == Err(Derive(tile, url).error)
  {
    if Derive(tile, url).Ok? {
      BrandRefused(Derive(tile, url));
    }
  }

  lemma BrandRefused(d: Result<Derived, Exc>)
    requires d.Ok?
    ensures WithBrand(d, ItemUtils.ConvertBrand(Brand)) == Err(ValueError("CSPACE"))
  {
    ItemUtils.CspaceUnknown();
  }
}
