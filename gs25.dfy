/** The GS25 web spider's reading of its two JSON listings: the event goods
    (`parse_event`) and the fresh-food "youus" pages (`parse_youus`). Each
    result dictionary gives the values of one product record; a page either
    ends the crawl of its listing or asks for the next page. The listing
    bodies are given already parsed, and `float()` of a string is a
    parameter. */
module Gs25 {
  import opened Wrappers
  import opened Values
  import opened Strings
  import PurePath
  import ItemUtils

  /** The values the spider puts into one product record. */
  datatype Derived = Derived(
    id: string,              // crawled_info.id: the stem of the image path
    name: Dyn,               // goodsNm, as the listing gives it
    price: real,             // float(price)
    thumb: string,           // image.thumb: attFileNm
    events: seq<int>,        // the event ids, in order
    category: Option<int>)   // the category id (the youus listing only)

  /** The two listings; a youus page is asked for with a service key and a
      product group. */
  datatype Listing = EventGoods | Youus(srv: string, search: string)

  // ----- one result -----

  /** The result without the keys that end in "Old". */
  function DropOld(result: map<string, Dyn>): (r: map<string, Dyn>)
    ensures forall k :: k in r <==> k in result && !EndsWith(k, "Old")
    ensures forall k :: k in r ==> r[k] == result[k]
  {
    map k | k in result && !EndsWith(k, "Old") :: result[k]
  }

  /** `d.get(key, default)` */
  function GetOr(d: map<string, Dyn>, key: string, default: Dyn): Dyn
  {
    if key in d then d[key] else default
  }

  /** `float(v)`: numbers and bools convert, a string is parsed by `parse`,
      anything else is a TypeError. */
  function FloatOf(v: Dyn, parse: string -> Option<real>): (r: Result<real, Exc>)
    ensures v.DInt? ==> r == Ok(v.i as real)
    ensures v.DFloat? ==> r == Ok(v.r)
    ensures v.DStr? ==> (r.Ok? <==> parse(v.s).Some?)
    ensures r.Err? ==> r.error == TypeError || r.error.ValueError?
  {
    match v
    case DInt(i) => Ok(i as real)
    case DFloat(x) => Ok(x)
    case DBool(b) => Ok(if b then 1.0 else 0.0)
    case DStr(s) => if parse(s).Some? then Ok(parse(s).value) else Err(ValueError(s))
    case _ => Err(TypeError)
  }

  /** What both listings read first: the name, the price and the image. */
  datatype Basics = Basics(name: Dyn, price: real, image: string)

  /** `result["goodsNm"]`, `float(result["price"])` and `result.get("attFileNm")`,
      in this order: a missing name or price is a KeyError, a missing or
      empty image drops the item, and an image that is not a string cannot
      be a path. */
  function ReadBasics(r: map<string, Dyn>, parse: string -> Option<real>): (b: Result<Basics, Exc>)
    ensures b.Ok? <==>
      "goodsNm" in r && "price" in r && FloatOf(r["price"], parse).Ok?
      && Get(r, "attFileNm").DStr? && Get(r, "attFileNm").s != ""
    ensures b.Ok? ==>
      b.value == Basics(r["goodsNm"], FloatOf(r["price"], parse).value, Get(r, "attFileNm").s)
    ensures "goodsNm" !in r ==> b == Err(KeyError("goodsNm"))
    ensures b == Err(DropItem("No image", {})) <==>
      "goodsNm" in r && "price" in r && FloatOf(r["price"], parse).Ok? && !Truthy(Get(r, "attFileNm"))
  {
    if "goodsNm" !in r then Err(KeyError("goodsNm"))
    else if "price" !in r then Err(KeyError("price"))
    else match FloatOf(r["price"], parse)
      case Err(e) => Err(e)
      case Ok(price) =>
        var img := Get(r, "attFileNm");
        if !Truthy(img) then Err(DropItem("No image", {}))
        else if !img.DStr? then Err(TypeError)
        else Ok(Basics(r["goodsNm"], price, img.s))
  }

  /** `convert_event` (passed as `convert`) on each event, in order; a value
      that is not a string has no `upper`. */
  function ConvertEach(convert: string -> Result<int, Exc>, events: seq<Dyn>): (r: Result<seq<int>, Exc>)
    ensures r.Ok? <==>
      forall i :: 0 <= i < |events| ==> events[i].DStr? && convert(events[i].s).Ok?
    ensures r.Ok? ==>
      (|r.value| == |events|
       && forall i :: 0 <= i < |events| ==> r.value[i] == convert(events[i].s).value)
    decreases |events|
  {
    if events == [] then Ok([])
    else if !events[0].DStr? then Err(AttributeError("upper"))
    else match convert(events[0].s)
      case Err(e) => Err(e)
      case Ok(id) =>
        match ConvertEach(convert, events[1..])
        case Err(e) => Err(e)
        case Ok(ids) => Ok([id] + ids)
  }

  // ----- the event goods listing -----

  /** The event type of an event-goods result, "덤증정" renamed to "GIFT". */
  function EventType(r: map<string, Dyn>): Dyn
  {
    var t := Get(r, "eventTypeNm");
    if Truthy(t) && t == DStr("덤증정") then DStr("GIFT") else t
  }

  /** One event when the result has an event type, none otherwise. */
  function EventGoodsEvents(r: map<string, Dyn>): seq<Dyn>
  {
    var t := EventType(r);
    if Truthy(t) then [t] else []
  }

  // ----- the youus listing -----

  /** "NEW" for a new product, then "MONOPOLY" on the exclusive-service pages. */
  function YouusEvents(r: map<string, Dyn>, srv: string): seq<Dyn>
  {
    EventList(GetOr(r, "isNew", DStr("F")) == DStr("T"), srv == "DifferentServiceKey")
  }

  function EventList(isNew: bool, exclusive: bool): seq<Dyn>
  {
    (if isNew then [DStr("NEW")] else []) + (if exclusive then [DStr("MONOPOLY")] else [])
  }

  const IceCreamWords: seq<string> := ["수박바", "폴라포", "파르페", "쿨샷스포츠", "빵빠레"]
  const SnackWords: seq<string> :=
    ["쿠키", "약과", "칩", "과자", "스낵", "젤리", "스틱", "초코콘", "딸기별", "오감자",
     "푸딩", "초코렛타", "나쵸", "꾸이깡", "프레첼", "팝콘", "초코볼", "누네띠네", "자일리톨"]
  const BreadWords: seq<string> := ["티라미수", "케익", "바닐라슈", "모찌롤"]

  predicate ContainsAny(s: string, words: seq<string>)
  {
    exists i :: 0 <= i < |words| && Contains(s, words[i])
  }

  /** The values Python's `in` can search, as a listing gives them: a string
      (for a substring), a list (for an element) and a dict (for a key). */
  predicate Iterable(v: Dyn)
  {
    v.DStr? || v.DList? || v.DDict?
  }

  /** `word in v` on a searchable value. */
  predicate HasWord(v: Dyn, word: string)
    requires Iterable(v)
  {
    match v
    case DStr(s) => Contains(s, word)
    case DList(xs) => DStr(word) in xs
    case DDict(m) => word in m
  }

  /** The snack-page rule as written: the last operand of the ice-cream test
      is the bare literal "빵빠레", which is always true. */
  function CookieCategoryAsWritten(name: Dyn): string
    requires Iterable(name)
  {
    if HasWord(name, IceCreamWords[0]) || HasWord(name, IceCreamWords[1])
       || HasWord(name, IceCreamWords[2]) || HasWord(name, IceCreamWords[3])
       || Truthy(DStr(IceCreamWords[4]))
    then "ICE CREAM"
    else if exists i :: 0 <= i < |SnackWords| && HasWord(name, SnackWords[i]) then "SNACK"
    else if exists i :: 0 <= i < |BreadWords| && HasWord(name, BreadWords[i]) then "BREAD"
    else "FOOD"
  }

  /** The ice-cream test as written gives ICE CREAM for every name it can
      search. */
  lemma CookieAsWrittenIsConstant(name: Dyn)
    requires Iterable(name)
    ensures CookieCategoryAsWritten(name) == "ICE CREAM"
  {
    assert Truthy(DStr(IceCreamWords[4]));
  }

  /** So a cookie is filed as ice cream. */
  lemma CookieAsWrittenMisfiles()
    ensures CookieCategoryAsWritten(DStr("쿠키")) == "ICE CREAM"
    ensures CookieCategory("쿠키") == "SNACK"
  {
    CookieAsWrittenIsConstant(DStr("쿠키"));
    assert Contains("쿠키", SnackWords[0]);
  }

  /** The snack-page rule with "빵빠레" looked for in the name like the
      other ice-cream words (the corrected half of the finding): the first
      word group the name contains decides. */
  function CookieCategory(name: string): (c: string)
    ensures c == "ICE CREAM" <==> ContainsAny(name, IceCreamWords)
    ensures c == "SNACK" <==> !ContainsAny(name, IceCreamWords) && ContainsAny(name, SnackWords)
    ensures c == "BREAD" <==>
      !ContainsAny(name, IceCreamWords) && !ContainsAny(name, SnackWords) && ContainsAny(name, BreadWords)
    ensures c == "FOOD" <==>
      !ContainsAny(name, IceCreamWords) && !ContainsAny(name, SnackWords) && !ContainsAny(name, BreadWords)
  {
    if Contains(name, IceCreamWords[0]) || Contains(name, IceCreamWords[1])
       || Contains(name, IceCreamWords[2]) || Contains(name, IceCreamWords[3])
       || Contains(name, IceCreamWords[4])
    then "ICE CREAM"
    else if ContainsAny(name, SnackWords) then "SNACK"
    else if ContainsAny(name, BreadWords) then "BREAD"
    else "FOOD"
  }

  /** A fresh-food snack is a salad when its name holds a salad word,
      otherwise food. */
  function SnackCategory(name: Dyn): (c: string)
    requires Iterable(name)
    ensures c == "SALAD" <==> HasWord(name, "샐만사") || HasWord(name, "샐러드")
    ensures c != "SALAD" ==> c == "FOOD"
  {
    if HasWord(name, "샐만사") || HasWord(name, "샐러드") then "SALAD" else "FOOD"
  }

  /** A milk-page product: a bagel is bread, else a name with "ML" in upper
      case is a drink, else food. */
  function MilkCategory(name: string): (c: string)
    ensures c == "BREAD" <==> Contains(name, "베이글")
    ensures c == "DRINK" <==> !Contains(name, "베이글") && Contains(Upper(name), "ML")
    ensures c == "FOOD" <==> !Contains(name, "베이글") && !Contains(Upper(name), "ML")
  {
    if Contains(name, "베이글") then "BREAD"
    else if Contains(Upper(name), "ML") then "DRINK"
    else "FOOD"
  }

  /** A ramen-page product is food when its name ends in one of the four meal
      words, otherwise a cup noodle. */
  function RamenCategory(name: string): (c: string)
    ensures c == "FOOD" <==>
      EndsWith(name, "컵") || EndsWith(name, "찌개") || EndsWith(name, "탕") || EndsWith(name, "밥")
    ensures c != "FOOD" ==> c == "CUP NOODLE"
  {
    if EndsWith(name, "컵") || EndsWith(name, "찌개") || EndsWith(name, "탕") || EndsWith(name, "밥")
    then "FOOD"
    else "CUP NOODLE"
  }

  /** The category name of a youus result, from the page's service key, its
      product group and, for some groups, the product name. Another service
      key is a RuntimeError. */
  function Category(srv: string, search: string, name: Dyn): Result<Option<string>, Exc>
  {
    if srv == "FreshFoodKey" then
      match search
      case "productLunch" => Ok(Some("LUNCH BOX"))
      case "productRice" => Ok(Some("KIMBAP"))
      case "productBurger" => Ok(Some("SANDWICH"))
      case "productSnack" =>
        if !Iterable(name) then Err(TypeError) else Ok(Some(SnackCategory(name)))
      case _ => Ok(None)
    else if srv == "DifferentServiceKey" then
      match search
      case "productDrink" => Ok(Some("DRINK"))
      case "productMilk" =>
        if !Iterable(name) then Err(TypeError)
        else if HasWord(name, "베이글") then Ok(Some("BREAD"))
        else if !name.DStr? then Err(AttributeError("upper"))
        else Ok(Some(MilkCategory(name.s)))
      case "productCookie" =>
        if !Iterable(name) then Err(TypeError) else Ok(Some(CookieCategoryAsWritten(name)))
      case "productRamen" =>
        if !name.DStr? then Err(AttributeError("endswith")) else Ok(Some(RamenCategory(name.s)))
      case "productGoods" => Ok(Some("HOUSEHOLD GOODS"))
      case _ => Ok(None)
    else Err(RuntimeError("Unknown srv_food_ck: " + srv))
  }

  /** `convert_category(category) if category else None` */
  function CategoryId(category: Option<string>): Result<Option<int>, Exc>
  {
    match category
    case None => Ok(None)
    case Some(c) =>
      match ItemUtils.ConvertCategory(c)
      case Err(e) => Err(e)
      case Ok(id) => Ok(Some(id))
  }

  // ----- a result, a page -----

  /** The record values of one result, or what the spider raises on it. */
  function Derive(l: Listing, result: map<string, Dyn>, parse: string -> Option<real>): Result<Derived, Exc>
  {
    DeriveKept(l, DropOld(result), parse)
  }

  /** `Derive` on a result whose "Old" keys are already gone. */
  function DeriveKept(l: Listing, r: map<string, Dyn>, parse: string -> Option<real>): Result<Derived, Exc>
  {
    var b :- ReadBasics(r, parse);
    match l
    case EventGoods =>
      var ids :- ConvertEach(ItemUtils.ConvertEvent, EventGoodsEvents(r));
      Ok(Derived(PurePath.Stem(b.image), b.name, b.price, b.image, ids, None))
    case Youus(srv, search) =>
      var events := YouusEvents(r, srv);
      var category :- Category(srv, search, b.name);
      var cid :- CategoryId(category);
      var ids :- ConvertEach(ItemUtils.ConvertEvent, events);
      Ok(Derived(PurePath.Stem(b.image), b.name, b.price, b.image, ids, cid))
  }

  /** `Derive` for one listing, as the function a page applies to each result. */
  function DeriveFn(l: Listing, parse: string -> Option<real>): map<string, Dyn> -> Result<Derived, Exc>
  {
    r => Derive(l, r, parse)
  }

  /** The records of the results up to the first that raises, and what it
      raised. */
  function Collect(derive: map<string, Dyn> -> Result<Derived, Exc>, results: seq<map<string, Dyn>>)
    : (c: (seq<Derived>, Option<Exc>))
    ensures |c.0| <= |results|
    ensures forall i :: 0 <= i < |c.0| ==> derive(results[i]) == Ok(c.0[i])
    ensures c.1.None? ==> |c.0| == |results|
    ensures c.1.Some? ==> |c.0| < |results| && derive(results[|c.0|]) == Err(c.1.value)
    decreases |results|
  {
    if results == [] then ([], None)
    else
      var prev := Collect(derive, results[..|results| - 1]);
      if prev.1.Some? then prev
      else match derive(results[|results| - 1])
        case Ok(d) => (prev.0 + [d], None)
        case Err(e) => (prev.0, Some(e))
  }

  /** What one page callback produces: records, then either a request for
      the next page or an exception; an empty page produces nothing. */
  datatype Page = Page(records: seq<Derived>, next: Option<int>, error: Option<Exc>)

  function PageOf(l: Listing, parse: string -> Option<real>, results: seq<map<string, Dyn>>, page: int): Page
  {
    if results == [] then Page([], None, None)
    else
      var c := Collect(DeriveFn(l, parse), results);
      Page(c.0, if c.1.None? then Some(page + 1) else None, c.1)
  }

  /** Once a prefix of the results has raised, the later results change nothing. */
  lemma {:induction false} CollectKeepsError(derive: map<string, Dyn> -> Result<Derived, Exc>,
                                             results: seq<map<string, Dyn>>, k: nat)
    requires k <= |results| && Collect(derive, results[..k]).1.Some?
    ensures Collect(derive, results) == Collect(derive, results[..k])
    decreases |results| - k
  {
    if k < |results| {
      var next := results[..k + 1];
      assert next[..k] == results[..k];
      assert Collect(derive, next) == Collect(derive, results[..k]);
      CollectKeepsError(derive, results, k + 1);
    } else {
      assert results[..k] == results;
    }
  }

  /** `parse_event` / `parse_youus` on the results of one page: the records
      are yielded in order until one result raises. */
  method ParsePage(l: Listing, parse: string -> Option<real>, results: seq<map<string, Dyn>>, page: int)
    returns (records: seq<Derived>, next: Option<int>, error: Option<Exc>)
    ensures Page(records, next, error) == PageOf(l, parse, results, page)
  {
    if results == [] {
      return [], None, None;
    }
    var derive := DeriveFn(l, parse);
    records := [];
    var i := 0;
    while i < |results|
      invariant 0 <= i <= |results|
      invariant Collect(derive, results[..i]) == (records, None)
    {
      var d := derive(results[i]);
      assert results[..i + 1][..i] == results[..i];
      if d.Err? {
        CollectKeepsError(derive, results, i + 1);
        return records, None, Some(d.error);
      }
      records := records + [d.value];
      i := i + 1;
    }
    assert results[..i] == results;
    next, error := Some(page + 1), None;
  }

  // ----- properties -----

  /** Keys ending in "Old" never influence a record. */
  lemma OldKeysIgnored(l: Listing, result: map<string, Dyn>, key: string, v: Dyn,
                       parse: string -> Option<real>)
    requires EndsWith(key, "Old")
    ensures Derive(l, result[key := v], parse) == Derive(l, result, parse)
  {
    assert DropOld(result[key := v]) == DropOld(result);
  }

  /** Dropping them twice is dropping them once. */
  lemma DropOldIdempotent(result: map<string, Dyn>)
    ensures DropOld(DropOld(result)) == DropOld(result)
  {
  }

  lemma GiftId() ensures ItemUtils.ConvertEvent("GIFT") == Ok(3)
  {
    assert ItemUtils.EventNames[2] == "GIFT";
    ItemUtils.ListedEvent(2);
  }

  lemma NewId() ensures ItemUtils.ConvertEvent("NEW") == Ok(4)
  {
    assert ItemUtils.EventNames[3] == "NEW";
    ItemUtils.ListedEvent(3);
  }

  lemma MonopolyId() ensures ItemUtils.ConvertEvent("MONOPOLY") == Ok(5)
  {
    assert ItemUtils.EventNames[4] == "MONOPOLY";
    ItemUtils.ListedEvent(4);
  }

  /** An event-goods result has one event exactly when it has an event type,
      and "덤증정" becomes "GIFT" (event id 3). */
  lemma EventGoodsEventRules(r: map<string, Dyn>)
    ensures |EventGoodsEvents(r)| <= 1
    ensures EventGoodsEvents(r) == [] <==> !Truthy(Get(r, "eventTypeNm"))
    ensures Get(r, "eventTypeNm") == DStr("덤증정") ==>
      EventGoodsEvents(r) == [DStr("GIFT")] && ConvertEach(ItemUtils.ConvertEvent, EventGoodsEvents(r)) == Ok([3])
    ensures Truthy(Get(r, "eventTypeNm")) && Get(r, "eventTypeNm") != DStr("덤증정") ==>
      EventGoodsEvents(r) == [Get(r, "eventTypeNm")]
  {
    if Get(r, "eventTypeNm") == DStr("덤증정") {
      GiftId();
      var c := ConvertEach(ItemUtils.ConvertEvent, [DStr("GIFT")]);
      assert c.value == [3];
    }
  }

  /** Youus events: NEW (id 4) for a new product, then MONOPOLY (id 5) on
      the exclusive-service pages; they always convert. */
  lemma YouusEventIds(r: map<string, Dyn>, srv: string)
    ensures var isNew := GetOr(r, "isNew", DStr("F")) == DStr("T");
      ConvertEach(ItemUtils.ConvertEvent, YouusEvents(r, srv))
      == Ok(EventIdList(isNew, srv == "DifferentServiceKey"))
  {
    EventListIds(GetOr(r, "isNew", DStr("F")) == DStr("T"), srv == "DifferentServiceKey");
  }

  lemma EventListIds(isNew: bool, exclusive: bool)
    ensures ConvertEach(ItemUtils.ConvertEvent, EventList(isNew, exclusive)) == Ok(EventIdList(isNew, exclusive))
  {
    NewId();
    MonopolyId();
    EventListConverts(ItemUtils.ConvertEvent, isNew, exclusive);
  }

  /** The ids of `EventList`. */
  function EventIdList(isNew: bool, exclusive: bool): seq<int>
  {
    (if isNew then [4] else []) + (if exclusive then [5] else [])
  }

  /** The event list converts under any converter that knows its two names. */
  lemma EventListConverts(convert: string -> Result<int, Exc>, isNew: bool, exclusive: bool)
    requires convert("NEW") == Ok(4) && convert("MONOPOLY") == Ok(5)
    ensures ConvertEach(convert, EventList(isNew, exclusive)) == Ok(EventIdList(isNew, exclusive))
  {
    var events := EventList(isNew, exclusive);
    var none: seq<int> := [];
    if isNew && exclusive {
      assert events == [DStr("NEW"), DStr("MONOPOLY")];
      assert events[1..] == [DStr("MONOPOLY")];
      assert events[1..][1..] == [];
      assert ConvertEach(convert, events[1..][1..]) == Ok(none);
      assert [5] + none == [5];
      assert ConvertEach(convert, events[1..]) == Ok([5]);
      assert [4] + [5] == [4, 5];
    } else if isNew {
      assert events == [DStr("NEW")];
      assert events[1..] == [];
      assert ConvertEach(convert, events[1..]) == Ok(none);
      assert [4] + none == [4] == EventIdList(isNew, exclusive);
    } else if exclusive {
      assert events == [DStr("MONOPOLY")];
      assert events[1..] == [];
      assert ConvertEach(convert, events[1..]) == Ok(none);
      assert [5] + none == [5] == none + [5] == EventIdList(isNew, exclusive);
    } else {
      assert events == [];
    }
  }

  /** A missing image drops the item; a record's id is the stem of its image. */
  lemma ImageRules(l: Listing, result: map<string, Dyn>, parse: string -> Option<real>)
    ensures var r := DropOld(result);
      "goodsNm" in r && "price" in r && FloatOf(r["price"], parse).Ok? && !Truthy(Get(r, "attFileNm"))
      ==> Derive(l, result, parse) == Err(DropItem("No image", {}))
    ensures Derive(l, result, parse).Ok? ==>
      var d := Derive(l, result, parse).value;
      var img := Get(DropOld(result), "attFileNm");
      img.DStr? && d.thumb == img.s && d.thumb != "" && d.id == PurePath.Stem(d.thumb)
      && d.name == DropOld(result)["goodsNm"]
  {
    var r := DropOld(result);
    if DeriveKept(l, r, parse).Ok? {
      FromBasics(l, r, parse);
    }
  }

  /** A record is built from what `ReadBasics` read. */
  lemma FromBasics(l: Listing, r: map<string, Dyn>, parse: string -> Option<real>)
    requires DeriveKept(l, r, parse).Ok?
    ensures ReadBasics(r, parse).Ok?
    ensures var b, d := ReadBasics(r, parse).value, DeriveKept(l, r, parse).value;
      d.thumb == b.image && d.id == PurePath.Stem(b.image) && d.name == b.name
  {
    if l.Youus? {
      var b := ReadBasics(r, parse).value;
      var category := Category(l.srv, l.search, b.name);
      assert category.Ok?;
    }
  }

  /** The service key decides between the two tables; any other key raises
      on the first result of a page. */
  lemma UnknownServiceRaises(srv: string, search: string, name: Dyn)
    ensures Category(srv, search, name).Err? && Category(srv, search, name).error.RuntimeError?
            <==> srv != "FreshFoodKey" && srv != "DifferentServiceKey"
    ensures srv != "FreshFoodKey" && srv != "DifferentServiceKey" ==>
      Category(srv, search, name) == Err(RuntimeError("Unknown srv_food_ck: " + srv))
  {
  }

  /** Every category the tables give is a listed one. */
  lemma CategoriesListed(srv: string, search: string, name: Dyn)
    ensures var c := Category(srv, search, name);
      c.Ok? && c.value.Some? ==> c.value.value in ItemUtils.CategoryNames
  {
  }

  /** So converting it succeeds, and a category is recorded exactly when the
      table gave one. */
  lemma CategoriesConvert(srv: string, search: string, name: Dyn)
    requires Category(srv, search, name).Ok?
    ensures var c := Category(srv, search, name).value;
      CategoryId(c).Ok? && (c.Some? <==> CategoryId(c).value.Some?)
  {
    var c := Category(srv, search, name).value;
    if c.Some? {
      CategoriesListed(srv, search, name);
      var k :| 0 <= k < |ItemUtils.CategoryNames| && ItemUtils.CategoryNames[k] == c.value;
      ItemUtils.ListedCategory(k);
    }
  }

  /** The fresh-food table: three fixed categories, and the snack rule on
      the name. */
  lemma FreshFoodRules(name: string)
    ensures Category("FreshFoodKey", "productLunch", DStr(name)) == Ok(Some("LUNCH BOX"))
    ensures Category("FreshFoodKey", "productRice", DStr(name)) == Ok(Some("KIMBAP"))
    ensures Category("FreshFoodKey", "productBurger", DStr(name)) == Ok(Some("SANDWICH"))
    ensures Category("FreshFoodKey", "productSnack", DStr(name)) == Ok(Some(SnackCategory(DStr(name))))
  {
  }

  /** The exclusive-service table: two fixed categories, the milk and ramen
      rules on the name, and, as written, ICE CREAM for every cookie-page
      name. */
  lemma ExclusiveRules(name: string)
    ensures Category("DifferentServiceKey", "productDrink", DStr(name)) == Ok(Some("DRINK"))
    ensures Category("DifferentServiceKey", "productGoods", DStr(name)) == Ok(Some("HOUSEHOLD GOODS"))
    ensures Category("DifferentServiceKey", "productMilk", DStr(name)) == Ok(Some(MilkCategory(name)))
    ensures Category("DifferentServiceKey", "productCookie", DStr(name)) == Ok(Some("ICE CREAM"))
    ensures Category("DifferentServiceKey", "productRamen", DStr(name)) == Ok(Some(RamenCategory(name)))
  {
    CookieAsWrittenIsConstant(DStr(name));
  }

  /** The groups that look at the name fail on a name `in` cannot search
      (a number, a bool or None). */
  lemma UnsearchableName(name: Dyn)
    requires !Iterable(name)
    ensures Category("FreshFoodKey", "productSnack", name) == Err(TypeError)
    ensures Category("DifferentServiceKey", "productMilk", name) == Err(TypeError)
    ensures Category("DifferentServiceKey", "productCookie", name) == Err(TypeError)
    ensures Category("DifferentServiceKey", "productRamen", name) == Err(AttributeError("endswith"))
  {
  }

  /** A list or dict name is searched by element or by key: the snack and
      cookie rules apply to it, the milk page's bagel test too, but its
      `upper()` and the ramen page's `endswith` do not exist. */
  lemma ListOrDictName(name: Dyn)
    requires name.DList? || name.DDict?
    ensures Category("FreshFoodKey", "productSnack", name)
         == Ok(Some(if HasWord(name, "샐만사") || HasWord(name, "샐러드") then "SALAD" else "FOOD"))
    ensures Category("DifferentServiceKey", "productMilk", name)
         == if HasWord(name, "베이글") then Ok(Some("BREAD")) else Err(AttributeError("upper"))
    ensures Category("DifferentServiceKey", "productCookie", name) == Ok(Some("ICE CREAM"))
    ensures Category("DifferentServiceKey", "productRamen", name) == Err(AttributeError("endswith"))
  {
    CookieAsWrittenIsConstant(name);
  }

  /** A product group the page's table does not list has no category. */
  lemma UnlistedGroupHasNoCategory(srv: string, search: string, name: Dyn)
    requires srv == "FreshFoodKey" ==>
      search !in {"productLunch", "productRice", "productBurger", "productSnack"}
    requires srv == "DifferentServiceKey" ==>
      search !in {"productDrink", "productMilk", "productCookie", "productRamen", "productGoods"}
    requires srv == "FreshFoodKey" || srv == "DifferentServiceKey"
    ensures Category(srv, search, name) == Ok(None)
  {
  }

  /** An empty page ends its listing; otherwise the next page is asked for
      exactly when no result raised, and it is the current page plus one. */
  lemma PagingRules(l: Listing, parse: string -> Option<real>, results: seq<map<string, Dyn>>, page: int)
    ensures results == [] ==> PageOf(l, parse, results, page) == Page([], None, None)
    ensures var p := PageOf(l, parse, results, page);
      p.next.Some? <==> results != [] && forall i :: 0 <= i < |results| ==> Derive(l, results[i], parse).Ok?
    ensures var p := PageOf(l, parse, results, page);
      p.next.Some? ==> p.next.value == page + 1 && |p.records| == |results|
    ensures var p := PageOf(l, parse, results, page);
      p.next.None? <==> results == [] || p.error.Some?
  {
    var c := Collect(DeriveFn(l, parse), results);
    if c.1.Some? {
      assert !DeriveFn(l, parse)(results[|c.0|]).Ok?;
    }
  }
}
