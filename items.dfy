/** The item records the spiders yield and the pipelines consume
    (`CrawledInfoVO`, `PriceVO`, `ImageVO`, `ProductVO`, `EventVO`), their
    `dataclasses.asdict` form, and the constructors of the two top-level
    records, whose `__post_init__` stamps both timestamps from the clock. The
    clock readings are parameters. */
module Items {
  import opened Wrappers
  import opened Values

  datatype CrawledInfo = CrawledInfo(spider: string, id: string, url: string)

  datatype Price = Price(value: real, currency: int)

  /** `thumb` is annotated `str`, but the spiders pass None for a missing image. */
  datatype Image = Image(thumb: Option<string>, others: seq<string>)

  datatype Event = Event(
    crawledInfo: CrawledInfo,
    createdAt: int,
    updatedAt: int,
    writtenAt: Option<int>,
    name: string,
    description: Option<string>,
    image: Image)

  datatype Product = Product(
    crawledInfo: CrawledInfo,
    name: string,
    price: Price,
    image: Image,
    events: seq<Event>,
    description: Option<string>,
    createdAt: int,
    updatedAt: int)

  /** What reaches a pipeline: one of the records, or any other value. */
  datatype Item =
    | CrawledInfoItem(info: CrawledInfo)
    | PriceItem(price: Price)
    | ImageItem(image: Image)
    | ProductItem(product: Product)
    | EventItem(event: Event)
    | OtherValue(value: Dyn)

  /** Subclasses of `ItemVO`. */
  predicate IsItemVO(item: Item) { !item.OtherValue? }

  /** `get_collection_name()`, for the records that define it. */
  function CollectionName(item: Item): Option<string>
  {
    match item
    case ProductItem(_) => Some("products")
    case EventItem(_) => Some("events")
    case _ => None
  }

  // ----- constructors -----

  /** `ImageVO(thumb=thumb)`: `others` defaults to an empty list. */
  function NewImage(thumb: Option<string>): Image { Image(thumb, []) }

  /** `ProductVO(...)`. `createdAt` and `updatedAt` are what the caller
      passed (None for the default); `now1` and `now2` are the two clock
      readings of `__post_init__`, which overwrite them. */
  function NewProduct(crawledInfo: CrawledInfo, name: string, price: Price, image: Image,
                      events: seq<Event>, description: Option<string>,
                      createdAt: Option<int>, updatedAt: Option<int>,
                      now1: int, now2: int): (p: Product)
    ensures p.createdAt == now1 && p.updatedAt == now2
    ensures p.crawledInfo == crawledInfo && p.name == name && p.price == price && p.image == image
    ensures p.events == events && p.description == description
  {
    var passed := Product(crawledInfo, name, price, image, events, description,
                          Stamp(createdAt), Stamp(updatedAt));
    passed.(createdAt := now1, updatedAt := now2)
  }

  /** `EventVO(...)`: `writtenAt` defaults to None, `description` has no
      default. */
  function NewEvent(crawledInfo: CrawledInfo, name: string, description: Option<string>, image: Image,
                    writtenAt: Option<int>, createdAt: Option<int>, updatedAt: Option<int>,
                    now1: int, now2: int): (e: Event)
    ensures e.createdAt == now1 && e.updatedAt == now2
    ensures e.crawledInfo == crawledInfo && e.name == name && e.description == description
    ensures e.image == image && e.writtenAt == writtenAt
  {
    var passed := Event(crawledInfo, Stamp(createdAt), Stamp(updatedAt), writtenAt,
                        name, description, image);
    passed.(createdAt := now1, updatedAt := now2)
  }

  /** The value a timestamp field holds between `__init__` and
      `__post_init__` (None is not an int; it is never observed). */
  function Stamp(t: Option<int>): int
  {
    if t.Some? then t.value else 0
  }

  /** The timestamps a caller passes are discarded. */
  lemma ProductStampsDiscarded(crawledInfo: CrawledInfo, name: string, price: Price, image: Image,
                               events: seq<Event>, description: Option<string>,
                               c1: Option<int>, u1: Option<int>, c2: Option<int>, u2: Option<int>,
                               now1: int, now2: int)
    ensures NewProduct(crawledInfo, name, price, image, events, description, c1, u1, now1, now2)
         == NewProduct(crawledInfo, name, price, image, events, description, c2, u2, now1, now2)
  {
  }

  lemma EventStampsDiscarded(crawledInfo: CrawledInfo, name: string, description: Option<string>,
                             image: Image, writtenAt: Option<int>,
                             c1: Option<int>, u1: Option<int>, c2: Option<int>, u2: Option<int>,
                             now1: int, now2: int)
    ensures NewEvent(crawledInfo, name, description, image, writtenAt, c1, u1, now1, now2)
         == NewEvent(crawledInfo, name, description, image, writtenAt, c2, u2, now1, now2)
  {
  }

  /** Two successive readings of a clock that does not go back give
      `createdAt <= updatedAt`. */
  lemma StampsOrdered(crawledInfo: CrawledInfo, name: string, price: Price, image: Image,
                      events: seq<Event>, description: Option<string>,
                      c: Option<int>, u: Option<int>, now1: int, now2: int)
    requires now1 <= now2
    ensures var p := NewProduct(crawledInfo, name, price, image, events, description, c, u, now1, now2);
      p.createdAt <= p.updatedAt
  {
  }

  // ----- dataclasses.asdict -----

  function OptionalStr(s: Option<string>): Dyn
  {
    if s.Some? then DStr(s.value) else DNone
  }

  function OptionalInt(i: Option<int>): Dyn
  {
    if i.Some? then DInt(i.value) else DNone
  }

  function StrList(xs: seq<string>): (r: seq<Dyn>)
    ensures |r| == |xs| && forall i :: 0 <= i < |xs| ==> r[i] == DStr(xs[i])
  {
    seq(|xs|, i requires 0 <= i < |xs| => DStr(xs[i]))
  }

  function CrawledInfoDict(c: CrawledInfo): map<string, Dyn>
  {
    map["spider" := DStr(c.spider), "id" := DStr(c.id), "url" := DStr(c.url)]
  }

  function PriceDict(p: Price): map<string, Dyn>
  {
    map["value" := DFloat(p.value), "currency" := DInt(p.currency)]
  }

  function ImageDict(i: Image): map<string, Dyn>
  {
    map["thumb" := OptionalStr(i.thumb), "others" := DList(StrList(i.others))]
  }

  function EventDict(e: Event): map<string, Dyn>
  {
    map["crawled_info" := DDict(CrawledInfoDict(e.crawledInfo)),
        "created_at" := DInt(e.createdAt), "updated_at" := DInt(e.updatedAt),
        "written_at" := OptionalInt(e.writtenAt),
        "name" := DStr(e.name), "description" := OptionalStr(e.description),
        "image" := DDict(ImageDict(e.image))]
  }

  function EventDicts(es: seq<Event>): (r: seq<Dyn>)
    ensures |r| == |es| && forall i :: 0 <= i < |es| ==> r[i] == DDict(EventDict(es[i]))
  {
    seq(|es|, i requires 0 <= i < |es| => DDict(EventDict(es[i])))
  }

  function ProductDict(p: Product): map<string, Dyn>
  {
    map["crawled_info" := DDict(CrawledInfoDict(p.crawledInfo)),
        "name" := DStr(p.name), "price" := DDict(PriceDict(p.price)),
        "image" := DDict(ImageDict(p.image)), "events" := DList(EventDicts(p.events)),
        "description" := OptionalStr(p.description),
        "created_at" := DInt(p.createdAt), "updated_at" := DInt(p.updatedAt)]
  }

  /** `asdict(item)` of a record. */
  function AsDict(item: Item): map<string, Dyn>
    requires IsItemVO(item)
  {
    match item
    case CrawledInfoItem(c) => CrawledInfoDict(c)
    case PriceItem(p) => PriceDict(p)
    case ImageItem(i) => ImageDict(i)
    case ProductItem(p) => ProductDict(p)
    case EventItem(e) => EventDict(e)
  }

  /** The keys of each record's dictionary are its field names. */
  lemma DictKeys(c: CrawledInfo, pr: Price, i: Image)
    ensures CrawledInfoDict(c).Keys == {"spider", "id", "url"}
    ensures PriceDict(pr).Keys == {"value", "currency"}
    ensures ImageDict(i).Keys == {"thumb", "others"}
  {
  }

  /** An event's dictionary has a `written_at` and no `start_at`. */
  lemma EventDictKeys(e: Event)
    ensures EventDict(e).Keys ==
      {"crawled_info", "created_at", "updated_at", "written_at", "name", "description", "image"}
    ensures "start_at" !in EventDict(e)
  {
  }

  /** A product's dictionary has no `category`. */
  lemma ProductDictKeys(p: Product)
    ensures ProductDict(p).Keys ==
      {"crawled_info", "name", "price", "image", "events", "description", "created_at", "updated_at"}
    ensures "category" !in ProductDict(p)
  {
  }

  /** A record can be read back from its dictionary: different records
      have different dictionaries. */
  lemma ProductDictInjective(p: Product, q: Product)
    requires ProductDict(p) == ProductDict(q)
    ensures p == q
  {
    var dp, dq := ProductDict(p), ProductDict(q);
    assert dp["crawled_info"] == dq["crawled_info"] && dp["name"] == dq["name"];
    assert dp["price"] == dq["price"] && dp["image"] == dq["image"];
    assert dp["events"] == dq["events"] && dp["description"] == dq["description"];
    assert dp["created_at"] == dq["created_at"] && dp["updated_at"] == dq["updated_at"];
    CrawledInfoDictInjective(p.crawledInfo, q.crawledInfo);
    ImageDictInjective(p.image, q.image);
    assert PriceDict(p.price)["value"] == PriceDict(q.price)["value"];
    assert PriceDict(p.price)["currency"] == PriceDict(q.price)["currency"];
    assert |p.events| == |q.events|;
    forall k | 0 <= k < |p.events| ensures p.events[k] == q.events[k] {
      assert EventDicts(p.events)[k] == EventDicts(q.events)[k];
      EventDictInjective(p.events[k], q.events[k]);
    }
  }

  lemma CrawledInfoDictInjective(c: CrawledInfo, d: CrawledInfo)
    requires CrawledInfoDict(c) == CrawledInfoDict(d)
    ensures c == d
  {
    assert CrawledInfoDict(c)["spider"] == CrawledInfoDict(d)["spider"];
    assert CrawledInfoDict(c)["id"] == CrawledInfoDict(d)["id"];
    assert CrawledInfoDict(c)["url"] == CrawledInfoDict(d)["url"];
  }

  lemma ImageDictInjective(i: Image, j: Image)
    requires ImageDict(i) == ImageDict(j)
    ensures i == j
  {
    assert ImageDict(i)["thumb"] == ImageDict(j)["thumb"];
    assert ImageDict(i)["others"] == ImageDict(j)["others"];
    assert |i.others| == |j.others|;
    forall k | 0 <= k < |i.others| ensures i.others[k] == j.others[k] {
      assert StrList(i.others)[k] == StrList(j.others)[k];
    }
  }

  lemma EventDictInjective(e: Event, f: Event)
    requires EventDict(e) == EventDict(f)
    ensures e == f
  {
    assert EventDict(e)["crawled_info"] == EventDict(f)["crawled_info"];
    CrawledInfoDictInjective(e.crawledInfo, f.crawledInfo);
    assert EventDict(e)["image"] == EventDict(f)["image"];
    ImageDictInjective(e.image, f.image);
    assert EventDict(e)["written_at"] == EventDict(f)["written_at"];
    assert EventDict(e)["description"] == EventDict(f)["description"];
    assert EventDict(e)["created_at"] == EventDict(f)["created_at"];
    assert EventDict(e)["updated_at"] == EventDict(f)["updated_at"];
    assert EventDict(e)["name"] == EventDict(f)["name"];
  }
}
