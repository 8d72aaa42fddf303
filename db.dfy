/** The persistence step of the item pipeline (`DatabasePipeline`): outside
    the test stage, every item is upserted into the "products" collection,
    matched by its whole crawled-info record, with `$set` of every field of
    its dictionary. The store is a map from collection names to collections,
    and a collection maps the crawled-info dictionary a document was matched
    by to the document. */
module Db {
  import opened Wrappers
  import opened Values
  import opened Items

  type Document = map<string, Dyn>
  type Collection = map<map<string, Dyn>, Document>

  /** How the write is logged: nothing matched, matched but nothing changed,
      or changed. */
  datatype UpdateOutcome = New | AlreadyExists | Updated

  /** The collection the pipeline writes to, whatever the item. */
  const Products: string := "products"

  /** Every document holds the crawled-info record it is keyed by. */
  predicate Keyed(coll: Collection)
  {
    forall key :: key in coll ==> "crawled_info" in coll[key] && coll[key]["crawled_info"] == DDict(key)
  }

  /** `update_one({"crawled_info": key}, {"$set": fields}, upsert=True)`: a
      matched document gets every field of `fields`, overwriting, and keeps
      the rest; without a match the query and the fields make a new one. */
  function Upsert(coll: Collection, key: map<string, Dyn>, fields: Document): (r: (Collection, UpdateOutcome))
    ensures r.0.Keys == coll.Keys + {key}
    ensures forall k :: k in coll && k != key ==> r.0[k] == coll[k]
    ensures forall f :: f in fields ==> f in r.0[key] && r.0[key][f] == fields[f]
    ensures key in coll ==> forall f :: f in coll[key] && f !in fields ==> f in r.0[key] && r.0[key][f] == coll[key][f]
    ensures key !in coll ==> r.0[key].Keys == fields.Keys + {"crawled_info"}
    ensures r.1 == New <==> key !in coll
    ensures r.1 == AlreadyExists <==> key in coll && r.0[key] == coll[key]
  {
    if key !in coll then
      (coll[key := map["crawled_info" := DDict(key)] + fields], New)
    else
      var doc := coll[key] + fields;
      (coll[key := doc], if doc == coll[key] then AlreadyExists else Updated)
  }

  /** A matched document is left as it was exactly when it already held every
      field with the value being set. */
  lemma AlreadyExistsIff(coll: Collection, key: map<string, Dyn>, fields: Document)
    requires key in coll
    ensures Upsert(coll, key, fields).1 == AlreadyExists <==>
      forall f :: f in fields ==> f in coll[key] && coll[key][f] == fields[f]
  {
    var doc := Upsert(coll, key, fields).0[key];
    if forall f :: f in fields ==> f in coll[key] && coll[key][f] == fields[f] {
      assert doc.Keys == coll[key].Keys;
      assert forall f :: f in doc ==> doc[f] == coll[key][f];
      assert doc == coll[key];
    }
  }

  /** Writing the same fields twice: the second write changes nothing and is
      logged as already existing. */
  lemma UpsertIdempotent(coll: Collection, key: map<string, Dyn>, fields: Document)
    ensures var once := Upsert(coll, key, fields).0;
      Upsert(once, key, fields) == (once, AlreadyExists)
  {
    var once := Upsert(coll, key, fields).0;
    AlreadyExistsIff(once, key, fields);
    var twice := Upsert(once, key, fields).0;
    assert twice.Keys == once.Keys;
    assert twice == once;
  }

  /** Setting fields whose crawled info is the key keeps the collection keyed. */
  lemma UpsertKeepsKeyed(coll: Collection, key: map<string, Dyn>, fields: Document)
    requires Keyed(coll)
    requires "crawled_info" in fields ==> fields["crawled_info"] == DDict(key)
    ensures Keyed(Upsert(coll, key, fields).0)
  {
  }

  /** The crawled info of the records that have one. */
  function CrawledInfoOf(item: Item): Option<CrawledInfo>
  {
    match item
    case ProductItem(p) => Some(p.crawledInfo)
    case EventItem(e) => Some(e.crawledInfo)
    case _ => None
  }

  /** `get_collection(name)`: a collection not yet written is empty. */
  function CollectionOf(store: map<string, Collection>, name: string): Collection
  {
    if name in store then store[name] else map[]
  }

  class DatabasePipeline {
    var store: map<string, Collection>

    constructor (store: map<string, Collection>)
      ensures this.store == store
    {
      this.store := store;
    }

    /** `process_item(item, spider)`, with the spider's STAGE setting. The
        item is returned as it came; outside the test stage, the outcome
        logged is the second out-parameter. */
    method ProcessItem(item: Item, stage: Option<string>) returns (r: Result<Item, Exc>, outcome: Option<UpdateOutcome>)
      modifies this
      ensures stage == Some("test") ==> store == old(store) && r == Ok(item) && outcome == None
      ensures stage != Some("test") && CrawledInfoOf(item).None? ==>
        store == old(store) && r == Err(AttributeError("crawled_info")) && outcome == None
      ensures stage != Some("test") && CrawledInfoOf(item).Some? ==>
        var w := Upsert(CollectionOf(old(store), Products), CrawledInfoDict(CrawledInfoOf(item).value), AsDict(item));
        store == old(store)[Products := w.0] && r == Ok(item) && outcome == Some(w.1)
    {
      if stage == Some("test") {
        return Ok(item), None;
      }
      var info := CrawledInfoOf(item);
      if info.None? {
        return Err(AttributeError("crawled_info")), None;
      }
      var query := CrawledInfoDict(info.value);
      var w := Upsert(CollectionOf(store, Products), query, AsDict(item));
      store := store[Products := w.0];
      r, outcome := Ok(item), Some(w.1);
    }
  }

  /** The crawled info in a record's dictionary is the one it is matched by. */
  lemma DictHoldsKey(item: Item)
    requires CrawledInfoOf(item).Some?
    ensures "crawled_info" in AsDict(item)
    ensures AsDict(item)["crawled_info"] == DDict(CrawledInfoDict(CrawledInfoOf(item).value))
  {
  }

  /** Processing the same item twice outside the test stage: the second
      write is logged as already existing and leaves the store as the first
      left it; every other collection is untouched throughout. */
  method ProcessTwice(db: DatabasePipeline, item: Item, stage: string)
    returns (first: Option<UpdateOutcome>, second: Option<UpdateOutcome>)
    requires stage != "test" && CrawledInfoOf(item).Some?
    modifies db
    ensures second == Some(AlreadyExists)
    ensures first.Some? && (first == Some(New) <==>
      CrawledInfoDict(CrawledInfoOf(item).value) !in CollectionOf(old(db.store), Products))
    ensures db.store == old(db.store)[Products :=
      Upsert(CollectionOf(old(db.store), Products), CrawledInfoDict(CrawledInfoOf(item).value), AsDict(item)).0]
    ensures forall name :: name in old(db.store) && name != Products ==> name in db.store && db.store[name] == old(db.store)[name]
  {
    var r1, r2;
    r1, first := db.ProcessItem(item, Some(stage));
    var after := db.store;
    r2, second := db.ProcessItem(item, Some(stage));
    UpsertIdempotent(CollectionOf(old(db.store), Products), CrawledInfoDict(CrawledInfoOf(item).value), AsDict(item));
    assert db.store == after;
  }
}
