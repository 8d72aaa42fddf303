/** The validation gate of the item pipeline (`ValidationPipeline`): it lets
    an item through unchanged only when it is an item record, has a
    collection, and its schema reports no error on its dictionary. The
    three checks run in order and the first that fails decides the drop. */
module Validator {
  import opened Wrappers
  import opened Values
  import opened Schema
  import opened Items
  import opened ItemSchemas

  const NotItemVO: string := "Item is not a valid ItemVO"
  const NoCollection: string := "Item is not has collection name"
  const NotValid: string := "Item is not valid"

  /** `item.get_schema().validate(asdict(item))` for the records with a
      collection: the product schema for a product, the event schema (left
      abstract in the context) for an event. */
  function SchemaErrors(item: Item, ctx: Ctx): set<string>
    requires CollectionName(item).Some?
  {
    match item
    case ProductItem(p) => Errors(ProductSchema, ProductDict(p), ctx)
    case EventItem(e) => ctx.eventErrors(EventDict(e))
  }

  /** `process_item(item, spider)` */
  function ProcessItem(item: Item, ctx: Ctx): (r: Result<Item, Exc>)
    ensures r.Ok? <==> IsItemVO(item) && CollectionName(item).Some? && SchemaErrors(item, ctx) == {}
    ensures r.Ok? ==> r.value == item
    ensures r.Err? ==> r.error.DropItem?
    ensures !IsItemVO(item) ==> r == Err(DropItem(NotItemVO, {}))
    ensures IsItemVO(item) && CollectionName(item).None? ==> r == Err(DropItem(NoCollection, {}))
    ensures CollectionName(item).Some? && SchemaErrors(item, ctx) != {} ==>
      r == Err(DropItem(NotValid, SchemaErrors(item, ctx)))
  {
    if !IsItemVO(item) then Err(DropItem(NotItemVO, {}))
    else if CollectionName(item).None? then Err(DropItem(NoCollection, {}))
    else
      var reason := SchemaErrors(item, ctx);
      if reason != {} then Err(DropItem(NotValid, reason))
      else Ok(item)
  }

  /** The nested records alone never pass: they have no collection. */
  lemma NestedRecordsDropped(c: CrawledInfo, p: Price, i: Image, ctx: Ctx)
    ensures ProcessItem(CrawledInfoItem(c), ctx) == Err(DropItem(NoCollection, {}))
    ensures ProcessItem(PriceItem(p), ctx) == Err(DropItem(NoCollection, {}))
    ensures ProcessItem(ImageItem(i), ctx) == Err(DropItem(NoCollection, {}))
  {
  }

  /** A product passes exactly when the product schema accepts its
      dictionary, field by field. */
  lemma ProductPassesIff(p: Product, ctx: Ctx)
    ensures ProcessItem(ProductItem(p), ctx).Ok? <==> ProductAccepts(ProductDict(p), ctx)
  {
    ErrorsEmptyIff(ProductSchema, ProductDict(p), ctx);
    ProductValidIff(ProductDict(p), ctx);
  }

  /** So no product ever passes: the record has no `category` and its image
      carries the undeclared `others`; both are in the reason. */
  lemma ProductsDropped(p: Product, ctx: Ctx)
    ensures var r := ProcessItem(ProductItem(p), ctx);
      r.Err? && r.error.reason == NotValid && {"category", "image"} <= r.error.fields
  {
    ProductDictInvalid(p, ctx);
  }

  /** An item that passes passes again: the gate does not change it. */
  lemma PassIsStable(item: Item, ctx: Ctx)
    requires ProcessItem(item, ctx).Ok?
    ensures ProcessItem(ProcessItem(item, ctx).value, ctx) == ProcessItem(item, ctx)
  {
  }
}
