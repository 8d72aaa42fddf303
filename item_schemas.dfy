/** What the item schemas (`CrawledInfoSchema`, `PriceSchema`,
    `ImageSchema`, `ProductSchema`, `BrandEventSchema`) accept, field by
    field, and what they make of the dictionaries of the item records. All
    five raise on undeclared keys. */
module ItemSchemas {
  import opened Wrappers
  import opened Values
  import opened Schema
  import opened Items

  predicate Number(v: Dyn) { v.DInt? || v.DFloat? }

  predicate StrField(d: map<string, Dyn>, key: string) { key in d && d[key].DStr? }

  predicate UrlField(d: map<string, Dyn>, key: string, ctx: Ctx)
  {
    key in d && d[key].DStr? && ctx.isUrl(d[key].s)
  }

  predicate NumberField(d: map<string, Dyn>, key: string) { key in d && Number(d[key]) }

  predicate NestedField(d: map<string, Dyn>, key: string, s: SchemaId, ctx: Ctx)
  {
    key in d && d[key].DDict? && Valid(s, d[key].entries, ctx)
  }

  /** `events` is a list of dictionaries the event schema accepts. */
  predicate EventList(d: map<string, Dyn>, ctx: Ctx)
  {
    "events" in d && d["events"].DList?
    && forall i :: 0 <= i < |d["events"].items| ==>
         d["events"].items[i].DDict? && ctx.eventErrors(d["events"].items[i].entries) == {}
  }

  // ----- the field tables, position by position -----

  lemma CrawledInfoFields()
    ensures Fields(CrawledInfoSchema) == [Req("spider", StrK), Req("id", StrK), Req("url", UrlK)]
    ensures Names(CrawledInfoSchema) == {"spider", "id", "url"}
  {
    var fs := Fields(CrawledInfoSchema);
    assert fs[0].name == "spider" && fs[1].name == "id" && fs[2].name == "url";
  }

  lemma PriceFields()
    ensures Fields(PriceSchema) == [Req("value", FloatK), Req("currency", IntInK([1]))]
    ensures Names(PriceSchema) == {"value", "currency"}
  {
    var fs := Fields(PriceSchema);
    assert fs[0].name == "value" && fs[1].name == "currency";
  }

  lemma ImageFields()
    ensures Fields(ImageSchema) == [Req("thumb", UrlK)]
    ensures Names(ImageSchema) == {"thumb"}
  {
    var fs := Fields(ImageSchema);
    assert fs[0].name == "thumb";
  }

  const ProductNameList: seq<string> :=
    ["crawled_info", "category", "name", "price", "image", "events", "description",
     "created_at", "updated_at"]

  const BrandEventNameList: seq<string> :=
    ["crawled_info", "created_at", "updated_at", "start_at", "end_at", "name", "description", "image"]

  /** The declared names of a schema, in declaration order. */
  lemma NamesInOrder(s: SchemaId, names: seq<string>)
    requires |names| == |Fields(s)|
    requires forall i :: 0 <= i < |names| ==> Fields(s)[i].name == names[i]
    ensures forall key :: key in Names(s) <==> key in names
  {
    forall key | key in names ensures key in Names(s) {
      var i :| 0 <= i < |names| && names[i] == key;
      assert Fields(s)[i].name == key;
    }
  }

  lemma ProductFields()
    ensures |Fields(ProductSchema)| == 9
    ensures Fields(ProductSchema)[0] == Req("crawled_info", NestedK(CrawledInfoSchema))
    ensures Fields(ProductSchema)[1] == Req("category", IntK)
    ensures Fields(ProductSchema)[2] == Req("name", StrK)
    ensures Fields(ProductSchema)[3] == Req("price", NestedK(PriceSchema))
    ensures Fields(ProductSchema)[4] == Req("image", NestedK(ImageSchema))
    ensures Fields(ProductSchema)[5] == Req("events", EventListK)
    ensures Fields(ProductSchema)[6] == FieldSpec("description", StrK, false, true)
    ensures Fields(ProductSchema)[7] == Req("created_at", IntK)
    ensures Fields(ProductSchema)[8] == Req("updated_at", IntK)
    ensures forall key :: key in Names(ProductSchema) <==> key in ProductNameList
  {
    NamesInOrder(ProductSchema, ProductNameList);
  }

  lemma BrandEventFields()
    ensures |Fields(BrandEventSchema)| == 8
    ensures Fields(BrandEventSchema)[0] == Req("crawled_info", NestedK(CrawledInfoSchema))
    ensures Fields(BrandEventSchema)[1] == Req("created_at", IntK)
    ensures Fields(BrandEventSchema)[2] == Req("updated_at", IntK)
    ensures Fields(BrandEventSchema)[3] == Req("start_at", IntK)
    ensures Fields(BrandEventSchema)[4] == Req("end_at", IntK)
    ensures Fields(BrandEventSchema)[5] == Req("name", StrK)
    ensures Fields(BrandEventSchema)[6] == FieldSpec("description", StrK, true, true)
    ensures Fields(BrandEventSchema)[7] == Req("image", NestedK(ImageSchema))
    ensures forall key :: key in Names(BrandEventSchema) <==> key in BrandEventNameList
  {
    NamesInOrder(BrandEventSchema, BrandEventNameList);
  }

  // ----- what each schema accepts -----

  /** Crawled info needs a string spider, a string id and a URL, nothing else. */
  lemma CrawledInfoValidIff(d: map<string, Dyn>, ctx: Ctx)
    ensures Valid(CrawledInfoSchema, d, ctx) <==>
      StrField(d, "spider") && StrField(d, "id") && UrlField(d, "url", ctx)
      && d.Keys <= {"spider", "id", "url"}
  {
    CrawledInfoFields();
  }

  /** A price needs a number and the currency 1, nothing else; the
      non-strict Integer field takes a float whose `int()` is 1 as well. */
  lemma PriceValidIff(d: map<string, Dyn>, ctx: Ctx)
    ensures Valid(PriceSchema, d, ctx) <==>
      NumberField(d, "value") && "currency" in d
      && (d["currency"] == DInt(1) || (d["currency"].DFloat? && 1.0 <= d["currency"].r < 2.0))
      && d.Keys <= {"value", "currency"}
  {
    PriceFields();
    if "currency" in d && d["currency"].DFloat? {
      var r := d["currency"].r;
      assert Trunc(r) == 1 <==> 1.0 <= r < 2.0;
    }
  }

  /** An image needs a URL thumb (so not None) and nothing else: `others` is
      not a declared field. */
  lemma ImageValidIff(d: map<string, Dyn>, ctx: Ctx)
    ensures Valid(ImageSchema, d, ctx) <==> UrlField(d, "thumb", ctx) && d.Keys <= {"thumb"}
  {
    ImageFields();
  }

  /** The whole product rule: every field but the description is required,
      the nested records must satisfy their own schemas, `events` is a list
      of event dictionaries, the description may be absent or None, and no
      other key may appear. */
  predicate ProductAccepts(d: map<string, Dyn>, ctx: Ctx)
  {
    NestedField(d, "crawled_info", CrawledInfoSchema, ctx)
    && NumberField(d, "category")
    && StrField(d, "name")
    && NestedField(d, "price", PriceSchema, ctx)
    && NestedField(d, "image", ImageSchema, ctx)
    && EventList(d, ctx)
    && ("description" !in d || d["description"] == DNone || d["description"].DStr?)
    && NumberField(d, "created_at") && NumberField(d, "updated_at")
    && forall key :: key in d ==> key in ProductNameList
  }

  lemma ProductValidIff(d: map<string, Dyn>, ctx: Ctx)
    ensures Valid(ProductSchema, d, ctx) <==> ProductAccepts(d, ctx)
  {
    if Valid(ProductSchema, d, ctx) {
      ProductValidAccepts(d, ctx);
    }
    if ProductAccepts(d, ctx) {
      ProductAcceptsValid(d, ctx);
    }
  }

  lemma ProductValidAccepts(d: map<string, Dyn>, ctx: Ctx)
    requires Valid(ProductSchema, d, ctx)
    ensures ProductAccepts(d, ctx)
  {
    ProductCrawledInfoField(d, ctx);
    ProductCategoryField(d, ctx);
    ProductNameField(d, ctx);
    ProductPriceField(d, ctx);
    ProductImageField(d, ctx);
    ProductEventsField(d, ctx);
    ProductDescriptionField(d, ctx);
    ProductCreatedAtField(d, ctx);
    ProductUpdatedAtField(d, ctx);
    ProductKeys(d);
  }

  lemma ProductAcceptsValid(d: map<string, Dyn>, ctx: Ctx)
    requires ProductAccepts(d, ctx)
    ensures Valid(ProductSchema, d, ctx)
  {
    ProductKeys(d);
    forall i | 0 <= i < |Fields(ProductSchema)| ensures FieldOk(ProductSchema, Fields(ProductSchema)[i], d, ctx) {
      ProductAcceptsFieldAt(d, ctx, i);
    }
  }

  lemma ProductAcceptsFieldAt(d: map<string, Dyn>, ctx: Ctx, i: nat)
    requires ProductAccepts(d, ctx) && i < |Fields(ProductSchema)|
    ensures FieldOk(ProductSchema, Fields(ProductSchema)[i], d, ctx)
  {
    if i == 0 { ProductCrawledInfoField(d, ctx); }
    else if i == 1 { ProductCategoryField(d, ctx); }
    else if i == 2 { ProductNameField(d, ctx); }
    else if i == 3 { ProductPriceField(d, ctx); }
    else if i == 4 { ProductImageField(d, ctx); }
    else if i == 5 { ProductEventsField(d, ctx); }
    else if i == 6 { ProductDescriptionField(d, ctx); }
    else if i == 7 { ProductCreatedAtField(d, ctx); }
    else { ProductUpdatedAtField(d, ctx); }
  }

  /** The schema has 9 fields and RAISE admits only their names. */
  lemma ProductKeys(d: map<string, Dyn>)
    ensures |Fields(ProductSchema)| == 9
    ensures NoUnknown(ProductSchema, d) <==> forall key :: key in d ==> key in ProductNameList
  {
    ProductFields();
  }

  // Each declared field of `ProductSchema` against its rule.

  lemma ProductCrawledInfoField(d: map<string, Dyn>, ctx: Ctx)
    ensures FieldOk(ProductSchema, Fields(ProductSchema)[0], d, ctx) <==> NestedField(d, "crawled_info", CrawledInfoSchema, ctx)
  {
    ProductFields();
  }

  lemma ProductCategoryField(d: map<string, Dyn>, ctx: Ctx)
    ensures FieldOk(ProductSchema, Fields(ProductSchema)[1], d, ctx) <==> NumberField(d, "category")
  {
    ProductFields();
  }

  lemma ProductNameField(d: map<string, Dyn>, ctx: Ctx)
    ensures FieldOk(ProductSchema, Fields(ProductSchema)[2], d, ctx) <==> StrField(d, "name")
  {
    ProductFields();
  }

  lemma ProductPriceField(d: map<string, Dyn>, ctx: Ctx)
    ensures FieldOk(ProductSchema, Fields(ProductSchema)[3], d, ctx) <==> NestedField(d, "price", PriceSchema, ctx)
  {
    ProductFields();
  }

  lemma ProductImageField(d: map<string, Dyn>, ctx: Ctx)
    ensures FieldOk(ProductSchema, Fields(ProductSchema)[4], d, ctx) <==> NestedField(d, "image", ImageSchema, ctx)
  {
    ProductFields();
  }

  lemma ProductEventsField(d: map<string, Dyn>, ctx: Ctx)
    ensures FieldOk(ProductSchema, Fields(ProductSchema)[5], d, ctx) <==> EventList(d, ctx)
  {
    ProductFields();
  }

  lemma ProductDescriptionField(d: map<string, Dyn>, ctx: Ctx)
    ensures FieldOk(ProductSchema, Fields(ProductSchema)[6], d, ctx) <==> ("description" !in d || d["description"] == DNone || d["description"].DStr?)
  {
    ProductFields();
  }

  lemma ProductCreatedAtField(d: map<string, Dyn>, ctx: Ctx)
    ensures FieldOk(ProductSchema, Fields(ProductSchema)[7], d, ctx) <==> NumberField(d, "created_at")
  {
    ProductFields();
  }

  lemma ProductUpdatedAtField(d: map<string, Dyn>, ctx: Ctx)
    ensures FieldOk(ProductSchema, Fields(ProductSchema)[8], d, ctx) <==> NumberField(d, "updated_at")
  {
    ProductFields();
  }

  /** The brand-event rule: all eight fields required, the description
      possibly None, and no other key. */
  predicate BrandEventAccepts(d: map<string, Dyn>, ctx: Ctx)
  {
    NestedField(d, "crawled_info", CrawledInfoSchema, ctx)
    && NumberField(d, "created_at") && NumberField(d, "updated_at")
    && NumberField(d, "start_at") && NumberField(d, "end_at")
    && StrField(d, "name")
    && "description" in d && (d["description"] == DNone || d["description"].DStr?)
    && NestedField(d, "image", ImageSchema, ctx)
    && forall key :: key in d ==> key in BrandEventNameList
  }

  lemma BrandEventValidIff(d: map<string, Dyn>, ctx: Ctx)
    ensures Valid(BrandEventSchema, d, ctx) <==> BrandEventAccepts(d, ctx)
  {
    if Valid(BrandEventSchema, d, ctx) {
      BrandEventValidAccepts(d, ctx);
    }
    if BrandEventAccepts(d, ctx) {
      BrandEventAcceptsValid(d, ctx);
    }
  }

  lemma BrandEventValidAccepts(d: map<string, Dyn>, ctx: Ctx)
    requires Valid(BrandEventSchema, d, ctx)
    ensures BrandEventAccepts(d, ctx)
  {
    BrandEventCrawledInfoField(d, ctx);
    BrandEventCreatedAtField(d, ctx);
    BrandEventUpdatedAtField(d, ctx);
    BrandEventStartAtField(d, ctx);
    BrandEventEndAtField(d, ctx);
    BrandEventNameField(d, ctx);
    BrandEventDescriptionField(d, ctx);
    BrandEventImageField(d, ctx);
    BrandEventKeys(d);
  }

  lemma BrandEventAcceptsValid(d: map<string, Dyn>, ctx: Ctx)
    requires BrandEventAccepts(d, ctx)
    ensures Valid(BrandEventSchema, d, ctx)
  {
    BrandEventKeys(d);
    forall i | 0 <= i < |Fields(BrandEventSchema)| ensures FieldOk(BrandEventSchema, Fields(BrandEventSchema)[i], d, ctx) {
      BrandEventAcceptsFieldAt(d, ctx, i);
    }
  }

  lemma BrandEventAcceptsFieldAt(d: map<string, Dyn>, ctx: Ctx, i: nat)
    requires BrandEventAccepts(d, ctx) && i < |Fields(BrandEventSchema)|
    ensures FieldOk(BrandEventSchema, Fields(BrandEventSchema)[i], d, ctx)
  {
    if i == 0 { BrandEventCrawledInfoField(d, ctx); }
    else if i == 1 { BrandEventCreatedAtField(d, ctx); }
    else if i == 2 { BrandEventUpdatedAtField(d, ctx); }
    else if i == 3 { BrandEventStartAtField(d, ctx); }
    else if i == 4 { BrandEventEndAtField(d, ctx); }
    else if i == 5 { BrandEventNameField(d, ctx); }
    else if i == 6 { BrandEventDescriptionField(d, ctx); }
    else { BrandEventImageField(d, ctx); }
  }

  /** The schema has 8 fields and RAISE admits only their names. */
  lemma BrandEventKeys(d: map<string, Dyn>)
    ensures |Fields(BrandEventSchema)| == 8
    ensures NoUnknown(BrandEventSchema, d) <==> forall key :: key in d ==> key in BrandEventNameList
  {
    BrandEventFields();
  }

  // Each declared field of `BrandEventSchema` against its rule.

  lemma BrandEventCrawledInfoField(d: map<string, Dyn>, ctx: Ctx)
    ensures FieldOk(BrandEventSchema, Fields(BrandEventSchema)[0], d, ctx) <==> NestedField(d, "crawled_info", CrawledInfoSchema, ctx)
  {
    BrandEventFields();
  }

  lemma BrandEventCreatedAtField(d: map<string, Dyn>, ctx: Ctx)
    ensures FieldOk(BrandEventSchema, Fields(BrandEventSchema)[1], d, ctx) <==> NumberField(d, "created_at")
  {
    BrandEventFields();
  }

  lemma BrandEventUpdatedAtField(d: map<string, Dyn>, ctx: Ctx)
    ensures FieldOk(BrandEventSchema, Fields(BrandEventSchema)[2], d, ctx) <==> NumberField(d, "updated_at")
  {
    BrandEventFields();
  }

  lemma BrandEventStartAtField(d: map<string, Dyn>, ctx: Ctx)
    ensures FieldOk(BrandEventSchema, Fields(BrandEventSchema)[3], d, ctx) <==> NumberField(d, "start_at")
  {
    BrandEventFields();
  }

  lemma BrandEventEndAtField(d: map<string, Dyn>, ctx: Ctx)
    ensures FieldOk(BrandEventSchema, Fields(BrandEventSchema)[4], d, ctx) <==> NumberField(d, "end_at")
  {
    BrandEventFields();
  }

  lemma BrandEventNameField(d: map<string, Dyn>, ctx: Ctx)
    ensures FieldOk(BrandEventSchema, Fields(BrandEventSchema)[5], d, ctx) <==> StrField(d, "name")
  {
    BrandEventFields();
  }

  lemma BrandEventDescriptionField(d: map<string, Dyn>, ctx: Ctx)
    ensures FieldOk(BrandEventSchema, Fields(BrandEventSchema)[6], d, ctx) <==> ("description" in d && (d["description"] == DNone || d["description"].DStr?))
  {
    BrandEventFields();
  }

  lemma BrandEventImageField(d: map<string, Dyn>, ctx: Ctx)
    ensures FieldOk(BrandEventSchema, Fields(BrandEventSchema)[7], d, ctx) <==> NestedField(d, "image", ImageSchema, ctx)
  {
    BrandEventFields();
  }

  // ----- the records' own dictionaries -----

  /** The dictionary of a crawled-info record is valid exactly when its url
      is a URL. */
  lemma CrawledInfoDictValid(c: CrawledInfo, ctx: Ctx)
    ensures Valid(CrawledInfoSchema, CrawledInfoDict(c), ctx) <==> ctx.isUrl(c.url)
  {
    CrawledInfoValidIff(CrawledInfoDict(c), ctx);
  }

  /** The dictionary of a price is valid exactly when its currency is 1. */
  lemma PriceDictValid(p: Price, ctx: Ctx)
    ensures Valid(PriceSchema, PriceDict(p), ctx) <==> p.currency == 1
  {
    PriceValidIff(PriceDict(p), ctx);
  }

  /** The dictionary of an image always carries `others`, which the schema
      does not declare: no image record is ever valid. */
  lemma ImageDictInvalid(i: Image, ctx: Ctx)
    ensures "others" in Errors(ImageSchema, ImageDict(i), ctx)
    ensures !Valid(ImageSchema, ImageDict(i), ctx)
  {
    ImageFields();
    UnknownKeyIsError(ImageSchema, "others", ImageDict(i), ctx);
    ErrorsEmptyIff(ImageSchema, ImageDict(i), ctx);
  }

  /** No product record is valid: its dictionary has no `category`, and its
      image is invalid. */
  lemma ProductDictInvalid(p: Product, ctx: Ctx)
    ensures "category" in Errors(ProductSchema, ProductDict(p), ctx)
    ensures "image" in Errors(ProductSchema, ProductDict(p), ctx)
    ensures !Valid(ProductSchema, ProductDict(p), ctx)
  {
    var d := ProductDict(p);
    Items.ProductDictKeys(p);
    ImageDictInvalid(p.image, ctx);
    ProductWithoutCategory(d, ctx);
    ProductWithBadImage(d, ImageDict(p.image), ctx);
    ErrorsEmptyIff(ProductSchema, d, ctx);
  }

  /** The dictionary of an event record does not fit the brand-event
      schema: it has no `start_at` or `end_at`, it has an undeclared
      `written_at`, and its image is invalid. */
  lemma EventDictNotBrandEvent(e: Event, ctx: Ctx)
    ensures {"start_at", "end_at", "written_at", "image"} <= Errors(BrandEventSchema, EventDict(e), ctx)
  {
    var d := EventDict(e);
    Items.EventDictKeys(e);
    ImageDictInvalid(e.image, ctx);
    BrandEventOfEventDict(d, ImageDict(e.image), ctx);
  }

  lemma ProductWithoutCategory(d: map<string, Dyn>, ctx: Ctx)
    requires "category" !in d
    ensures "category" in Errors(ProductSchema, d, ctx)
  {
    ProductFields();
    FailingFieldIsError(ProductSchema, 1, d, ctx);
  }

  lemma ProductWithBadImage(d: map<string, Dyn>, m: map<string, Dyn>, ctx: Ctx)
    requires "image" in d && d["image"] == DDict(m) && !Valid(ImageSchema, m, ctx)
    ensures "image" in Errors(ProductSchema, d, ctx)
  {
    ProductFields();
    FailingFieldIsError(ProductSchema, 4, d, ctx);
  }

  lemma BrandEventOfEventDict(d: map<string, Dyn>, m: map<string, Dyn>, ctx: Ctx)
    requires "start_at" !in d && "end_at" !in d && "written_at" in d
    requires "image" in d && d["image"] == DDict(m) && !Valid(ImageSchema, m, ctx)
    ensures {"start_at", "end_at", "written_at", "image"} <= Errors(BrandEventSchema, d, ctx)
  {
    BrandEventFields();
    FailingFieldIsError(BrandEventSchema, 3, d, ctx);
    FailingFieldIsError(BrandEventSchema, 4, d, ctx);
    assert "written_at" !in BrandEventNameList;
    UnknownKeyIsError(BrandEventSchema, "written_at", d, ctx);
    FailingFieldIsError(BrandEventSchema, 7, d, ctx);
  }
}
