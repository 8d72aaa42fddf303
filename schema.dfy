/** The marshmallow schemas of the crawler, written as the declarative field
    tables they are in the source, together with the one validation rule
    marshmallow applies to every table: a required field must be present, a
    present `None` needs `allow_none`, a present value must have the field's
    type, nested values must satisfy their own schema, and keys the table does
    not declare are errors unless the schema's `Meta.unknown` is EXCLUDE. */
module Schema {
  import opened Wrappers
  import opened Values

  datatype SchemaId =
    | CrawledInfoSchema | PriceSchema | ImageSchema
    | ProductSchema | BrandEventSchema
    | LogResultSchema | MessageSchema

  datatype Kind =
    | StrK                        // fields.Str
    | UrlK                        // fields.URL
    | IntK                        // fields.Integer
    | FloatK                      // fields.Float
    | IntInK(allowed: seq<int>)   // fields.Integer(validate=lambda x: x in [...])
    | EnumK                       // fields.Enum(enum=MessageTypeEnum)
    | StrDictK                    // fields.Dict(keys=fields.Str(), values=fields.Str())
    | NonEmptyStrListK            // fields.List(fields.Str(), validate=lambda x: len(x) > 0)
    | NestedK(inner: SchemaId)    // fields.Nested(<schema>)
    | EventListK                  // fields.Nested(EventSchema, many=True)

  datatype FieldSpec = FieldSpec(name: string, kind: Kind, required: bool, allowNone: bool)

  datatype UnknownPolicy = Raise | Exclude

  /** What the model leaves abstract: marshmallow's URL grammar, and the
      error keys of `EventSchema().validate`, a schema the item modules import
      but no file of this model defines. */
  datatype Ctx = Ctx(isUrl: string -> bool, eventErrors: map<string, Dyn> -> set<string>)

  /** The context for schemas that declare no URL and no event field, which
      never consult it. */
  const Basic: Ctx := Ctx(_ => true, _ => {})

  function Req(name: string, kind: Kind): FieldSpec { FieldSpec(name, kind, true, false) }

  /** The declared fields of each schema, in declaration order. */
  function Fields(s: SchemaId): seq<FieldSpec>
  {
    match s
    case CrawledInfoSchema =>
      [Req("spider", StrK), Req("id", StrK), Req("url", UrlK)]
    case PriceSchema =>
      [Req("value", FloatK), Req("currency", IntInK([1]))]
    case ImageSchema =>
      // `others` is only an annotation in the class body, so it is not a field.
      [Req("thumb", UrlK)]
    case ProductSchema =>
      [ Req("crawled_info", NestedK(CrawledInfoSchema)), Req("category", IntK),
        Req("name", StrK), Req("price", NestedK(PriceSchema)),
        Req("image", NestedK(ImageSchema)), Req("events", EventListK),
        FieldSpec("description", StrK, false, true),
        Req("created_at", IntK), Req("updated_at", IntK) ]
    case BrandEventSchema =>
      [ Req("crawled_info", NestedK(CrawledInfoSchema)), Req("created_at", IntK),
        Req("updated_at", IntK), Req("start_at", IntK), Req("end_at", IntK),
        Req("name", StrK), FieldSpec("description", StrK, true, true),
        Req("image", NestedK(ImageSchema)) ]
    case LogResultSchema =>
      [Req("collected_count", IntK), Req("error_count", IntK), Req("elapsed_sec", IntK)]
    case MessageSchema =>
      [ Req("type", EnumK), Req("source", StrK), Req("text", StrK),
        FieldSpec("ps", StrDictK, false, true), Req("cc", NonEmptyStrListK) ]
  }

  /** marshmallow 3 raises on undeclared keys unless `Meta.unknown = EXCLUDE`. */
  function Policy(s: SchemaId): UnknownPolicy
  {
    if s == LogResultSchema || s == MessageSchema then Exclude else Raise
  }

  /** Nesting depth of a schema; a nested schema is always shallower. */
  function Depth(s: SchemaId): nat
  {
    if s == ProductSchema || s == BrandEventSchema then 1 else 0
  }

  function Names(s: SchemaId): set<string>
  {
    set i | 0 <= i < |Fields(s)| :: Fields(s)[i].name
  }

  /** The names of a message type as `fields.Enum` reads them from a string. */
  function EnumByName(name: string): Option<MessageType>
  {
    match name
    case "SUCCESS" => Some(SUCCESS)
    case "ERROR" => Some(ERROR)
    case "DEBUG" => Some(DEBUG)
    case "TEST" => Some(TEST)
    case _ => None
  }

  /** Every member's name is read back as that member. */
  lemma EnumByMemberName(t: MessageType)
    ensures EnumByName(MemberName(t)) == Some(t)
  {
  }

  /** Whether a present, non-None value is acceptable for a field of this kind. */
  predicate KindOk(owner: SchemaId, k: Kind, v: Dyn, ctx: Ctx)
    decreases Depth(owner), 0
  {
    match k
    case StrK => v.DStr?
    case UrlK => v.DStr? && ctx.isUrl(v.s)
    // marshmallow's Integer and Float take any number (not a bool); the
    // coercion of numeric strings is not modelled.
    case IntK => v.DInt? || v.DFloat?
    case FloatK => v.DInt? || v.DFloat?
    // A float is taken as `int()` of it before the allowed values are checked.
    case IntInK(allowed) => (v.DInt? && v.i in allowed) || (v.DFloat? && Trunc(v.r) in allowed)
    // fields.Enum reads a member by name through a String field, which
    // refuses anything that is not a str, a member included.
    case EnumK => v.DStr? && EnumByName(v.s).Some?
    case StrDictK => v.DDict? && forall key :: key in v.entries ==> v.entries[key].DStr?
    case NonEmptyStrListK =>
      v.DList? && |v.items| > 0 && forall i :: 0 <= i < |v.items| ==> v.items[i].DStr?
    case NestedK(inner) =>
      v.DDict? && Depth(inner) < Depth(owner) && Valid(inner, v.entries, ctx)
    case EventListK =>
      v.DList?
      && forall i :: 0 <= i < |v.items| ==> v.items[i].DDict? && ctx.eventErrors(v.items[i].entries) == {}
  }

  predicate FieldOk(owner: SchemaId, f: FieldSpec, d: map<string, Dyn>, ctx: Ctx)
    decreases Depth(owner), 1
  {
    if f.name !in d then !f.required
    else if d[f.name] == DNone then f.allowNone
    else KindOk(owner, f.kind, d[f.name], ctx)
  }

  /** Every declared field of `s` is acceptable in `d`. */
  predicate FieldsOk(s: SchemaId, d: map<string, Dyn>, ctx: Ctx)
    decreases Depth(s), 2
  {
    forall i :: 0 <= i < |Fields(s)| ==> FieldOk(s, Fields(s)[i], d, ctx)
  }

  /** Under RAISE, every key of `d` is declared. */
  predicate NoUnknown(s: SchemaId, d: map<string, Dyn>)
  {
    Policy(s) == Raise ==> d.Keys <= Names(s)
  }

  /** A schema accepts a dictionary exactly when every declared field is
      acceptable and, under RAISE, no key is undeclared. */
  predicate Valid(s: SchemaId, d: map<string, Dyn>, ctx: Ctx)
    decreases Depth(s), 3
  {
    FieldsOk(s, d, ctx) && NoUnknown(s, d)
  }

  /** `schema.validate(d)`: the keys of the error dictionary it returns, one
      per failing declared field and, under RAISE, one per undeclared key. */
  function Errors(s: SchemaId, d: map<string, Dyn>, ctx: Ctx): set<string>
  {
    (set i | 0 <= i < |Fields(s)| && !FieldOk(s, Fields(s)[i], d, ctx) :: Fields(s)[i].name)
    + (if Policy(s) == Raise then d.Keys - Names(s) else {})
  }

  /** `validate` reports no error exactly on the dictionaries the schema
      accepts. */
  lemma ErrorsEmptyIff(s: SchemaId, d: map<string, Dyn>, ctx: Ctx)
    ensures Errors(s, d, ctx) == {} <==> Valid(s, d, ctx)
  {
    if !FieldsOk(s, d, ctx) {
      var i :| 0 <= i < |Fields(s)| && !FieldOk(s, Fields(s)[i], d, ctx);
      FailingFieldIsError(s, i, d, ctx);
    }
    if !NoUnknown(s, d) {
      var key :| key in d.Keys && key !in Names(s);
      UnknownKeyIsError(s, key, d, ctx);
    }
    if Errors(s, d, ctx) != {} {
      var e :| e in Errors(s, d, ctx);
      ErrorIsFailure(s, d, ctx, e);
    }
  }

  /** Every reported key is a failing declared field or, under RAISE, an
      undeclared key. */
  lemma ErrorIsFailure(s: SchemaId, d: map<string, Dyn>, ctx: Ctx, e: string)
    requires e in Errors(s, d, ctx)
    ensures !Valid(s, d, ctx)
  {
    if e !in d.Keys - Names(s) || Policy(s) == Exclude {
      var i :| 0 <= i < |Fields(s)| && !FieldOk(s, Fields(s)[i], d, ctx) && Fields(s)[i].name == e;
    }
  }

  /** A declared field that is not acceptable is reported under its name. */
  lemma FailingFieldIsError(s: SchemaId, i: nat, d: map<string, Dyn>, ctx: Ctx)
    requires i < |Fields(s)| && !FieldOk(s, Fields(s)[i], d, ctx)
    ensures Fields(s)[i].name in Errors(s, d, ctx)
  {
  }

  /** Under RAISE an undeclared key is reported too. */
  lemma UnknownKeyIsError(s: SchemaId, key: string, d: map<string, Dyn>, ctx: Ctx)
    requires Policy(s) == Raise && key in d && key !in Names(s)
    ensures key in Errors(s, d, ctx)
  {
  }
}
