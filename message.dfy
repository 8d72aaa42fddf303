/** The notification record (`Message`) and its schema-checked `load`: a
    message type, a source and a text, all required; an optional `ps` map of
    strings to strings that defaults to {} and may be None; a non-empty list
    of strings `cc`. Other keys are dropped. */
module Messages {
  import opened Wrappers
  import opened Values
  import Schema

  datatype Message = Message(
    mtype: MessageType,
    source: string,
    text: string,
    ps: Option<map<string, string>>,
    cc: seq<string>)

  predicate StrDict(v: Dyn)
  {
    v.DDict? && forall k :: k in v.entries ==> v.entries[k].DStr?
  }

  predicate StrList(v: Dyn)
  {
    v.DList? && |v.items| > 0 && forall i :: 0 <= i < |v.items| ==> v.items[i].DStr?
  }

  /** A value `fields.Enum` accepts: the name of a member, as a string. */
  predicate EnumValue(v: Dyn)
  {
    v.DStr? && Schema.EnumByName(v.s).Some?
  }

  function EnumOf(v: Dyn): MessageType
    requires EnumValue(v)
  {
    Schema.EnumByName(v.s).value
  }

  function StrItems(items: seq<Dyn>): (r: seq<string>)
    requires forall i :: 0 <= i < |items| ==> items[i].DStr?
    ensures |r| == |items| && forall i :: 0 <= i < |items| ==> r[i] == items[i].s
  {
    seq(|items|, i requires 0 <= i < |items| => items[i].s)
  }

  /** The loaded `ps`: {} when the key is absent, None for None. */
  function PsOf(data: map<string, Dyn>): Option<map<string, string>>
    requires "ps" !in data || data["ps"] == DNone || StrDict(data["ps"])
  {
    if "ps" !in data then Some(map[])
    else if data["ps"] == DNone then None
    else Some(map k | k in data["ps"].entries :: data["ps"].entries[k].s)
  }

  /** Every field the schema declares is acceptable. */
  predicate Acceptable(data: map<string, Dyn>)
  {
    "type" in data && EnumValue(data["type"])
    && "source" in data && data["source"].DStr?
    && "text" in data && data["text"].DStr?
    && ("ps" !in data || data["ps"] == DNone || StrDict(data["ps"]))
    && "cc" in data && StrList(data["cc"])
  }

  /** Each declared field, position by position. */
  lemma FieldTable()
    ensures |Schema.Fields(Schema.MessageSchema)| == 5
    ensures Schema.Fields(Schema.MessageSchema)[0] == Schema.Req("type", Schema.EnumK)
    ensures Schema.Fields(Schema.MessageSchema)[1] == Schema.Req("source", Schema.StrK)
    ensures Schema.Fields(Schema.MessageSchema)[2] == Schema.Req("text", Schema.StrK)
    ensures Schema.Fields(Schema.MessageSchema)[3] == Schema.FieldSpec("ps", Schema.StrDictK, false, true)
    ensures Schema.Fields(Schema.MessageSchema)[4] == Schema.Req("cc", Schema.NonEmptyStrListK)
  {
  }

  /** The schema accepts exactly the acceptable dictionaries. */
  lemma ValidIffAcceptable(data: map<string, Dyn>)
    ensures Schema.Valid(Schema.MessageSchema, data, Schema.Basic) <==> Acceptable(data)
  {
    FieldTable();
  }

  /** `Message.load(data)` */
  function Load(data: map<string, Dyn>): (r: Result<Message, Exc>)
    ensures r.Ok? <==> Acceptable(data)
    ensures r.Err? ==> r.error.ValidationError? && r.error.fields != {}
    ensures r.Ok? ==> r.value == Message(EnumOf(data["type"]), data["source"].s, data["text"].s,
                                         PsOf(data), StrItems(data["cc"].items))
  {
    ValidIffAcceptable(data);
    Schema.ErrorsEmptyIff(Schema.MessageSchema, data, Schema.Basic);
    var errs := Schema.Errors(Schema.MessageSchema, data, Schema.Basic);
    if errs != {} then Err(ValidationError(errs))
    else Ok(Message(EnumOf(data["type"]), data["source"].s, data["text"].s,
                    PsOf(data), StrItems(data["cc"].items)))
  }

  /** The dictionary a message is built from. */
  function ToDict(m: Message): map<string, Dyn>
  {
    map["type" := DStr(MemberName(m.mtype)), "source" := DStr(m.source), "text" := DStr(m.text),
        "ps" := (match m.ps
                 case None => DNone
                 case Some(p) => DDict(map k | k in p :: DStr(p[k]))),
        "cc" := DList(seq(|m.cc|, i requires 0 <= i < |m.cc| => DStr(m.cc[i])))]
  }

  /** Loading the dictionary of a message with a non-empty `cc` gives it back. */
  lemma LoadToDict(m: Message)
    requires |m.cc| > 0
    ensures Load(ToDict(m)) == Ok(m)
  {
    var d := ToDict(m);
    Schema.EnumByMemberName(m.mtype);
    assert Acceptable(d);
    assert StrItems(d["cc"].items) == m.cc;
    match m.ps
    case None =>
    case Some(p) =>
      var q := PsOf(d).value;
      assert q.Keys == p.Keys;
      assert forall k :: k in p ==> q[k] == p[k];
      assert q == p;
  }

  /** A member itself, rather than its name, is refused under "type". */
  lemma MemberRejected(data: map<string, Dyn>)
    requires "type" in data && data["type"].DEnum?
    ensures Load(data).Err? && "type" in Load(data).error.fields
  {
    FieldTable();
    Schema.FailingFieldIsError(Schema.MessageSchema, 0, data, Schema.Basic);
  }

  /** Keys the schema does not declare are ignored. */
  lemma LoadIgnoresUnknown(data: map<string, Dyn>, key: string, v: Dyn)
    requires key !in Schema.Names(Schema.MessageSchema)
    ensures Load(data[key := v]).Ok? <==> Load(data).Ok?
    ensures Load(data).Ok? ==> Load(data[key := v]) == Load(data)
  {
    FieldTable();
    assert "type" in Schema.Names(Schema.MessageSchema) by { assert Schema.Fields(Schema.MessageSchema)[0].name == "type"; }
    assert "source" in Schema.Names(Schema.MessageSchema) by { assert Schema.Fields(Schema.MessageSchema)[1].name == "source"; }
    assert "text" in Schema.Names(Schema.MessageSchema) by { assert Schema.Fields(Schema.MessageSchema)[2].name == "text"; }
    assert "ps" in Schema.Names(Schema.MessageSchema) by { assert Schema.Fields(Schema.MessageSchema)[3].name == "ps"; }
    assert "cc" in Schema.Names(Schema.MessageSchema) by { assert Schema.Fields(Schema.MessageSchema)[4].name == "cc"; }
  }
}
