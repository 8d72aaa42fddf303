/** The Slack notification (`SlackSender`): the message is built from the
    message type, the converter's text, a fixed source and a fixed recipient,
    with the job table as `ps`, and loaded through the message schema; `send`
    builds it and returns nothing. */
module Slack {
  import opened Wrappers
  import opened Values
  import opened LogResults
  import Schema
  import TypeToMessage
  import opened Messages

  const Source: string := "pyoniverse-crawler"
  const Cc: seq<string> := ["윤영로"]

  /** The dictionary `_convert` hands to `Message.load`, with `ty` under
      "type". */
  function MessageDict(ty: Dyn, text: string, ps: Dyn): map<string, Dyn>
  {
    map["type" := ty, "source" := DStr(Source), "text" := DStr(text), "ps" := ps,
        "cc" := DList([DStr(Cc[0])])]
  }

  /** `_convert` as written: "type" is the member itself, and `ps` is the job
      table itself, whose values are `LogResult` objects rather than strings. */
  function ConvertAsWritten(t: MessageType, data: map<string, LogResult>): Result<Message, Exc>
  {
    var text :- TypeToMessage.Convert(DEnum(t), data);
    Messages.Load(MessageDict(DEnum(t), text, DDict(map k | k in data :: DObject(AsDict(data[k])))))
  }

  /** As written, building the message never succeeds: without a summary the
      converter raises, and with one the schema rejects both the member under
      "type" (it wants a name) and `ps` (the table is not a map of strings). */
  lemma ConvertAsWrittenAlwaysFails(t: MessageType, data: map<string, LogResult>)
    ensures ConvertAsWritten(t, data).Err?
    ensures "summary" !in data ==> ConvertAsWritten(t, data) == Err(KeyError("summary"))
    ensures "summary" in data ==>
      ConvertAsWritten(t, data).error.ValidationError?
      && "ps" in ConvertAsWritten(t, data).error.fields
      && "type" in ConvertAsWritten(t, data).error.fields
  {
    if "summary" in data {
      ObjectsRejected(t, TypeToMessage.Convert(DEnum(t), data).value, data);
    }
  }

  /** A `ps` holding a record where a string belongs is reported. */
  lemma ObjectsRejected(t: MessageType, text: string, data: map<string, LogResult>)
    requires "summary" in data
    ensures var d := MessageDict(DEnum(t), text, DDict(map k | k in data :: DObject(AsDict(data[k]))));
      Messages.Load(d).Err? && Messages.Load(d).error.ValidationError?
      && "ps" in Messages.Load(d).error.fields && "type" in Messages.Load(d).error.fields
  {
    var d := MessageDict(DEnum(t), text, DDict(map k | k in data :: DObject(AsDict(data[k]))));
    assert !StrDict(d["ps"]) by {
      assert d["ps"].entries["summary"].DObject?;
    }
    Messages.FieldTable();
    Schema.FailingFieldIsError(Schema.MessageSchema, 3, d, Schema.Basic);
    Messages.MemberRejected(d);
  }

  /** The `ps` the tests expect: every job but the summary, each rendered as
      `str(asdict(v))`. */
  function JobsText(data: map<string, LogResult>): map<string, string>
  {
    map k | k in data && k != "summary" :: DictRepr(data[k])
  }

  /** `_convert` with the message the tests expect to load: the member's name
      under "type" and the jobs as text under `ps`; the corrected half of the
      finding about `_convert`. */
  function Convert(t: MessageType, data: map<string, LogResult>): Result<Message, Exc>
  {
    var text :- TypeToMessage.Convert(DEnum(t), data);
    Messages.Load(MessageDict(DStr(MemberName(t)), text, DDict(map k | k in JobsText(data) :: DStr(JobsText(data)[k]))))
  }

  /** The corrected message: its type, the converter's text, the fixed source
      and recipient, and the other jobs as text; only a missing summary fails. */
  lemma ConvertContents(t: MessageType, data: map<string, LogResult>)
    ensures "summary" !in data ==> Convert(t, data) == Err(KeyError("summary"))
    ensures "summary" in data ==>
      Convert(t, data)
      == Ok(Message(t, Source, TypeToMessage.Convert(DEnum(t), data).value, Some(JobsText(data)), Cc))
  {
    if "summary" in data {
      LoadMessageDict(t, TypeToMessage.Convert(DEnum(t), data).value, JobsText(data));
    }
  }

  /** A message dictionary with a member's name under "type" and a `ps` of
      strings to strings loads as the message with exactly those parts. */
  lemma LoadMessageDict(t: MessageType, text: string, p: map<string, string>)
    ensures Messages.Load(MessageDict(DStr(MemberName(t)), text, DDict(map k | k in p :: DStr(p[k]))))
         == Ok(Message(t, Source, text, Some(p), Cc))
  {
    var d := MessageDict(DStr(MemberName(t)), text, DDict(map k | k in p :: DStr(p[k])));
    Schema.EnumByMemberName(t);
    assert Acceptable(d);
    var q := PsOf(d).value;
    assert q.Keys == p.Keys;
    assert q == p;
    assert StrItems(d["cc"].items) == Cc;
  }

  /** `send`: build the message as written and return None; the exception
      from building it propagates. */
  function Send(t: MessageType, data: map<string, LogResult>): (r: Result<(), Exc>)
  {
    var _ :- ConvertAsWritten(t, data);
    Ok(())
  }

  /** As written, `send` never returns: without a summary it raises the
      converter's KeyError, and with one the schema's ValidationError naming
      "type" and `ps`. */
  lemma SendRaises(t: MessageType, data: map<string, LogResult>)
    ensures Send(t, data).Err?
    ensures "summary" !in data ==> Send(t, data) == Err(KeyError("summary"))
    ensures "summary" in data ==>
      Send(t, data).error.ValidationError? && "ps" in Send(t, data).error.fields
      && "type" in Send(t, data).error.fields
  {
    ConvertAsWrittenAlwaysFails(t, data);
  }

  /** `send` built on the corrected `_convert`. */
  function SendCorrected(t: MessageType, data: map<string, LogResult>): (r: Result<(), Exc>)
  {
    var _ :- Convert(t, data);
    Ok(())
  }

  /** With `ps` corrected, sending succeeds exactly when the table has a
      summary. */
  lemma SendCorrectedOkIff(t: MessageType, data: map<string, LogResult>)
    ensures SendCorrected(t, data).Ok? <==> "summary" in data
  {
    ConvertContents(t, data);
  }
}
