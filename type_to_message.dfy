/** Rendering a classified crawl as the notification text
    (`TypeToMessageConverter.convert`): "<message type> Result: <summary as a
    dict>", for each of the four message types. */
module TypeToMessage {
  import opened Wrappers
  import opened Values
  import opened Strings
  import opened LogResults

  const Separator: string := " Result: "

  /** `convert(message_type=messageType, data=data)`. The message type is an
      arbitrary value: only the four enum members are handled. */
  function Convert(messageType: Dyn, data: map<string, LogResult>): (r: Result<string, Exc>)
  {
    match messageType
    case DEnum(t) =>
      if "summary" !in data then Err(KeyError("summary"))
      else Ok(MessageTypeLabel(t) + Separator + DictRepr(data["summary"]))
    case _ => Err(NotImplementedError)
  }

  /** A value that is not a message type is not implemented; a message type
      without a summary is a KeyError; otherwise every type gets the same text
      after its own label. */
  lemma ConvertCases(messageType: Dyn, data: map<string, LogResult>)
    ensures !messageType.DEnum? ==> Convert(messageType, data) == Err(NotImplementedError)
    ensures messageType.DEnum? && "summary" !in data ==>
      Convert(messageType, data) == Err(KeyError("summary"))
    ensures messageType.DEnum? && "summary" in data ==>
      Convert(messageType, data).Ok?
      && MessageTypeLabel(messageType.member) <= Convert(messageType, data).value
  {
  }

  /** The four branches differ only in the type label. */
  lemma BranchesDifferOnlyInLabel(t1: MessageType, t2: MessageType, data: map<string, LogResult>)
    requires "summary" in data
    ensures var n1, n2 := |MessageTypeLabel(t1)|, |MessageTypeLabel(t2)|;
      Convert(DEnum(t1), data).value[n1..] == Convert(DEnum(t2), data).value[n2..]
  {
    AfterLabel(t1, data);
    AfterLabel(t2, data);
  }

  lemma AfterLabel(t: MessageType, data: map<string, LogResult>)
    requires "summary" in data
    ensures var n := |MessageTypeLabel(t)|;
      |Convert(DEnum(t), data).value| >= n
      && Convert(DEnum(t), data).value[n..] == Separator + DictRepr(data["summary"])
  {
    var name, repr := MessageTypeLabel(t), DictRepr(data["summary"]);
    assert Convert(DEnum(t), data).value == name + Separator + repr;
    DropPrefix(name, Separator, repr);
  }

  lemma IndexInFirst(a: string, b: string, c: string, i: nat)
    requires i < |a|
    ensures (a + b + c)[i] == a[i]
  {
  }

  lemma DropPrefix(a: string, b: string, c: string)
    ensures (a + b + c)[|a|..] == b + c
  {
  }

  /** Nothing but the summary record is read. */
  lemma OnlySummaryRead(messageType: Dyn, d1: map<string, LogResult>, d2: map<string, LogResult>)
    requires ("summary" in d1 <==> "summary" in d2)
    requires "summary" in d1 ==> d1["summary"] == d2["summary"]
    ensures Convert(messageType, d1) == Convert(messageType, d2)
  {
  }

  /** The text can be read back: it determines the message type and the
      summary it was made from. */
  lemma TextDeterminesInputs(t1: MessageType, d1: map<string, LogResult>, t2: MessageType, d2: map<string, LogResult>)
    requires Convert(DEnum(t1), d1).Ok? && Convert(DEnum(t2), d2).Ok?
    requires Convert(DEnum(t1), d1).value == Convert(DEnum(t2), d2).value
    ensures t1 == t2 && d1["summary"] == d2["summary"]
  {
    var l1, l2 := MessageTypeLabel(t1), MessageTypeLabel(t2);
    var r1, r2 := DictRepr(d1["summary"]), DictRepr(d2["summary"]);
    assert Convert(DEnum(t1), d1).value == l1 + Separator + r1;
    assert Convert(DEnum(t2), d2).value == l2 + Separator + r2;
    LabelsDiffer(t1, t2);
    IndexInFirst(l1, Separator, r1, 16);
    IndexInFirst(l2, Separator, r2, 16);
    assert t1 == t2;
    DropCommonPrefix(l1 + Separator, r1, r2);
    DictReprInjective(d1["summary"], d2["summary"]);
  }

  /** After the common "MessageTypeEnum." (16 characters), the next character
      tells the four labels apart. */
  lemma LabelsDiffer(t1: MessageType, t2: MessageType)
    ensures |MessageTypeLabel(t1)| > 16 && |MessageTypeLabel(t2)| > 16
    ensures MessageTypeLabel(t1)[16] == MessageTypeLabel(t2)[16] ==> t1 == t2
  {
  }
}
