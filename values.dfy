/** Python values as the crawler passes them around untyped: the dictionaries
    produced by `dataclasses.asdict`, parsed JSON bodies, the evaluated
    statistics block of a log, and the keyword dictionaries handed to
    marshmallow schemas. */
module Values {
  import opened Wrappers

  /** The four members of `MessageTypeEnum` (its definition is not part of this
      model; the analyzer, the converter and the Slack sender use exactly these). */
  datatype MessageType = SUCCESS | ERROR | DEBUG | TEST

  /** The text Python's `str()` gives an `Enum` member: "ClassName.MEMBER". */
  function MessageTypeLabel(t: MessageType): string
  {
    match t
    case SUCCESS => "MessageTypeEnum.SUCCESS"
    case ERROR => "MessageTypeEnum.ERROR"
    case DEBUG => "MessageTypeEnum.DEBUG"
    case TEST => "MessageTypeEnum.TEST"
  }

  /** A member's name, as `MessageTypeEnum[name]` looks it up. */
  function MemberName(t: MessageType): string
  {
    match t
    case SUCCESS => "SUCCESS"
    case ERROR => "ERROR"
    case DEBUG => "DEBUG"
    case TEST => "TEST"
  }

  /** A dynamically typed Python value. `DObject` is an instance of a class that
      is not a dict (a dataclass such as `LogResult`), with its attributes. */
  datatype Dyn =
    | DNone
    | DBool(b: bool)
    | DInt(i: int)
    | DFloat(r: real)
    | DStr(s: string)
    | DList(items: seq<Dyn>)
    | DDict(entries: map<string, Dyn>)
    | DEnum(member: MessageType)
    | DObject(attrs: map<string, Dyn>)

  /** Python truthiness. */
  predicate Truthy(v: Dyn)
  {
    match v
    case DNone => false
    case DBool(b) => b
    case DInt(i) => i != 0
    case DFloat(r) => r != 0.0
    case DStr(s) => s != []
    case DList(xs) => xs != []
    case DDict(m) => m != map[]
    case DEnum(_) => true
    case DObject(_) => true
  }

  /** `d.get(key)` */
  function Get(d: map<string, Dyn>, key: string): Dyn
  {
    if key in d then d[key] else DNone
  }

  /** The exceptions the modelled code raises or lets escape. */
  datatype Exc =
    | KeyError(key: string)                 // a missing dictionary key
    | TypeError                             // a value of the wrong type
    | AttributeError(name: string)          // a missing attribute
    | ValueError(what: string)              // ValueError raised explicitly
    | NotImplementedError                   // NotImplementedError raised explicitly
    | RuntimeError(what: string)            // RuntimeError raised explicitly
    | ValidationError(fields: set<string>)  // marshmallow's ValidationError, by field
    | DropItem(reason: string, fields: set<string>)  // scrapy's DropItem, with the schema's error keys

  /** `int(r)` on a float: truncation toward zero. */
  function Trunc(r: real): (n: int)
    ensures r >= 0.0 ==> 0 <= n && n as real <= r < n as real + 1.0
    ensures r < 0.0 ==> n <= 0 && n as real - 1.0 < r <= n as real
  {
    if r >= 0.0 then r.Floor else -((-r).Floor)
  }

  /** `int(v)` on the numbers (a bool is an int in Python); other values make
      `int()` raise, or parse a string, which is not modelled. */
  function IntOf(v: Dyn): Option<int>
  {
    match v
    case DInt(i) => Some(i)
    case DFloat(r) => Some(Trunc(r))
    case DBool(b) => Some(if b then 1 else 0)
    case _ => None
  }
}
