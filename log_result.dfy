/** The per-job outcome of a crawl (`LogResult`): how many items were
    scraped, how many errors were logged and how long the job ran, in whole
    seconds; and its schema-checked `load`, which keeps the three fields and
    drops every other key. */
module LogResults {
  import opened Wrappers
  import opened Values
  import opened Strings
  import Schema

  datatype LogResult = LogResult(collected: int, errors: int, elapsed: int)

  function Collected(r: LogResult): int { r.collected }
  function ErrorCount(r: LogResult): int { r.errors }
  function Elapsed(r: LogResult): int { r.elapsed }

  /** The three keys of the record, in declaration order. */
  const Keys: seq<string> := ["collected_count", "error_count", "elapsed_sec"]

  /** `dataclasses.asdict(r)` */
  function AsDict(r: LogResult): map<string, Dyn>
  {
    map["collected_count" := DInt(r.collected), "error_count" := DInt(r.errors),
        "elapsed_sec" := DInt(r.elapsed)]
  }

  /** `str(asdict(r))`: Python's rendering of the record's dictionary,
      "{'collected_count': 1, 'error_count': 0, 'elapsed_sec': 10}". */
  function DictRepr(r: LogResult): string
  {
    "{'collected_count': " + (IntToString(r.collected)
    + (", 'error_count': " + (IntToString(r.errors)
    + (", 'elapsed_sec': " + (IntToString(r.elapsed) + "}")))))
  }

  /** Reading one integer back from behind a known prefix, up to a separator
      that cannot occur in an integer's rendering. */
  lemma ReadIntAfter(p: string, x1: int, r1: string, x2: int, r2: string, c: char)
    requires p + (IntToString(x1) + r1) == p + (IntToString(x2) + r2)
    requires c != '-' && !IsDigit(c)
    requires |r1| > 0 && r1[0] == c && |r2| > 0 && r2[0] == c
    ensures x1 == x2 && r1 == r2
  {
    IntToStringChars(x1);
    IntToStringChars(x2);
    DropCommonPrefix(p, IntToString(x1) + r1, IntToString(x2) + r2);
    SplitAtSeparator(IntToString(x1), r1, IntToString(x2), r2, c);
    IntToStringInjective(x1, x2);
  }

  /** The rendering can be read back: distinct records render differently. */
  lemma DictReprInjective(a: LogResult, b: LogResult)
    requires DictRepr(a) == DictRepr(b)
    ensures a == b
  {
    ReadIntAfter("{'collected_count': ", a.collected,
      ", 'error_count': " + (IntToString(a.errors) + (", 'elapsed_sec': " + (IntToString(a.elapsed) + "}"))),
      b.collected,
      ", 'error_count': " + (IntToString(b.errors) + (", 'elapsed_sec': " + (IntToString(b.elapsed) + "}"))),
      ',');
    ReadIntAfter(", 'error_count': ", a.errors,
      ", 'elapsed_sec': " + (IntToString(a.elapsed) + "}"),
      b.errors,
      ", 'elapsed_sec': " + (IntToString(b.elapsed) + "}"),
      ',');
    ReadIntAfter(", 'elapsed_sec': ", a.elapsed, "}", b.elapsed, "}", '}');
  }

  /** Whether `fields.Int(required=True)` accepts the value under `key`. */
  predicate IntField(data: map<string, Dyn>, key: string)
  {
    key in data && (data[key].DInt? || data[key].DFloat?)
  }

  /** The validated integer under `key`. */
  function IntValue(data: map<string, Dyn>, key: string): int
    requires IntField(data, key)
  {
    if data[key].DInt? then data[key].i else Trunc(data[key].r)
  }

  /** `LogResult.load(data)`: validate with the record's schema (unknown keys
      excluded) and build the record from the three integers. */
  function Load(data: map<string, Dyn>): (r: Result<LogResult, Exc>)
    ensures r.Err? ==> r.error.ValidationError? && r.error.fields != {}
  {
    var errs := Schema.Errors(Schema.LogResultSchema, data, Schema.Basic);
    if errs != {} then Err(ValidationError(errs))
    else
      FieldTable();
      Schema.ErrorsEmptyIff(Schema.LogResultSchema, data, Schema.Basic);
      Ok(LogResult(IntValue(data, "collected_count"), IntValue(data, "error_count"),
                   IntValue(data, "elapsed_sec")))
  }

  /** The schema declares one required integer field per key. */
  lemma FieldTable()
    ensures Schema.Fields(Schema.LogResultSchema)[0] == Schema.Req("collected_count", Schema.IntK)
    ensures Schema.Fields(Schema.LogResultSchema)[1] == Schema.Req("error_count", Schema.IntK)
    ensures Schema.Fields(Schema.LogResultSchema)[2] == Schema.Req("elapsed_sec", Schema.IntK)
    ensures |Schema.Fields(Schema.LogResultSchema)| == 3
  {
  }

  /** `load` succeeds exactly when each of the three keys holds a number. */
  lemma LoadOkIff(data: map<string, Dyn>)
    ensures Load(data).Ok? <==>
      IntField(data, "collected_count") && IntField(data, "error_count")
      && IntField(data, "elapsed_sec")
  {
    Schema.ErrorsEmptyIff(Schema.LogResultSchema, data, Schema.Basic);
    FieldTable();
  }

  /** A missing key makes `load` fail, and the error names that key. */
  lemma LoadMissingKey(data: map<string, Dyn>, key: string)
    requires key in Keys && key !in data
    ensures Load(data).Err? && key in Load(data).error.fields
  {
    FieldTable();
    var i := if key == "collected_count" then 0 else if key == "error_count" then 1 else 2;
    Schema.FailingFieldIsError(Schema.LogResultSchema, i, data, Schema.Basic);
  }

  /** The loaded fields are the given values (floats truncated as `int()` does). */
  lemma LoadValues(data: map<string, Dyn>)
    requires Load(data).Ok?
    ensures IntField(data, "collected_count") && IntField(data, "error_count")
            && IntField(data, "elapsed_sec")
    ensures Load(data).value
         == LogResult(IntValue(data, "collected_count"), IntValue(data, "error_count"),
                      IntValue(data, "elapsed_sec"))
  {
    LoadOkIff(data);
  }

  /** Keys other than the three fields do not change the outcome of `load`. */
  lemma LoadIgnoresUnknown(data: map<string, Dyn>, extra: map<string, Dyn>)
    requires forall k :: k in extra ==> k !in Keys
    ensures Load(data + extra) == Load(map k | k in data && k in Keys :: data[k])
  {
    var kept := map k | k in data && k in Keys :: data[k];
    var both := data + extra;
    forall k | k in Keys ensures (k in both <==> k in kept) && (k in both ==> both[k] == kept[k]) {
    }
    LoadAgrees(both, kept);
  }

  /** `load` reads nothing but the three keys. */
  lemma LoadAgrees(a: map<string, Dyn>, b: map<string, Dyn>)
    requires forall k :: k in Keys ==> (k in a <==> k in b) && (k in a ==> a[k] == b[k])
    ensures Load(a) == Load(b)
  {
    var fs := Schema.Fields(Schema.LogResultSchema);
    FieldTable();
    forall i | 0 <= i < |fs|
      ensures Schema.FieldOk(Schema.LogResultSchema, fs[i], a, Schema.Basic)
          <==> Schema.FieldOk(Schema.LogResultSchema, fs[i], b, Schema.Basic)
    {
      assert fs[i].name == Keys[i];
    }
    assert Schema.Errors(Schema.LogResultSchema, a, Schema.Basic)
        == Schema.Errors(Schema.LogResultSchema, b, Schema.Basic);
    if Load(a).Ok? {
      LoadOkIff(a);
      LoadOkIff(b);
      assert Keys[0] == "collected_count" && Keys[1] == "error_count" && Keys[2] == "elapsed_sec";
    }
  }

  /** Loading the dictionary of a record gives the record back. */
  lemma LoadAsDict(r: LogResult)
    ensures Load(AsDict(r)) == Ok(r)
  {
    LoadOkIff(AsDict(r));
  }
}
