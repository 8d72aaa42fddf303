/** Reading the outcome of a crawl from the jobs' log files: every "*.log"
    file of the log directory whose statistics block is found and is not
    empty becomes one `LogResult`, keyed by the file name without ".log", and
    the table gets a "summary" entry with the total items, the total errors
    and the longest running time.

    The directory is given as its entries (name and contents) in listing
    order; evaluating a captured block (`eval`) is the parameter `ev`. */
module LogParser {
  import opened Wrappers
  import opened Strings
  import opened Values
  import opened LogResults
  import StatsBlock

  /** One directory entry: its file name and the text of the file. */
  datatype Entry = Entry(name: string, text: string)

  /** What a reader does with one file: which block it captures and how it
      turns the evaluated block into a record. */
  datatype Reader = Reader(
    capture: string -> Option<string>,
    convert: map<string, Dyn> -> Result<LogResult, Exc>)

  predicate IsLogName(name: string) { EndsWith(name, ".log") }

  /** `f[:-4]` of a name ending in ".log". */
  function JobName(name: string): (k: string)
    requires IsLogName(name)
    ensures k + ".log" == name
  {
    name[..|name| - 4]
  }

  /** The evaluated statistics of an entry that counts as a job: a ".log"
      file whose block is found and evaluates to a non-empty (truthy) dict. */
  function JobStats(e: Entry, ev: string -> map<string, Dyn>, rd: Reader): Option<map<string, Dyn>>
  {
    if !IsLogName(e.name) then None
    else match rd.capture(e.text)
      case None => None
      case Some(block) => if ev(block) == map[] then None else Some(ev(block))
  }

  ghost predicate IsJob(e: Entry, ev: string -> map<string, Dyn>, rd: Reader, k: string)
  {
    JobStats(e, ev, rd).Some? && JobName(e.name) == k
  }

  /** The job table the loop over the directory builds, before the summary:
      later entries overwrite earlier ones, and the first record that fails
      to convert ends the read. */
  ghost function Jobs(dir: seq<Entry>, ev: string -> map<string, Dyn>, rd: Reader)
    : Result<map<string, LogResult>, Exc>
    decreases |dir|
  {
    if dir == [] then Ok(map[])
    else
      var m :- Jobs(dir[..|dir| - 1], ev, rd);
      var e := dir[|dir| - 1];
      match JobStats(e, ev, rd)
      case None => Ok(m)
      case Some(stats) =>
        var lr :- rd.convert(stats);
        Ok(m[JobName(e.name) := lr])
  }

  /** The table `parse` returns: the jobs and their summary. */
  ghost function WithSummary(jobs: Result<map<string, LogResult>, Exc>): Result<map<string, LogResult>, Exc>
  {
    match jobs
    case Err(e) => Err(e)
    case Ok(m) => Ok(m["summary" := SummaryOf(m)])
  }

  // ----- the summary: sum, sum, max, all starting from 0 -----

  ghost function Pick(ks: set<string>): string
    requires ks != {}
  {
    var k :| k in ks; k
  }

  /** The sum of `f` over the records under the keys `ks`. */
  ghost function SumOver(m: map<string, LogResult>, ks: set<string>, f: LogResult -> int): int
    requires ks <= m.Keys
    decreases ks
  {
    if ks == {} then 0
    else var k := Pick(ks); f(m[k]) + SumOver(m, ks - {k}, f)
  }

  /** `max` of 0 and `f` over the records under the keys `ks`. */
  ghost function MaxOver(m: map<string, LogResult>, ks: set<string>, f: LogResult -> int): int
    requires ks <= m.Keys
    decreases ks
  {
    if ks == {} then 0
    else var k := Pick(ks); Max(f(m[k]), MaxOver(m, ks - {k}, f))
  }

  function Max(a: int, b: int): int { if a >= b then a else b }

  ghost function SummaryOf(m: map<string, LogResult>): LogResult
  {
    LogResult(SumOver(m, m.Keys, Collected), SumOver(m, m.Keys, ErrorCount),
              MaxOver(m, m.Keys, Elapsed))
  }

  /** The sum does not depend on which key is taken first. */
  lemma {:induction false} SumOverRemove(m: map<string, LogResult>, ks: set<string>, f: LogResult -> int, k: string)
    requires ks <= m.Keys && k in ks
    ensures SumOver(m, ks, f) == f(m[k]) + SumOver(m, ks - {k}, f)
    decreases ks
  {
    var p := Pick(ks);
    if p != k {
      SumOverRemove(m, ks - {p}, f, k);
      SumOverRemove(m, ks - {k}, f, p);
      assert ks - {p} - {k} == ks - {k} - {p};
    }
  }

  /** The maximum does not depend on which key is taken first. */
  lemma {:induction false} MaxOverRemove(m: map<string, LogResult>, ks: set<string>, f: LogResult -> int, k: string)
    requires ks <= m.Keys && k in ks
    ensures MaxOver(m, ks, f) == Max(f(m[k]), MaxOver(m, ks - {k}, f))
    decreases ks
  {
    var p := Pick(ks);
    if p != k {
      MaxOverRemove(m, ks - {p}, f, k);
      MaxOverRemove(m, ks - {k}, f, p);
      assert ks - {p} - {k} == ks - {k} - {p};
    }
  }

  /** Only the records under `ks` matter. */
  lemma {:induction false} OverFrame(m: map<string, LogResult>, m': map<string, LogResult>, ks: set<string>, f: LogResult -> int)
    requires ks <= m.Keys && ks <= m'.Keys
    requires forall k :: k in ks ==> m[k] == m'[k]
    ensures SumOver(m, ks, f) == SumOver(m', ks, f)
    ensures MaxOver(m, ks, f) == MaxOver(m', ks, f)
    decreases ks
  {
    if ks != {} {
      OverFrame(m, m', ks - {Pick(ks)}, f);
    }
  }

  /** The summary of an empty table is all zeros. */
  lemma SummaryOfEmpty()
    ensures SummaryOf(map[]) == LogResult(0, 0, 0)
  {
  }

  /** Taking one job out: the summary is that job folded into the summary of
      the others, which is how the loop accumulates it. */
  lemma SummaryOfSplit(m: map<string, LogResult>, k: string)
    requires k in m
    ensures var rest := SummaryOf(m - {k});
      SummaryOf(m) == LogResult(m[k].collected + rest.collected, m[k].errors + rest.errors,
                                Max(m[k].elapsed, rest.elapsed))
  {
    var rest := m - {k};
    assert rest.Keys == m.Keys - {k};
    SumOverRemove(m, m.Keys, Collected, k);
    SumOverRemove(m, m.Keys, ErrorCount, k);
    MaxOverRemove(m, m.Keys, Elapsed, k);
    OverFrame(m, rest, m.Keys - {k}, Collected);
    OverFrame(m, rest, m.Keys - {k}, ErrorCount);
    OverFrame(m, rest, m.Keys - {k}, Elapsed);
  }

  /** The longest running time is at least 0 and at least every job's. */
  lemma {:induction false} MaxOverIsUpperBound(m: map<string, LogResult>, ks: set<string>, f: LogResult -> int)
    requires ks <= m.Keys
    ensures 0 <= MaxOver(m, ks, f)
    ensures forall k :: k in ks ==> f(m[k]) <= MaxOver(m, ks, f)
    decreases ks
  {
    if ks != {} {
      MaxOverIsUpperBound(m, ks - {Pick(ks)}, f);
    }
  }

  /** With no negative values, the maximum over a non-empty set is one of them. */
  lemma {:induction false} MaxOverIsAttained(m: map<string, LogResult>, ks: set<string>, f: LogResult -> int)
    requires ks <= m.Keys && ks != {}
    requires forall k :: k in ks ==> 0 <= f(m[k])
    ensures exists k :: k in ks && MaxOver(m, ks, f) == f(m[k])
    decreases ks
  {
    var p := Pick(ks);
    var rest := ks - {p};
    if rest == {} || f(m[p]) >= MaxOver(m, rest, f) {
      assert MaxOver(m, ks, f) == f(m[p]);
    } else {
      MaxOverIsAttained(m, rest, f);
      var k :| k in rest && MaxOver(m, rest, f) == f(m[k]);
      assert MaxOver(m, ks, f) == f(m[k]);
    }
  }

  /** With no negative values, every job's count is at most the total. */
  lemma {:induction false} SumOverIsUpperBound(m: map<string, LogResult>, ks: set<string>, f: LogResult -> int)
    requires ks <= m.Keys
    requires forall k :: k in ks ==> 0 <= f(m[k])
    ensures 0 <= SumOver(m, ks, f)
    ensures forall k :: k in ks ==> f(m[k]) <= SumOver(m, ks, f)
    decreases ks
  {
    if ks != {} {
      SumOverIsUpperBound(m, ks - {Pick(ks)}, f);
    }
  }

  /** The summary's bounds: with non-negative counts each job's collected and
      error counts are at most the totals; the summary elapsed is at least
      every job's, and, for a non-empty table with non-negative times, equal
      to one of them. */
  lemma SummaryBounds(m: map<string, LogResult>)
    ensures 0 <= SummaryOf(m).elapsed
    ensures forall k :: k in m ==> m[k].elapsed <= SummaryOf(m).elapsed
    ensures (forall k :: k in m ==> 0 <= m[k].collected) ==>
      forall k :: k in m ==> m[k].collected <= SummaryOf(m).collected
    ensures (forall k :: k in m ==> 0 <= m[k].errors) ==>
      forall k :: k in m ==> m[k].errors <= SummaryOf(m).errors
    ensures m != map[] && (forall k :: k in m ==> 0 <= m[k].elapsed) ==>
      exists k :: k in m && SummaryOf(m).elapsed == m[k].elapsed
  {
    MaxOverIsUpperBound(m, m.Keys, Elapsed);
    forall k | k in m ensures m[k].elapsed <= SummaryOf(m).elapsed {
      assert Elapsed(m[k]) <= MaxOver(m, m.Keys, Elapsed);
    }
    if forall k :: k in m ==> 0 <= m[k].collected {
      SumOverIsUpperBound(m, m.Keys, Collected);
    }
    if forall k :: k in m ==> 0 <= m[k].errors {
      SumOverIsUpperBound(m, m.Keys, ErrorCount);
    }
    if m != map[] && (forall k :: k in m ==> 0 <= m[k].elapsed) {
      assert m.Keys != {};
      MaxOverIsAttained(m, m.Keys, Elapsed);
    }
  }

  /** `_summary`: one pass over the records with three accumulators. */
  method Summary(res: map<string, LogResult>) returns (r: LogResult)
    ensures r == SummaryOf(res)
  {
    var collected, errors, elapsed := 0, 0, 0;
    var todo := res.Keys;
    while todo != {}
      invariant todo <= res.Keys
      invariant collected == SumOver(res, res.Keys - todo, Collected)
      invariant errors == SumOver(res, res.Keys - todo, ErrorCount)
      invariant elapsed == MaxOver(res, res.Keys - todo, Elapsed)
      decreases todo
    {
      var k :| k in todo;
      var v := res[k];
      var done := res.Keys - todo + {k};
      assert done - {k} == res.Keys - todo;
      SumOverRemove(res, done, Collected, k);
      SumOverRemove(res, done, ErrorCount, k);
      MaxOverRemove(res, done, Elapsed, k);
      collected := collected + v.collected;
      errors := errors + v.errors;
      elapsed := Max(elapsed, v.elapsed);
      todo := todo - {k};
      assert res.Keys - todo == done;
    }
    assert res.Keys - todo == res.Keys;
    r := LogResult(collected, errors, elapsed);
  }

  // ----- the read loop -----

  /** Once a prefix of the directory fails, the whole read fails the same way. */
  lemma {:induction false} JobsErrSticks(dir: seq<Entry>, ev: string -> map<string, Dyn>, rd: Reader, i: nat)
    requires i <= |dir| && Jobs(dir[..i], ev, rd).Err?
    ensures Jobs(dir, ev, rd) == Jobs(dir[..i], ev, rd)
    decreases |dir| - i
  {
    if i < |dir| {
      assert dir[..i + 1][..i] == dir[..i];
      JobsErrSticks(dir, ev, rd, i + 1);
    } else {
      assert dir[..i] == dir;
    }
  }

  /** The directory loop of `parse` (and of the viewer's `result`) for a reader. */
  method ReadAll(dir: seq<Entry>, ev: string -> map<string, Dyn>, rd: Reader)
    returns (r: Result<map<string, LogResult>, Exc>)
    ensures r == WithSummary(Jobs(dir, ev, rd))
  {
    var res: map<string, LogResult> := map[];
    var i := 0;
    while i < |dir|
      invariant i <= |dir|
      invariant Jobs(dir[..i], ev, rd) == Ok(res)
    {
      assert dir[..i + 1][..i] == dir[..i];
      var e := dir[i];
      if IsLogName(e.name) {
        var block := rd.capture(e.text);
        if block.Some? && ev(block.value) != map[] {
          var lr := rd.convert(ev(block.value));
          if lr.Err? {
            JobsErrSticks(dir, ev, rd, i + 1);
            return Err(lr.error);
          }
          res := res[JobName(e.name) := lr.value];
        }
      }
      i := i + 1;
    }
    assert dir[..i] == dir;
    var summary := Summary(res);
    res := res["summary" := summary];
    r := Ok(res);
  }

  // ----- the parser's reader -----

  /** `_convert`: the scraped count, the error count (0 when the key is
      absent) and the truncated running time. */
  function Convert(data: map<string, Dyn>): (r: Result<LogResult, Exc>)
    ensures "item_scraped_count" !in data ==> r == Err(KeyError("item_scraped_count"))
    ensures "item_scraped_count" in data && "elapsed_time_seconds" !in data ==>
      r == Err(KeyError("elapsed_time_seconds"))
    ensures r.Ok? <==>
      "item_scraped_count" in data && data["item_scraped_count"].DInt?
      && ("log_count/ERROR" in data ==> data["log_count/ERROR"].DInt?)
      && "elapsed_time_seconds" in data && IntOf(data["elapsed_time_seconds"]).Some?
    ensures r.Ok? ==>
      r.value.collected == data["item_scraped_count"].i
      && r.value.errors == (if "log_count/ERROR" in data then data["log_count/ERROR"].i else 0)
      && r.value.elapsed == IntOf(data["elapsed_time_seconds"]).value
  {
    if "item_scraped_count" !in data then Err(KeyError("item_scraped_count"))
    else if "elapsed_time_seconds" !in data then Err(KeyError("elapsed_time_seconds"))
    else match IntOf(data["elapsed_time_seconds"])
      case None => Err(TypeError)
      case Some(elapsed) =>
        var collected := data["item_scraped_count"];
        var errors := Get(data, "log_count/ERROR");
        if !collected.DInt? || !(errors.DInt? || "log_count/ERROR" !in data) then Err(TypeError)
        else Ok(LogResult(collected.i, if errors.DInt? then errors.i else 0, elapsed))
  }

  const Parser: Reader := Reader(StatsBlock.LazyBlock, Convert)

  /** `LogParser.parse` */
  method Parse(dir: seq<Entry>, ev: string -> map<string, Dyn>) returns (r: Result<map<string, LogResult>, Exc>)
    ensures r == WithSummary(Jobs(dir, ev, Parser))
  {
    r := ReadAll(dir, ev, Parser);
  }

  // ----- what the table holds -----

  /** The keys of the job table are exactly the names of the jobs. */
  lemma {:induction false} JobsKeys(dir: seq<Entry>, ev: string -> map<string, Dyn>, rd: Reader, k: string)
    requires Jobs(dir, ev, rd).Ok?
    ensures k in Jobs(dir, ev, rd).value <==> exists i :: 0 <= i < |dir| && IsJob(dir[i], ev, rd, k)
    decreases |dir|
  {
    if dir != [] {
      var p := dir[..|dir| - 1];
      var last := dir[|dir| - 1];
      JobsStep(dir, ev, rd, k);
      JobsKeys(p, ev, rd, k);
      JobInSplit(dir, p, ev, rd, k);
    }
  }

  /** A job of the directory is a job of its first entries or its last one. */
  lemma JobInSplit(dir: seq<Entry>, p: seq<Entry>, ev: string -> map<string, Dyn>, rd: Reader, k: string)
    requires dir != [] && p == dir[..|dir| - 1]
    ensures (exists i :: 0 <= i < |dir| && IsJob(dir[i], ev, rd, k)) <==>
      (exists i :: 0 <= i < |p| && IsJob(p[i], ev, rd, k)) || IsJob(dir[|dir| - 1], ev, rd, k)
  {
    if exists i :: 0 <= i < |dir| && IsJob(dir[i], ev, rd, k) {
      var i :| 0 <= i < |dir| && IsJob(dir[i], ev, rd, k);
      if i < |p| {
        assert p[i] == dir[i];
      }
    }
    if exists i :: 0 <= i < |p| && IsJob(p[i], ev, rd, k) {
      var i :| 0 <= i < |p| && IsJob(p[i], ev, rd, k);
      assert dir[i] == p[i];
    }
  }

  /** One entry more adds at most its own job name. */
  lemma JobsStep(dir: seq<Entry>, ev: string -> map<string, Dyn>, rd: Reader, k: string)
    requires dir != [] && Jobs(dir, ev, rd).Ok?
    ensures Jobs(dir[..|dir| - 1], ev, rd).Ok?
    ensures k in Jobs(dir, ev, rd).value <==>
      k in Jobs(dir[..|dir| - 1], ev, rd).value || IsJob(dir[|dir| - 1], ev, rd, k)
  {
  }

  /** A job's record is the conversion of its statistics, from the last entry
      with that name. */
  lemma {:induction false} JobsValue(dir: seq<Entry>, ev: string -> map<string, Dyn>, rd: Reader, i: nat)
    requires Jobs(dir, ev, rd).Ok? && i < |dir| && JobStats(dir[i], ev, rd).Some?
    requires forall j :: i < j < |dir| ==> !IsJob(dir[j], ev, rd, JobName(dir[i].name))
    ensures rd.convert(JobStats(dir[i], ev, rd).value).Ok?
    ensures JobName(dir[i].name) in Jobs(dir, ev, rd).value
    ensures Jobs(dir, ev, rd).value[JobName(dir[i].name)] == rd.convert(JobStats(dir[i], ev, rd).value).value
    decreases |dir|
  {
    var p := dir[..|dir| - 1];
    if i < |p| {
      assert p[i] == dir[i];
      forall j | i < j < |p| ensures !IsJob(p[j], ev, rd, JobName(p[i].name)) {
        assert p[j] == dir[j];
      }
      JobsValue(p, ev, rd, i);
    }
  }

  /** The read fails exactly when some job's statistics fail to convert. */
  lemma {:induction false} JobsErrIff(dir: seq<Entry>, ev: string -> map<string, Dyn>, rd: Reader)
    ensures Jobs(dir, ev, rd).Err? <==>
      exists i :: 0 <= i < |dir| && JobStats(dir[i], ev, rd).Some?
                  && rd.convert(JobStats(dir[i], ev, rd).value).Err?
    decreases |dir|
  {
    if dir != [] {
      var p := dir[..|dir| - 1];
      JobsErrIff(p, ev, rd);
      if exists i :: 0 <= i < |p| && JobStats(p[i], ev, rd).Some?
                     && rd.convert(JobStats(p[i], ev, rd).value).Err? {
        var i :| 0 <= i < |p| && JobStats(p[i], ev, rd).Some?
                 && rd.convert(JobStats(p[i], ev, rd).value).Err?;
        assert dir[i] == p[i];
      }
      if exists i :: 0 <= i < |dir| && JobStats(dir[i], ev, rd).Some?
                     && rd.convert(JobStats(dir[i], ev, rd).value).Err? {
        var i :| 0 <= i < |dir| && JobStats(dir[i], ev, rd).Some?
                 && rd.convert(JobStats(dir[i], ev, rd).value).Err?;
        if i < |p| {
          assert p[i] == dir[i];
        }
      }
    }
  }

  /** The returned table always has a "summary" entry, computed from the jobs
      before it is inserted: a job named "summary" is counted in it and then
      replaced by it. */
  lemma SummaryEntry(jobs: map<string, LogResult>)
    ensures var t := WithSummary(Ok(jobs)).value;
      "summary" in t && t["summary"] == SummaryOf(jobs)
      && t.Keys == jobs.Keys + {"summary"}
      && forall k :: k in jobs && k != "summary" ==> t[k] == jobs[k]
  {
  }

  /** A directory without jobs reads as a lone all-zero summary. */
  lemma {:induction false} NoJobs(dir: seq<Entry>, ev: string -> map<string, Dyn>, rd: Reader)
    requires forall i :: 0 <= i < |dir| ==> JobStats(dir[i], ev, rd).None?
    ensures WithSummary(Jobs(dir, ev, rd)) == Ok(map["summary" := LogResult(0, 0, 0)])
    decreases |dir|
  {
    if dir != [] {
      var p := dir[..|dir| - 1];
      forall i | 0 <= i < |p| ensures JobStats(p[i], ev, rd).None? {
        assert p[i] == dir[i];
      }
      NoJobs(p, ev, rd);
    }
    SummaryOfEmpty();
  }

  /** A file that does not end in ".log", or whose block is missing or empty,
      changes nothing. */
  lemma SkippedEntry(dir: seq<Entry>, ev: string -> map<string, Dyn>, rd: Reader, e: Entry)
    requires !IsLogName(e.name) || rd.capture(e.text).None? || ev(rd.capture(e.text).value) == map[]
    ensures Jobs(dir + [e], ev, rd) == Jobs(dir, ev, rd)
  {
    assert (dir + [e])[..|dir|] == dir;
  }
}
