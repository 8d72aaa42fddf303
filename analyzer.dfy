/** Classifying a crawl (`Analyzer.analyze`): a debug or test stage answers
    with that stage's message type; otherwise the "summary" record decides,
    SUCCESS when at least 5000 items were collected, at most 10% of them
    errored and the crawl took at most two hours, ERROR otherwise. */
module Analyzer {
  import opened Wrappers
  import opened Values
  import opened LogResults

  const MinCollected: int := 5000
  const MaxErrorPercent: real := 10.0
  const MaxElapsed: int := 7200

  /** The threshold test as written: the division by the collected count is
      only reached once that count is known to be at least 5000. */
  predicate Passes(s: LogResult)
  {
    s.collected >= MinCollected
    && (100 * s.errors) as real / s.collected as real <= MaxErrorPercent
    && s.elapsed <= MaxElapsed
  }

  /** `analyze(data, stage=stage)`; `None` stands for an absent keyword. */
  function Analyze(data: map<string, LogResult>, stage: Option<string>): Result<MessageType, Exc>
  {
    if stage.Some? && stage.value != "" then
      match stage.value
      case "debug" => Ok(DEBUG)
      case "test" => Ok(TEST)
      case _ => Err(NotImplementedError)
    else if "summary" !in data then Err(KeyError("summary"))
    else if Passes(data["summary"]) then Ok(SUCCESS)
    else Ok(ERROR)
  }

  /** The percentage test is the integer test 10 * errors <= collected. */
  lemma PassesIff(s: LogResult)
    ensures Passes(s) <==>
      s.collected >= 5000 && 10 * s.errors <= s.collected && s.elapsed <= 7200
  {
    if s.collected >= 5000 {
      var c := s.collected as real;
      var q := (100 * s.errors) as real / c;
      assert q * c == (100 * s.errors) as real;
      if q <= 10.0 {
        assert q * c <= 10.0 * c;
      }
      if 10 * s.errors <= s.collected {
        assert (100 * s.errors) as real <= 10.0 * c;
        assert q * c <= 10.0 * c;
      }
    }
  }

  /** A debug or test stage decides alone, whatever the data; any other
      non-empty stage is not implemented. */
  lemma StageOverrides(data: map<string, LogResult>, stage: string)
    requires stage != ""
    ensures Analyze(data, Some(stage)) ==
      if stage == "debug" then Ok(DEBUG)
      else if stage == "test" then Ok(TEST)
      else Err(NotImplementedError)
  {
  }

  /** Without a stage the thresholds decide between SUCCESS and ERROR, and a
      missing summary is a KeyError. */
  lemma ThresholdsDecide(data: map<string, LogResult>, stage: Option<string>)
    requires stage.None? || stage == Some("")
    ensures "summary" !in data ==> Analyze(data, stage) == Err(KeyError("summary"))
    ensures "summary" in data ==>
      var s := data["summary"];
      Analyze(data, stage)
      == if s.collected >= 5000 && 10 * s.errors <= s.collected && s.elapsed <= 7200
         then Ok(SUCCESS) else Ok(ERROR)
  {
    if "summary" in data {
      PassesIff(data["summary"]);
    }
  }

  /** Nothing but the summary record is read. */
  lemma OnlySummaryRead(d1: map<string, LogResult>, d2: map<string, LogResult>, stage: Option<string>)
    requires ("summary" in d1 <==> "summary" in d2)
    requires "summary" in d1 ==> d1["summary"] == d2["summary"]
    ensures Analyze(d1, stage) == Analyze(d2, stage)
  {
  }

  /** The boundary cases: each threshold is inclusive, and one step past any
      of them turns SUCCESS into ERROR. */
  lemma Boundaries(others: map<string, LogResult>)
    ensures Analyze(others["summary" := LogResult(5000, 50, 7200)], None) == Ok(SUCCESS)
    ensures Analyze(others["summary" := LogResult(5000, 500, 7200)], None) == Ok(SUCCESS)
    ensures Analyze(others["summary" := LogResult(4999, 50, 7200)], None) == Ok(ERROR)
    ensures Analyze(others["summary" := LogResult(5000, 501, 7200)], None) == Ok(ERROR)
    ensures Analyze(others["summary" := LogResult(5000, 50, 7201)], None) == Ok(ERROR)
  {
    PassesIff(LogResult(5000, 50, 7200));
    PassesIff(LogResult(5000, 500, 7200));
    PassesIff(LogResult(4999, 50, 7200));
    PassesIff(LogResult(5000, 501, 7200));
    PassesIff(LogResult(5000, 50, 7201));
  }
}
