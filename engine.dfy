/** The crawl driver (`Engine`): a single instance, created by the first call
    of `instance`, and its `run`, which either runs one spider or runs them
    all and then ships the logs, reads them, classifies the crawl and, on the
    dev and prod stages, notifies Slack.

    What the collaborators do to the world is recorded as a trace of effects;
    the logs the crawl leaves behind are a parameter of `run`. */
module Engine {
  import opened Wrappers
  import opened Values
  import opened LogResults
  import LogParser
  import Analyzer
  import Slack

  datatype Effect =
    | RunSingle(spider: string, loglevel: string, stage: string)  // SingleRunner.run
    | ClearDatabase                                              // DBClient.instance().clear()
    | RunAll(loglevel: string, stage: string)                    // AllRunner.run
    | SendS3                                                     // sender.send(target="s3")
    | ReadLogs                                                   // LogParser().parse()
    | SendSlack(status: MessageType, data: map<string, LogResult>)  // sender.send(target="slack", ...)

  function LogLevel(stage: string): string
  {
    if stage in {"dev", "test"} then "DEBUG" else "INFO"
  }

  predicate Notifies(stage: string) { stage in {"dev", "prod"} }

  /** What one `run` does: the effects in order and what it returns. */
  datatype Outcome = Outcome(effects: seq<Effect>, result: Result<bool, Exc>)

  ghost function Plan(stage: string, spider: string, clearDb: bool,
                      logs: seq<LogParser.Entry>, ev: string -> map<string, Dyn>): Outcome
  {
    var level := LogLevel(stage);
    if spider != "all" then Outcome([RunSingle(spider, level, stage)], Ok(true))
    else
      var crawl := Crawl(stage, clearDb);
      match LogParser.Jobs(logs, ev, LogParser.Parser)
      case Err(e) => Outcome(crawl, Err(e))
      case Ok(jobs) =>
        var data := jobs["summary" := LogParser.SummaryOf(jobs)];
        var status := Analyzer.Analyze(data, None).value;
        if Notifies(stage) then
          Outcome(crawl + [SendSlack(status, data)],
                  match Slack.Send(status, data)
                  case Err(e) => Err(e)
                  case Ok(_) => Ok(status == SUCCESS))
        else Outcome(crawl, Ok(status == SUCCESS))
  }

  class Engine {
    const stage: string
    const spider: string
    const clearDb: bool
    /** What this engine has done to the world so far. */
    var effects: seq<Effect>

    /** `Engine(stage, spider, clear_db=clearDb)`: the keyword is read for
        its truthiness, an absent one being None. */
    constructor (stage: string, spider: string, clearDb: Dyn)
      ensures this.stage == stage && this.spider == spider && this.clearDb == Truthy(clearDb)
      ensures effects == []
    {
      this.stage := stage;
      this.spider := spider;
      this.clearDb := Truthy(clearDb);
      effects := [];
    }

    /** `run` */
    method Run(logs: seq<LogParser.Entry>, ev: string -> map<string, Dyn>) returns (r: Result<bool, Exc>)
      modifies this
      ensures effects == old(effects) + Plan(stage, spider, clearDb, logs, ev).effects
      ensures r == Plan(stage, spider, clearDb, logs, ev).result
    {
      var level := LogLevel(stage);
      if spider != "all" {
        effects := effects + [RunSingle(spider, level, stage)];
        return Ok(true);
      }
      var before := effects;
      if clearDb {
        effects := effects + [ClearDatabase];
      }
      effects := effects + [RunAll(level, stage), SendS3, ReadLogs];
      assert effects == before + Crawl(stage, clearDb);
      var parsed := LogParser.Parse(logs, ev);
      if parsed.Err? {
        return Err(parsed.error);
      }
      var data := parsed.value;
      var status := Analyzer.Analyze(data, None).value;
      if Notifies(stage) {
        effects := effects + [SendSlack(status, data)];
        var sent := Slack.Send(status, data);
        if sent.Err? {
          return Err(sent.error);
        }
      }
      r := Ok(status == SUCCESS);
    }
  }

  /** The class itself: its `__instance` attribute, unset before the first call. */
  class EngineClass {
    var instance: Engine?

    constructor ()
      ensures instance == null
    {
      instance := null;
    }

    /** `Engine.instance(...)`: the first call builds the engine and rebinds
        `instance` to a getter, so every later call returns that engine,
        whatever its arguments. */
    method Instance(stage: string, spider: string, clearDb: Dyn) returns (e: Engine)
      modifies this
      ensures old(instance) == null ==>
        fresh(e) && e.stage == stage && e.spider == spider && e.clearDb == Truthy(clearDb)
        && e.effects == []
      ensures old(instance) != null ==> e == old(instance)
      ensures instance == e
    {
      if instance == null {
        e := new Engine(stage, spider, clearDb);
        instance := e;
      } else {
        e := instance;
      }
    }
  }

  /** Two calls in a row give the same engine, built from the first call's
      arguments. */
  method InstanceTwice(cls: EngineClass, stage1: string, spider1: string, stage2: string, spider2: string)
    returns (e1: Engine, e2: Engine)
    requires cls.instance == null
    modifies cls
    ensures e1 == e2 && e2.stage == stage1 && e2.spider == spider1
  {
    e1 := cls.Instance(stage1, spider1, DNone);
    e2 := cls.Instance(stage2, spider2, DBool(true));
  }

  // ----- what a run does -----

  lemma LogLevelIff(stage: string)
    ensures LogLevel(stage) == "DEBUG" <==> stage == "dev" || stage == "test"
    ensures LogLevel(stage) != "DEBUG" ==> LogLevel(stage) == "INFO"
  {
  }

  /** A single spider is only run, and the run reports success regardless. */
  lemma SingleSpider(stage: string, spider: string, clearDb: bool,
                     logs: seq<LogParser.Entry>, ev: string -> map<string, Dyn>)
    requires spider != "all"
    ensures Plan(stage, spider, clearDb, logs, ev)
         == Outcome([RunSingle(spider, LogLevel(stage), stage)], Ok(true))
  {
  }

  /** The full crawl: clear first when asked, then run all spiders, ship the
      logs to S3 and read them, in this order. */
  lemma FullCrawlOrder(stage: string, clearDb: bool,
                       logs: seq<LogParser.Entry>, ev: string -> map<string, Dyn>)
    ensures var effs := Plan(stage, "all", clearDb, logs, ev).effects;
      var n := if clearDb then 1 else 0;
      |effs| >= n + 3
      && (clearDb ==> effs[0] == ClearDatabase)
      && effs[n] == RunAll(LogLevel(stage), stage) && effs[n + 1] == SendS3 && effs[n + 2] == ReadLogs
      && forall i :: n <= i < |effs| ==> effs[i] != ClearDatabase
  {
  }

  /** The database is cleared exactly on a full crawl asked to clear it. */
  lemma ClearsIff(stage: string, spider: string, clearDb: bool,
                  logs: seq<LogParser.Entry>, ev: string -> map<string, Dyn>)
    ensures ClearDatabase in Plan(stage, spider, clearDb, logs, ev).effects <==> spider == "all" && clearDb
  {
    var effs := Plan(stage, spider, clearDb, logs, ev).effects;
    if spider == "all" && clearDb {
      assert effs[0] == ClearDatabase;
    }
  }

  /** Slack hears of a full crawl exactly on the dev and prod stages, once
      the logs were read. */
  lemma NotifiesIff(stage: string, spider: string, clearDb: bool,
                    logs: seq<LogParser.Entry>, ev: string -> map<string, Dyn>)
    ensures var effs := Plan(stage, spider, clearDb, logs, ev).effects;
      (exists i :: 0 <= i < |effs| && effs[i].SendSlack?)
      <==> spider == "all" && Notifies(stage) && LogParser.Jobs(logs, ev, LogParser.Parser).Ok?
  {
    var effs := Plan(stage, spider, clearDb, logs, ev).effects;
    if spider == "all" && Notifies(stage) && LogParser.Jobs(logs, ev, LogParser.Parser).Ok? {
      assert effs[|effs| - 1].SendSlack?;
    }
  }

  /** The notification is the last effect and carries the classification
      and the table; as written, sending it raises the schema's
      ValidationError naming `ps`. */
  lemma NotificationIsLast(stage: string, spider: string, clearDb: bool,
                           logs: seq<LogParser.Entry>, ev: string -> map<string, Dyn>)
    ensures var effs := Plan(stage, spider, clearDb, logs, ev).effects;
      forall i :: 0 <= i < |effs| && effs[i].SendSlack? ==>
        i == |effs| - 1 && "summary" in effs[i].data
        && Slack.Send(effs[i].status, effs[i].data).Err?
        && Slack.Send(effs[i].status, effs[i].data).error.ValidationError?
        && "ps" in Slack.Send(effs[i].status, effs[i].data).error.fields
  {
    if spider == "all" && LogParser.Jobs(logs, ev, LogParser.Parser).Ok? {
      var jobs := LogParser.Jobs(logs, ev, LogParser.Parser).value;
      var data := jobs["summary" := LogParser.SummaryOf(jobs)];
      var status := Analyzer.Analyze(data, None).value;
      var crawl := Crawl(stage, clearDb);
      var notice := if Notifies(stage) then [SendSlack(status, data)] else [];
      assert Plan(stage, spider, clearDb, logs, ev).effects == crawl + notice;
      Slack.SendRaises(status, data);
    }
  }

  /** The effects of a full crawl before the notification. */
  function Crawl(stage: string, clearDb: bool): (effs: seq<Effect>)
    ensures forall i :: 0 <= i < |effs| ==> !effs[i].SendSlack?
  {
    (if clearDb then [ClearDatabase] else []) + [RunAll(LogLevel(stage), stage), SendS3, ReadLogs]
  }

  /** A full crawl whose logs read returns, on a stage without notification,
      whether the summary meets the thresholds (the analyzer is asked without
      a stage); on dev and prod the Slack send raises the schema's
      ValidationError naming `ps`, which `run` passes on. A failed read is
      passed on too. */
  lemma FullCrawlResult(stage: string, clearDb: bool,
                        logs: seq<LogParser.Entry>, ev: string -> map<string, Dyn>)
    ensures LogParser.Jobs(logs, ev, LogParser.Parser).Err? ==>
      Plan(stage, "all", clearDb, logs, ev).result == Err(LogParser.Jobs(logs, ev, LogParser.Parser).error)
    ensures LogParser.Jobs(logs, ev, LogParser.Parser).Ok? && !Notifies(stage) ==>
      var s := LogParser.SummaryOf(LogParser.Jobs(logs, ev, LogParser.Parser).value);
      Plan(stage, "all", clearDb, logs, ev).result
      == Ok(s.collected >= 5000 && 10 * s.errors <= s.collected && s.elapsed <= 7200)
    ensures LogParser.Jobs(logs, ev, LogParser.Parser).Ok? && Notifies(stage) ==>
      Plan(stage, "all", clearDb, logs, ev).result.Err?
      && Plan(stage, "all", clearDb, logs, ev).result.error.ValidationError?
      && "ps" in Plan(stage, "all", clearDb, logs, ev).result.error.fields
  {
    if LogParser.Jobs(logs, ev, LogParser.Parser).Ok? {
      var jobs := LogParser.Jobs(logs, ev, LogParser.Parser).value;
      var data := jobs["summary" := LogParser.SummaryOf(jobs)];
      if Notifies(stage) {
        Slack.SendRaises(Analyzer.Analyze(data, None).value, data);
      } else {
        Analyzer.ThresholdsDecide(data, None);
      }
    }
  }
}
