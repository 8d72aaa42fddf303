/** The older reader of the job logs (`LogViewer.result`): the same loop and
    the same summary as the parser, but the statistics block is captured
    greedily, to the last "}" of the file, and the error count is required. */
module LogViewer {
  import opened Wrappers
  import opened Values
  import opened LogResults
  import StatsBlock
  import LogParser

  /** `_convert`: like the parser's, except that a missing "log_count/ERROR"
      is a KeyError rather than 0. */
  function Convert(data: map<string, Dyn>): (r: Result<LogResult, Exc>)
    ensures "item_scraped_count" in data && "log_count/ERROR" !in data ==>
      r == Err(KeyError("log_count/ERROR"))
    ensures r.Ok? <==> "log_count/ERROR" in data && LogParser.Convert(data).Ok?
    ensures r.Ok? ==> r == LogParser.Convert(data)
  {
    if "item_scraped_count" !in data then Err(KeyError("item_scraped_count"))
    else if "log_count/ERROR" !in data then Err(KeyError("log_count/ERROR"))
    else if "elapsed_time_seconds" !in data then Err(KeyError("elapsed_time_seconds"))
    else match IntOf(data["elapsed_time_seconds"])
      case None => Err(TypeError)
      case Some(elapsed) =>
        var collected := data["item_scraped_count"];
        var errors := data["log_count/ERROR"];
        if !collected.DInt? || !errors.DInt? then Err(TypeError)
        else Ok(LogResult(collected.i, errors.i, elapsed))
  }

  const Viewer: LogParser.Reader := LogParser.Reader(StatsBlock.GreedyBlock, Convert)

  /** `LogViewer.result` */
  method Result(dir: seq<LogParser.Entry>, ev: string -> map<string, Dyn>)
    returns (r: Result<map<string, LogResult>, Exc>)
    ensures r == LogParser.WithSummary(LogParser.Jobs(dir, ev, Viewer))
  {
    r := LogParser.ReadAll(dir, ev, Viewer);
  }

  /** The two readers find a block in the same files; when the block is the
      same and the viewer converts it, both give the same record. */
  lemma SameFilesSameRecords(e: LogParser.Entry, ev: string -> map<string, Dyn>)
    ensures LogParser.JobStats(e, ev, Viewer).Some? ==>
      StatsBlock.LazyBlock(e.text).Some?
    ensures StatsBlock.LazyBlock(e.text) == StatsBlock.GreedyBlock(e.text)
            && LogParser.JobStats(e, ev, Viewer).Some?
            && Convert(LogParser.JobStats(e, ev, Viewer).value).Ok? ==>
      LogParser.JobStats(e, ev, LogParser.Parser) == LogParser.JobStats(e, ev, Viewer)
      && LogParser.Parser.convert(LogParser.JobStats(e, ev, LogParser.Parser).value)
         == Viewer.convert(LogParser.JobStats(e, ev, Viewer).value)
  {
    StatsBlock.LazyIsPrefixOfGreedy(e.text);
  }
}
