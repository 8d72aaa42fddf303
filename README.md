# pyoniverse-crawler, modelled in Dafny

This project models the core of the pyoniverse crawler. The crawler is a
scrapy project that collects convenience-store products and events, checks
them and stores them. It then reads back each job's log, classifies the crawl
and reports it to Slack.

The model covers these parts, file by file:

- **Engine.** `Engine` is the single instance and its `run`. `run` either runs
  one spider, or runs them all and then:
  - clears the database first, when asked;
  - ships the logs to S3 and reads them;
  - classifies the crawl;
  - notifies Slack on the dev and prod stages.

  What the collaborators do to the world is a trace of effects.
- **Log readers.** `LogParser` turns every `*.log` file whose statistics block
  is found into a `LogResult`, keyed by the job name. It adds a `summary`
  record: the summed counts and the longest running time.
- **Older log reader.** `LogViewer` runs the same loop with a greedy block
  pattern and a required error count.
- **Analyzer.** `Analyzer` applies the stage overrides and the thresholds
  (5000 items, 10% errors, 7200 seconds).
- **Slack message.** Three parts build it:
  - `TypeToMessageConverter` writes the text;
  - the `Message` and `LogResult` marshmallow schemas load the records;
  - `SlackSender` assembles the message.
- **Item records.** The records are `CrawledInfoVO`, `PriceVO`, `ImageVO`,
  `ProductVO` and `EventVO`. Covered are:
  - their `dataclasses.asdict` form;
  - their marshmallow schemas;
  - the closed lookup tables of `items/utils.py`.
- **Item pipelines.** There are three:
  - validation;
  - the Mongo upsert;
  - the S3 image pipeline: `file_path`, `item_completed`, the stored size of
    `get_images` and the size bookkeeping of `image_downloaded`.
- **Spiders.** The parse callbacks of the GS25, cspace and CU event spiders
  are modelled on the values they extract from a page.

A small Python layer sits underneath:
- `Values`: Python values as a `Dyn` datatype, exceptions, and `int()` on
  floats;
- `Strings`: prefix and suffix tests, `in`, `upper`, `strip`, `str(int)`,
  `split`/`join` and the digit filter;
- `PurePath`: `name`, `stem`, `suffix`, `with_suffix`;
- `Schema`: a declarative marshmallow engine with `validate` and the
  unknown-key policies.

Classes whose fields the source updates in place are Dafny classes whose
methods are proved against specification functions:
- `Engine.Engine` and `Engine.EngineClass`;
- `Db.DatabasePipeline`;
- `ImagePipeline.ImageState` and `ImagePipeline.S3ImagePipeline`.

Loops in the source are methods with loop invariants:
- `LogParser.Summary`;
- `LogParser.ReadAll`;
- `CuEvent.Parse`;
- `Gs25.ParsePage`.

Places where the crawler's intended behaviour and the code part ways (the model follows the code):

- **Images never validate.** `ImageSchema` declares `others` with an
  annotation instead of an assignment (`pyoniverse/items/schemas/__init__.py:17`).
  So marshmallow does not know the field. Every image dictionary carries it,
  and under the default RAISE policy every image record is invalid
  (`ItemSchemas.ImageDictInvalid`).
- **Products never pass validation.** `ProductSchema` requires `category`, but
  `ProductVO` has no such field. Its image is also invalid, so no product
  passes the validation pipeline (`Validator.ProductsDropped`). The database
  pipeline (`pyoniverse/pipelines/db.py`) expects validated products to reach it.
- **The spiders' records do not build.** They call the record classes with
  keywords those classes do not declare: `brand=`, `category=`,
  `discounted_value=`. The model therefore yields the values the spiders
  compute, not the records.
- **The Slack notification always fails.** `SlackSender._convert` puts the job
  table itself into `ps`, where the message schema wants strings
  (`pyoniverse/out/slack/slack.py:24`). It also puts the enum member under
  "type", where `fields.Enum` wants a member's name. So every full crawl at the dev or prod
  stage ends in a ValidationError (`Engine.FullCrawlResult`).
- **Brands missing from the table.** The brands `cspace` and `emart24` are not
  in the brand table. So building a cspace product always ends in a
  ValueError (`Cspace.ParseProductAlwaysFails`).

## Model

| member | source | states |
|---|---|---|
| Engine.Engine.constructor | pyoniverse/engine.py:23-26 | stage and spider are kept, and `clear_db` is read for its truthiness (an absent keyword counts as None); no effect yet |
| Engine.Engine.Run | pyoniverse/engine.py:28-54 | the effects appended and the value returned are exactly those of the run plan: one spider, or clear, run all, S3, read the logs, then notify; an exception from reading the logs or from the Slack send is passed on |
| Engine.Plan | pyoniverse/engine.py:28-54 | the run plan `Engine.Engine.Run` is proved equal to; its behaviour is stated by LogLevelIff, SingleSpider, FullCrawlOrder, ClearsIff, NotifiesIff, NotificationIsLast and FullCrawlResult |
| Engine.EngineClass.constructor | pyoniverse/engine.py:11 | the class starts with no instance |
| Engine.EngineClass.Instance | pyoniverse/engine.py:13-21 | the first call builds a fresh engine from its arguments; every later call returns that same engine whatever its arguments |
| Engine.InstanceTwice | pyoniverse/engine.py:17-21 | two calls in a row give one engine, built from the first call's stage and spider |
| Engine.LogLevelIff | pyoniverse/engine.py:29-32 | the log level is DEBUG exactly on the dev and test stages, INFO otherwise |
| Engine.SingleSpider | pyoniverse/engine.py:34-38 | a named spider is only run, and the run reports success |
| Engine.FullCrawlOrder | pyoniverse/engine.py:39-50 | a full crawl clears first when asked, then runs all spiders, ships to S3 and reads the logs, in this order, and never clears later |
| Engine.ClearsIff | pyoniverse/engine.py:40-42 | the database is cleared exactly on a full crawl asked to clear it |
| Engine.NotifiesIff | pyoniverse/engine.py:52-53 | Slack is notified exactly on a full crawl at the dev or prod stage whose logs were read |
| Engine.NotificationIsLast | pyoniverse/engine.py:52-53 | the notification is the last effect, its table holds a summary, and the send raises the message schema's ValidationError naming `ps` |
| Engine.Crawl | pyoniverse/engine.py:40-50 | the effects before the notification hold no Slack message |
| Engine.FullCrawlResult | pyoniverse/engine.py:48-54 | a failed read is passed on; otherwise a full crawl at the test stage (or any stage but dev and prod) returns the threshold test on the summary, and at dev and prod it raises the Slack send's ValidationError naming `ps` |
| LogParser.JobName | pyoniverse/parser/log_parser/log_parser.py:16-18 | the job name followed by ".log" is the file name |
| LogParser.Convert | pyoniverse/parser/log_parser/log_parser.py:38-44 | succeeds exactly when the scraped count is an int, the optional error count is an int and the running time is a number; a missing key is a KeyError; the record holds those values, an error count of 0 when absent and the running time truncated |
| LogParser.Summary | pyoniverse/parser/log_parser/log_parser.py:46-58 | the loop returns the summary: the total items, the total errors and the longest running time |
| LogParser.SummaryOfEmpty | pyoniverse/parser/log_parser/log_parser.py:47-49 | the summary of no jobs is all zeros |
| LogParser.SummaryOf | pyoniverse/parser/log_parser/log_parser.py:46-58 | the summary record `_summary` returns; `LogParser.Summary` is proved equal to it, and SummaryOfEmpty, SummaryOfSplit and SummaryBounds state it |
| LogParser.SumOver | pyoniverse/parser/log_parser/log_parser.py:50-52 | the running sums of the summary loop; SumOverRemove, OverFrame and SumOverIsUpperBound state it |
| LogParser.MaxOver | pyoniverse/parser/log_parser/log_parser.py:53 | the running `max` of the summary loop, from 0; MaxOverRemove, MaxOverIsUpperBound and MaxOverIsAttained state it |
| LogParser.SummaryOfSplit | pyoniverse/parser/log_parser/log_parser.py:50-53 | one job folded into the summary of the others gives the summary, as the loop accumulates it |
| LogParser.SumOverRemove | pyoniverse/parser/log_parser/log_parser.py:50-52 | a sum does not depend on the order the records are visited in |
| LogParser.MaxOverRemove | pyoniverse/parser/log_parser/log_parser.py:53 | a maximum does not depend on the order the records are visited in |
| LogParser.OverFrame | pyoniverse/parser/log_parser/log_parser.py:50-53 | only the records visited affect the sum and the maximum |
| LogParser.MaxOverIsUpperBound | pyoniverse/parser/log_parser/log_parser.py:53 | the maximum is at least 0 and at least every record's value |
| LogParser.MaxOverIsAttained | pyoniverse/parser/log_parser/log_parser.py:53 | over non-negative values the maximum of a non-empty table is one of them |
| LogParser.SumOverIsUpperBound | pyoniverse/parser/log_parser/log_parser.py:50-52 | over non-negative values every record's count is at most the total |
| LogParser.SummaryBounds | pyoniverse/parser/log_parser/log_parser.py:46-58 | each job's counts are at most the totals, and the summary running time is at least every job's and, for a non-empty table, equal to one of them |
| LogParser.ReadAll | pyoniverse/parser/log_parser/log_parser.py:13-23 | the directory loop returns the job table with its summary, or the first conversion error |
| LogParser.Jobs | pyoniverse/parser/log_parser/log_parser.py:15-20 | the job table the directory loop builds; `LogParser.ReadAll` is proved equal to it, and JobsKeys, JobsValue, JobsStep, JobsErrIff and JobsErrSticks state it |
| LogParser.Parse | pyoniverse/parser/log_parser/log_parser.py:13-23 | `parse` is that loop with the lazy block pattern and the parser's conversion |
| LogParser.JobsErrSticks | pyoniverse/parser/log_parser/log_parser.py:19-20 | once a prefix of the directory fails to convert, the whole read fails the same way |
| LogParser.JobsKeys | pyoniverse/parser/log_parser/log_parser.py:15-20 | the keys of the job table are exactly the names of the ".log" files with a found, non-empty block |
| LogParser.JobInSplit | pyoniverse/parser/log_parser/log_parser.py:15-20 | a job of the directory is a job of its first entries or of its last one |
| LogParser.JobsStep | pyoniverse/parser/log_parser/log_parser.py:15-20 | one more entry adds at most its own job name |
| LogParser.JobsValue | pyoniverse/parser/log_parser/log_parser.py:19-20 | a job's record is the conversion of its statistics, taken from the last file with that name |
| LogParser.JobsErrIff | pyoniverse/parser/log_parser/log_parser.py:19-20 | the read fails exactly when some job's statistics fail to convert |
| LogParser.SummaryEntry | pyoniverse/parser/log_parser/log_parser.py:22 | the table always has a summary computed from the jobs, and every other job is kept |
| LogParser.NoJobs | pyoniverse/parser/log_parser/log_parser.py:15-22 | a directory without jobs reads as a lone all-zero summary |
| LogParser.SkippedEntry | pyoniverse/parser/log_parser/log_parser.py:16-20 | a file that is not ".log", or whose block is missing or empty, changes nothing |
| StatsBlock.FindMarker | pyoniverse/parser/log_parser/log_parser.py:31 | finds the first occurrence of the stats marker at or after the start point |
| StatsBlock.FirstClose | pyoniverse/parser/log_parser/log_parser.py:31 | finds the first "}" at or after the start point |
| StatsBlock.LastClose | pyoniverse/log_viewer/log_viewer.py:28 | finds the last "}" at or after the start point |
| StatsBlock.NoMatchAfterFailedMarker | pyoniverse/parser/log_parser/log_parser.py:31 | if the first marker starts no match, no later marker does |
| StatsBlock.LazyBlock | pyoniverse/parser/log_parser/log_parser.py:31-33 | a block is found exactly when some match exists, and it is the leftmost, shortest match's group |
| StatsBlock.GreedyBlock | pyoniverse/log_viewer/log_viewer.py:28-30 | a block is found exactly when some match exists, and it is the leftmost, longest match's group |
| StatsBlock.LazyIsPrefixOfGreedy | pyoniverse/log_viewer/log_viewer.py:28 | both patterns find a block in the same texts, and the lazy block is a prefix of the greedy one |
| LogViewer.Convert | pyoniverse/log_viewer/log_viewer.py:35-41 | like the parser's conversion, but a missing error count is a KeyError |
| LogViewer.Result | pyoniverse/log_viewer/log_viewer.py:13-23 | the viewer's loop returns the job table with its summary under the greedy pattern |
| LogViewer.SameFilesSameRecords | pyoniverse/log_viewer/log_viewer.py:25-41 | the viewer finds a block only where the parser does; when the blocks agree and the viewer converts, both give the same record |
| LogResults.Load | pyoniverse/out/model/log_result.py:13-37 | a failed load is a ValidationError naming at least one field |
| LogResults.FieldTable | pyoniverse/out/model/log_result.py:14-16 | the schema declares three required integer fields, in order |
| LogResults.LoadOkIff | pyoniverse/out/model/log_result.py:14-16 | `load` succeeds exactly when each of the three keys holds a number |
| LogResults.LoadMissingKey | pyoniverse/out/model/log_result.py:14-16 | a missing key fails the load, and the error names that key |
| LogResults.LoadValues | pyoniverse/out/model/log_result.py:29-30 | the loaded record holds the given numbers, floats truncated toward zero |
| LogResults.LoadIgnoresUnknown | pyoniverse/out/model/log_result.py:32-33 | keys other than the three fields do not change the outcome |
| LogResults.LoadAgrees | pyoniverse/out/model/log_result.py:13-16 | `load` reads nothing but the three keys |
| LogResults.LoadAsDict | pyoniverse/out/model/log_result.py:35-37 | loading a record's dictionary gives the record back |
| LogResults.AsDict | pyoniverse/out/model/log_result.py:7-11 | `asdict` of a record, the three declared fields; LoadAsDict states that `load` inverts it |
| LogResults.DictRepr | pyoniverse/out/converter/type_to_message.py:18 | `str(asdict(r))`; DictReprInjective states that distinct records render differently |
| LogResults.DictReprInjective | pyoniverse/out/converter/type_to_message.py:18 | the text rendering of a record's dictionary can be read back: distinct records render differently |
| Analyzer.PassesIff | pyoniverse/analyzer/analyzer.py:26-30 | the percentage test is the integer test 10 × errors ≤ collected, reached only with at least 5000 items |
| Analyzer.Analyze | pyoniverse/analyzer/analyzer.py:12-33 | `analyze`: a non-empty stage decides alone (StageOverrides), otherwise the thresholds on the summary (ThresholdsDecide, PassesIff, OnlySummaryRead) |
| Analyzer.StageOverrides | pyoniverse/analyzer/analyzer.py:16-23 | a debug or test stage decides alone, whatever the data; any other non-empty stage is NotImplementedError |
| Analyzer.ThresholdsDecide | pyoniverse/analyzer/analyzer.py:25-33 | with no stage, SUCCESS exactly when all three thresholds hold, else ERROR; a missing summary is a KeyError |
| Analyzer.OnlySummaryRead | pyoniverse/analyzer/analyzer.py:25 | nothing but the summary record is read |
| Analyzer.Boundaries | tests/test_analyzer/test_unit.py:15-44 | every threshold is inclusive, and one step past any of them gives ERROR |
| TypeToMessage.ConvertCases | pyoniverse/out/converter/type_to_message.py:13-36 | a value that is not a message type is NotImplementedError; without a summary the result is a KeyError; otherwise the text starts with the type's label |
| TypeToMessage.Convert | pyoniverse/out/converter/type_to_message.py:13-36 | `convert`; ConvertCases states its cases and errors, TextDeterminesInputs that the text determines the type and the summary |
| TypeToMessage.BranchesDifferOnlyInLabel | pyoniverse/out/converter/type_to_message.py:14-34 | the four branches give the same text after the label |
| TypeToMessage.AfterLabel | pyoniverse/out/converter/type_to_message.py:13-19 | after the label comes " Result: " and the rendering of the summary |
| TypeToMessage.OnlySummaryRead | pyoniverse/out/converter/type_to_message.py:14-34 | nothing but the summary record is read |
| TypeToMessage.TextDeterminesInputs | pyoniverse/out/converter/type_to_message.py:13-34 | the text determines the message type and the summary it was made from |
| TypeToMessage.LabelsDiffer | pyoniverse/out/converter/type_to_message.py:13-17 | the four labels share "MessageTypeEnum." and differ in the next character |
| Messages.FieldTable | pyoniverse/out/model/message.py:18-30 | the message schema declares type, source, text, an optional `ps` and a non-empty `cc`, in order |
| Messages.ValidIffAcceptable | pyoniverse/out/model/message.py:18-33 | the schema accepts exactly the dictionaries whose every declared field is acceptable: a member's name as a string under "type", strings under source and text, an absent, None or string-to-string `ps`, and a non-empty list of strings under cc |
| Messages.Load | pyoniverse/out/model/message.py:46-51 | `load` succeeds exactly on acceptable dictionaries, gives the message of their fields (the member named under "type", `ps` {} when absent), and otherwise fails naming a field |
| Messages.ToDict | pyoniverse/out/model/message.py:18-30 | the dictionary of a message's fields, the member's name under "type"; LoadToDict states that `load` inverts it |
| Messages.MemberRejected | pyoniverse/out/model/message.py:19 | an enum member itself under "type" is rejected, and "type" is among the error fields |
| Schema.EnumByMemberName | pyoniverse/out/model/message.py:19 | `fields.Enum` reads every member's name back as that member |
| Messages.LoadToDict | pyoniverse/out/model/message.py:46-51 | loading a message's dictionary, with the type written as its name, gives the message back |
| Messages.LoadIgnoresUnknown | pyoniverse/out/model/message.py:32-33 | undeclared keys change nothing |
| Slack.ConvertAsWrittenAlwaysFails | pyoniverse/out/slack/slack.py:16-27 | as written, building the message never succeeds: without a summary a KeyError, with one a ValidationError naming both "type" and `ps` |
| Slack.ConvertAsWritten | pyoniverse/out/slack/slack.py:16-27 | `_convert` as written; ConvertAsWrittenAlwaysFails and ObjectsRejected state that it never succeeds |
| Slack.Convert | pyoniverse/out/slack/slack.py:16-27 | `_convert` with the name under "type" and the jobs as text under `ps`; ConvertContents and LoadMessageDict state the message it builds |
| Slack.Send | pyoniverse/out/slack/slack.py:13-14 | `send` as written; SendRaises states that it always raises |
| Slack.SendCorrected | pyoniverse/out/slack/slack.py:13-14 | `send` on the corrected `_convert`; SendCorrectedOkIff states when it succeeds |
| Slack.ObjectsRejected | pyoniverse/out/slack/slack.py:21-24 | a message with the member under "type" and records in `ps` is rejected, naming both fields |
| Slack.ConvertContents | pyoniverse/out/slack/slack.py:19-27 | the corrected message (the type given by name, the jobs as text) holds the type, the converter's text, the fixed source and recipient, and the other jobs as text; only a missing summary fails |
| Slack.LoadMessageDict | pyoniverse/out/slack/slack.py:20-27 | a message dictionary with a member's name under "type" and a string-to-string `ps` loads as the message with exactly those parts |
| Slack.SendRaises | pyoniverse/out/slack/slack.py:13-14 | as written, `send` never returns: without a summary it raises KeyError("summary"), with one a ValidationError naming "type" and `ps` |
| Slack.SendCorrectedOkIff | pyoniverse/out/slack/slack.py:13-14 | with the corrected message (type by name, jobs as text), sending succeeds exactly when the table has a summary |
| Db.Upsert | pyoniverse/pipelines/db.py:55-62 | a matched document gets every field set and keeps the rest; otherwise, the query and the fields make a new document; other documents are untouched; the outcome is new exactly without a match, and already-exists exactly when nothing changed |
| Db.AlreadyExistsIff | pyoniverse/pipelines/db.py:63-66 | a matched document is unchanged exactly when it already held every field with the value being set |
| Db.UpsertIdempotent | pyoniverse/pipelines/db.py:56-66 | the second identical write changes nothing and is logged as already existing |
| Db.UpsertKeepsKeyed | pyoniverse/pipelines/db.py:55-56 | every document keeps the crawled info it is keyed by |
| Db.DatabasePipeline.constructor | pyoniverse/pipelines/db.py:25-31 | the pipeline starts on the given store |
| Db.DatabasePipeline.ProcessItem | pyoniverse/pipelines/db.py:45-69 | at the test stage nothing is written; otherwise the item is upserted into "products" by its crawled info, and an item without one raises AttributeError; the item is returned |
| Db.DictHoldsKey | pyoniverse/pipelines/db.py:55-56 | a record's dictionary holds the crawled info it is matched by |
| Db.ProcessTwice | pyoniverse/pipelines/db.py:56-66 | processing an item twice: the second write is logged as already existing and leaves the store as the first did; other collections are untouched |
| Validator.ProcessItem | pyoniverse/pipelines/validator.py:15-33 | the item passes unchanged exactly when it is a record, has a collection and its schema reports no error; otherwise the first failing check decides the drop and its reason |
| Validator.SchemaErrors | pyoniverse/pipelines/validator.py:29-30 | the error keys of `get_schema().validate(asdict(item))`; ProductPassesIff and ProductsDropped state them for products |
| Validator.NestedRecordsDropped | pyoniverse/pipelines/validator.py:26-27 | the nested records have no collection and are dropped |
| Validator.ProductPassesIff | pyoniverse/pipelines/validator.py:29-33 | a product passes exactly when the product schema accepts its dictionary field by field |
| Validator.ProductsDropped | pyoniverse/pipelines/validator.py:29-32 | no product passes, and the reason names `category` and `image` |
| Validator.PassIsStable | pyoniverse/pipelines/validator.py:33 | an item that passes passes again |
| Items.NewProduct | pyoniverse/items/product.py:16-27 | the product holds the given fields, and both timestamps are the clock readings |
| Items.NewEvent | pyoniverse/items/event.py:17-27 | the event holds the given fields, and both timestamps are the clock readings |
| Items.ProductStampsDiscarded | pyoniverse/items/product.py:25-27 | the timestamps a caller passes to a product are discarded |
| Items.EventStampsDiscarded | pyoniverse/items/event.py:25-27 | the timestamps a caller passes to an event are discarded |
| Items.StampsOrdered | pyoniverse/items/product.py:26-27 | with a clock that does not go back, created ≤ updated |
| Items.DictKeys | pyoniverse/items/__init__.py:20-47 | the keys of each nested record's dictionary are its field names |
| Items.AsDict | pyoniverse/pipelines/validator.py:30 | `asdict(item)` of each record; DictKeys, ProductDictKeys and EventDictKeys state its keys, the *DictInjective lemmas that it loses nothing |
| Items.EventDictKeys | pyoniverse/items/event.py:17-23 | an event's dictionary has exactly its seven fields, so `written_at` and no `start_at` |
| Items.ProductDictKeys | pyoniverse/items/product.py:16-23 | a product's dictionary has exactly its eight fields, so no `category` |
| Items.ProductDictInjective | pyoniverse/items/product.py:16-23 | distinct products have distinct dictionaries |
| Items.CrawledInfoDictInjective | pyoniverse/items/__init__.py:23-25 | distinct crawled infos have distinct dictionaries |
| Items.ImageDictInjective | pyoniverse/items/__init__.py:46-47 | distinct images have distinct dictionaries |
| Items.EventDictInjective | pyoniverse/items/event.py:17-23 | distinct events have distinct dictionaries |
| ItemUtils.ConvertCurrency | pyoniverse/items/utils.py:4-13 | only "KRW" converts, to 1; anything else is a ValueError carrying it |
| ItemUtils.Lookup | pyoniverse/items/utils.py:28-47 | a name converts exactly when its normal form is in the table, to that id; otherwise a ValueError carries the normal form |
| ItemUtils.EventIdIsListed | pyoniverse/items/utils.py:29-47 | the event table knows exactly the seven listed names, numbered 1 to 7 in order |
| ItemUtils.BrandIdIsListed | pyoniverse/items/utils.py:52-60 | the brand table knows exactly GS25, CU and SEVEN ELEVEN, numbered in order |
| ItemUtils.CategoryIdIsListed | pyoniverse/items/utils.py:65-91 | the category table knows exactly the twelve listed names, numbered in order |
| ItemUtils.EventNamesNormal | pyoniverse/items/utils.py:28-45 | every listed event name is its own normal form |
| ItemUtils.BrandNamesNormal | pyoniverse/items/utils.py:51-58 | every listed brand name is its own normal form |
| ItemUtils.CategoryNamesNormal | pyoniverse/items/utils.py:64-89 | every listed category name is its own normal form |
| ItemUtils.EventTable | pyoniverse/items/utils.py:23-47 | `convert_event` accepts exactly the names whose normal form is listed, and gives a listed name its position |
| ItemUtils.BrandTable | pyoniverse/items/utils.py:50-60 | `convert_brand` accepts exactly the names whose normal form is listed, and gives a listed name its position |
| ItemUtils.CategoryTable | pyoniverse/items/utils.py:63-91 | `convert_category` accepts exactly the names whose normal form is listed, and gives a listed name its position |
| ItemUtils.ListedEvent | pyoniverse/items/utils.py:29-45 | the i-th listed event converts to i + 1 |
| ItemUtils.ListedCategory | pyoniverse/items/utils.py:65-89 | the i-th listed category converts to i + 1 |
| ItemUtils.LookupNormalizes | pyoniverse/items/utils.py:28 | a name and its normal form get the same answer |
| ItemUtils.ConvertEvent | pyoniverse/items/utils.py:23-47 | `convert_event`, a lookup in the event table; ListedEvent and EventIdIsListed state it (ASCII upper-casing, as ItemUtils.Lookup) |
| ItemUtils.ConvertBrand | pyoniverse/items/utils.py:50-60 | `convert_brand`; BrandIdIsListed, UnknownBrands and UnlistedBrand state it (ASCII upper-casing, as ItemUtils.Lookup) |
| ItemUtils.ConvertCategory | pyoniverse/items/utils.py:63-91 | `convert_category`; ListedCategory and CategoryIdIsListed state it (ASCII upper-casing, as ItemUtils.Lookup) |
| ItemUtils.CurrencyIsExact | pyoniverse/items/utils.py:9-13 | the currency is not normalised: "krw" and " KRW" are errors |
| ItemUtils.UnknownBrands | pyoniverse/items/utils.py:50-60 | "cspace" and "emart24" are unknown brands |
| ItemUtils.CspaceUnknown | pyoniverse/items/utils.py:50-60 | "cspace" is a ValueError carrying "CSPACE" |
| ItemUtils.Emart24Unknown | pyoniverse/items/utils.py:50-60 | "emart24" is a ValueError carrying "EMART24" |
| ItemUtils.UnlistedBrand | pyoniverse/items/utils.py:51-60 | a brand whose normal form is not listed is a ValueError carrying that form |
| ItemUtils.CspaceNormal | pyoniverse/items/utils.py:51 | the normal form of "cspace" is "CSPACE" |
| ItemUtils.Emart24Normal | pyoniverse/items/utils.py:51 | the normal form of "emart24" is "EMART24" |
| ItemUtils.NormalizedAs | pyoniverse/items/utils.py:28 | an upper-cased string without surrounding blanks is the normal form |
| ItemUtils.NormalFixed | pyoniverse/items/utils.py:28 | a name without lower case or surrounding blanks is its own normal form |
| ItemUtils.TablesInjective | pyoniverse/items/utils.py:29-90 | no two names of a table share an id, and ids lie in each table's range |
| ItemUtils.ConvertersInjective | pyoniverse/items/utils.py:23-91 | the converters are injective on normal forms, and every id is in range |
| Strings.Upper | pyoniverse/items/utils.py:28 | `upper()` on the ASCII letters: each character maps to itself or its ASCII capital, so the length is kept |
| Strings.UpperIsUpper | pyoniverse/items/utils.py:28 | the result of `upper()` is upper case |
| Strings.UpperOfUpper | pyoniverse/items/utils.py:28 | `upper()` of an upper-case string changes nothing |
| Strings.StripLeft | pyoniverse/items/utils.py:28 | the result is a suffix without a leading blank |
| Strings.StripRight | pyoniverse/items/utils.py:28 | the result is a prefix without a trailing blank |
| Strings.Strip | pyoniverse/items/utils.py:28 | `strip()` leaves no blank at either end |
| Strings.StripKeepsUpper | pyoniverse/items/utils.py:28 | stripping an upper-case string keeps it upper case |
| Strings.StripOfStripped | pyoniverse/items/utils.py:28 | stripping a string without surrounding blanks changes nothing |
| Strings.NormalizeIdempotent | pyoniverse/items/utils.py:28 | `upper().strip()` twice is once |
| Strings.ContainsIff | pyoniverse/spiders/gs25web.py:279 | `sub in s` holds exactly when `sub` occurs at some position |
| Strings.Contains | pyoniverse/spiders/gs25web.py:279 | Python's `sub in s` on strings; ContainsIff states that it holds exactly when `sub` occurs at some position |
| Strings.NatToString | pyoniverse/out/converter/type_to_message.py:18 | `str(n)` is non-empty decimal digits without a leading zero |
| Strings.DigitsValueOfNatToString | pyoniverse/out/converter/type_to_message.py:18 | reading `str(n)` back gives n |
| Strings.IntToStringChars | pyoniverse/out/converter/type_to_message.py:18 | `str(i)` holds only digits and a minus sign |
| Strings.IntToStringInjective | pyoniverse/out/converter/type_to_message.py:18 | distinct integers render differently |
| Strings.DigitsOf | pyoniverse/spiders/cspaceweb.py:85 | `re.sub(r"\D", "", s)` keeps only digits and never grows |
| Strings.DigitsOfAllDigits | pyoniverse/spiders/cspaceweb.py:85 | a string of digits is kept whole |
| Strings.LastIndexOf | pyoniverse/spiders/cspaceweb.py:90 | the last occurrence of a character, or none |
| Strings.Split | pyoniverse/spiders/cspaceweb.py:90 | `split("/")` gives pieces without the separator |
| Strings.JoinSplit | pyoniverse/spiders/cspaceweb.py:90 | `"/".join(s.split("/"))` is s |
| Strings.SplitLast | pyoniverse/spiders/cspaceweb.py:90 | splitting s + "/" + t with t free of "/" is the pieces of s followed by t |
| PurePath.NameStart | pyoniverse/spiders/gs25web.py:211 | the final component starts just after the last "/" |
| PurePath.Name | pyoniverse/spiders/gs25web.py:211 | `Path(p).name`, from NameStart on (no normalisation, as PurePath.NameStart) |
| PurePath.Suffix | pyoniverse/spiders/cspaceweb.py:90 | `Path(p).suffix`; StemAndSuffix states pathlib's rule and that stem and suffix make the name |
| PurePath.WithSuffix | pyoniverse/spiders/cspaceweb.py:90 | `str(Path(p).with_suffix(ext))`; WithSuffixParts states its parts (no normalisation, as PurePath.WithSuffixParts) |
| PurePath.Stem | pyoniverse/spiders/gs25web.py:211 | the stem is a prefix of the final component without any "/" |
| PurePath.StemAndSuffix | pyoniverse/spiders/gs25web.py:211 | the stem followed by the suffix is the final component |
| PurePath.WithSuffixParts | pyoniverse/spiders/cspaceweb.py:90 | `with_suffix` keeps the directory and the stem and puts the new suffix last |
| Values.Trunc | pyoniverse/parser/log_parser/log_parser.py:42 | `int()` of a float truncates toward zero |
| Schema.ErrorsEmptyIff | pyoniverse/pipelines/validator.py:30-31 | `validate` reports no error exactly on the dictionaries the schema accepts |
| Schema.Valid | pyoniverse/pipelines/validator.py:30-31 | when a schema accepts a dictionary; ErrorsEmptyIff ties it to `validate` |
| Schema.Errors | pyoniverse/pipelines/validator.py:30-32 | the keys `validate` reports; ErrorIsFailure, FailingFieldIsError and UnknownKeyIsError state which |
| Schema.ErrorIsFailure | pyoniverse/pipelines/validator.py:30-32 | any reported key means the dictionary is not accepted |
| Schema.FailingFieldIsError | pyoniverse/pipelines/validator.py:30-32 | a declared field that is not acceptable is reported under its name |
| Schema.UnknownKeyIsError | pyoniverse/pipelines/validator.py:30-32 | under RAISE an undeclared key is reported |
| ItemSchemas.CrawledInfoFields | pyoniverse/items/schemas/__init__.py:4-7 | the crawled-info schema declares spider, id and url, all required |
| ItemSchemas.PriceFields | pyoniverse/items/schemas/__init__.py:10-12 | the price schema declares a required float and a required currency in [1] |
| ItemSchemas.ImageFields | pyoniverse/items/schemas/__init__.py:15-17 | the image schema declares only `thumb`; `others` is an annotation |
| ItemSchemas.ProductFields | pyoniverse/items/schemas/product.py:11-20 | the product schema's nine fields, in order |
| ItemSchemas.BrandEventFields | pyoniverse/items/schemas/event.py:6-14 | the brand-event schema's eight fields, in order |
| ItemSchemas.CrawledInfoValidIff | pyoniverse/items/schemas/__init__.py:4-7 | accepted exactly with string spider and id, a URL, and no other key |
| ItemSchemas.PriceValidIff | pyoniverse/items/schemas/__init__.py:10-12 | accepted exactly with a number value, currency 1 (or a float whose `int()` is 1), and no other key |
| ItemSchemas.ImageValidIff | pyoniverse/items/schemas/__init__.py:15-17 | accepted exactly with a URL thumb and no other key |
| ItemSchemas.ProductValidIff | pyoniverse/items/schemas/product.py:11-20 | the product schema accepts exactly the dictionaries that satisfy each of its nine fields and have no other key |
| ItemSchemas.ProductValidAccepts | pyoniverse/items/schemas/product.py:11-20 | acceptance implies each field's condition |
| ItemSchemas.ProductAcceptsValid | pyoniverse/items/schemas/product.py:11-20 | each field's condition implies acceptance |
| ItemSchemas.ProductAcceptsFieldAt | pyoniverse/items/schemas/product.py:11-20 | the i-th declared product field holds under the field conditions |
| ItemSchemas.ProductKeys | pyoniverse/items/schemas/product.py:11-20 | the declared product names are exactly the nine keys |
| ItemSchemas.ProductCrawledInfoField | pyoniverse/items/schemas/product.py:12 | `crawled_info` holds exactly with a valid nested crawled-info dictionary |
| ItemSchemas.ProductCategoryField | pyoniverse/items/schemas/product.py:13 | `category` holds exactly with a present number |
| ItemSchemas.ProductNameField | pyoniverse/items/schemas/product.py:14 | `name` holds exactly with a present string |
| ItemSchemas.ProductPriceField | pyoniverse/items/schemas/product.py:15 | `price` holds exactly with a valid nested price |
| ItemSchemas.ProductImageField | pyoniverse/items/schemas/product.py:16 | `image` holds exactly with a valid nested image |
| ItemSchemas.ProductEventsField | pyoniverse/items/schemas/product.py:17 | `events` holds exactly with a list that the event schema accepts item by item |
| ItemSchemas.ProductDescriptionField | pyoniverse/items/schemas/product.py:18 | `description` holds when absent, None or a string |
| ItemSchemas.ProductCreatedAtField | pyoniverse/items/schemas/product.py:19 | `created_at` holds exactly with a present number |
| ItemSchemas.ProductUpdatedAtField | pyoniverse/items/schemas/product.py:20 | `updated_at` holds exactly with a present number |
| ItemSchemas.BrandEventValidIff | pyoniverse/items/schemas/event.py:6-14 | the brand-event schema accepts exactly the dictionaries that satisfy each of its eight fields and have no other key |
| ItemSchemas.BrandEventValidAccepts | pyoniverse/items/schemas/event.py:6-14 | acceptance implies each field's condition |
| ItemSchemas.BrandEventAcceptsValid | pyoniverse/items/schemas/event.py:6-14 | each field's condition implies acceptance |
| ItemSchemas.BrandEventAcceptsFieldAt | pyoniverse/items/schemas/event.py:6-14 | the i-th declared brand-event field holds under the field conditions |
| ItemSchemas.BrandEventKeys | pyoniverse/items/schemas/event.py:6-14 | the declared brand-event names are exactly the eight keys |
| ItemSchemas.BrandEventCrawledInfoField | pyoniverse/items/schemas/event.py:7 | `crawled_info` holds exactly with a valid nested crawled-info dictionary |
| ItemSchemas.BrandEventCreatedAtField | pyoniverse/items/schemas/event.py:8 | `created_at` holds exactly with a present number |
| ItemSchemas.BrandEventUpdatedAtField | pyoniverse/items/schemas/event.py:9 | `updated_at` holds exactly with a present number |
| ItemSchemas.BrandEventStartAtField | pyoniverse/items/schemas/event.py:10 | `start_at` holds exactly with a present number |
| ItemSchemas.BrandEventEndAtField | pyoniverse/items/schemas/event.py:11 | `end_at` holds exactly with a present number |
| ItemSchemas.BrandEventNameField | pyoniverse/items/schemas/event.py:12 | `name` holds exactly with a present string |
| ItemSchemas.BrandEventDescriptionField | pyoniverse/items/schemas/event.py:13 | `description` is required but may be None |
| ItemSchemas.BrandEventImageField | pyoniverse/items/schemas/event.py:14 | `image` holds exactly with a valid nested image |
| ItemSchemas.CrawledInfoDictValid | pyoniverse/items/schemas/__init__.py:4-7 | a crawled-info record's dictionary is valid exactly when its url is a URL |
| ItemSchemas.PriceDictValid | pyoniverse/items/schemas/__init__.py:10-12 | a price record's dictionary is valid exactly when its currency is 1 |
| ItemSchemas.ImageDictInvalid | pyoniverse/items/schemas/__init__.py:15-17 | no image record is valid: `others` is always reported |
| ItemSchemas.ProductDictInvalid | pyoniverse/items/schemas/product.py:13-16 | no product record is valid: `category` and `image` are always reported |
| ItemSchemas.EventDictNotBrandEvent | pyoniverse/items/schemas/event.py:6-14 | an event record's dictionary fails the brand-event schema on `start_at`, `end_at`, `written_at` and `image` |
| ItemSchemas.ProductWithoutCategory | pyoniverse/items/schemas/product.py:13 | a dictionary without `category` is reported under it |
| ItemSchemas.ProductWithBadImage | pyoniverse/items/schemas/product.py:16 | an invalid nested image is reported under `image` |
| ItemSchemas.BrandEventOfEventDict | pyoniverse/items/schemas/event.py:10-14 | missing dates, an undeclared `written_at` and a bad image are all reported |
| ImagePipeline.FilePath | pyoniverse/pipelines/image.py:49-58 | a path is given exactly for products and events; any other item is a ValueError |
| ImagePipeline.FilePathRewrite | pyoniverse/pipelines/image.py:57 | only a leading "full" is replaced by the kind's directory |
| ImagePipeline.ScrapyPathsMoved | pyoniverse/pipelines/image.py:50-58 | "full/<name>" becomes "products/<name>" or "events/<name>" |
| ImagePipeline.S3Url | pyoniverse/pipelines/image.py:68-72 | the stored address is an s3 address |
| ImagePipeline.S3UrlLayout | pyoniverse/pipelines/image.py:68-72 | the address is the bucket, the optional prefix, then the path with suffix ".webp" and the same stem |
| ImagePipeline.Replace | pyoniverse/pipelines/image.py:76-78 | every entry equal to the URL is replaced, the rest kept, length and order unchanged |
| ImagePipeline.NonS3 | pyoniverse/pipelines/image.py:83 | keeps exactly the entries that are not s3 addresses |
| ImagePipeline.StepShape | pyoniverse/pipelines/image.py:65-80 | a failed download changes nothing; a successful one sets the thumb or replaces the matching other images |
| ImagePipeline.Step | pyoniverse/pipelines/image.py:65-80 | one pass of the loop of `item_completed`; StepShape and DownloadedThumbIsS3 state it |
| ImagePipeline.Steps | pyoniverse/pipelines/image.py:65-80 | the loop over the results in order; StepsSplit and StepsIntroduceOnlyS3 state it |
| ImagePipeline.Finish | pyoniverse/pipelines/image.py:81-83 | the two statements after the loop; CompletedShape states their effect |
| ImagePipeline.Completed | pyoniverse/pipelines/image.py:60-84 | what `item_completed` leaves in the image; `ImagePipeline.S3ImagePipeline.ItemCompleted` is proved equal to it, and CompletedShape and S3ThumbStays state it |
| ImagePipeline.StepsIntroduceOnlyS3 | pyoniverse/pipelines/image.py:65-80 | the loop brings in nothing but s3 addresses |
| ImagePipeline.CompletedShape | pyoniverse/pipelines/image.py:81-83 | afterwards the thumb is None, empty or s3, and `others` keeps only original non-s3 URLs |
| ImagePipeline.S3ThumbStays | pyoniverse/pipelines/image.py:65-78 | an s3 thumb stays s3 through the loop |
| ImagePipeline.StepsSplit | pyoniverse/pipelines/image.py:65 | the loop over the results can be split at any point |
| ImagePipeline.DownloadedThumbIsS3 | pyoniverse/pipelines/image.py:73-82 | a thumb that was downloaded ends as its s3 address |
| ImagePipeline.StoredSize | pyoniverse/pipelines/image.py:132-150 | each side is raised to the minimum, then capped at 16383 |
| ImagePipeline.StoredSizeBounds | pyoniverse/pipelines/image.py:132-150 | with the crawler's minimums each side lies in [360, 16383], a size in range is kept, and resizing again changes nothing |
| ImagePipeline.ImageState.constructor | pyoniverse/pipelines/image.py:197-203 | the image being processed starts with the record's thumb and others and no sizes |
| ImagePipeline.RecordedKeepsLastOrAll | pyoniverse/pipelines/image.py:197-209 | for the thumb only the last size stays; for other images every size is appended in order |
| ImagePipeline.Recorded | pyoniverse/pipelines/image.py:197-209 | the sizes after recording images in order; RecordedKeepsLastOrAll states it |
| ImagePipeline.S3ImagePipeline.constructor | pyoniverse/pipelines/image.py:27-32 | the pipeline keeps the stage and the store, and nothing is stored yet |
| ImagePipeline.S3ImagePipeline.ItemCompleted | pyoniverse/pipelines/image.py:60-84 | the image is rewritten in place to the completed image; the sizes are unchanged |
| ImagePipeline.S3ImagePipeline.ImageDownloaded | pyoniverse/pipelines/image.py:188-221 | the image's URLs are unchanged, the sizes are recorded, and each file is stored unless at the test stage |
| Gs25.DropOld | pyoniverse/spiders/gs25web.py:200 | keeps exactly the keys that do not end in "Old", with their values |
| Gs25.FloatOf | pyoniverse/spiders/gs25web.py:206 | numbers convert as they are; a string converts when it parses; anything else is a TypeError or ValueError |
| Gs25.ReadBasics | pyoniverse/spiders/gs25web.py:201-211 | name, price and image are read in order; a missing name or price is a KeyError, and a missing or empty image drops the item |
| Gs25.ConvertEach | pyoniverse/spiders/gs25web.py:223-229 | converts every event in order, or fails with the first failure |
| Gs25.CookieAsWrittenIsConstant | pyoniverse/spiders/gs25web.py:296-304 | as written, the cookie page's test gives ICE CREAM for every name `in` can search (string, list or dict) |
| Gs25.CookieCategoryAsWritten | pyoniverse/spiders/gs25web.py:296-335 | the cookie page's rule as written; CookieAsWrittenIsConstant and CookieAsWrittenMisfiles state that it always gives ICE CREAM |
| Gs25.CookieAsWrittenMisfiles | pyoniverse/spiders/gs25web.py:296-326 | so "쿠키" is filed as ICE CREAM, where the corrected rule gives SNACK |
| Gs25.CookieCategory | pyoniverse/spiders/gs25web.py:296-335 | corrected rule, with "빵빠레" looked for in the name: the first word group the name contains decides: ICE CREAM, SNACK, BREAD, else FOOD |
| Gs25.SnackCategory | pyoniverse/spiders/gs25web.py:278-282 | SALAD exactly when `in` finds a salad word in the name (substring, list element or dict key), FOOD otherwise |
| Gs25.MilkCategory | pyoniverse/spiders/gs25web.py:289-295 | BREAD for a bagel, else DRINK when the upper-cased name contains "ML", else FOOD |
| Gs25.RamenCategory | pyoniverse/spiders/gs25web.py:337-346 | FOOD exactly when the name ends in one of the four meal words, CUP NOODLE otherwise |
| Gs25.FreshFoodRules | pyoniverse/spiders/gs25web.py:270-284 | the fresh-food table: lunch box, kimbap, sandwich, and the snack rule |
| Gs25.Category | pyoniverse/spiders/gs25web.py:269-354 | the category of a youus result; FreshFoodRules, ExclusiveRules, UnlistedGroupHasNoCategory, UnknownServiceRaises, UnsearchableName, ListOrDictName and CategoriesListed state it |
| Gs25.ExclusiveRules | pyoniverse/spiders/gs25web.py:285-350 | the exclusive table: drink, household goods, the milk and ramen rules, and ICE CREAM for every cookie-page name, as written |
| Gs25.UnsearchableName | pyoniverse/spiders/gs25web.py:278-346 | on a number, bool or None name, the snack, milk and cookie rules raise TypeError and the ramen rule AttributeError |
| Gs25.ListOrDictName | pyoniverse/spiders/gs25web.py:278-346 | on a list or dict name, `in` tests elements or keys: the snack rule applies, the cookie rule gives ICE CREAM, the milk page gives BREAD on the bagel word and otherwise raises AttributeError at `upper()`, and the ramen rule raises AttributeError |
| Gs25.UnlistedGroupHasNoCategory | pyoniverse/spiders/gs25web.py:269-350 | a product group the table does not list has no category |
| Gs25.UnknownServiceRaises | pyoniverse/spiders/gs25web.py:351-354 | any other service key is a RuntimeError |
| Gs25.CategoriesListed | pyoniverse/spiders/gs25web.py:269-350 | every category the tables give is in the category table |
| Gs25.CategoriesConvert | pyoniverse/spiders/gs25web.py:363 | so the conversion succeeds, and a category is recorded exactly when the table gave one |
| Gs25.Collect | pyoniverse/spiders/gs25web.py:199-231 | the records of the results, in order, up to the first that raises, and what it raised |
| Gs25.Derive | pyoniverse/spiders/gs25web.py:199-230 | the record values of one result, or what the spider raises on it; OldKeysIgnored, ImageRules and FromBasics state it |
| Gs25.DeriveKept | pyoniverse/spiders/gs25web.py:201-230 | the same on a result without "Old" keys; FromBasics, ImageRules, EventGoodsEventRules and YouusEventIds state it |
| Gs25.PageOf | pyoniverse/spiders/gs25web.py:189-241 | what one page callback produces; `Gs25.ParsePage` is proved equal to it, and PagingRules and CollectKeepsError state it |
| Gs25.CollectKeepsError | pyoniverse/spiders/gs25web.py:199-231 | once a result has raised, later results change nothing |
| Gs25.ParsePage | pyoniverse/spiders/gs25web.py:189-241 | the loop over a page gives exactly the page's records (a cookie-page product filed as ICE CREAM, as written) and its request for the next page or its exception |
| Gs25.OldKeysIgnored | pyoniverse/spiders/gs25web.py:200 | keys ending in "Old" never influence a record |
| Gs25.DropOldIdempotent | pyoniverse/spiders/gs25web.py:200 | dropping them twice is dropping them once |
| Gs25.GiftId | pyoniverse/items/utils.py:34-35 | "GIFT" is event 3 |
| Gs25.NewId | pyoniverse/items/utils.py:36-37 | "NEW" is event 4 |
| Gs25.MonopolyId | pyoniverse/items/utils.py:38-39 | "MONOPOLY" is event 5 |
| Gs25.EventGoodsEventRules | pyoniverse/spiders/gs25web.py:202-204 | an event-goods result has one event exactly when it has an event type, and "덤증정" becomes GIFT |
| Gs25.EventGoodsEvents | pyoniverse/spiders/gs25web.py:202-204 | the events of an event-goods result; EventGoodsEventRules states it |
| Gs25.YouusEvents | pyoniverse/spiders/gs25web.py:263-267 | the events of a youus result; YouusEventIds and EventListIds state them |
| Gs25.YouusEventIds | pyoniverse/spiders/gs25web.py:263-267 | NEW for a new product, then MONOPOLY on the exclusive pages, and both always convert |
| Gs25.EventListIds | pyoniverse/spiders/gs25web.py:367-372 | the youus events convert to their ids |
| Gs25.EventListConverts | pyoniverse/spiders/gs25web.py:367-372 | they do so under any converter that knows the two names |
| Gs25.ImageRules | pyoniverse/spiders/gs25web.py:207-211 | a missing image drops the item, and a record's id is the stem of its image |
| Gs25.FromBasics | pyoniverse/spiders/gs25web.py:255-261 | a record is built from the name, price and image read first |
| Gs25.PagingRules | pyoniverse/spiders/gs25web.py:196-241 | an empty page ends its listing; otherwise the next page is requested exactly when nothing raised, and it is page + 1 |
| Cspace.Events | pyoniverse/spiders/cspaceweb.py:63-67 | the events are known event names, at most one per class |
| Cspace.ImageUrl | pyoniverse/spiders/cspaceweb.py:69-76 | no thumb without an image or for "no_img"; otherwise the src on the base URL |
| Cspace.ReadPrice | pyoniverse/spiders/cspaceweb.py:83-87 | succeeds exactly when the stripped text has digits, with their value; otherwise the item is dropped |
| Cspace.EventsAppend | pyoniverse/spiders/cspaceweb.py:65 | the mapping keeps the order of the classes |
| Cspace.EventsMembers | pyoniverse/spiders/cspaceweb.py:65 | an event is present exactly when some class maps to it |
| Cspace.DiscountEvent | pyoniverse/spiders/cspaceweb.py:65 | DISCOUNT is present exactly when the `sale` class is |
| Cspace.DiscountIff | pyoniverse/spiders/cspaceweb.py:105-109 | a product is discounted exactly with the `sale` class, and then at its full price |
| Cspace.EventsConvert | pyoniverse/spiders/cspaceweb.py:111-114 | every event name converts to an event id |
| Cspace.LastTwoOfProductImage | pyoniverse/spiders/cspaceweb.py:90 | the last two pieces of ".../product/<file>" are "product/<file>" |
| Cspace.LastTwo | pyoniverse/spiders/cspaceweb.py:90 | `"/".join(url.split("/")[-2:])`; LastTwoOfProductImage and SplitOfProductImage state it |
| Cspace.CrawlId | pyoniverse/spiders/cspaceweb.py:89-94 | the crawl id; CrawlIdOfProductImage and CrawlIdWithoutImage state it |
| Cspace.SplitOfProductImage | pyoniverse/spiders/cspaceweb.py:90 | splitting such a URL ends in "product" and the file |
| Cspace.CrawlIdOfProductImage | pyoniverse/spiders/cspaceweb.py:89-92 | a product image's crawl id is the stem of its file name |
| Cspace.CrawlIdWithoutImage | pyoniverse/spiders/cspaceweb.py:93-94 | without an image the crawl id is the stripped name |
| Cspace.DerivedFields | pyoniverse/spiders/cspaceweb.py:62-115 | a record's name, price, thumb, events and URL come from the tile as stated |
| Cspace.DropRules | pyoniverse/spiders/cspaceweb.py:78-87 | a tile without a name, or without a price, is dropped with the matching reason |
| Cspace.ReadName | pyoniverse/spiders/cspaceweb.py:78-81 | the stripped name, or the drop; DropRules states it |
| Cspace.Derive | pyoniverse/spiders/cspaceweb.py:62-95 | the record values of a tile in source order; DerivedFields and DropRules state it |
| Cspace.ParseProductAlwaysFails | pyoniverse/spiders/cspaceweb.py:96-103 | building the record always fails, with the brand's ValueError once the values were read |
| Cspace.ParseProduct | pyoniverse/spiders/cspaceweb.py:62-116 | `parse_product`; ParseProductAlwaysFails and BrandRefused state that it always fails |
| Cspace.BrandRefused | pyoniverse/spiders/cspaceweb.py:102 | the brand "cspace" is refused |
| CuEvent.Banner | pyoniverse/spiders/cuweb_event.py:42-48 | the banner is an http URL: kept when it already is one, otherwise put on the image host after a "/" |
| CuEvent.SrcUrl | pyoniverse/spiders/cuweb_event.py:67-77 | a kept source becomes an http URL ending in it; a source is dropped exactly when it starts with none of "http", "/", ":" |
| CuEvent.Kept | pyoniverse/spiders/cuweb_event.py:66-77 | the kept sources are never more than the sources |
| CuEvent.KeptAppend | pyoniverse/spiders/cuweb_event.py:66-77 | collecting a concatenation is collecting each part in turn, so page order is kept |
| CuEvent.KeptFromSources | pyoniverse/spiders/cuweb_event.py:66-77 | every kept entry is the normal form of some source |
| CuEvent.AllKept | pyoniverse/spiders/cuweb_event.py:66-77 | when every source has a normal form, none is lost |
| CuEvent.DroppedShortens | pyoniverse/spiders/cuweb_event.py:66-77 | one dropped source makes the list shorter than the sources |
| CuEvent.Images | pyoniverse/spiders/cuweb_event.py:66-77 | the images are never more than the sources |
| CuEvent.Parse | pyoniverse/spiders/cuweb_event.py:63-94 | the loop gives an event with the banner as thumb and the images of the page |
| CuEvent.BannerIdempotent | pyoniverse/spiders/cuweb_event.py:42-48 | a normalised banner stays as it is |
| CuEvent.SrcUrlIdempotent | pyoniverse/spiders/cuweb_event.py:67-77 | a normalised source stays as it is |
| CuEvent.SlashForms | pyoniverse/spiders/cuweb_event.py:71-77 | "//x", "/x" and "://x" all become "https://x" |
| CuEvent.ProtocolRelative | pyoniverse/spiders/cuweb_event.py:71-73 | "//x" becomes "https://x" |
| CuEvent.RootRelative | pyoniverse/spiders/cuweb_event.py:74-75 | "/x" becomes "https://x" |
| CuEvent.SchemeRelative | pyoniverse/spiders/cuweb_event.py:76-77 | "://x" becomes "https://x" |
| CuEvent.ImagesAppend | pyoniverse/spiders/cuweb_event.py:66-77 | the page's order is kept |
| CuEvent.ImagesAreUrls | pyoniverse/spiders/cuweb_event.py:67-77 | every image is an http URL |
| CuEvent.ImagesFromSources | pyoniverse/spiders/cuweb_event.py:66-77 | every image comes from one source |
| CuEvent.ImagesKeepAll | pyoniverse/spiders/cuweb_event.py:66-77 | no source is lost exactly when every source is kept |

## Left out

- Reading the log directory (`os.listdir`, `open`) and `eval` of the captured block: the directory is a sequence of (name, text) entries in listing order, and `eval` is a function parameter.
- Mongo client details and `DBClient.clear`: the hint, the write concern, opening and closing the client. The store is a map of collections, and clearing is an effect in the engine's trace.
- Pillow (`convert_image`, resizing), the md5 checksum and the S3 upload (`persist_file`): each image size and each stored file is an input; stored files are recorded in order.
- The runners, the sender, `out/s3`, the middlewares, the settings and `main.py`: the engine records them as effects.
- The clock (`get_timestamp`): the readings are parameters.
- Floating point: prices are reals, and `int()` of a float is truncation (`Values.Trunc`).
- HTML and JSON pages (`BeautifulSoup`, `response.json()`): the spiders get the values they would extract. The request headers, the page URLs and the retry on 403 are not modelled.
- The other spiders of the repository are not part of this model.
- marshmallow's URL grammar, and `EventSchema`, which the item modules import but no file defines: both are parameters of the validation context (`Schema.Ctx`). `EventVO` is a third such name: `items/product.py`, `spiders/gs25web.py` and `spiders/cspaceweb.py` import it from `pyoniverse.items`, which does not define it (only `items/event.py` does), so as written those modules do not load. The model uses the event record of `items/event.py` for it.
- `MessageTypeEnum`: its definition is not part of this model. It is a four-member datatype for a plain `Enum` (not a `str` subclass), rendered as "MessageTypeEnum.<NAME>". So `fields.Enum` accepts only a member's name as a string under "type", never the member.
- `BrandEventVO`: the class is undefined. The image pipeline and the CU spider use the event record of `items/event.py` in its place.
- The spiders' record construction: they pass keywords the records do not declare (`brand=`, `category=`, `discounted_value=`). The model yields the values they compute and does not build the records.
- The CU event's start and end dates: `get_timestamp` takes no argument, while the spider passes one. The event is built without dates.
- ImagePipeline.S3ImagePipeline.ImageDownloaded: as written, `image_downloaded` raises AttributeError at its first image and stores nothing. Both branches read `item.image.size` (pyoniverse/pipelines/image.py:199-202), and `ImageVO` has no such attribute. The model's image state carries the sizes, and the method records them and stores the files as the code evidently intends.
- Numeric strings: marshmallow's Integer and Float fields coerce a string such as "5". The model's schemas accept only numbers there (`Schema.KindOk`), so LogResults.LoadOkIff and the ItemSchemas field lemmas reject such strings.
- The Slack API call: `send` makes none in the code shown. As written it raises while building the message (`Slack.SendRaises`), and the engine passes that exception on.
- LogParser.Convert: rejects a count that is not an int and a running time that is not a number, with TypeError. The source's `_convert` checks no type: it stores a float or bool count as it is, and `int()` parses a numeric string running time. A string count fails only later, in `_summary`.
- LogViewer.Convert: the same type checks as LogParser.Convert, which the source's `_convert` does not make.
- ItemUtils.Lookup: normalises with the ASCII-only `Strings.Upper`. Python's `upper()` is Unicode, so a name such as "ſnack" that it maps onto a listed name ("SNACK") raises in the model but converts in the source.
- Strings.Upper: upper-cases the ASCII letters only and keeps the length. Python's `upper()` also maps other letters, and some to two characters ("ß" becomes "SS").
- Strings.DigitsOf: keeps the ASCII digits only. `re.sub(r"\D", "", s)` keeps every Unicode decimal digit.
- Cspace.ReadPrice: built on `Strings.DigitsOf`, so a price written in non-ASCII digits, which `float()` would parse, drops the item in the model.
- PurePath.NameStart, PurePath.Stem, PurePath.WithSuffixParts: the path is taken as written. pathlib collapses repeated "/" and drops a trailing "/" (`Path("a/").name == "a"`), which the model does not do.

## Findings

| source | as written | input that shows it | evidently intended | confidence | as-written member | corrected member |
|---|---|---|---|---|---|---|
| pyoniverse/out/slack/slack.py:24 | `ps` is the job table itself, whose values are `LogResult` objects, but the message schema wants strings, so building every message fails; "type" is the member where the schema wants its name (slack.py:21) | any table with a "summary" entry | the message loads: `ps` maps every job except the summary to `str(asdict(v))`, as tests/test_out/test_slack/test_unit.py:40 expects, and "type" is the member's name | not executed | Slack.ConvertAsWrittenAlwaysFails | Slack.ConvertContents |
| pyoniverse/spiders/gs25web.py:302 | the last operand of the ice-cream test is the bare literal "빵빠레", which is always true, so every cookie-page product is ICE CREAM | the product name "쿠키" | test `"빵빠레" in product_name` like the other words | not executed | Gs25.CookieAsWrittenMisfiles | Gs25.CookieCategory |
