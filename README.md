# BGGDataFetcher batch enrichment, modelled in Dafny

BGGDataFetcher reads the BoardGameGeek ranking snapshot (a CSV file inside a
zip archive) into basic records. It then enriches those records with the
details the BoardGameGeek XML API reports. This project models the core of
that pipeline and proves what it does.

- **Batch orchestration** (`bgg_api_client.dfy`, module `BggApiClient`):
  - The candidate list is cut into fixed-size batches from a resume offset.
  - Each batch is fetched in one request to the `/thing` endpoint.
  - A batch whose answer does not parse is bisected, recursively, down to single ids.
  - Fetched records are completed with the basic record's name, year, rank and Bayes average.
  - `processedCount` is kept, and a checkpoint is recorded when `ShouldSaveProgress` says so.
  - A 429 answer makes the same batch run again after a 5000 ms pause, with the delay between batches raised by 500 ms.
  - Any other failure skips the batch.
- **Per-item extraction** (`game_enricher.dfy`, module `GameEnricher`): one `item` element becomes a detailed record. This covers:
  - the primary name, the year and the optional integers;
  - the five link lists;
  - the `suggested_numplayers` poll, with the best and recommended player counts derived from it by a stable maximum;
  - the statistics block with its rank rule.
- **Document processing** (`xml_processor.dfy`, module `XmlProcessor`):
  - Every `item` with an id becomes a record.
  - An item whose extraction throws is dropped and reported.
  - A document that cannot be parsed, or whose processing throws, yields no list at all. That is the signal that drives bisection.
- **The ranking snapshot** (`data_dump_reader.dfy`, module `DataDumpReader`):
  - A quote-aware comma splitter cuts the lines into fields.
  - A row needs at least seven fields and convertible id, year, rank and Bayes-average fields.
  - The first `count` rows after the header are kept.
- **Placeholder rewriting** (`console_output.dfy`, module `ConsoleOutput`): a structured logging template such as `"Fetched {Count} games"` becomes the composite format `"Fetched {0} games"`. The first `argCount` brace pairs are numbered from 0, left to right.

Supporting modules:

- `models.dfy` holds the records.
- `xml.dfy` holds an element tree standing for a parsed XML document.
- `numerals.dfy` holds .NET's `int.ToString`, `int.Parse`/`TryParse`, the `(int?)` attribute conversion, the grammar `double.TryParse` accepts, and unchecked 32-bit addition.
- `text.dfy` holds `Trim`, `IndexOf`, `string.Join` and the ordinal `Replace`.
- `wrappers.dfy` holds `Option` and `Result`.

The source's loops are methods with loop invariants, and each is proved equal to a function:
- ParseCsvFields and ReadFromDataDump;
- ProcessXmlGames;
- the two nested `foreach` loops of the poll;
- EnrichBatchWithBasicInfo and the batch loop of EnrichGamesWithDetailsAsync;
- ConvertStructuredLoggingFormat.

The properties are then lemmas about those functions.

Modelling choices:

- **The records are datatypes.** The source creates each detailed record fresh for one XML item and keeps it in one list only, so updating its fields in place is the same as returning an updated value.
- **The network and the XML stack are an oracle**, a `Gateway`. For the `t`-th request of a run and the ids it asks for, the gateway answers:
  - `Ok(records)`;
  - `ParseFail`, for the `null` of TryProcessXmlGames;
  - `RateLimited`, for a 429;
  - `OtherError`.
- **`Classify` shows how that outcome comes about.** It takes an HTTP status and a parsed body through the model's own document processing. `OverHttp` builds a gateway from a server that is sent the URL `BuildApiUrl` makes.
- **Sleeps and checkpoints are events.** They are recorded as `Slept(ms)`, `Paused(ms)` and `ProgressSaved(fileName, count)`.
- **The record id is the `int Id`** declared in `Models/BoardGameBasic.cs` and `Models/BoardGame.cs`. The CSV reader fills it with `int.Parse` of the trimmed first field.

## Model

| member | source | states |
|---|---|---|
| Models.NewDetailed | Models/BoardGame.cs:10-49 | a record made with only an id has that id, an empty name and year 0; every nullable member (description, the six optional integers, the eleven statistics, both derived player counts) is absent, and the five link lists and the recommendations are empty |
| Numerals.Wrap32 | Services/GameEnricher.cs:142-144 | unchecked `int` addition: the result is a 32-bit value congruent to the exact sum modulo 2^32, and equal to it whenever the sum fits |
| Numerals.ParseIntOfIntToString | Services/GameEnricher.cs:19 | every 32-bit integer written as a numeral is read back as itself by the integer conversion |
| Numerals.NatToStringInjective | Services/ConsoleOutput.cs:118 | distinct argument indexes are written as distinct numerals |
| Numerals.DigitsValueOfNatToString | Services/ConsoleOutput.cs:118 | the numeral written for an index denotes that index |
| Numerals.NatToStringLengthStep | Services/ConsoleOutput.cs:119-120 | incrementing the index adds at most one digit to its numeral |
| Numerals.ParseDoubleOfDigits | Services/DataDumpReader.cs:87 | a plain decimal numeral is a literal the double conversion accepts, kept as it is |
| Text.TrimIsSlice | Services/DataDumpReader.cs:79 | `Trim` keeps a contiguous part of its input and removes only trimmable characters at either end |
| Text.TrimWrapped | Services/DataDumpReader.cs:84 | `Trim('"')` of a name wrapped in one quote on each side, without quotes at its own ends, is that name |
| Text.IndexOfFirst | Services/ConsoleOutput.cs:111-115 | `IndexOf(c, from)` is -1 exactly when `c` does not occur from `from` on, and otherwise the first position of `c` at or after `from` |
| Text.SplitJoin | Services/BggApiClient.cs:71 | `string.Join` of separator-free parts loses nothing: cutting at the separator gives the parts back |
| Text.JoinInjective | Services/BggApiClient.cs:71 | different lists of separator-free parts join to different strings |
| Text.ReplaceAbsent | Services/BggApiClient.cs:145 | `Replace` leaves a string without the pattern unchanged |
| Text.ReplaceOnlyAtEnd | Services/BggApiClient.cs:145 | when the pattern occurs only at the end, `Replace` rewrites exactly that occurrence |
| Xml.FindAttributeFirst | Services/XmlProcessor.cs:35 | `Attribute(name)` finds the first attribute with that name, and nothing only when there is none |
| Xml.Child | Services/GameEnricher.cs:19 | `Element(name)` is the first child with that name, and is missing exactly when there is none |
| Xml.FirstWithAttrIsFirst | Services/GameEnricher.cs:92-93 | `FirstOrDefault` on an attribute value returns the first element that matches, and nothing only when none matches |
| GameEnricher.IntAttr | Services/GameEnricher.cs:19 | the `(int?)` conversion is `null` when the element or the attribute is missing, throws exactly when the value is present and not a 32-bit integer, and otherwise gives the parse of the value, a 32-bit integer |
| GameEnricher.Scalars | Services/GameEnricher.cs:12-36 | the scalar stage throws exactly when one of the seven integer attributes is malformed, and keeps the id |
| GameEnricher.ScalarFields | Services/GameEnricher.cs:24-36 | after a successful extraction each of the six optional integers is the parse of its attribute, and absent when the element or attribute is missing, whatever it held before; the description is the trimmed text of its element, absent without one |
| GameEnricher.ScalarsFrame | Services/GameEnricher.cs:12-36 | the scalar stage changes only the name, year, description and the six optional integers |
| GameEnricher.NameAndYear | Services/GameEnricher.cs:12-21 | the name changes only to a non-empty primary name, and always does when there is one; the year is the parse of its attribute when there is one, and stays when the attribute is missing |
| GameEnricher.LinkValuesAppend | Services/GameEnricher.cs:39-43 | collected link values keep document order: the values of `a + b` are those of `a` then those of `b` |
| GameEnricher.LinkValuesMembers | Services/GameEnricher.cs:39-43 | a string is collected exactly when a `link` of the matching type carries it as `value`, and no collected string is empty |
| GameEnricher.ChosenLinks | Services/GameEnricher.cs:44-45 | a link list is replaced by the collected values whenever there is at least one, and kept otherwise |
| GameEnricher.WithLinks | Services/GameEnricher.cs:39-81 | the link stage keeps the id |
| GameEnricher.LinkListRule | Services/GameEnricher.cs:39-81 | after a successful extraction each of the five link lists is the collected values, or the old list when none were collected |
| GameEnricher.GroupPlayerCount | Services/GameEnricher.cs:102-107 | a group's player count, when it has one, is a 32-bit value |
| GameEnricher.OpenEndedLabel | Services/GameEnricher.cs:106 | a label `n+` counts as `n` for every 32-bit `n` |
| GameEnricher.FourPlus | Services/GameEnricher.cs:106 | the label `"4+"` counts as 4 |
| GameEnricher.VoteCount | Services/GameEnricher.cs:117 | a missing `numvotes` counts as 0, a present one as its value; the conversion throws exactly when the value is present and malformed |
| GameEnricher.Assign | Services/GameEnricher.cs:119-124 | the count is stored under the field its label names; any other label changes no field, and the player count is kept |
| GameEnricher.Tally | Services/GameEnricher.cs:114-125 | a group's tally keeps its player count |
| GameEnricher.TallySucceeds | Services/GameEnricher.cs:114-125 | a group's tally throws exactly when one of its entries has a malformed `numvotes`, whatever that entry's label |
| GameEnricher.TallyLastWins | Services/GameEnricher.cs:114-125 | each vote field holds the count of the last entry with its label, and keeps its starting value when no entry has it |
| GameEnricher.TallyVotes | Services/GameEnricher.cs:114-125 | the inner loop computes the tally |
| GameEnricher.Surviving | Services/GameEnricher.cs:102-107 | every group kept has a player count |
| GameEnricher.SurvivingSingle | Services/GameEnricher.cs:102-107 | a single group is kept exactly when it has a player count |
| GameEnricher.SurvivingAppend | Services/GameEnricher.cs:100-107 | groups are kept in document order: those kept from `a + b` are those kept from `a` then those kept from `b` |
| GameEnricher.RecommendationsSucceed | Services/GameEnricher.cs:100-128 | the poll throws exactly when a group that has a player count holds a malformed vote count; skipped groups are never looked into |
| GameEnricher.RecommendationsInOrder | Services/GameEnricher.cs:100-130 | one recommendation per surviving group, in document order, each the tally of its group and carrying that group's player count |
| GameEnricher.GroupThrows | Services/GameEnricher.cs:114-117 | a counted group whose tally throws makes the whole poll throw |
| GameEnricher.ArgMaxFirst | Services/GameEnricher.cs:134-136 | the position chosen holds a maximal key, and every earlier key is strictly smaller, as the first element after a stable descending sort |
| GameEnricher.BestKeys | Services/GameEnricher.cs:135 | the sort key of each recommendation is its `Best` count |
| GameEnricher.RecommendedKeys | Services/GameEnricher.cs:142 | the sort key of each recommendation is `Best + Recommended` in unchecked 32-bit arithmetic |
| GameEnricher.Derived | Services/GameEnricher.cs:134-145 | without a positive key the count is unchanged; otherwise it is the player count of the first entry with the largest key, which is positive |
| GameEnricher.TieGoesToFirstListed | Services/GameEnricher.cs:134-145 | on a tie in `Best` the first-listed count wins, while the larger `Best + Recommended` decides the recommended count |
| GameEnricher.PlayerCountsApplied | Services/GameEnricher.cs:90-146 | the poll stage throws exactly when the poll is present and a counted group has a malformed vote count, and keeps the id |
| GameEnricher.PlayerCountsFrame | Services/GameEnricher.cs:90-146 | without a `suggested_numplayers` poll nothing changes; with one, only the recommendations and the two derived counts do |
| GameEnricher.ExtractPlayerCountRecommendations | Services/GameEnricher.cs:90-146 | the nested loops compute the poll stage, error included |
| GameEnricher.TryInt | Services/GameEnricher.cs:156-158 | an `int.TryParse` field takes the parse of its value whenever the value is present and parses, and is kept otherwise |
| GameEnricher.TryDouble | Services/GameEnricher.cs:160-162 | a `double.TryParse` field takes the parsed literal whenever the value is present and is accepted, and is kept otherwise |
| GameEnricher.ExtractStatistics | Services/GameEnricher.cs:148-212 | the statistics stage keeps the id |
| GameEnricher.IntStatisticRule | Services/GameEnricher.cs:155-207 | each of the seven integer statistics is the parse of its `value` when there is a ratings block and the value is a 32-bit integer, and keeps its old value otherwise |
| GameEnricher.DoubleStatisticRule | Services/GameEnricher.cs:160-211 | each of the four double statistics is the accepted literal of its `value` when there is a ratings block and the value is accepted, and keeps its old value otherwise |
| GameEnricher.StatisticsFrame | Services/GameEnricher.cs:150-153 | without `statistics/ratings` nothing changes, and otherwise only the twelve statistics fields can |
| GameEnricher.RankRule | Services/GameEnricher.cs:173-182 | the rank changes only to a parsed value of the first `rank` named "boardgame" whose value is not "Not Ranked", and always becomes that value when it parses; for "Not Ranked" it stays |
| GameEnricher.EnrichGameFromXml | Services/GameEnricher.cs:9-88 | extraction never changes the record's id |
| GameEnricher.EnrichFailure | Services/GameEnricher.cs:9-88 | extraction throws exactly when an integer attribute is malformed or the poll holds a malformed vote count |
| GameEnricher.EnrichStages | Services/GameEnricher.cs:9-88 | a successful extraction is the scalar, link, poll and statistics stages applied in that order |
| XmlProcessor.EnricherKeepsId | Services/XmlProcessor.cs:40-41 | the per-item extraction keeps the id of the record it is given |
| XmlProcessor.ProcessSingle | Services/XmlProcessor.cs:35-48 | an item without an id gives nothing; an item whose extraction throws gives its id as a failure and no record; any other item gives one record with the item's id; a malformed id makes processing throw |
| XmlProcessor.ProcessItemsAppend | Services/XmlProcessor.cs:33-49 | items are processed independently and in document order: the result for `a + b` is that for `a` then that for `b`, unless either throws |
| XmlProcessor.ProcessItemsSucceeds | Services/XmlProcessor.cs:35 | processing throws exactly when some item has a malformed id |
| XmlProcessor.ProcessItemsLength | Services/XmlProcessor.cs:31-51 | records and failures together are never more than the items |
| XmlProcessor.ProcessItemsIds | Services/XmlProcessor.cs:40 | every record carries the id of one of the items |
| XmlProcessor.ProcessXmlGames | Services/XmlProcessor.cs:29-52 | the `foreach` computes the document's outcome, the exception included |
| XmlProcessor.ProcessDocument | Services/XmlProcessor.cs:57-69 | no list exactly when the text does not parse or processing throws; otherwise the records of ProcessXmlGames |
| XmlProcessor.TryProcessXmlGames | Services/XmlProcessor.cs:57-69 | the method returns what ProcessDocument describes |
| DataDumpReader.CsvFields | Services/DataDumpReader.cs:100-127 | a line always has at least one field, and the empty line has exactly one empty field |
| DataDumpReader.ParseCsvFields | Services/DataDumpReader.cs:98-128 | the `for` loop computes the fields of the line |
| DataDumpReader.ScanCounts | Services/DataDumpReader.cs:104-122 | the scan is inside quotes exactly after an odd number of quotes, and has completed one field per comma seen outside quotes |
| DataDumpReader.FieldCount | Services/DataDumpReader.cs:104-125 | a line has one field more than it has commas outside quotes |
| DataDumpReader.JoinFields | Services/DataDumpReader.cs:108-121 | the fields joined with commas are the line: nothing is lost, quotes included |
| DataDumpReader.FieldsOfJoin | Services/DataDumpReader.cs:98-128 | splitting fields joined with commas gives the fields back when each has an even number of quotes and all its commas inside quotes |
| DataDumpReader.QuotedField | Services/DataDumpReader.cs:108-112 | a quoted name without quotes inside stays one field, commas and all |
| DataDumpReader.ParseCsvLineNeedsSevenFields | Services/DataDumpReader.cs:74-75 | a line with fewer than six commas outside quotes has fewer than seven fields and parses to no row; any other line is read from its fields |
| DataDumpReader.FromFieldsSucceeds | Services/DataDumpReader.cs:77-95 | a row is read exactly when the trimmed id and the year parse and the rank and Bayes average are empty or parse |
| DataDumpReader.FromFieldsValues | Services/DataDumpReader.cs:79-87 | the record holds the parsed id and year, the name without leading or trailing quotes, and a rank and Bayes average that are absent exactly when their fields are empty |
| DataDumpReader.FromFieldsOf | Services/DataDumpReader.cs:79-87 | fields that convert to the parts of a record give that record |
| DataDumpReader.OptionalIntValue | Services/DataDumpReader.cs:86 | an empty rank field gives no rank, and any other gives its parsed value |
| DataDumpReader.ParseCsvLineOfRow | Services/DataDumpReader.cs:68-96 | a snapshot row written for a record, with a quote-free name and two or more further columns, is read back as that record |
| DataDumpReader.BlankLineIsNoRow | Services/DataDumpReader.cs:46-47 | a blank line never parses to a row |
| DataDumpReader.Row | Services/DataDumpReader.cs:46-55 | a line gives at most one record, and only the one it parses to |
| DataDumpReader.RowIsParse | Services/DataDumpReader.cs:46-60 | a line is kept exactly when it parses, so skipping blank lines changes nothing |
| DataDumpReader.RowsFromLines | Services/DataDumpReader.cs:41-61 | every record read is the parse of one of the lines |
| DataDumpReader.Take | Services/DataDumpReader.cs:41 | the records returned are a prefix of the rows, never more than `count`, and all of them when there are fewer |
| DataDumpReader.KeptUntil | Services/DataDumpReader.cs:41 | stopping at the end of the lines, or once `count` records are collected, returns the first `count` rows |
| DataDumpReader.ReadFromDataDump | Services/DataDumpReader.cs:38-61 | the `while` loop returns the first `count` records of the lines after the header, in file order |
| BggApiClient.IdNumerals | Services/BggApiClient.cs:71 | the URL's id list holds each id's decimal numeral, in order |
| BggApiClient.BuildApiUrlParts | Services/BggApiClient.cs:69-73 | the URL is the endpoint prefix `…/xmlapi2/thing?id=`, the ids' numerals separated by commas and the suffix `&stats=1` |
| BggApiClient.BuildApiUrlInjective | Services/BggApiClient.cs:69-73 | different id lists give different URLs |
| BggApiClient.Classify | Services/BggApiClient.cs:58-67 | a 2xx answer gives the processed records, or `ParseFail` when processing yields no list; a 429 is the rate-limit outcome; everything else is another error |
| BggApiClient.Halves | Services/BggApiClient.cs:81-83 | the first half holds `n / 2` ids, the two halves concatenate to the batch, and both are non-empty and strictly shorter |
| BggApiClient.FetchGameDetailsBatch | Services/BggApiClient.cs:172-204 | a batch of `n` ids takes at least one request and at most `2n - 1`, one per node of its bisection tree |
| BggApiClient.SplitAndRetryBatch | Services/BggApiClient.cs:75-97 | a split batch of `n` ids takes at most `2n - 2` further requests |
| BggApiClient.SingletonNeverRaises | Services/BggApiClient.cs:154-178 | a one-id batch is never split and never raises: one request, its records, or nothing |
| BggApiClient.GoodRecordsAppend | Services/BggApiClient.cs:93-95 | the good records of `a + b` are those of `a` then those of `b` |
| BggApiClient.BisectionIsolatesPoisoned | Services/BggApiClient.cs:89-96 | against a server that fails to parse any batch holding a poisoned id, bisection returns exactly the records of the other ids, in request order |
| BggApiClient.RateLimitBeforeHorizon | Services/BggApiClient.cs:199-203 | a 429 escapes a batch only through the batch's last request, so only when that request comes before any request number from which the server no longer answers 429 |
| BggApiClient.MergeBasicInfo | Services/BggApiClient.cs:101-113 | each of name, year, rank and Bayes average is taken from the basic record exactly when the detailed one lacks it |
| BggApiClient.MergeFrame | Services/BggApiClient.cs:101-113 | the merge changes no other field |
| BggApiClient.MergeIdempotent | Services/BggApiClient.cs:101-113 | merging twice is merging once, and a record with all four fields set is left as it is |
| BggApiClient.FindBasic | Services/BggApiClient.cs:119 | the basic record found has the detailed record's id |
| BggApiClient.FindBasicFirst | Services/BggApiClient.cs:119 | the basic record found is the first with that id, and none is found only when no record has it |
| BggApiClient.CompletedAll | Services/BggApiClient.cs:115-125 | completing a batch keeps its length |
| BggApiClient.CompletedAllPointwise | Services/BggApiClient.cs:115-125 | each record is completed from the first basic record with its id, or left alone; ids and order do not change |
| BggApiClient.CompletedAllIdempotent | Services/BggApiClient.cs:115-125 | completing a batch twice is completing it once |
| BggApiClient.EnrichBatchWithBasicInfo | Services/BggApiClient.cs:115-125 | the `foreach` completes every record of the batch |
| BggApiClient.ShouldSaveProgressRule | Services/BggApiClient.cs:131-141 | the checkpoint test holds exactly when the list holds a multiple of 300 records, at least 300 have been processed, and the processed count is less than one batch past a multiple of 300 |
| BggApiClient.ProgressFileNameOfJson | Services/BggApiClient.cs:145 | a name ending in its only ".json" gets `_progress_<count>` before the extension |
| BggApiClient.ProgressFileNameWithoutJson | Services/BggApiClient.cs:145 | a name without ".json" is used unchanged for the checkpoint |
| BggApiClient.BatchArithmetic | Services/BggApiClient.cs:260 | every batch index below `ceil(n / size)` starts inside the list, and that many batches reach its end |
| BggApiClient.Batch | Services/BggApiClient.cs:266 | a batch is never empty and never longer than the batch size |
| BggApiClient.BatchesPrefix | Services/BggApiClient.cs:259-266 | the first `k` batches are the first `k * batchSize` candidates after the offset, or all of them |
| BggApiClient.BatchesPartition | Services/BggApiClient.cs:259-266 | the batches are consecutive slices that together are the candidate list after the offset, each candidate in exactly one batch, in order |
| BggApiClient.Ids | Services/BggApiClient.cs:275 | the ids requested are the batch's ids, in order |
| BggApiClient.AfterBatch | Services/BggApiClient.cs:279-296 | a fetched batch moves to the next index, appends its completed records and counts them, keeps the delay, and records a checkpoint of the whole list under the progress file name exactly when ShouldSaveProgress holds on the new counts, then a sleep of the current delay exactly when it was not the last batch, and no pause |
| BggApiClient.RecordBatch | Services/BggApiClient.cs:279-296 | the method performs that step on the loop's variables |
| BggApiClient.AttemptCases | Services/BggApiClient.cs:298-311 | a 429 keeps the index, records and count, adds 500 ms to the delay and pauses 5000 ms; another failure skips the batch leaving records, count and delay alone; a fetched batch appends its completed records, counts them, and records the checkpoint and sleep `AfterBatch` states |
| BggApiClient.AttemptAdvances | Services/BggApiClient.cs:264-312 | one pass always makes a request and either moves to the next batch or, after a 429 answered before the server stops answering 429, stays on the same one |
| BggApiClient.AttemptAccounted | Services/BggApiClient.cs:262-306 | one pass keeps `processedCount == startPosition + records appended` and `delay == initial + 500 * pauses` |
| BggApiClient.RunAccounted | Services/BggApiClient.cs:262-306 | at the end `processedCount` is the start position plus the records returned, and the delay is the initial delay plus 500 ms per 429, never smaller than at the start |
| BggApiClient.NoSaveAtOffset | Services/BggApiClient.cs:131-141 | when the offset is at least a batch size past a multiple of 300, the checkpoint test fails for every list length at `processedCount = offset + length` |
| BggApiClient.ResumedRunNeverSaves | Services/BggApiClient.cs:262-296 | a run resumed at such an offset records no checkpoint at all |
| BggApiClient.CheckpointRepeats | Services/BggApiClient.cs:281-290 | a batch that yields no record right after a checkpoint records the same checkpoint, same file and count, again |
| BggApiClient.RunExtends | Services/BggApiClient.cs:281 | records and events are only appended: what a run starts with is a prefix of what it returns |
| BggApiClient.RunFrom | Services/BggApiClient.cs:264-312 | the loop ends after the last batch |
| BggApiClient.RunFromStep | Services/BggApiClient.cs:264-312 | the run is one pass followed by the run from the state it leaves |
| BggApiClient.Start | Services/BggApiClient.cs:258-262 | the loop starts at batch 0 with no records, no events, the start position as processed count and the initial delay |
| BggApiClient.RunBatch | Services/BggApiClient.cs:266-311 | one turn of the loop, the `i--` after a 429 included, is one pass |
| BggApiClient.EnrichGamesWithDetails | Services/BggApiClient.cs:249-323 | the loop returns the records and events of the run from the start state |
| ConsoleOutput.NameCutSound | Services/ConsoleOutput.cs:114 | the name cut ends at the first '}', and there is no cut only without a '}' |
| ConsoleOutput.FirstCutPair | Services/ConsoleOutput.cs:111-118 | the pair found splits the text into text before it without '{', the brace, a name without '}', the brace and the rest |
| ConsoleOutput.FirstCutNone | Services/ConsoleOutput.cs:111-115 | no pair is found only when no '{' has a '}' after it |
| ConsoleOutput.FirstCutOf | Services/ConsoleOutput.cs:111-115 | a hole written out first, without '{' before it or '}' in it, is the first pair found |
| ConsoleOutput.FirstCutFinds | Services/ConsoleOutput.cs:111-115 | a pair is found exactly when the text has a '{' with a '}' after it |
| ConsoleOutput.PlaceholdersSound | Services/ConsoleOutput.cs:109-121 | the template is its first at most `argCount` brace pairs and the text around them, and fewer pairs are read only when the rest has no further pair |
| ConsoleOutput.PlaceholdersUnique | Services/ConsoleOutput.cs:109-121 | that reading is the only one with those properties |
| ConsoleOutput.NumberedFromReading | Services/ConsoleOutput.cs:118-119 | rewriting prints the reading with the numerals `k`, `k + 1`, … as names |
| ConsoleOutput.ConvertedShape | Services/ConsoleOutput.cs:102-124 | the message is its pairs and the text around them, and the result is the same text with the pairs' contents replaced by 0, 1, …: braces and other text kept in order |
| ConsoleOutput.ConvertedUnchanged | Services/ConsoleOutput.cs:109-115 | with no arguments, or no '{' followed by a '}', the message is returned unchanged |
| ConsoleOutput.ConvertedSingle | Services/ConsoleOutput.cs:118 | a single placeholder becomes "{0}", whatever its name |
| ConsoleOutput.IndexOfPast | Services/ConsoleOutput.cs:111-114 | a search that starts where the rewritten part holds no such character finds what a search of the rest finds, shifted |
| ConsoleOutput.FirstCutMissing | Services/ConsoleOutput.cs:111-115 | when either `IndexOf` fails, the text has no pair |
| ConsoleOutput.FirstCutFound | Services/ConsoleOutput.cs:111-114 | when both `IndexOf` calls succeed, they find the pair the reading takes |
| ConsoleOutput.Spliced | Services/ConsoleOutput.cs:118 | the splice keeps everything up to and including '{' and from '}' on, with the numeral between |
| ConsoleOutput.Advance | Services/ConsoleOutput.cs:118-119 | after the current pair is numbered `k`, what remains is numbered from `k + 1` |
| ConsoleOutput.Behind | Services/ConsoleOutput.cs:120 | the next search starts on the '}' just written or past it, so it cannot see a '{' already rewritten |
| ConsoleOutput.Rewrite | Services/ConsoleOutput.cs:111-120 | one pass rewrites the first pair of what is left, or reports that there is none and changes nothing |
| ConsoleOutput.ConvertStructuredLoggingFormat | Services/ConsoleOutput.cs:102-124 | the loop returns the message with its first `argCount` pairs numbered from 0 |

## Left out

- HTTP itself is left out: the request, the bearer-token header and `EnsureSuccessStatusCode`, Services/BggApiClient.cs:58-67. The `Gateway` oracle stands for it; `Classify` states how status and body become an outcome.
- XML text and `XDocument.Parse` are left out. A document is an element tree, or `Malformed`.
- `Task.Delay` is not performed. Sleeps and pauses are recorded as events with their durations; there is no clock.
- Logging is left out: `LogInfo`/`LogWarning`/`LogError`, the error-log file, HandleBatchError (Services/BggApiClient.cs:230-245), and the messages ProcessXmlGames and ReadFromDataDump write. Only the ids ProcessXmlGames reports as failed are kept, as a list.
- The checkpoint file is not written: `FileManager.SaveDetailedGamesToJson` is left out. SaveProgress is modelled as a `ProgressSaved` event with the file name and count, and the name rule is `ProgressFileName`.
- The zip archive, the CSV entry lookup, `File.Exists` and the `StreamReader` (Services/DataDumpReader.cs:14-38) are left out. The file is the sequence of its lines, so the null or white-space path check and its exceptions are not modelled.
- Doubles are kept as the text of a literal the float grammar accepts. Their value, rounding, NaN and the infinity symbols are not modelled.
- `null` strings are not modelled: every string is a value, and a missing attribute or element is `None`.
- Exceptions are modelled as `Failure` or `None` without their types and messages. The one distinction kept is the one the code makes: 429 versus any other status.
- The id representation is not modelled as written. DataDumpReader.cs:82-83 assigns a string `Id` and an `int NumId`. Neither model class declares that pair: both declare `int Id`. The model keeps the integer id.
- EnrichGamesWithDetails assumes the server eventually stops answering 429. It requires a request number from which no answer is a 429. Without that, the source's `i--` retry can loop forever, which a terminating loop cannot express. The horizon only bounds the retries; the outcome of every request is the gateway's.
- EnrichGamesWithDetails and TotalBatches require `batchSize >= 1`, and `startPosition` is a `nat`. With a zero batch size the division at Services/BggApiClient.cs:260 is a floating-point one: it throws nothing and yields an infinity, or NaN for an empty list, and the batch count is `(int)Math.Ceiling` of that value, whatever the runtime's conversion makes of it; every batch is then empty. The only caller passes 20 and a non-negative position.
- FetchGameDetailsBatch requires a non-empty batch. With no ids the source (Services/BggApiClient.cs:172-203) sends one request for `thing?id=&stats=1`. It returns the list when the answer parses and rethrows an HTTP error. Only while every answer fails to parse does it split the empty list forever, at midpoint 0 (:81-83). Batch and Halves never produce an empty list.
- The vote tally's starting value is not modelled as written. Models/PlayerCountRecommendation.cs:5-8 marks all four members `required`, so the initializer at Services/GameEnricher.cs:109-112, which sets only `NumPlayers`, does not compile as written. The model starts `Best`, `Recommended` and `NotRecommended` at 0, the values they would have without `required`.
- `int.TryParse(s, out v)` without a format provider (Services/GameEnricher.cs:106, 157, 180, 186-206) uses the current culture. The model takes it to be the invariant culture; only the sign symbols could differ.
- GameEnricher.ExtractStatistics: the four double fields are stored as the accepted literal (DoubleStatisticRule). No lemma relates that text to a numeric value.
- A failing checkpoint write is not modelled. `SaveDetailedGamesToJson` (Services/FileManager.cs:54-63) can throw inside the batch's `try`; `catch (Exception)` then keeps the records but skips the delay, while the model records the checkpoint and the sleep.
- A negative delay is not modelled as an error. `Task.Delay` throws for a delay below -1 and waits forever for -1 (Services/BggApiClient.cs:295); the model records `Slept(ms)` for any value. The only caller passes 1000, and the delay only grows.
- The final `processedCount` is not returned, because EnrichGamesWithDetailsAsync only logs it. RunAccounted states its value.

## Where the code differs from its own comments

Where the code does something other than its comments and names say, the model follows the code:

- **Checkpoints.** `SAVE_INTERVAL = 300` carries the comment "Save progress every 300 games" (Services/BggApiClient.cs:17). A checkpoint is taken only when the accumulated list holds exactly a multiple of 300 records and `processedCount` is less than one batch past a multiple of 300 (BggApiClient.ShouldSaveProgressRule). It is not taken whenever the processed count crosses a multiple of 300. Three consequences:
  - When a batch yields fewer records than it has ids (an id the API does not know, a dropped item), the list can step over a multiple of 300 without holding it, and no checkpoint is written for that multiple.
  - Because `processedCount` is the start position plus the list's length, a run resumed at a position whose distance past a multiple of 300 is at least the batch size never writes a checkpoint, for example from position 50 with batches of 20 (BggApiClient.ResumedRunNeverSaves).
  - A batch that yields no record right after a checkpoint writes the same checkpoint, same file and count, again (BggApiClient.CheckpointRepeats).
- **A 429 inside a bisection.** The comments say a failing single id gives an empty list (:174), an HTTP failure is rethrown "to let caller handle" (:201), and the two halves' results are combined (:88-95). A 429 answer to a one-id sub-batch is swallowed by FetchSingleGameAsync, so that id is dropped for the run. A 429 or other HTTP error on a larger sub-batch ends the whole top-level batch:
  - the records already fetched for its first half are discarded;
  - a 429 makes the whole batch run again;
  - any other error skips it.
- **"Not Ranked".** The merge's comment says the API data takes precedence and the basic data is only a safety net (Services/BggApiClient.cs:103-104). A "Not Ranked" rank leaves the rank as it was. For a record built from an XML item, the rank therefore starts absent. EnrichBatchWithBasicInfo then fills it from the basic record's rank, if that record has one.
- **Malformed item ids.** An item without an `id` is skipped (Services/XmlProcessor.cs:36), and a null result is documented as a parsing failure (:55, :66). An `id` that is present but empty or not a 32-bit integer makes `(int?)item.Attribute("id")` throw at :35, outside the per-item `try`. The whole document then yields null although it parsed, and the batch is bisected; a single-id batch with such an item yields nothing (XmlProcessor.ProcessItemsSucceeds, XmlProcessor.ProcessSingle).
