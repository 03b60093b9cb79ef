/** Batch orchestration (Services/BggApiClient.cs): the candidate list is
    cut into fixed-size batches from a resume offset; each batch is fetched
    in one request, bisected when the answer does not parse, completed with
    the basic records' fields, and counted towards checkpoints; a 429 makes
    the same batch run again after a pause, with a longer delay between
    batches.

    HTTP and the XML pipeline behind it are a `Gateway`: an oracle that,
    for the `t`-th request of the run and the ids it asks for, answers with
    an `Outcome`. `Classify` says how an HTTP reply and the document-level
    processing of its body give that outcome. Sleeps, checkpoint files and
    log lines are not performed: sleeps and checkpoints are recorded as
    events. */
module BggApiClient {
  import opened Wrappers
  import opened Numerals
  import Text
  import opened Xml
  import opened Models
  import opened XmlProcessor
  import opened GameEnricher

  const ApiBase: string := "https://boardgamegeek.com/xmlapi2"
  const SaveInterval: nat := 300
  const RateLimitPauseMs: int := 5000
  const DelayIncrementMs: int := 500

  // ---------------------------------------------------------------------
  // Request URL

  /** The decimal numerals of the ids, as `string.Join` prints them. */
  function IdNumerals(ids: seq<int>): (r: seq<string>)
    ensures |r| == |ids|
    ensures forall k :: 0 <= k < |ids| ==> r[k] == IntToString(ids[k])
  {
    seq(|ids|, k requires 0 <= k < |ids| => IntToString(ids[k]))
  }

  /** BuildApiUrl: `/thing` with the ids joined by commas, statistics on. */
  function BuildApiUrl(ids: seq<int>): string {
    ApiBase + "/thing?id=" + Text.Join(IdNumerals(ids), ",") + "&stats=1"
  }

  lemma NumeralHasNoComma(x: int)
    ensures ',' !in IntToString(x)
  {
    var s := IntToString(x);
    if x < 0 {
      forall k | 1 <= k < |s|
        ensures s[k] != ','
      {
        assert s[1..][k - 1] == s[k];
      }
    }
  }

  /** A joined list of non-empty parts is empty only when the list is. */
  lemma JoinEmpty(parts: seq<string>)
    requires forall k :: 0 <= k < |parts| ==> parts[k] != []
    ensures Text.Join(parts, ",") == [] <==> parts == []
  {
    if |parts| >= 2 {
      assert |Text.Join(parts, ",")| >= |parts[0]|;
    }
  }

  /** Read back, the URL is the endpoint prefix, the ids' numerals cut at
      the commas, and the statistics flag. */
  lemma BuildApiUrlParts(ids: seq<int>)
    requires |ids| >= 1
    ensures var pre := ApiBase + "/thing?id="; var u := BuildApiUrl(ids);
      |pre| + 8 <= |u| && u[..|pre|] == pre && u[|u| - 8..] == "&stats=1" &&
      Text.Split(u[|pre|..|u| - 8], ',') == IdNumerals(ids)
  {
    var pre := ApiBase + "/thing?id=";
    var j := Text.Join(IdNumerals(ids), ",");
    var u := BuildApiUrl(ids);
    assert u == pre + j + "&stats=1";
    assert u[|pre|..|u| - 8] == j;
    var parts := IdNumerals(ids);
    forall k | 0 <= k < |parts|
      ensures ',' !in parts[k]
    {
      NumeralHasNoComma(ids[k]);
    }
    Text.SplitJoin(parts, ',');
  }

  /** Different id lists give different URLs: the URL names exactly the
      ids asked for, in order. */
  lemma BuildApiUrlInjective(a: seq<int>, b: seq<int>)
    requires BuildApiUrl(a) == BuildApiUrl(b)
    ensures a == b
  {
    var pre := ApiBase + "/thing?id=";
    var ja := Text.Join(IdNumerals(a), ",");
    var jb := Text.Join(IdNumerals(b), ",");
    var u := BuildApiUrl(a);
    assert u == pre + ja + "&stats=1";
    assert u == pre + jb + "&stats=1";
    assert ja == u[|pre|..|pre| + |ja|];
    assert jb == u[|pre|..|pre| + |jb|];
    assert ja == jb;
    var pa := IdNumerals(a);
    var pb := IdNumerals(b);
    forall k | 0 <= k < |pa|
      ensures ',' !in pa[k] && pa[k] != []
    {
      NumeralHasNoComma(a[k]);
    }
    forall k | 0 <= k < |pb|
      ensures ',' !in pb[k] && pb[k] != []
    {
      NumeralHasNoComma(b[k]);
    }
    JoinEmpty(pa);
    JoinEmpty(pb);
    if pa != [] {
      Text.JoinInjective(pa, pb, ',');
      forall k | 0 <= k < |a|
        ensures a[k] == b[k]
      {
        IntToStringInjective(a[k], b[k]);
      }
    }
  }

  // ---------------------------------------------------------------------
  // The gateway

  /** What one request for a list of ids comes to, seen from
      FetchGameDetailsBatchAsync: the processed records, a document that
      did not parse or whose processing threw (`null`), or an
      `HttpRequestException`, told apart by its status code. */
  datatype Outcome = Ok(records: seq<BoardGameDetailed>) | ParseFail | RateLimited | OtherError

  type Gateway = (nat, seq<int>) -> Outcome

  /** An HTTP exchange: a response with its status code and parsed body,
      or a failure to get any response. */
  datatype Reply = Response(status: int, body: XmlDocument) | NetworkFault

  /** FetchXmlFromApiAsync followed by TryProcessXmlGames: a status outside
      200-299 raises (429 being the one the loop retries), a successful
      body goes through document processing. */
  function Classify(reply: Reply): (o: Outcome)
    ensures o.Ok? <==> reply.Response? && 200 <= reply.status < 300 && ProcessDocument(EnrichGameFromXml, reply.body).Some?
    ensures o.Ok? ==> o.records == ProcessDocument(EnrichGameFromXml, reply.body).value.games
    ensures o.ParseFail? <==> reply.Response? && 200 <= reply.status < 300 && ProcessDocument(EnrichGameFromXml, reply.body).None?
    ensures o.RateLimited? <==> reply.Response? && reply.status == 429
  {
    match reply
    case NetworkFault => OtherError
    case Response(status, body) =>
      if 200 <= status < 300 then
        match ProcessDocument(EnrichGameFromXml, body)
        case None => ParseFail
        case Some(p) => Ok(p.games)
      else if status == 429 then RateLimited
      else OtherError
  }

  /** The gateway of an HTTP server that answers the `t`-th request for a
      URL with `server(t, url)`. */
  function OverHttp(server: (nat, string) -> Reply): Gateway {
    (t: nat, ids: seq<int>) => Classify(server(t, BuildApiUrl(ids)))
  }

  // ---------------------------------------------------------------------
  // Fetching one batch, with bisection

  datatype Fault = TooManyRequests | OtherFault

  /** A batch's records, or the exception that escapes the batch. */
  datatype Fetch = Fetched(records: seq<BoardGameDetailed>) | Raised(fault: Fault)

  /** FetchSingleGameAsync: every failure, `null` included, is swallowed. */
  function FetchSingleGame(gw: Gateway, id: int, t: nat): seq<BoardGameDetailed> {
    match gw(t, [id])
    case Ok(games) => games
    case _ => []
  }

  /** FetchGameDetailsBatchAsync from request number `t`: the outcome and
      the number of the next request. A batch of `n` ids costs at least one
      request and at most `2n - 1`, one per node of a bisection tree with
      `n` leaves. An empty batch is not modelled: the source would send one
      request for no ids and split the empty list forever only while every
      answer fails to parse. Batches and halves are never empty. */
  function FetchGameDetailsBatch(gw: Gateway, ids: seq<int>, t: nat): (r: (Fetch, nat))
    requires |ids| >= 1
    ensures t + 1 <= r.1 <= t + 2 * |ids| - 1
    decreases |ids|, 1
  {
    if |ids| == 1 then (Fetched(FetchSingleGame(gw, ids[0], t)), t + 1)
    else
      match gw(t, ids)
      case Ok(games) => (Fetched(games), t + 1)
      case RateLimited => (Raised(TooManyRequests), t + 1)
      case OtherError => (Raised(OtherFault), t + 1)
      case ParseFail => SplitAndRetryBatch(gw, ids, t + 1)
  }

  /** The two halves SplitAndRetryBatchAsync fetches: `n / 2` ids, then
      the rest. */
  function Halves(ids: seq<int>): (h: (seq<int>, seq<int>))
    requires |ids| >= 2
    ensures h.0 + h.1 == ids
    ensures |h.0| == |ids| / 2 && 1 <= |h.0| < |ids| && 1 <= |h.1| < |ids|
  {
    (ids[..|ids| / 2], ids[|ids| / 2..])
  }

  /** SplitAndRetryBatchAsync: the first half completely, then the second;
      an exception in either ends the batch. */
  function SplitAndRetryBatch(gw: Gateway, ids: seq<int>, t: nat): (r: (Fetch, nat))
    requires |ids| >= 2
    ensures t + 1 <= r.1 <= t + 2 * |ids| - 2
    decreases |ids|, 0
  {
    var h := Halves(ids);
    var first := FetchGameDetailsBatch(gw, h.0, t);
    match first.0
    case Raised(f) => (Raised(f), first.1)
    case Fetched(a) =>
      var second := FetchGameDetailsBatch(gw, h.1, first.1);
      match second.0
      case Raised(f) => (Raised(f), second.1)
      case Fetched(b) => (Fetched(a + b), second.1)
  }

  /** A batch of one id is never split and never raises: it yields the
      answer's records, or nothing. */
  lemma SingletonNeverRaises(gw: Gateway, id: int, t: nat)
    ensures FetchGameDetailsBatch(gw, [id], t).0.Fetched?
    ensures FetchGameDetailsBatch(gw, [id], t).1 == t + 1
    ensures gw(t, [id]).Ok? ==> FetchGameDetailsBatch(gw, [id], t).0.records == gw(t, [id]).records
    ensures !gw(t, [id]).Ok? ==> FetchGameDetailsBatch(gw, [id], t).0.records == []
  {
  }

  /** The records of the ids a per-id database holds, skipping the
      poisoned ones, in id order. */
  function GoodRecords(db: int -> seq<BoardGameDetailed>, poisoned: int -> bool, ids: seq<int>): seq<BoardGameDetailed>
    decreases |ids|
  {
    if ids == [] then []
    else
      var id := ids[|ids| - 1];
      GoodRecords(db, poisoned, ids[..|ids| - 1]) + (if poisoned(id) then [] else db(id))
  }

  lemma {:induction false} GoodRecordsAppend(db: int -> seq<BoardGameDetailed>, poisoned: int -> bool, a: seq<int>, b: seq<int>)
    ensures GoodRecords(db, poisoned, a + b) == GoodRecords(db, poisoned, a) + GoodRecords(db, poisoned, b)
    decreases |b|
  {
    if b == [] {
      assert a + b == a;
    } else {
      var b' := b[..|b| - 1];
      assert (a + b)[..|a + b| - 1] == a + b';
      assert (a + b)[|a + b| - 1] == b[|b| - 1];
      GoodRecordsAppend(db, poisoned, a, b');
    }
  }

  predicate AnyPoisoned(poisoned: int -> bool, ids: seq<int>) {
    exists k :: 0 <= k < |ids| && poisoned(ids[k])
  }

  /** A server whose answer is unparsable exactly when the batch holds a
      poisoned id, and otherwise lists each id's records in request order. */
  function PoisonServer(db: int -> seq<BoardGameDetailed>, poisoned: int -> bool): Gateway {
    (t: nat, ids: seq<int>) => if AnyPoisoned(poisoned, ids) then ParseFail else Ok(GoodRecords(db, poisoned, ids))
  }

  /** Bisection loses nothing and reorders nothing: against such a
      server, every batch yields the records of all its unpoisoned ids, in
      order, whatever the poisoned ones are. */
  lemma {:induction false} BisectionIsolatesPoisoned(db: int -> seq<BoardGameDetailed>, poisoned: int -> bool, ids: seq<int>, t: nat)
    requires |ids| >= 1
    ensures FetchGameDetailsBatch(PoisonServer(db, poisoned), ids, t).0 == Fetched(GoodRecords(db, poisoned, ids))
    decreases |ids|
  {
    var gw := PoisonServer(db, poisoned);
    if |ids| == 1 {
      assert ids[..0] == [];
      if poisoned(ids[0]) {
        assert AnyPoisoned(poisoned, ids);
      } else {
        assert !AnyPoisoned(poisoned, ids);
        assert GoodRecords(db, poisoned, ids) == [] + db(ids[0]);
      }
    } else if AnyPoisoned(poisoned, ids) {
      var h := Halves(ids);
      BisectionIsolatesPoisoned(db, poisoned, h.0, t + 1);
      var t1 := FetchGameDetailsBatch(gw, h.0, t + 1).1;
      BisectionIsolatesPoisoned(db, poisoned, h.1, t1);
      GoodRecordsAppend(db, poisoned, h.0, h.1);
    }
  }

  /** No request from number `horizon` on is answered with a 429. */
  ghost predicate QuietFrom(gw: Gateway, horizon: nat) {
    forall t: nat, ids: seq<int> :: t >= horizon ==> !gw(t, ids).RateLimited?
  }

  /** A batch raises a 429 only on its last request, so only when that
      request came before the horizon. */
  lemma {:induction false} RateLimitBeforeHorizon(gw: Gateway, ids: seq<int>, t: nat, horizon: nat)
    requires |ids| >= 1 && QuietFrom(gw, horizon)
    ensures FetchGameDetailsBatch(gw, ids, t).0 == Raised(TooManyRequests) ==> FetchGameDetailsBatch(gw, ids, t).1 <= horizon
    decreases |ids|
  {
    if |ids| >= 2 && gw(t, ids).ParseFail? {
      var h := Halves(ids);
      RateLimitBeforeHorizon(gw, h.0, t + 1, horizon);
      var t1 := FetchGameDetailsBatch(gw, h.0, t + 1).1;
      RateLimitBeforeHorizon(gw, h.1, t1, horizon);
    } else if |ids| >= 2 && gw(t, ids).RateLimited? {
      assert !(t >= horizon);
    }
  }

  // ---------------------------------------------------------------------
  // Completing detailed records from the basic ones

  /** MergeBasicInfoIntoDetailedGame: each of the four shared fields is
      taken from the basic record only when the detailed one lacks it. */
  function MergeBasicInfo(d: BoardGameDetailed, b: BoardGameBasic): (r: BoardGameDetailed)
    ensures r.name == (if d.name == "" then b.name else d.name)
    ensures r.yearPublished == (if d.yearPublished == 0 then b.yearPublished else d.yearPublished)
    ensures r.rank == (if d.rank.None? then b.rank else d.rank)
    ensures r.bayesAverage == (if d.bayesAverage.None? then b.bayesAverage else d.bayesAverage)
  {
    d.(name := if d.name == "" then b.name else d.name,
       yearPublished := if d.yearPublished == 0 then b.yearPublished else d.yearPublished,
       rank := if d.rank.None? then b.rank else d.rank,
       bayesAverage := if d.bayesAverage.None? then b.bayesAverage else d.bayesAverage)
  }

  /** The merge touches no other field. */
  lemma MergeFrame(d: BoardGameDetailed, b: BoardGameBasic)
    ensures MergeBasicInfo(d, b) ==
      d.(name := MergeBasicInfo(d, b).name, yearPublished := MergeBasicInfo(d, b).yearPublished,
         rank := MergeBasicInfo(d, b).rank, bayesAverage := MergeBasicInfo(d, b).bayesAverage)
  {
  }

  /** Merging twice is merging once, and a record with all four fields
      present is left as it is. */
  lemma MergeIdempotent(d: BoardGameDetailed, b: BoardGameBasic)
    ensures MergeBasicInfo(MergeBasicInfo(d, b), b) == MergeBasicInfo(d, b)
    ensures d.name != "" && d.yearPublished != 0 && d.rank.Some? && d.bayesAverage.Some? ==> MergeBasicInfo(d, b) == d
  {
  }

  /** `batch.FirstOrDefault(g => g.Id == id)`. */
  function FindBasic(batch: seq<BoardGameBasic>, id: int): (r: Option<BoardGameBasic>)
    ensures r.Some? ==> r.value.id == id
    decreases |batch|
  {
    if batch == [] then None
    else if batch[0].id == id then Some(batch[0])
    else FindBasic(batch[1..], id)
  }

  /** The basic record found is the first with that id, and there is none
      only when no record has it. */
  lemma {:induction false} FindBasicFirst(batch: seq<BoardGameBasic>, id: int)
    ensures FindBasic(batch, id).None? <==> forall k :: 0 <= k < |batch| ==> batch[k].id != id
    ensures FindBasic(batch, id).Some? ==>
      exists i :: 0 <= i < |batch| && batch[i] == FindBasic(batch, id).value &&
        forall k :: 0 <= k < i ==> batch[k].id != id
    decreases |batch|
  {
    if batch != [] && batch[0].id != id {
      FindBasicFirst(batch[1..], id);
      var r := FindBasic(batch, id);
      if r.Some? {
        var i :| 0 <= i < |batch[1..]| && batch[1..][i] == r.value &&
          forall k :: 0 <= k < i ==> batch[1..][k].id != id;
        assert batch[i + 1] == r.value;
      }
    }
  }

  /** One detailed record after the loop body of EnrichBatchWithBasicInfo. */
  function Completed(d: BoardGameDetailed, batch: seq<BoardGameBasic>): BoardGameDetailed {
    match FindBasic(batch, d.id)
    case None => d
    case Some(b) => MergeBasicInfo(d, b)
  }

  /** EnrichBatchWithBasicInfo on values: every record completed in place. */
  function CompletedAll(games: seq<BoardGameDetailed>, batch: seq<BoardGameBasic>): (r: seq<BoardGameDetailed>)
    ensures |r| == |games|
    decreases |games|
  {
    if games == [] then []
    else CompletedAll(games[..|games| - 1], batch) + [Completed(games[|games| - 1], batch)]
  }

  /** Each record is completed from the first basic record with its id, or
      left alone; ids and order do not change. */
  lemma {:induction false} CompletedAllPointwise(games: seq<BoardGameDetailed>, batch: seq<BoardGameBasic>)
    ensures forall k :: 0 <= k < |games| ==> CompletedAll(games, batch)[k] == Completed(games[k], batch)
    ensures forall k :: 0 <= k < |games| ==> CompletedAll(games, batch)[k].id == games[k].id
    decreases |games|
  {
    if games != [] {
      var init := games[..|games| - 1];
      CompletedAllPointwise(init, batch);
      forall k | 0 <= k < |games|
        ensures CompletedAll(games, batch)[k] == Completed(games[k], batch)
      {
        if k < |init| {
          assert games[k] == init[k];
        }
      }
    }
  }

  /** Completing a batch twice is completing it once. */
  lemma CompletedAllIdempotent(games: seq<BoardGameDetailed>, batch: seq<BoardGameBasic>)
    ensures CompletedAll(CompletedAll(games, batch), batch) == CompletedAll(games, batch)
  {
    var once := CompletedAll(games, batch);
    CompletedAllPointwise(games, batch);
    CompletedAllPointwise(once, batch);
    forall k | 0 <= k < |games|
      ensures CompletedAll(once, batch)[k] == once[k]
    {
      match FindBasic(batch, games[k].id)
      case None =>
      case Some(b) => MergeIdempotent(games[k], b);
    }
  }

  /** EnrichBatchWithBasicInfo: the `foreach` over the fetched records. */
  method EnrichBatchWithBasicInfo(games: seq<BoardGameDetailed>, batch: seq<BoardGameBasic>)
    returns (r: seq<BoardGameDetailed>)
    ensures r == CompletedAll(games, batch)
  {
    r := [];
    for i := 0 to |games|
      invariant r == CompletedAll(games[..i], batch)
    {
      assert games[..i + 1][..i] == games[..i];
      r := r + [Completed(games[i], batch)];
    }
    assert games[..|games|] == games;
  }

  // ---------------------------------------------------------------------
  // Checkpoints

  /** ShouldSaveProgress as written, on the non-negative counts the loop
      passes. */
  function ShouldSaveProgress(detailedGamesCount: nat, processedCount: nat, batchSize: nat): bool {
    if detailedGamesCount % SaveInterval != 0 &&
       detailedGamesCount < SaveInterval * (detailedGamesCount / SaveInterval + 1)
    then false
    else
      var checkpointCount := (processedCount / SaveInterval) * SaveInterval;
      checkpointCount > 0 && processedCount >= checkpointCount && processedCount % SaveInterval < batchSize
  }

  /** The checkpoint rule in plain terms: the list holds a multiple of 300
      records, at least 300 have been processed, and this batch crossed a
      multiple of 300. The second guard of the first test never fails. */
  lemma ShouldSaveProgressRule(detailedGamesCount: nat, processedCount: nat, batchSize: nat)
    ensures ShouldSaveProgress(detailedGamesCount, processedCount, batchSize) <==>
      detailedGamesCount % SaveInterval == 0 && processedCount >= SaveInterval &&
      processedCount % SaveInterval < batchSize
  {
    var q := detailedGamesCount / SaveInterval;
    assert detailedGamesCount == SaveInterval * q + detailedGamesCount % SaveInterval;
    assert detailedGamesCount < SaveInterval * (q + 1);
    var p := processedCount / SaveInterval;
    assert processedCount == p * SaveInterval + processedCount % SaveInterval;
    assert p * SaveInterval > 0 <==> processedCount >= SaveInterval;
  }

  /** SaveProgress's file name: every ".json" of the save file name becomes
      `_progress_<count>.json`. */
  function ProgressFileName(saveFileName: string, processedCount: int): string {
    Text.Replace(saveFileName, ".json", "_progress_" + IntToString(processedCount) + ".json")
  }

  /** A name that ends in its only ".json" gets the count before the
      extension. */
  lemma ProgressFileNameOfJson(stem: string, processedCount: int)
    requires forall k :: 0 <= k < |stem| ==> !Text.OccursAt(stem + ".json", ".json", k)
    ensures ProgressFileName(stem + ".json", processedCount) == stem + "_progress_" + IntToString(processedCount) + ".json"
  {
    Text.ReplaceOnlyAtEnd(stem, ".json", "_progress_" + IntToString(processedCount) + ".json");
  }

  /** A name without ".json" is used unchanged, so the checkpoint is
      written under the final file's name. */
  lemma ProgressFileNameWithoutJson(saveFileName: string, processedCount: int)
    requires forall k :: 0 <= k < |saveFileName| ==> !Text.OccursAt(saveFileName, ".json", k)
    ensures ProgressFileName(saveFileName, processedCount) == saveFileName
  {
    Text.ReplaceAbsent(saveFileName, ".json", "_progress_" + IntToString(processedCount) + ".json");
  }

  // ---------------------------------------------------------------------
  // Batches

  /** The arguments of EnrichGamesWithDetailsAsync other than the delay. */
  datatype Job = Job(basics: seq<BoardGameBasic>, batchSize: nat, saveFileName: string, start: nat)

  /** `basicGames.Skip(startPosition)`. */
  function ToProcess(job: Job): seq<BoardGameBasic> {
    if job.start <= |job.basics| then job.basics[job.start..] else []
  }

  /** `Math.Ceiling(count / (double)batchSize)`. */
  function TotalBatches(job: Job): nat
    requires job.batchSize >= 1
  {
    (|ToProcess(job)| + job.batchSize - 1) / job.batchSize
  }

  lemma {:induction false} MulMonotonic(a: nat, b: nat, c: nat)
    requires a <= b
    ensures a * c <= b * c
    decreases b - a
  {
    if a < b {
      MulMonotonic(a + 1, b, c);
      assert (a + 1) * c == a * c + c;
    }
  }

  /** Batch `i` of `ceil(n / size)` starts inside the list, and the batches
      reach its end. */
  lemma BatchArithmetic(n: nat, size: nat, i: nat)
    requires size >= 1
    ensures i < (n + size - 1) / size ==> i * size < n
    ensures (n + size - 1) / size * size >= n
  {
    var q := (n + size - 1) / size;
    var rem := (n + size - 1) % size;
    assert q * size + rem == n + size - 1;
    assert 0 <= rem < size;
    if i < q {
      MulMonotonic(i, q - 1, size);
      assert (q - 1) * size == q * size - size;
    }
  }

  /** `Skip(i * batchSize).Take(batchSize)`: never empty, never longer than
      the batch size. */
  function Batch(job: Job, i: nat): (r: seq<BoardGameBasic>)
    requires job.batchSize >= 1 && i < TotalBatches(job)
    ensures 1 <= |r| <= job.batchSize
  {
    var p := ToProcess(job);
    BatchArithmetic(|p|, job.batchSize, i);
    var lo := i * job.batchSize;
    var hi := if lo + job.batchSize <= |p| then lo + job.batchSize else |p|;
    p[lo..hi]
  }

  /** The first `k` batches, one after the other. */
  function BatchesUpTo(job: Job, k: nat): seq<BoardGameBasic>
    requires job.batchSize >= 1 && k <= TotalBatches(job)
  {
    if k == 0 then [] else BatchesUpTo(job, k - 1) + Batch(job, k - 1)
  }

  /** The first `k` batches are the first `k * batchSize` candidates (or
      all of them). */
  lemma {:induction false} BatchesPrefix(job: Job, k: nat)
    requires job.batchSize >= 1 && k <= TotalBatches(job)
    ensures var n := |ToProcess(job)|;
      BatchesUpTo(job, k) == ToProcess(job)[..if k * job.batchSize <= n then k * job.batchSize else n]
  {
    if k > 0 {
      var p := ToProcess(job);
      var n := |p|;
      var size := job.batchSize;
      var lo := (k - 1) * size;
      var top := k * size;
      NextMultiple(k, size);
      BatchesPrefix(job, k - 1);
      BatchArithmetic(n, size, k - 1);
      var hi := if top <= n then top else n;
      assert Batch(job, k - 1) == p[lo..hi];
      SlicesJoin(p, lo, hi);
    }
  }

  lemma NextMultiple(k: nat, size: nat)
    requires k >= 1
    ensures (k - 1) * size + size == k * size
  {
  }

  lemma SlicesJoin<T>(p: seq<T>, lo: nat, hi: nat)
    requires lo <= hi <= |p|
    ensures p[..lo] + p[lo..hi] == p[..hi]
  {
  }

  /** The batches are consecutive slices of the list to process: together
      they are that list, each candidate in exactly one batch, in order. */
  lemma BatchesPartition(job: Job)
    requires job.batchSize >= 1
    ensures BatchesUpTo(job, TotalBatches(job)) == ToProcess(job)
  {
    var p := ToProcess(job);
    BatchesPrefix(job, TotalBatches(job));
    BatchArithmetic(|p|, job.batchSize, 0);
    assert p[..|p|] == p;
  }

  /** `batch.Select(g => g.Id)`. */
  function Ids(batch: seq<BoardGameBasic>): (r: seq<int>)
    ensures |r| == |batch|
    ensures forall k :: 0 <= k < |batch| ==> r[k] == batch[k].id
  {
    seq(|batch|, k requires 0 <= k < |batch| => batch[k].id)
  }

  // ---------------------------------------------------------------------
  // The batch loop

  /** What the run does besides computing: the delay between batches, the
      pause after a 429, and a checkpoint with the number of records saved. */
  datatype Event = Slept(ms: int) | Paused(ms: int) | ProgressSaved(fileName: string, gameCount: nat)

  /** The loop's variables: the batch index, the next request number, the
      records so far, `processedCount`, `currentDelay`, and what happened. */
  datatype Progress = Progress(i: nat, t: nat, games: seq<BoardGameDetailed>, processed: nat, delay: int, events: seq<Event>)

  /** The events a fetched batch records: a checkpoint of the whole list
      when ShouldSaveProgress holds on the new counts, then the delay
      before the next batch unless this was the last one. */
  function BatchEvents(job: Job, i: nat, delay: int, games: seq<BoardGameDetailed>, processed: nat): seq<Event>
    requires job.batchSize >= 1
  {
    (if ShouldSaveProgress(|games|, processed, job.batchSize)
     then [ProgressSaved(ProgressFileName(job.saveFileName, processed), |games|)] else []) +
    (if i < TotalBatches(job) - 1 then [Slept(delay)] else [])
  }

  /** The `try` block after a batch was fetched: its records completed,
      appended and counted, a checkpoint when ShouldSaveProgress says so,
      and the delay unless it was the last batch. */
  function AfterBatch(job: Job, s: Progress, batch: seq<BoardGameBasic>, records: seq<BoardGameDetailed>): (r: Progress)
    requires job.batchSize >= 1
    ensures r.i == s.i + 1 && r.t == s.t && r.delay == s.delay
    ensures r.games == s.games + CompletedAll(records, batch)
    ensures r.processed == s.processed + |records|
    ensures Pauses(r.events) == Pauses(s.events)
    ensures r.events == s.events + BatchEvents(job, s.i, s.delay, r.games, r.processed)
  {
    var games := s.games + CompletedAll(records, batch);
    var processed := s.processed + |records|;
    PausesOfBatchEvents(job, s.events, s.i, s.delay, games, processed);
    Progress(s.i + 1, s.t, games, processed, s.delay, s.events + BatchEvents(job, s.i, s.delay, games, processed))
  }

  /** The events of a fetched batch hold no rate-limit pause. */
  lemma PausesOfBatchEvents(job: Job, events: seq<Event>, i: nat, delay: int, games: seq<BoardGameDetailed>, processed: nat)
    requires job.batchSize >= 1
    ensures Pauses(events + BatchEvents(job, i, delay, games, processed)) == Pauses(events)
  {
    var save := ProgressSaved(ProgressFileName(job.saveFileName, processed), |games|);
    PausesOfOptional(events, ShouldSaveProgress(|games|, processed, job.batchSize), save, i < TotalBatches(job) - 1, Slept(delay));
  }

  lemma PausesOfOptional(events: seq<Event>, c1: bool, e1: Event, c2: bool, e2: Event)
    requires !e1.Paused? && !e2.Paused?
    ensures Pauses(events + ((if c1 then [e1] else []) + (if c2 then [e2] else []))) == Pauses(events)
  {
    var a := if c1 then events + [e1] else events;
    if c1 {
      PausesSnoc(events, e1);
    } else {
      assert events + [] == events;
    }
    assert Pauses(a) == Pauses(events);
    if c2 {
      PausesSnoc(a, e2);
      assert events + ((if c1 then [e1] else []) + [e2]) == a + [e2];
    } else {
      assert events + ((if c1 then [e1] else []) + []) == a;
    }
  }

  /** The statements of the `try` block after FetchGameDetailsBatchAsync
      returned, on the loop's variables. */
  method RecordBatch(job: Job, i: nat, ghost t: nat, delay: int, batch: seq<BoardGameBasic>, records: seq<BoardGameDetailed>,
                     games: seq<BoardGameDetailed>, processed: nat, events: seq<Event>)
    returns (games': seq<BoardGameDetailed>, processed': nat, events': seq<Event>)
    requires job.batchSize >= 1
    ensures AfterBatch(job, Progress(i, t, games, processed, delay, events), batch, records) ==
      Progress(i + 1, t, games', processed', delay, events')
  {
    var completed := EnrichBatchWithBasicInfo(records, batch);
    games' := games + completed;
    processed' := processed + |records|;
    events' := events;
    if ShouldSaveProgress(|games'|, processed', job.batchSize) {
      events' := events' + [ProgressSaved(ProgressFileName(job.saveFileName, processed'), |games'|)];
    }
    if i < TotalBatches(job) - 1 {
      events' := events' + [Slept(delay)];
    }
    assert events' == events + BatchEvents(job, i, delay, games', processed');
  }

  /** One pass of the loop body for batch `s.i`. A 429 runs
      HandleRateLimitAsync and rewinds the index, any other exception skips
      the batch. */
  function Attempt(gw: Gateway, job: Job, s: Progress): Progress
    requires job.batchSize >= 1 && s.i < TotalBatches(job)
  {
    var batch := Batch(job, s.i);
    var fetched := FetchGameDetailsBatch(gw, Ids(batch), s.t);
    match fetched.0
    case Raised(TooManyRequests) =>
      Progress(s.i, fetched.1, s.games, s.processed, s.delay + DelayIncrementMs, s.events + [Paused(RateLimitPauseMs)])
    case Raised(OtherFault) =>
      Progress(s.i + 1, fetched.1, s.games, s.processed, s.delay, s.events)
    case Fetched(records) => AfterBatch(job, s.(t := fetched.1), batch, records)
  }

  /** A pass either moves to the next batch or, after a 429 that came
      before the horizon, stays on the same one. */
  lemma AttemptAdvances(gw: Gateway, job: Job, s: Progress, horizon: nat)
    requires job.batchSize >= 1 && s.i < TotalBatches(job) && QuietFrom(gw, horizon)
    ensures s.i <= Attempt(gw, job, s).i <= s.i + 1
    ensures s.t < Attempt(gw, job, s).t
    ensures Attempt(gw, job, s).i == s.i ==> Attempt(gw, job, s).t <= horizon
  {
    RateLimitBeforeHorizon(gw, Ids(Batch(job, s.i)), s.t, horizon);
  }

  /** What each kind of pass does to the loop's variables: a 429 keeps the
      batch, the records and the count and adds 500 ms to the delay after a
      5000 ms pause; another exception moves on with nothing else changed;
      a fetched batch appends its completed records and counts them. */
  lemma AttemptCases(gw: Gateway, job: Job, s: Progress)
    requires job.batchSize >= 1 && s.i < TotalBatches(job)
    ensures var batch := Batch(job, s.i);
      var fetched := FetchGameDetailsBatch(gw, Ids(batch), s.t);
      var r := Attempt(gw, job, s);
      (fetched.0 == Raised(TooManyRequests) ==>
         r.i == s.i && r.games == s.games && r.processed == s.processed &&
         r.delay == s.delay + DelayIncrementMs && r.events == s.events + [Paused(RateLimitPauseMs)]) &&
      (fetched.0 == Raised(OtherFault) ==>
         r.i == s.i + 1 && r.games == s.games && r.processed == s.processed &&
         r.delay == s.delay && r.events == s.events) &&
      (fetched.0.Fetched? ==>
         r.i == s.i + 1 && r.games == s.games + CompletedAll(fetched.0.records, batch) &&
         r.processed == s.processed + |fetched.0.records| && r.delay == s.delay &&
         r.events == s.events + BatchEvents(job, s.i, s.delay, r.games, r.processed))
  {
  }

  /** The loop from state `s` until the batch index reaches the number of
      batches. It ends because every request from the horizon on is
      answered without a 429. */
  function RunFrom(gw: Gateway, job: Job, s: Progress, horizon: nat): (r: Progress)
    requires job.batchSize >= 1 && s.i <= TotalBatches(job) && QuietFrom(gw, horizon)
    ensures r.i == TotalBatches(job)
    decreases if s.t < horizon then horizon - s.t else 0, TotalBatches(job) - s.i
  {
    if s.i == TotalBatches(job) then s
    else
      AttemptAdvances(gw, job, s, horizon);
      RunFrom(gw, job, Attempt(gw, job, s), horizon)
  }

  /** The number of rate-limit pauses recorded. */
  function Pauses(events: seq<Event>): nat
    decreases |events|
  {
    if events == [] then 0
    else Pauses(events[..|events| - 1]) + (if events[|events| - 1].Paused? then 1 else 0)
  }

  lemma PausesSnoc(events: seq<Event>, e: Event)
    ensures Pauses(events + [e]) == Pauses(events) + (if e.Paused? then 1 else 0)
  {
    assert (events + [e])[..|events|] == events;
  }

  /** `processedCount` is the start position plus the records appended, and
      the delay is the initial one plus 500 ms per 429. */
  predicate Accounted(job: Job, delayMs: int, s: Progress) {
    s.processed == job.start + |s.games| && s.delay == delayMs + DelayIncrementMs * Pauses(s.events)
  }

  lemma AttemptAccounted(gw: Gateway, job: Job, delayMs: int, s: Progress)
    requires job.batchSize >= 1 && s.i < TotalBatches(job) && Accounted(job, delayMs, s)
    ensures Accounted(job, delayMs, Attempt(gw, job, s))
  {
    PausesSnoc(s.events, Paused(RateLimitPauseMs));
  }

  /** The whole run keeps the accounting: at the end `processedCount` is
      the start position plus the number of records returned, and the delay
      has grown by exactly 500 ms per 429, never shrinking. */
  lemma {:induction false} RunAccounted(gw: Gateway, job: Job, delayMs: int, s: Progress, horizon: nat)
    requires job.batchSize >= 1 && s.i <= TotalBatches(job) && QuietFrom(gw, horizon)
    requires Accounted(job, delayMs, s)
    ensures Accounted(job, delayMs, RunFrom(gw, job, s, horizon))
    ensures RunFrom(gw, job, s, horizon).delay >= s.delay
    decreases if s.t < horizon then horizon - s.t else 0, TotalBatches(job) - s.i
  {
    if s.i < TotalBatches(job) {
      AttemptAdvances(gw, job, s, horizon);
      AttemptAccounted(gw, job, delayMs, s);
      AttemptCases(gw, job, s);
      RunAccounted(gw, job, delayMs, Attempt(gw, job, s), horizon);
    }
  }

  /** No checkpoint among the events. */
  predicate NoCheckpoint(events: seq<Event>) {
    forall k :: 0 <= k < |events| ==> !events[k].ProgressSaved?
  }

  lemma NoCheckpointAppend(a: seq<Event>, b: seq<Event>)
    requires NoCheckpoint(a) && NoCheckpoint(b)
    ensures NoCheckpoint(a + b)
  {
    assert forall k :: 0 <= k < |a| ==> (a + b)[k] == a[k];
    assert forall k :: |a| <= k < |a + b| ==> (a + b)[k] == b[k - |a|];
  }

  /** A fetched batch of such a run adds no checkpoint. */
  lemma AfterBatchNeverSaves(job: Job, s: Progress, batch: seq<BoardGameBasic>, records: seq<BoardGameDetailed>)
    requires job.batchSize >= 1 && job.start % SaveInterval >= job.batchSize
    requires s.processed == job.start + |s.games| && NoCheckpoint(s.events)
    ensures NoCheckpoint(AfterBatch(job, s, batch, records).events)
  {
    var r := AfterBatch(job, s, batch, records);
    var count := |r.games|;
    assert count == |s.games| + |records|;
    assert r.processed == job.start + count;
    NoSaveAtOffset(count, job.start, job.batchSize);
    BatchEventsNoCheckpoint(job, s.i, s.delay, r.games, r.processed);
    NoCheckpointAppend(s.events, BatchEvents(job, s.i, s.delay, r.games, r.processed));
  }

  lemma BatchEventsNoCheckpoint(job: Job, i: nat, delay: int, games: seq<BoardGameDetailed>, processed: nat)
    requires job.batchSize >= 1 && !ShouldSaveProgress(|games|, processed, job.batchSize)
    ensures NoCheckpoint(BatchEvents(job, i, delay, games, processed))
  {
  }

  /** One pass of a run resumed at such an offset adds no checkpoint. */
  lemma AttemptNeverSaves(gw: Gateway, job: Job, delayMs: int, s: Progress)
    requires job.batchSize >= 1 && s.i < TotalBatches(job)
    requires job.start % SaveInterval >= job.batchSize && Accounted(job, delayMs, s) && NoCheckpoint(s.events)
    ensures NoCheckpoint(Attempt(gw, job, s).events)
  {
    var batch := Batch(job, s.i);
    var fetched := FetchGameDetailsBatch(gw, Ids(batch), s.t);
    match fetched.0
    case Raised(TooManyRequests) =>
      NoCheckpointAppend(s.events, [Paused(RateLimitPauseMs)]);
    case Raised(OtherFault) =>
    case Fetched(records) =>
      AfterBatchNeverSaves(job, s.(t := fetched.1), batch, records);
  }

  /** A run resumed at an offset whose distance past a multiple of 300 is
      at least the batch size never checkpoints: a checkpoint needs the
      list to hold a multiple of 300, and then `processedCount` is that
      same distance past a multiple of 300. */
  lemma {:induction false} ResumedRunNeverSaves(gw: Gateway, job: Job, delayMs: int, s: Progress, horizon: nat)
    requires job.batchSize >= 1 && s.i <= TotalBatches(job) && QuietFrom(gw, horizon)
    requires job.start % SaveInterval >= job.batchSize && Accounted(job, delayMs, s) && NoCheckpoint(s.events)
    ensures NoCheckpoint(RunFrom(gw, job, s, horizon).events)
    decreases if s.t < horizon then horizon - s.t else 0, TotalBatches(job) - s.i
  {
    if s.i < TotalBatches(job) {
      AttemptAdvances(gw, job, s, horizon);
      AttemptAccounted(gw, job, delayMs, s);
      AttemptNeverSaves(gw, job, delayMs, s);
      ResumedRunNeverSaves(gw, job, delayMs, Attempt(gw, job, s), horizon);
    }
  }

  /** A list holding a multiple of 300 leaves `start + |list|` at the
      offset's distance past a multiple of 300. */
  lemma NoSaveAtOffset(count: nat, start: nat, batchSize: nat)
    requires start % SaveInterval >= batchSize
    ensures !ShouldSaveProgress(count, start + count, batchSize)
  {
    ShouldSaveProgressRule(count, start + count, batchSize);
    if count % SaveInterval == 0 {
      var q := count / SaveInterval;
      assert count == SaveInterval * q;
      assert (start + SaveInterval * q) % SaveInterval == start % SaveInterval;
    }
  }

  /** A batch that yields no record right after a checkpoint records the
      very same checkpoint again. */
  lemma CheckpointRepeats(job: Job, s: Progress, batch: seq<BoardGameBasic>)
    requires job.batchSize >= 1
    requires ShouldSaveProgress(|s.games|, s.processed, job.batchSize)
    ensures var r := AfterBatch(job, s, batch, []);
      |r.events| > |s.events| &&
      r.events[|s.events|] == ProgressSaved(ProgressFileName(job.saveFileName, s.processed), |s.games|)
  {
    assert |CompletedAll([], batch)| == 0;
    assert s.games + CompletedAll([], batch) == s.games;
  }

  /** Records are only ever appended: what a run starts with is a prefix of
      what it returns. */
  lemma {:induction false} RunExtends(gw: Gateway, job: Job, s: Progress, horizon: nat)
    requires job.batchSize >= 1 && s.i <= TotalBatches(job) && QuietFrom(gw, horizon)
    ensures s.games <= RunFrom(gw, job, s, horizon).games
    ensures s.events <= RunFrom(gw, job, s, horizon).events
    decreases if s.t < horizon then horizon - s.t else 0, TotalBatches(job) - s.i
  {
    if s.i < TotalBatches(job) {
      AttemptAdvances(gw, job, s, horizon);
      AttemptCases(gw, job, s);
      var s' := Attempt(gw, job, s);
      RunExtends(gw, job, s', horizon);
    }
  }

  /** One turn of the loop. */
  lemma RunFromStep(gw: Gateway, job: Job, s: Progress, horizon: nat)
    requires job.batchSize >= 1 && s.i < TotalBatches(job) && QuietFrom(gw, horizon)
    ensures Attempt(gw, job, s).i <= TotalBatches(job)
    ensures RunFrom(gw, job, s, horizon) == RunFrom(gw, job, Attempt(gw, job, s), horizon)
  {
    AttemptAdvances(gw, job, s, horizon);
  }

  /** The state before the first batch. */
  function Start(job: Job, delayMs: int): (s: Progress)
    ensures s.i == 0 && s.games == [] && s.events == [] && s.processed == job.start && s.delay == delayMs
  {
    Progress(0, 0, [], job.start, delayMs, [])
  }

  /** One turn of the `for` loop for batch `i`, the `i--` after a 429 and
      the loop's `i++` included. */
  method RunBatch(gw: Gateway, job: Job, i: nat, t: nat, games: seq<BoardGameDetailed>, processed: nat, delay: int,
                  events: seq<Event>)
    returns (i': nat, t': nat, games': seq<BoardGameDetailed>, processed': nat, delay': int, events': seq<Event>)
    requires job.batchSize >= 1 && i < TotalBatches(job)
    ensures Attempt(gw, job, Progress(i, t, games, processed, delay, events)) ==
      Progress(i', t', games', processed', delay', events')
  {
    var batch := Batch(job, i);
    var fetched := FetchGameDetailsBatch(gw, Ids(batch), t);
    t' := fetched.1;
    match fetched.0 {
      case Raised(TooManyRequests) =>
        i', games', processed' := i, games, processed;
        events' := events + [Paused(RateLimitPauseMs)];
        delay' := delay + DelayIncrementMs;
      case Raised(OtherFault) =>
        i', games', processed', delay', events' := i + 1, games, processed, delay, events;
      case Fetched(records) =>
        games', processed', events' := RecordBatch(job, i, t', delay, batch, records, games, processed, events);
        i', delay' := i + 1, delay;
    }
  }

  /** EnrichGamesWithDetailsAsync: the `for` loop over the batches, with
      the rewinding `i--` after a 429. `horizon` only bounds the retries. */
  method EnrichGamesWithDetails(gw: Gateway, basics: seq<BoardGameBasic>, batchSize: nat, delayMs: int,
                                saveFileName: string, start: nat, ghost horizon: nat)
    returns (games: seq<BoardGameDetailed>, events: seq<Event>)
    requires batchSize >= 1 && QuietFrom(gw, horizon)
    ensures var job := Job(basics, batchSize, saveFileName, start);
      games == RunFrom(gw, job, Start(job, delayMs), horizon).games &&
      events == RunFrom(gw, job, Start(job, delayMs), horizon).events
  {
    var job := Job(basics, batchSize, saveFileName, start);
    var total := TotalBatches(job);
    games := [];
    events := [];
    var processed: nat := start;
    var delay := delayMs;
    var t: nat := 0;
    var i: int := 0;
    while i < total
      invariant 0 <= i <= total
      invariant RunFrom(gw, job, Progress(i, t, games, processed, delay, events), horizon) ==
        RunFrom(gw, job, Start(job, delayMs), horizon)
      decreases if t < horizon then horizon - t else 0, total - i
    {
      ghost var before := Progress(i, t, games, processed, delay, events);
      AttemptAdvances(gw, job, before, horizon);
      RunFromStep(gw, job, before, horizon);
      i, t, games, processed, delay, events := RunBatch(gw, job, i, t, games, processed, delay, events);
    }
  }
}
