/**
 The chunked bulk import for one validated plan. Every run starts over from the first chunk; the
 server applies a chunk's idempotency key once and replays the stored result afterwards.
 */
module BulkImport {
  import opened Wrappers

  type Row = string

  // ---------------------------------------------------------------- chunks

  function Flatten<T>(chunks: seq<seq<T>>): seq<T>
  {
    if chunks == [] then [] else Flatten(chunks[..|chunks| - 1]) + chunks[|chunks| - 1]
  }

  /** In order and complete, no chunk empty or too large, and only the last one short. */
  ghost predicate IsChunking<T>(items: seq<T>, size: nat, chunks: seq<seq<T>>)
  {
    && Flatten(chunks) == items
    && (forall i | 0 <= i < |chunks| :: 0 < |chunks[i]| <= size)
    && (forall i | 0 <= i < |chunks| - 1 :: |chunks[i]| == size)
  }

  method ChunkRows<T>(items: seq<T>, size: nat) returns (result: seq<seq<T>>)
    requires size > 0
    ensures IsChunking(items, size, result)
  {
    result := [];
    var index := 0;
    while index < |items|
      invariant 0 <= index
      invariant Flatten(result) == items[..if index <= |items| then index else |items|]
      invariant forall i | 0 <= i < |result| :: 0 < |result[i]| <= size
      invariant index < |items| ==> forall i | 0 <= i < |result| :: |result[i]| == size
      invariant forall i | 0 <= i < |result| - 1 :: |result[i]| == size
      decreases |items| - index
    {
      var end := if index + size <= |items| then index + size else |items|;
      ghost var before := result;
      result := result + [items[index..end]];
      assert result[..|result| - 1] == before;
      assert items[..index] + items[index..end] == items[..end];
      index := index + size;
    }
    assert items[..|items|] == items;
  }

  // ---------------------------------------------------------------- idempotency keys

  function Decimal(n: nat): string
  {
    if n < 10 then [(48 + n) as char] else Decimal(n / 10) + [(48 + n % 10) as char]
  }

  lemma {:induction false} DecimalIsInjective(a: nat, b: nat)
    requires Decimal(a) == Decimal(b)
    ensures a == b
    decreases a
  {
    var x, y := Decimal(a), Decimal(b);
    assert x[|x| - 1] == (48 + a % 10) as char && y[|y| - 1] == (48 + b % 10) as char;
    DecimalNotEmpty(a / 10);
    DecimalNotEmpty(b / 10);
    if a >= 10 && b >= 10 {
      assert x[..|x| - 1] == Decimal(a / 10) && y[..|y| - 1] == Decimal(b / 10);
      DecimalIsInjective(a / 10, b / 10);
    }
  }

  lemma DecimalNotEmpty(n: nat)
    ensures |Decimal(n)| >= 1
  {
  }

  /** The execute key of a chunk, cut at 128 characters. */
  function ExecuteKey(runId: string, index: nat): string
  {
    var key := runId + "-e-" + Decimal(index);
    if |key| <= 128 then key else key[..128]
  }

  /** While nothing is cut off, different chunks of a run have different keys. */
  lemma KeysAreDistinct(runId: string, i: nat, j: nat)
    requires |runId| + 3 + |Decimal(i)| <= 128 && |runId| + 3 + |Decimal(j)| <= 128
    requires ExecuteKey(runId, i) == ExecuteKey(runId, j)
    ensures i == j
  {
    var n := |runId| + 3;
    assert ExecuteKey(runId, i)[n..] == Decimal(i) && ExecuteKey(runId, j)[n..] == Decimal(j);
    DecimalIsInjective(i, j);
  }

  /**
   Run ids of up to 120 characters (they are 36-character UUIDs) leave room for every chunk of a plan
   of under 100 000 chunks.
   */
  lemma KeysFit(runId: string, index: nat)
    requires |runId| <= 120 && index < 100000
    ensures |runId| + 3 + |Decimal(index)| <= 128
  {
    assert |Decimal(index / 10000)| == 1;
    assert |Decimal(index / 1000)| <= 2;
    assert |Decimal(index / 100)| <= 3;
    assert |Decimal(index / 10)| <= 4;
  }

  // ---------------------------------------------------------------- the import

  /** A chunk is executed only with the checksum its validation returned; "" is a missing one. */
  datatype Chunk = Chunk(rows: seq<Row>, checksum: string)

  datatype Counts = Counts(created: int, updated: int, skipped: int, failed: int)

  const ZERO := Counts(0, 0, 0, 0)

  /** The summary numbers of a chunk's result, some of which a mode does not report, and the one-time credentials. */
  datatype Result = Result(
    created: Option<int>, enrollable: Option<int>, update: Option<int>, skip: Option<int>, invalid: Option<int>,
    credentials: seq<string>)

  function OrZero(x: Option<int>): int { if x.Some? then x.value else 0 }

  function Add(c: Counts, r: Result): Counts
  {
    Counts(c.created + (if r.created.Some? then r.created.value else OrZero(r.enrollable)),
           c.updated + OrZero(r.update), c.skipped + OrZero(r.skip), c.failed + OrZero(r.invalid))
  }

  /** The chunks applied so far, in order, and the stored result of each applied key. */
  datatype Server = Server(applied: seq<seq<Row>>, replies: map<string, Result>)

  const FRESH_SERVER := Server([], map[])

  /** What becomes of one request, and whether the user has asked to stop by the time it is answered. */
  datatype Fate = Answered(stop: bool) | RequestLost | ReplyLost | Refused

  /** The server judges a fresh chunk; a known key is answered from the stored result. */
  function Execute(sv: Server, key: string, rows: seq<Row>, judge: seq<Row> -> Result): Server
  {
    if key in sv.replies then sv else Server(sv.applied + [rows], sv.replies[key := judge(rows)])
  }

  datatype Report = Report(completed: int, counts: Counts, credentials: seq<string>, failed: bool)

  function RunFrom(sv: Server, plan: seq<Chunk>, runId: string, judge: seq<Row> -> Result, script: nat -> Fate,
      i: nat, counts: Counts, credentials: seq<string>): (Server, Report)
    requires i <= |plan|
    decreases |plan| - i
  {
    if i == |plan| then (sv, Report(i, counts, credentials, false))
    else if plan[i].checksum == "" || script(i).RequestLost? || script(i).Refused? then
        (sv, Report(i, counts, credentials, true))
    else
      var key := ExecuteKey(runId, i);
      var sv' := Execute(sv, key, plan[i].rows, judge);
      if script(i).ReplyLost? then (sv', Report(i, counts, credentials, true))
      else
        var r := sv'.replies[key];
        if script(i).stop then (sv', Report(i + 1, Add(counts, r), credentials + r.credentials, false))
        else RunFrom(sv', plan, runId, judge, script, i + 1, Add(counts, r), credentials + r.credentials)
  }

  method ExecuteImport(sv: Server, plan: seq<Chunk>, runId: string, judge: seq<Row> -> Result, script: nat -> Fate)
    returns (server: Server, report: Report)
    ensures (server, report) == RunFrom(sv, plan, runId, judge, script, 0, ZERO, [])
  {
    server := sv;
    var counts, credentials := ZERO, [];
    var index := 0;
    while index < |plan|
      invariant 0 <= index <= |plan|
      invariant RunFrom(sv, plan, runId, judge, script, 0, ZERO, []) ==
                RunFrom(server, plan, runId, judge, script, index, counts, credentials)
    {
      if plan[index].checksum == "" {
        return server, Report(index, counts, credentials, true);
      }
      var fate := script(index);
      if fate.RequestLost? || fate.Refused? {
        return server, Report(index, counts, credentials, true);
      }
      var key := ExecuteKey(runId, index);
      server := Execute(server, key, plan[index].rows, judge);
      if fate.ReplyLost? {
        return server, Report(index, counts, credentials, true);
      }
      var result := server.replies[key];
      counts := Counts(
        counts.created + (match result.created case Some(n) => n case None => OrZero(result.enrollable)),
        counts.updated + OrZero(result.update),
        counts.skipped + OrZero(result.skip),
        counts.failed + OrZero(result.invalid));
      credentials := credentials + result.credentials;
      index := index + 1;
      if fate.stop {
        return server, Report(index, counts, credentials, false);
      }
    }
    report := Report(index, counts, credentials, false);
  }

  // ---------------------------------------------------------------- applied exactly once, in order

  function RowsOf(plan: seq<Chunk>): (r: seq<seq<Row>>)
    ensures |r| == |plan| && forall i | 0 <= i < |r| :: r[i] == plan[i].rows
  {
    seq(|plan|, i requires 0 <= i < |plan| => plan[i].rows)
  }

  /** The server has applied exactly the first n chunks of the plan, each once and in order, under their own keys. */
  ghost predicate AppliedPrefix(sv: Server, plan: seq<Chunk>, runId: string, judge: seq<Row> -> Result, n: nat)
  {
    && n <= |plan| && sv.applied == RowsOf(plan)[..n]
    && (forall i | 0 <= i < |plan| :: ExecuteKey(runId, i) in sv.replies <==> i < n)
    && (forall i | 0 <= i < n :: sv.replies[ExecuteKey(runId, i)] == judge(plan[i].rows))
  }

  ghost predicate DistinctKeys(runId: string, plan: seq<Chunk>)
  {
    forall i, j | 0 <= i < j < |plan| :: ExecuteKey(runId, i) != ExecuteKey(runId, j)
  }

  lemma ExecuteExtends(sv: Server, plan: seq<Chunk>, runId: string, judge: seq<Row> -> Result, n: nat, i: nat)
    requires AppliedPrefix(sv, plan, runId, judge, n) && DistinctKeys(runId, plan) && i <= n && i < |plan|
    ensures var sv' := Execute(sv, ExecuteKey(runId, i), plan[i].rows, judge);
            && AppliedPrefix(sv', plan, runId, judge, if i < n then n else n + 1)
            && sv'.replies[ExecuteKey(runId, i)] == judge(plan[i].rows)
  {
    if i == n {
      assert RowsOf(plan)[..n + 1] == RowsOf(plan)[..n] + [plan[n].rows];
    }
  }

  /** The sum of one number over the results of the first n chunks. */
  function Total(plan: seq<Chunk>, judge: seq<Row> -> Result, n: nat, number: Result -> int): int
    requires n <= |plan|
  {
    if n == 0 then 0 else Total(plan, judge, n - 1, number) + number(judge(plan[n - 1].rows))
  }

  /** What a report should add up to: the results of the first n chunks, number by number. */
  function CountsOf(plan: seq<Chunk>, judge: seq<Row> -> Result, n: nat): Counts
    requires n <= |plan|
  {
    Counts(Total(plan, judge, n, CreatedOf), Total(plan, judge, n, UpdatedOf), Total(plan, judge, n, SkippedOf),
           Total(plan, judge, n, FailedOf))
  }

  /** Students report created rows, enrolments the enrollable ones. */
  function CreatedOf(r: Result): int
  {
    match r.created
    case Some(n) => n
    case None => if r.enrollable.Some? then r.enrollable.value else 0
  }

  function UpdatedOf(r: Result): int { if r.update.Some? then r.update.value else 0 }
  function SkippedOf(r: Result): int { if r.skip.Some? then r.skip.value else 0 }
  function FailedOf(r: Result): int { if r.invalid.Some? then r.invalid.value else 0 }

  function CredentialsOf(plan: seq<Chunk>, judge: seq<Row> -> Result, n: nat): seq<string>
    requires n <= |plan|
  {
    if n == 0 then [] else CredentialsOf(plan, judge, n - 1) + judge(plan[n - 1].rows).credentials
  }

  /** The server still holds a prefix, and the report accounts for exactly the chunks it got answers for. */
  ghost predicate GoodOutcome(o: (Server, Report), plan: seq<Chunk>, runId: string, judge: seq<Row> -> Result,
      script: nat -> Fate, i: nat, m: nat)
  {
    && AppliedPrefix(o.0, plan, runId, judge, m)
    && i <= o.1.completed <= m
    && o.1.counts == CountsOf(plan, judge, o.1.completed)
    && o.1.credentials == CredentialsOf(plan, judge, o.1.completed)
    && (o.1.failed ==>
          o.1.completed < |plan| && (plan[o.1.completed].checksum == "" || !script(o.1.completed).Answered?))
    && (o.1.completed < |plan| ==> o.1.failed || (o.1.completed > i && script(o.1.completed - 1) == Answered(true)))
  }

  /** The run does not go past chunk i: the plan is done, the request fails, or the user stops. */
  predicate EndsAt(plan: seq<Chunk>, script: nat -> Fate, i: nat)
  {
    i >= |plan| || plan[i].checksum == "" || script(i) != Answered(false)
  }

  lemma LastStep(sv: Server, plan: seq<Chunk>, runId: string, judge: seq<Row> -> Result, script: nat -> Fate, n: nat,
      i: nat)
    returns (m: nat)
    requires AppliedPrefix(sv, plan, runId, judge, n) && DistinctKeys(runId, plan) && i <= n && EndsAt(plan, script, i)
    ensures n <= m
    ensures GoodOutcome(
              RunFrom(sv, plan, runId, judge, script, i, CountsOf(plan, judge, i), CredentialsOf(plan, judge, i)),
              plan, runId, judge, script, i, m)
  {
    m := n;
    if i < |plan| && plan[i].checksum != "" && (script(i).ReplyLost? || script(i).Answered?) {
      ExecuteExtends(sv, plan, runId, judge, n, i);
      m := if i < n then n else n + 1;
      LastChunkExecuted(sv, plan, runId, judge, script, m, i);
    }
  }

  /** The last chunk of a run reaches the server: the answer is lost, or it comes and the user stops. */
  lemma LastChunkExecuted(sv: Server, plan: seq<Chunk>, runId: string, judge: seq<Row> -> Result, script: nat -> Fate,
      m: nat, i: nat)
    requires i < |plan| && plan[i].checksum != "" && (script(i).ReplyLost? || script(i) == Answered(true)) && i < m
    requires var sv' := Execute(sv, ExecuteKey(runId, i), plan[i].rows, judge);
             && AppliedPrefix(sv', plan, runId, judge, m)
             && sv'.replies[ExecuteKey(runId, i)] == judge(plan[i].rows)
    ensures GoodOutcome(
              RunFrom(sv, plan, runId, judge, script, i, CountsOf(plan, judge, i), CredentialsOf(plan, judge, i)),
              plan, runId, judge, script, i, m)
  {
    var counts, credentials := CountsOf(plan, judge, i), CredentialsOf(plan, judge, i);
    var o := RunFrom(sv, plan, runId, judge, script, i, counts, credentials);
    var sv' := Execute(sv, ExecuteKey(runId, i), plan[i].rows, judge);
    if script(i).ReplyLost? {
      assert o == (sv', Report(i, counts, credentials, true));
    } else {
      var result := judge(plan[i].rows);
      assert o == (sv', Report(i + 1, Add(counts, result), credentials + result.credentials, false));
      assert CountsOf(plan, judge, i + 1) == Add(counts, result);
    }
  }

  /** A run from chunk i keeps the applied chunks a prefix and never shortens it. */
  lemma {:induction false} RunKeepsPrefix(sv: Server, plan: seq<Chunk>, runId: string, judge: seq<Row> -> Result,
      script: nat -> Fate, n: nat, i: nat)
    returns (m: nat)
    requires AppliedPrefix(sv, plan, runId, judge, n) && DistinctKeys(runId, plan) && i <= n
    ensures n <= m
    ensures GoodOutcome(
              RunFrom(sv, plan, runId, judge, script, i, CountsOf(plan, judge, i), CredentialsOf(plan, judge, i)),
              plan, runId, judge, script, i, m)
    decreases |plan| - i
  {
    if EndsAt(plan, script, i) {
      m := LastStep(sv, plan, runId, judge, script, n, i);
    } else {
      ExecuteExtends(sv, plan, runId, judge, n, i);
      var sv' := Execute(sv, ExecuteKey(runId, i), plan[i].rows, judge);
      m := RunKeepsPrefix(sv', plan, runId, judge, script, if i < n then n else n + 1, i + 1);
      RunGoesOn(sv, plan, runId, judge, script, n, i);
      Widened(RunFrom(sv', plan, runId, judge, script, i + 1, CountsOf(plan, judge, i + 1),
                      CredentialsOf(plan, judge, i + 1)), plan, runId, judge, script, i, m);
    }
  }

  lemma RunGoesOn(sv: Server, plan: seq<Chunk>, runId: string, judge: seq<Row> -> Result, script: nat -> Fate, n: nat,
      i: nat)
    requires AppliedPrefix(sv, plan, runId, judge, n) && DistinctKeys(runId, plan) && i <= n && !EndsAt(plan, script, i)
    ensures RunFrom(sv, plan, runId, judge, script, i, CountsOf(plan, judge, i), CredentialsOf(plan, judge, i)) ==
            RunFrom(Execute(sv, ExecuteKey(runId, i), plan[i].rows, judge), plan, runId, judge, script, i + 1,
                    CountsOf(plan, judge, i + 1), CredentialsOf(plan, judge, i + 1))
  {
    ExecuteExtends(sv, plan, runId, judge, n, i);
    assert CountsOf(plan, judge, i + 1) == Add(CountsOf(plan, judge, i), judge(plan[i].rows));
  }

  lemma Widened(o: (Server, Report), plan: seq<Chunk>, runId: string, judge: seq<Row> -> Result, script: nat -> Fate,
      i: nat, m: nat)
    requires GoodOutcome(o, plan, runId, judge, script, i + 1, m)
    ensures GoodOutcome(o, plan, runId, judge, script, i, m)
  {
  }

  /** The server after several runs of the same plan: first tries, retries, and runs after a stop. */
  function AfterRuns(plan: seq<Chunk>, runId: string, judge: seq<Row> -> Result, scripts: seq<nat -> Fate>): Server
  {
    if scripts == [] then FRESH_SERVER
    else
      var n := |scripts| - 1;
      RunFrom(AfterRuns(plan, runId, judge, scripts[..n]), plan, runId, judge, scripts[n], 0, ZERO, []).0
  }

  lemma {:induction false} RunsKeepPrefix(plan: seq<Chunk>, runId: string, judge: seq<Row> -> Result,
      scripts: seq<nat -> Fate>)
    returns (m: nat)
    requires DistinctKeys(runId, plan)
    ensures AppliedPrefix(AfterRuns(plan, runId, judge, scripts), plan, runId, judge, m)
  {
    m := 0;
    if scripts == [] {
    } else {
      var n := RunsKeepPrefix(plan, runId, judge, scripts[..|scripts| - 1]);
      m := RunKeepsPrefix(AfterRuns(plan, runId, judge, scripts[..|scripts| - 1]), plan, runId, judge,
          scripts[|scripts| - 1], n, 0);
    }
  }

  /**
   Over any runs with failures, stops and retries, the applied chunks are a prefix of the plan, each
   applied once; and when a last run gets through, every row was applied exactly once and in order,
   and its report accounts for every chunk, whichever run applied it.
   */
  lemma ImportIsExactlyOnce(items: seq<Row>, plan: seq<Chunk>, runId: string, judge: seq<Row> -> Result,
      scripts: seq<nat -> Fate>)
    requires |items| <= 5000 && |runId| <= 120
    requires IsChunking(items, 250, RowsOf(plan)) && scripts != []
    ensures AfterRuns(plan, runId, judge, scripts).applied <= RowsOf(plan)
    ensures var report := RunFrom(AfterRuns(plan, runId, judge, scripts[..|scripts| - 1]), plan, runId, judge,
                                  scripts[|scripts| - 1], 0, ZERO, []).1;
            report.completed == |plan| ==>
              && Flatten(AfterRuns(plan, runId, judge, scripts).applied) == items
              && report.counts == CountsOf(plan, judge, |plan|)
              && report.credentials == CredentialsOf(plan, judge, |plan|)
  {
    ChunksAreFew(RowsOf(plan));
    RealRunsHaveDistinctKeys(runId, plan);
    var before := AfterRuns(plan, runId, judge, scripts[..|scripts| - 1]);
    var n := RunsKeepPrefix(plan, runId, judge, scripts[..|scripts| - 1]);
    var m := RunKeepsPrefix(before, plan, runId, judge, scripts[|scripts| - 1], n, 0);
    if m == |plan| { assert RowsOf(plan)[..m] == RowsOf(plan); }
  }

  lemma {:induction false} ChunksAreFew<T>(chunks: seq<seq<T>>)
    requires forall i | 0 <= i < |chunks| :: |chunks[i]| > 0
    ensures |chunks| <= |Flatten(chunks)|
  {
    if chunks == [] {
    } else {
      ChunksAreFew(chunks[..|chunks| - 1]);
    }
  }

  /**
   The keys of a run are distinct: run ids are UUIDs, and a list has at most 5000 rows and so far fewer
   chunks than this.
   */
  lemma RealRunsHaveDistinctKeys(runId: string, plan: seq<Chunk>)
    requires |runId| <= 120 && |plan| <= 100000
    ensures DistinctKeys(runId, plan)
  {
    forall i, j | 0 <= i < j < |plan| ensures ExecuteKey(runId, i) != ExecuteKey(runId, j) {
      KeysFit(runId, i);
      KeysFit(runId, j);
      if ExecuteKey(runId, i) == ExecuteKey(runId, j) { KeysAreDistinct(runId, i, j); }
    }
  }
}
