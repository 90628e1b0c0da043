/**
 The optimistic attendance cache against the queue, one API call at a time and for one signed-in
 student: a row that still awaits confirmation always has a queued scan behind it.
 */
module AttendanceCache {
  import opened Wrappers
  import opened QueueTable
  import opened DrainPass
  import opened SendCallback

  /** `unsynced` is `isSynced === false`; server records never carry it. */
  datatype Record = Record(id: string, sessionId: string, studentId: string, unsynced: bool)

  type Cache = map<string, Record>

  /** The table's primary key is the record's id. */
  predicate KeyedById(c: Cache)
  {
    forall id | id in c :: c[id].id == id
  }

  datatype View = View(queue: Table, cache: Cache)

  /** Upserts by record id, in order. */
  function CacheAll(c: Cache, records: seq<Record>): Cache
  {
    if records == [] then c
    else
      var n := |records| - 1;
      CacheAll(c, records[..n])[records[n].id := records[n]]
  }

  function WithoutStudent(c: Cache, student: string): Cache
  {
    map id | id in c && c[id].studentId != student :: c[id]
  }

  function AwaitingOf(c: Cache, student: string): Cache
  {
    map id | id in c && c[id].studentId == student && c[id].unsynced :: c[id]
  }

  /** The student's rows become the server's, except that rows awaiting confirmation stay as they are. */
  function Replaced(c: Cache, student: string, records: seq<Record>): Cache
  {
    CacheAll(WithoutStudent(c, student), records) + AwaitingOf(c, student)
  }

  /** Without a student every row matches. */
  predicate IsOf(r: Record, student: Option<string>)
  {
    student.None? || r.studentId == student.value
  }

  function WithoutAttempt(c: Cache, sessionId: string, student: string): Cache
  {
    map id | id in c && !(c[id].sessionId == sessionId && c[id].studentId == student) :: c[id]
  }

  /** An upsert overrides the old rows with what the records alone would give. */
  lemma {:induction false} CacheAllIsUnion(c: Cache, records: seq<Record>)
    ensures CacheAll(c, records) == c + CacheAll(map[], records)
  {
    if records == [] {
    } else {
      CacheAllIsUnion(c, records[..|records| - 1]);
    }
  }

  /** The records alone give one row per id, under that id. */
  lemma {:induction false} Collected(records: seq<Record>)
    ensures forall id | id in CacheAll(map[], records) ::
              CacheAll(map[], records)[id] in records && CacheAll(map[], records)[id].id == id
    ensures forall r | r in records :: r.id in CacheAll(map[], records)
  {
    if records == [] {
    } else {
      var n := |records| - 1;
      Collected(records[..n]);
      assert forall r | r in records :: r in records[..n] || r == records[n];
    }
  }

  /** The last record of an id is the one kept. */
  lemma {:induction false} LastRecordWins(c: Cache, records: seq<Record>, i: nat)
    requires i < |records| && forall j | i < j < |records| :: records[j].id != records[i].id
    ensures records[i].id in CacheAll(c, records) && CacheAll(c, records)[records[i].id] == records[i]
  {
    var n := |records| - 1;
    if i == n {
    } else {
      LastRecordWins(c, records[..n], i);
    }
  }

  lemma {:induction false} CacheAllAppend(c: Cache, a: seq<Record>, b: seq<Record>)
    ensures CacheAll(c, a + b) == CacheAll(CacheAll(c, a), b)
  {
    if b == [] {
      assert a + b == a;
    } else {
      var n := |b| - 1;
      CacheAllAppend(c, a, b[..n]);
      assert (a + b)[..|a + b| - 1] == a + b[..n];
    }
  }

  /** Every row of the cache after an upsert is an old row or one of the records. */
  lemma {:induction false} CacheAllOrigin(c: Cache, records: seq<Record>, id: string)
    requires id in CacheAll(c, records)
    ensures CacheAll(c, records)[id] in records || (id in c && CacheAll(c, records)[id] == c[id])
  {
    if records == [] {
    } else {
      var n := |records| - 1;
      if id != records[n].id {
        CacheAllOrigin(c, records[..n], id);
      }
    }
  }

  /** Read row by row: awaiting rows survive, the student's other rows are the server's, nobody else's row goes away. */
  lemma ReplacedReads(c: Cache, student: string, records: seq<Record>, id: string)
    ensures var r := Replaced(c, student, records);
            var awaiting := id in c && c[id].studentId == student && c[id].unsynced;
            && (awaiting ==> id in r && r[id] == c[id])
            && (!awaiting && (exists x :: x in records && x.id == id) ==>
                  id in r && r[id] in records && r[id].id == id)
            && (!awaiting && !(exists x :: x in records && x.id == id) ==>
                  (id in r <==> id in c && c[id].studentId != student) && (id in r ==> r[id] == c[id]))
  {
    CacheAllIsUnion(WithoutStudent(c, student), records);
    Collected(records);
  }

  // ---------------------------------------------------------------- API calls

  datatype ApiCall =
    /** The network is down: queue the scan, then show it. */
    | SubmitOffline(payload: Payload, random: string, recordId: string, now: int)
    | SubmitOnline(result: Record)
    /** One row of a drain pass, sent and settled. */
    | SyncRow(key: Key, batch: Http<Batch>, status: Http<Status>, server: Record)
    | GetMyAttendance(records: seq<Record>)
    | RetryRow(key: Key)

  /** The key a scan is queued under. */
  function ScanKey(me: string, payload: Payload, random: string): Key
  {
    Key(me, OperationId(AttendanceScan, payload.attemptId, random))
  }

  /** What the send callback does to the cache when a scan's final result arrives. */
  function CacheAfterScan(c: Cache, me: string, sessionId: string, batch: Http<Batch>, status: Http<Status>,
      server: Record): Cache
  {
    var results := FinalResults(batch, status);
    if results.None? || results.value == [] then c
    else if results.value[0].Recorded? then
      CacheAll(WithoutAttempt(c, sessionId, me), [server.(unsynced := false)])
    else if OnResults(results.value).Terminal? then WithoutAttempt(c, sessionId, me)
    else c
  }

  /** The row is one that a pass sends as this student's scan. */
  predicate SyncsScan(me: string, v: View, k: Key)
  {
    && k in v.queue && k.owner == me && Selectable(v.queue[k])
    && v.queue[k].kind.AttendanceScan? && v.queue[k].evidence.Readable?
  }

  function After(me: string, v: View, call: ApiCall): View
  {
    match call
    case SubmitOffline(p, random, recordId, now) =>
      View(Inserted(v.queue, ScanKey(me, p, random), AttendanceScan, Readable(p), now),
           CacheAll(v.cache, [Record(recordId, p.sessionId, me, true)]))
    case SubmitOnline(result) => v.(cache := CacheAll(v.cache, [result]))
    case SyncRow(k, batch, status, server) =>
      if !SyncsScan(me, v, k) then v
      else
        var cache := CacheAfterScan(v.cache, me, v.queue[k].evidence.payload.sessionId, batch, status, server);
        (match OnReply(v.queue[k].attempts, SendScan(batch, status))
         case Leave => View(v.queue, cache)
         case Settle(write, _) => View(Written(v.queue, k, write), cache))
    case GetMyAttendance(records) => v.(cache := Replaced(v.cache, me, records))
    case RetryRow(k) => v.(queue := Reopened(v.queue, k))
  }

  /** The client state as it is held, and the calls as they update it. */
  class AttendanceClient {
    const me: string
    var queue: Table
    var cache: Cache

    constructor (me: string)
      ensures this.me == me && queue == map[] && cache == map[] && KeyedById(cache)
    {
      this.me := me;
      queue, cache := map[], map[];
    }

    method CacheAttendanceRecords(records: seq<Record>)
      modifies `cache
      ensures cache == CacheAll(old(cache), records)
      ensures old(KeyedById(cache)) ==> KeyedById(cache)
    {
      for i := 0 to |records|
        invariant cache == CacheAll(old(cache), records[..i])
        invariant old(KeyedById(cache)) ==> KeyedById(cache)
      {
        assert records[..i + 1][..i] == records[..i];
        cache := cache[records[i].id := records[i]];
      }
      assert records[..|records|] == records;
    }

    method GetCachedAttendanceRecords(student: Option<string>) returns (records: seq<Record>)
      requires KeyedById(cache)
      ensures forall i | 0 <= i < |records| ::
                IsOf(records[i], student) && records[i].id in cache && cache[records[i].id] == records[i]
      ensures forall id | id in cache && IsOf(cache[id], student) :: cache[id] in records
    {
      records := [];
      var rest := cache.Keys;
      while rest != {}
        invariant rest <= cache.Keys
        invariant forall i | 0 <= i < |records| ::
                    IsOf(records[i], student) && records[i].id in cache && cache[records[i].id] == records[i]
        invariant forall id | id in cache.Keys - rest && IsOf(cache[id], student) :: cache[id] in records
        decreases rest
      {
        var id :| id in rest;
        if IsOf(cache[id], student) {
          records := records + [cache[id]];
        }
        rest := rest - {id};
      }
    }

    method ReplaceCachedAttendanceForStudent(student: string, records: seq<Record>)
      requires KeyedById(cache)
      modifies `cache
      ensures cache == Replaced(old(cache), student, records) && KeyedById(cache)
    {
      var existing := GetCachedAttendanceRecords(Some(student));
      var pending: seq<Record> := [];
      for i := 0 to |existing|
        invariant forall r :: r in pending <==> r in existing[..i] && r.unsynced
      {
        if existing[i].unsynced { pending := pending + [existing[i]]; }
      }
      assert existing[..|existing|] == existing;
      cache := map id | id in cache && cache[id].studentId != student :: cache[id];
      ghost var kept := cache;
      CacheAttendanceRecords(records + pending);
      CacheAllAppend(kept, records, pending);
      KeepingPendingRows(CacheAll(kept, records), pending, AwaitingOf(old(cache), student));
    }

    method RemoveCachedAttendanceAttempt(sessionId: string, student: string)
      modifies `cache
      ensures cache == WithoutAttempt(old(cache), sessionId, student)
      ensures forall id :: id in cache <==>
                id in old(cache) && (old(cache)[id].sessionId != sessionId || old(cache)[id].studentId != student)
      ensures forall id | id in cache :: cache[id] == old(cache)[id]
      ensures old(KeyedById(cache)) ==> KeyedById(cache)
    {
      cache := map id | id in cache && !(cache[id].sessionId == sessionId && cache[id].studentId == student) ::
          cache[id];
    }

    method SubmitScanOffline(payload: Payload, random: string, recordId: string, now: int) returns (record: Record)
      modifies this
      ensures old(KeyedById(cache)) ==> KeyedById(cache)
      ensures View(queue, cache) == After(me, old(View(queue, cache)), SubmitOffline(payload, random, recordId, now))
      ensures record == Record(recordId, payload.sessionId, me, true) && cache == old(cache)[recordId := record]
      ensures var k := Key(me, OperationId(AttendanceScan, payload.attemptId, random));
              queue == if k in old(queue) then old(queue)
                       else old(queue)[k := Row(AttendanceScan, Readable(payload), 0, None, now)]
    {
      var k := ScanKey(me, payload, random);
      if k !in queue {
        queue := queue[k := Row(AttendanceScan, Readable(payload), 0, None, now)];
      }
      record := Record(recordId, payload.sessionId, me, true);
      CacheOne(cache, record);
      CacheAttendanceRecords([record]);
    }

    /** None stands for a network failure, after which the cached rows are shown. */
    method GetMyAttendance(online: Option<seq<Record>>) returns (records: seq<Record>)
      requires KeyedById(cache)
      modifies `cache
      ensures KeyedById(cache)
      ensures View(queue, cache) ==
              if online.Some? then After(me, old(View(queue, cache)), ApiCall.GetMyAttendance(online.value))
              else old(View(queue, cache))
      ensures queue == old(queue)
      ensures online.None? ==> cache == old(cache)
      ensures online.Some? ==> cache == Replaced(old(cache), me, online.value)
      ensures forall id | id in cache && cache[id].studentId == me :: cache[id] in records
      ensures forall i | 0 <= i < |records| ::
                records[i].studentId == me && records[i].id in cache && cache[records[i].id] == records[i]
    {
      if online.Some? { ReplaceCachedAttendanceForStudent(me, online.value); }
      records := GetCachedAttendanceRecords(Some(me));
    }

    /** The attendance branch of the send callback, followed by what the drain loop does with its answer. */
    method SyncScanRow(k: Key, batch: Http<Batch>, status: Http<Status>, server: Record)
      requires SyncsScan(me, View(queue, cache), k)
      modifies this
      ensures old(KeyedById(cache)) ==> KeyedById(cache)
      ensures View(queue, cache) == After(me, old(View(queue, cache)), SyncRow(k, batch, status, server))
    {
      var sessionId := queue[k].evidence.payload.sessionId;
      var results := FinalResults(batch, status);
      if results.Some? && results.value != [] {
        match results.value[0] {
          case Recorded =>
            RemoveCachedAttendanceAttempt(sessionId, me);
            CacheAttendanceRecords([server.(unsynced := false)]);
          case Rejected(error, retryable) =>
            if retryable == Some(false) || ClassifyAttendanceSyncError(error).Terminal? {
              RemoveCachedAttendanceAttempt(sessionId, me);
            }
        }
      }
      match OnReply(queue[k].attempts, SendScan(batch, status)) {
        case Leave =>
        case Settle(write, _) => queue := Written(queue, k, write);
      }
    }
  }

  lemma KeepingPendingRows(c: Cache, pending: seq<Record>, awaiting: Cache)
    requires KeyedById(awaiting) && forall id | id in awaiting :: awaiting[id] in pending
    requires forall r | r in pending :: r.id in awaiting && awaiting[r.id] == r
    ensures CacheAll(c, pending) == c + awaiting
  {
    CacheAllIsUnion(c, pending);
    Collected(pending);
    assert CacheAll(map[], pending) == awaiting;
  }

  // ---------------------------------------------------------------- invariant

  /** A scan for this session is still in the queue, waiting or quarantined. */
  ghost predicate ScanQueued(queue: Table, me: string, sessionId: string)
  {
    exists k :: k in queue && IsScanOf(k, queue[k], me, sessionId)
  }

  predicate IsScanOf(k: Key, row: Row, me: string, sessionId: string)
  {
    k.owner == me && row.kind.AttendanceScan? && row.evidence.Readable? && row.evidence.payload.sessionId == sessionId
  }

  /** Every row that awaits confirmation is the student's own and has a scan of its session in the queue. */
  ghost predicate Covered(me: string, v: View)
  {
    forall id | id in v.cache && v.cache[id].unsynced ::
      v.cache[id].studentId == me && ScanQueued(v.queue, me, v.cache[id].sessionId)
  }

  /** Server records are confirmed, and a reused operation id belongs to a session that is already queued. */
  ghost predicate WellBehaved(me: string, v: View, call: ApiCall)
  {
    match call
    case SubmitOffline(p, random, _, _) => ScanKey(me, p, random) !in v.queue || ScanQueued(v.queue, me, p.sessionId)
    case SubmitOnline(result) => !result.unsynced
    case GetMyAttendance(records) => forall r | r in records :: !r.unsynced
    case _ => true
  }

  lemma SubmitKeepsOtherScans(me: string, v: View, call: ApiCall, sessionId: string)
    requires call.SubmitOffline?
    ensures ScanQueued(After(me, v, call).queue, me, sessionId) <==>
              || ScanQueued(v.queue, me, sessionId)
              || (call.payload.sessionId == sessionId && ScanKey(me, call.payload, call.random) !in v.queue)
  {
    var queue := After(me, v, call).queue;
    if ScanQueued(v.queue, me, sessionId) {
      var k :| k in v.queue && IsScanOf(k, v.queue[k], me, sessionId);
      assert k in queue && IsScanOf(k, queue[k], me, sessionId);
    }
    if call.payload.sessionId == sessionId && ScanKey(me, call.payload, call.random) !in v.queue {
      var k := ScanKey(me, call.payload, call.random);
      assert IsScanOf(k, queue[k], me, sessionId);
    }
  }

  /**
   Because the insert ignores an operation id that is already queued, showing an offline scan keeps
   the cache covered exactly when the id is fresh or a scan of its session is already queued.
   */
  lemma SubmitCoversIff(me: string, v: View, call: ApiCall)
    requires Covered(me, v) && call.SubmitOffline?
    ensures Covered(me, After(me, v, call)) <==> WellBehaved(me, v, call)
  {
    var w := After(me, v, call);
    assert w.cache == v.cache[call.recordId := Record(call.recordId, call.payload.sessionId, me, true)] by {
      assert CacheAll(v.cache, []) == v.cache;
    }
    SubmitKeepsOtherScans(me, v, call, call.payload.sessionId);
    forall id | id in v.cache && v.cache[id].unsynced ensures ScanQueued(w.queue, me, v.cache[id].sessionId) {
      SubmitKeepsOtherScans(me, v, call, v.cache[id].sessionId);
    }
    assert Covered(me, w) ==> ScanQueued(w.queue, me, w.cache[call.recordId].sessionId);
  }

  /** The failing case exists: one attempt id used for two sessions shows a scan that was never queued. */
  lemma ReusedAttemptIdLosesAScan(me: string, first: Payload, second: Payload)
    requires first.sessionId != second.sessionId && first.attemptId == second.attemptId != ""
    ensures var v := After(me, View(map[], map[]), SubmitOffline(first, "", "r1", 0));
            var w := After(me, v, SubmitOffline(second, "", "r2", 1));
            Covered(me, v) && !Covered(me, w)
  {
    var call1, call2 := SubmitOffline(first, "", "r1", 0), SubmitOffline(second, "", "r2", 1);
    var v0 := View(map[], map[]);
    SubmitCoversIff(me, v0, call1);
    var v := After(me, v0, call1);
    SubmitCoversIff(me, v, call2);
    assert v.queue == map[ScanKey(me, first, "") := Row(AttendanceScan, Readable(first), 0, None, 0)];
    assert !ScanQueued(v.queue, me, second.sessionId);
  }

  lemma SyncKeepsOtherScans(me: string, v: View, call: ApiCall, sessionId: string)
    requires call.SyncRow? && ScanQueued(v.queue, me, sessionId)
    ensures ScanQueued(After(me, v, call).queue, me, sessionId) ||
            (&& call.key in v.queue && IsScanOf(call.key, v.queue[call.key], me, sessionId)
             && SendScan(call.batch, call.status).Synced?)
  {
    var k :| k in v.queue && IsScanOf(k, v.queue[k], me, sessionId);
    var queue := After(me, v, call).queue;
    if k in queue {
      assert IsScanOf(k, queue[k], me, sessionId);
    } else {
      ScanSyncedIff(call.batch, call.status);
    }
  }

  lemma SyncKeepsCovered(me: string, v: View, call: ApiCall)
    requires Covered(me, v) && call.SyncRow?
    ensures Covered(me, After(me, v, call))
  {
    var w := After(me, v, call);
    if w == v { return; }
    var sessionId := v.queue[call.key].evidence.payload.sessionId;
    var kept := WithoutAttempt(v.cache, sessionId, me);
    var confirmed := call.server.(unsynced := false);
    ScanSyncedIff(call.batch, call.status);
    assert CacheAll(kept, [confirmed]) == kept[confirmed.id := confirmed] by { assert CacheAll(kept, []) == kept; }
    forall id | id in w.cache && w.cache[id].unsynced
      ensures w.cache[id].studentId == me && ScanQueued(w.queue, me, w.cache[id].sessionId)
    {
      assert id in v.cache && w.cache[id] == v.cache[id];
      if SendScan(call.batch, call.status).Synced? {
        assert id in kept;
        assert w.cache[id].sessionId != sessionId;
      }
      SyncKeepsOtherScans(me, v, call, w.cache[id].sessionId);
    }
  }

  lemma StepKeepsCovered(me: string, v: View, call: ApiCall)
    requires Covered(me, v) && WellBehaved(me, v, call)
    ensures Covered(me, After(me, v, call))
  {
    var w := After(me, v, call);
    match call
    case SubmitOffline(_, _, _, _) => SubmitCoversIff(me, v, call);
    case SyncRow(_, _, _, _) => SyncKeepsCovered(me, v, call);
    case SubmitOnline(result) =>
      assert w.cache == v.cache[result.id := result] by { assert CacheAll(v.cache, []) == v.cache; }
    case GetMyAttendance(records) =>
      forall id | id in w.cache && w.cache[id].unsynced ensures id in v.cache && w.cache[id] == v.cache[id] {
        if id !in AwaitingOf(v.cache, me) { CacheAllOrigin(WithoutStudent(v.cache, me), records, id); }
      }
    case RetryRow(k) =>
      forall sessionId | ScanQueued(v.queue, me, sessionId) ensures ScanQueued(w.queue, me, sessionId) {
        var key :| key in v.queue && IsScanOf(key, v.queue[key], me, sessionId);
        assert key in w.queue && IsScanOf(key, w.queue[key], me, sessionId);
      }
  }

  function AfterAll(me: string, v: View, calls: seq<ApiCall>): View
  {
    if calls == [] then v else After(me, AfterAll(me, v, calls[..|calls| - 1]), calls[|calls| - 1])
  }

  /** Scans have ids of their own: the client attempt id, or a random one where there is none. */
  ghost predicate DistinctScans(calls: seq<ApiCall>)
  {
    forall i, j | 0 <= i < j < |calls| && calls[i].SubmitOffline? && calls[j].SubmitOffline? ::
      OwnId(calls[i]) != OwnId(calls[j])
  }

  function OwnId(call: ApiCall): string
    requires call.SubmitOffline?
  {
    if call.payload.attemptId != "" then call.payload.attemptId else call.random
  }

  /** Records that come from the server are confirmed ones. */
  predicate ServerRecordsConfirmed(call: ApiCall)
  {
    match call
    case SubmitOnline(result) => !result.unsynced
    case GetMyAttendance(records) => forall r | r in records :: !r.unsynced
    case _ => true
  }

  /** Every queued row was queued by one of the scans. */
  lemma {:induction false} QueuedByAScan(me: string, calls: seq<ApiCall>, k: Key)
    requires k in AfterAll(me, View(map[], map[]), calls).queue
    ensures exists i ::
              0 <= i < |calls| && calls[i].SubmitOffline? && k == ScanKey(me, calls[i].payload, calls[i].random)
  {
    if calls == [] {
    } else {
      var before, call := calls[..|calls| - 1], calls[|calls| - 1];
      if k in AfterAll(me, View(map[], map[]), before).queue {
        QueuedByAScan(me, before, k);
        var i :| 0 <= i < |before| && before[i].SubmitOffline? && k == ScanKey(me, before[i].payload, before[i].random);
        assert calls[i] == before[i];
      } else {
        assert call.SubmitOffline?;
      }
    }
  }

  /**
   Over any sequence of calls in which scans have ids of their own: every row that awaits confirmation
   has a queued scan of its session, so once none is queued no row of that session is left waiting.
   */
  lemma {:induction false} NoPhantomRows(me: string, calls: seq<ApiCall>, sessionId: string)
    requires DistinctScans(calls) && forall i | 0 <= i < |calls| :: ServerRecordsConfirmed(calls[i])
    ensures var v := AfterAll(me, View(map[], map[]), calls);
            && Covered(me, v)
            && (!ScanQueued(v.queue, me, sessionId) ==>
                  forall id | id in v.cache && v.cache[id].sessionId == sessionId :: !v.cache[id].unsynced)
  {
    if calls == [] {
    } else {
      var before, call := calls[..|calls| - 1], calls[|calls| - 1];
      var v := AfterAll(me, View(map[], map[]), before);
      NoPhantomRows(me, before, sessionId);
      FreshScansAreWellBehaved(me, calls);
      StepKeepsCovered(me, v, call);
    }
  }

  lemma FreshScansAreWellBehaved(me: string, calls: seq<ApiCall>)
    requires calls != [] && DistinctScans(calls) && ServerRecordsConfirmed(calls[|calls| - 1])
    ensures WellBehaved(me, AfterAll(me, View(map[], map[]), calls[..|calls| - 1]), calls[|calls| - 1])
  {
    var n := |calls| - 1;
    var call := calls[n];
    if call.SubmitOffline? {
      var k := ScanKey(me, call.payload, call.random);
      if k in AfterAll(me, View(map[], map[]), calls[..n]).queue {
        QueuedByAScan(me, calls[..n], k);
        var i :| 0 <= i < n && calls[..n][i].SubmitOffline?
                 && k == ScanKey(me, calls[..n][i].payload, calls[..n][i].random);
        OperationIdsAreInjective(AttendanceScan, AttendanceScan, call.payload.attemptId, calls[i].payload.attemptId,
                                 call.random, calls[i].random);
      }
    }
  }

  // ---------------------------------------------------------------- the other direction

  /** An open scan of this session is queued. */
  predicate OpenScan(k: Key, row: Row, me: string, sessionId: string)
  {
    IsScanOf(k, row, me, sessionId) && Selectable(row)
  }

  predicate AwaitsFor(r: Record, me: string, sessionId: string)
  {
    r.unsynced && r.studentId == me && r.sessionId == sessionId
  }

  predicate Awaited(c: Cache, me: string, sessionId: string)
  {
    exists id | id in c :: AwaitsFor(c[id], me, sessionId)
  }

  /** Every open queued scan is shown by a row of its session that awaits confirmation. */
  ghost predicate Shown(me: string, v: View)
  {
    forall k, sessionId | k in v.queue && OpenScan(k, v.queue[k], me, sessionId) :: Awaited(v.cache, me, sessionId)
  }

  /** The scan got a final result that records it or rejects it for good, so the session's rows are dropped. */
  predicate DropsRows(batch: Http<Batch>, status: Http<Status>)
  {
    var results := FinalResults(batch, status);
    results.Some? && results.value != [] && (results.value[0].Recorded? || OnResults(results.value).Terminal?)
  }

  predicate MyScan(me: string, v: View, k: Key)
  {
    k in v.queue && k.owner == me && v.queue[k].kind.AttendanceScan? && v.queue[k].evidence.Readable?
  }

  /**
   What a caller can check before the call: no other open scan of the session is queued; a retried scan
   still has its row.
   */
  ghost predicate LeavesNoScanUnshown(me: string, v: View, call: ApiCall)
  {
    match call
    case SyncRow(k, batch, status, _) =>
      SyncsScan(me, v, k) && DropsRows(batch, status) ==>
        !exists l :: l in v.queue && l != k && OpenScan(l, v.queue[l], me, v.queue[k].evidence.payload.sessionId)
    case RetryRow(k) => MyScan(me, v, k) ==> Awaited(v.cache, me, v.queue[k].evidence.payload.sessionId)
    case _ => true
  }

  /** Ids the server gives out are never those of awaiting rows, whose own ids contain their session. */
  predicate IdsApart(v: View, call: ApiCall)
  {
    match call
    case SubmitOffline(p, _, recordId, _) =>
      recordId in v.cache && v.cache[recordId].unsynced ==> v.cache[recordId].sessionId == p.sessionId
    case SubmitOnline(result) => !(result.id in v.cache && v.cache[result.id].unsynced)
    case SyncRow(_, _, _, server) => !(server.id in v.cache && v.cache[server.id].unsynced)
    case _ => true
  }

  lemma AwaitedKept(c: Cache, d: Cache, me: string, sessionId: string)
    requires forall id | id in c && AwaitsFor(c[id], me, sessionId) :: id in d && AwaitsFor(d[id], me, sessionId)
    requires Awaited(c, me, sessionId)
    ensures Awaited(d, me, sessionId)
  {
  }

  lemma CacheOne(c: Cache, r: Record)
    ensures CacheAll(c, [r]) == c[r.id := r]
  {
    assert CacheAll(c, []) == c;
  }

  lemma SubmitKeepsShown(me: string, v: View, call: ApiCall)
    requires Shown(me, v) && IdsApart(v, call) && call.SubmitOffline?
    ensures Shown(me, After(me, v, call))
  {
    var w, record := After(me, v, call), Record(call.recordId, call.payload.sessionId, me, true);
    CacheOne(v.cache, record);
    forall k, sessionId | k in w.queue && OpenScan(k, w.queue[k], me, sessionId)
      ensures Awaited(w.cache, me, sessionId)
    {
      if sessionId == call.payload.sessionId {
        assert AwaitsFor(w.cache[call.recordId], me, sessionId);
      } else {
        assert k in v.queue && OpenScan(k, v.queue[k], me, sessionId);
        AwaitedKept(v.cache, w.cache, me, sessionId);
      }
    }
  }

  lemma FetchKeepsShown(me: string, v: View, call: ApiCall)
    requires Shown(me, v) && IdsApart(v, call) && (call.SubmitOnline? || call.GetMyAttendance?)
    ensures Shown(me, After(me, v, call))
  {
    var w := After(me, v, call);
    if call.SubmitOnline? { CacheOne(v.cache, call.result); }
    forall k, sessionId | k in w.queue && OpenScan(k, w.queue[k], me, sessionId)
      ensures Awaited(w.cache, me, sessionId)
    {
      assert OpenScan(k, v.queue[k], me, sessionId);
      AwaitedKept(v.cache, w.cache, me, sessionId);
    }
  }

  lemma RetryKeepsShownIff(me: string, v: View, call: ApiCall)
    requires Shown(me, v) && call.RetryRow?
    ensures Shown(me, After(me, v, call)) <==> LeavesNoScanUnshown(me, v, call)
  {
    var w, k := After(me, v, call), call.key;
    if MyScan(me, v, k) { assert OpenScan(k, w.queue[k], me, v.queue[k].evidence.payload.sessionId); }
    if LeavesNoScanUnshown(me, v, call) {
      forall l, sessionId | l in w.queue && OpenScan(l, w.queue[l], me, sessionId)
        ensures Awaited(w.cache, me, sessionId)
      {
        if l != k { assert OpenScan(l, v.queue[l], me, sessionId); }
      }
    }
  }

  /** A row that keeps its cache rows keeps everything shown; its own row can only leave the open ones. */
  lemma KeptRowsStayShown(me: string, v: View, call: ApiCall)
    requires Shown(me, v) && call.SyncRow? && !(SyncsScan(me, v, call.key) && DropsRows(call.batch, call.status))
    ensures Shown(me, After(me, v, call))
  {
    var w := After(me, v, call);
    assert w.cache == v.cache;
    forall l, sessionId | l in w.queue && OpenScan(l, w.queue[l], me, sessionId)
      ensures Awaited(w.cache, me, sessionId)
    {
      assert OpenScan(l, v.queue[l], me, sessionId);
    }
  }

  /**
   The cache after one sent scan, row by row: a recorded scan leaves the server's record, confirmed, in the
   place of the student's rows of that session; one rejected for good just takes those rows away; any other
   answer leaves the cache alone.
   */
  lemma SyncedCacheReads(me: string, v: View, call: ApiCall, id: string)
    requires call.SyncRow? && SyncsScan(me, v, call.key)
    ensures var c, d, results := v.cache, After(me, v, call).cache, FinalResults(call.batch, call.status);
            var mine := v.queue[call.key].evidence.payload.sessionId;
            var stays := id in c && (c[id].sessionId != mine || c[id].studentId != me);
            if results.None? || results.value == [] then d == c
            else
              match results.value[0]
              case Recorded =>
                if id == call.server.id then id in d && d[id] == call.server.(unsynced := false)
                else (id in d <==> stays) && (id in d ==> d[id] == c[id])
              case Rejected(error, retryable) =>
                if retryable == Some(false) || IsEvidenceFailure(error)
                then (id in d <==> stays) && (id in d ==> d[id] == c[id])
                else d == c
  {
    var kept := WithoutAttempt(v.cache, v.queue[call.key].evidence.payload.sessionId, me);
    CacheOne(kept, call.server.(unsynced := false));
  }

  /** A scan answered at once is shown as the server recorded it. */
  lemma OnlineScanIsShown(me: string, v: View, result: Record)
    ensures After(me, v, SubmitOnline(result)) == View(v.queue, v.cache[result.id := result])
  {
    CacheOne(v.cache, result);
  }

  /** A final result takes every awaiting row of the session away, and no other one. */
  lemma DroppedRows(me: string, v: View, call: ApiCall, sessionId: string)
    requires call.SyncRow? && SyncsScan(me, v, call.key) && DropsRows(call.batch, call.status) && IdsApart(v, call)
    ensures var mine := v.queue[call.key].evidence.payload.sessionId;
            Awaited(After(me, v, call).cache, me, sessionId) <==> Awaited(v.cache, me, sessionId) && sessionId != mine
  {
    var mine := v.queue[call.key].evidence.payload.sessionId;
    var d := After(me, v, call).cache;
    var kept, confirmed := WithoutAttempt(v.cache, mine, me), call.server.(unsynced := false);
    CacheOne(kept, confirmed);
    if Awaited(v.cache, me, sessionId) && sessionId != mine { AwaitedKept(v.cache, d, me, sessionId); }
    if Awaited(d, me, sessionId) {
      var id :| id in d && AwaitsFor(d[id], me, sessionId);
      assert id in kept && kept[id] == d[id] && AwaitsFor(v.cache[id], me, sessionId);
    }
  }

  /** And the row itself is no longer open. */
  lemma SyncedRowCloses(me: string, v: View, call: ApiCall)
    requires call.SyncRow? && SyncsScan(me, v, call.key) && DropsRows(call.batch, call.status)
    ensures call.key in After(me, v, call).queue ==> !Selectable(After(me, v, call).queue[call.key])
    ensures forall l | l != call.key :: l in After(me, v, call).queue <==> l in v.queue
    ensures forall l | l != call.key && l in v.queue :: After(me, v, call).queue[l] == v.queue[l]
  {
    var reply := SendScan(call.batch, call.status);
    assert reply.Synced? || reply.Terminal?;
    if reply.Terminal? { TerminalTextReadsBack(reply.error); }
  }

  lemma SyncKeepsShownIff(me: string, v: View, call: ApiCall)
    requires Shown(me, v) && call.SyncRow? && IdsApart(v, call)
    ensures Shown(me, After(me, v, call)) <==> LeavesNoScanUnshown(me, v, call)
  {
    if SyncsScan(me, v, call.key) && DropsRows(call.batch, call.status) {
      var w, mine := After(me, v, call), v.queue[call.key].evidence.payload.sessionId;
      SyncedRowCloses(me, v, call);
      if LeavesNoScanUnshown(me, v, call) {
        forall l, sessionId | l in w.queue && OpenScan(l, w.queue[l], me, sessionId)
          ensures Awaited(w.cache, me, sessionId)
        {
          assert l in v.queue && OpenScan(l, v.queue[l], me, sessionId);
          DroppedRows(me, v, call, sessionId);
        }
      } else {
        var l :| l in v.queue && l != call.key && OpenScan(l, v.queue[l], me, mine);
        DroppedRows(me, v, call, mine);
        assert l in w.queue && OpenScan(l, w.queue[l], me, mine);
      }
    } else {
      KeptRowsStayShown(me, v, call);
    }
  }

  /** Every call keeps each open scan shown exactly when it leaves none unshown in the sense above. */
  lemma ShownIff(me: string, v: View, call: ApiCall)
    requires Shown(me, v) && IdsApart(v, call)
    ensures Shown(me, After(me, v, call)) <==> LeavesNoScanUnshown(me, v, call)
  {
    match call
    case SubmitOffline(_, _, _, _) => SubmitKeepsShown(me, v, call);
    case SyncRow(_, _, _, _) => SyncKeepsShownIff(me, v, call);
    case RetryRow(_) => RetryKeepsShownIff(me, v, call);
    case _ => FetchKeepsShown(me, v, call);
  }

  function AfterCalls(me: string, calls: seq<ApiCall>): View { AfterAll(me, View(map[], map[]), calls) }

  /** Shown after every call of the run. */
  ghost predicate AlwaysShown(me: string, calls: seq<ApiCall>)
  {
    Shown(me, AfterCalls(me, calls)) && (calls == [] || AlwaysShown(me, calls[..|calls| - 1]))
  }

  ghost predicate NoneLeftUnshown(me: string, calls: seq<ApiCall>)
  {
    calls == [] ||
    (NoneLeftUnshown(me, calls[..|calls| - 1])
     && LeavesNoScanUnshown(me, AfterCalls(me, calls[..|calls| - 1]), calls[|calls| - 1]))
  }

  ghost predicate AllIdsApart(me: string, calls: seq<ApiCall>)
  {
    calls == [] ||
    (AllIdsApart(me, calls[..|calls| - 1]) && IdsApart(AfterCalls(me, calls[..|calls| - 1]), calls[|calls| - 1]))
  }

  /**
   Over any calls: every open scan is shown at every point if and only if no call drops the rows of a
   session that has another open scan, and none retries a scan whose row is gone.
   */
  lemma {:induction false} OpenScansAreShownIff(me: string, calls: seq<ApiCall>)
    requires AllIdsApart(me, calls)
    ensures AlwaysShown(me, calls) <==> NoneLeftUnshown(me, calls)
  {
    if calls == [] {
    } else {
      var before := calls[..|calls| - 1];
      OpenScansAreShownIff(me, before);
      if Shown(me, AfterCalls(me, before)) { ShownIff(me, AfterCalls(me, before), calls[|calls| - 1]); }
    }
  }

  /** The failing family: a student queues both ends of a session, and syncing either takes the other's row away. */
  lemma SyncingStartDropsTheEndRow(me: string, v: View, start: Key, end: Key, server: Record)
    requires Shown(me, v) && start != end && SyncsScan(me, v, start) && SyncsScan(me, v, end)
    requires v.queue[start].evidence.payload.sessionId == v.queue[end].evidence.payload.sessionId
    requires !(server.id in v.cache && v.cache[server.id].unsynced)
    ensures var call := SyncRow(start, Replied(Processed([Recorded])), Raised(OtherError(None)), server);
            !Shown(me, After(me, v, call))
  {
    var call := SyncRow(start, Replied(Processed([Recorded])), Raised(OtherError(None)), server);
    assert OpenScan(end, v.queue[end], me, v.queue[start].evidence.payload.sessionId);
    SyncKeepsShownIff(me, v, call);
  }
}
