/**
 The queue under concurrency: drain passes advance one await point at a time while enqueues, manual
 retries, account switches, further drain calls and process restarts land in between. Steps that
 cannot happen change nothing, so every claim about a run is a claim about every list of events.
 */
module SyncMachine {
  import opened Wrappers
  import opened QueueTable
  import opened DrainPass

  /** How a pass left a row behind. */
  datatype Fate = Erased | Quarantined | Waiting

  /** A snapshot with the fates of the rows already handled; the next row is the current one. */
  datatype Progress = Progress(rows: seq<SnapRow>, fates: seq<Fate>)

  type Cursor = c: Progress | |c.fates| < |c.rows| witness Progress([SnapRow("", SessionEnd, Corrupt, 0)], [])

  function CurrentRow(c: Cursor): SnapRow { c.rows[|c.fates|] }

  /** Where a pass awaits. A guarded write stands inside the try block around `send`. */
  datatype Stage =
    | Selecting
    | Decrypting(c: Cursor)
    | Sending(c: Cursor)
    | Writing(c: Cursor, write: Write, stop: bool, guarded: bool)
    | Settling

  datatype Pass = Pass(owner: string, stage: Stage)

  datatype State = State(active: Option<string>, table: Table, passes: map<nat, Pass>, drainPromise: Option<nat>)

  const INIT := State(None, map[], map[], None)

  datatype Tick =
    | SnapshotRead(rows: seq<SnapRow>)
    | SnapshotFails
    /** False if the key store fails; corrupt evidence fails either way. */
    | DecryptEnds(opens: bool)
    | SendReturns(reply: Reply)
    | WriteLands
    | WriteFails(message: Option<string>)

  /** An enqueue or retry captures its owner before an await, so it may land after a switch. */
  datatype Event =
    | SwitchOwner(next: Option<string>)
    | EnqueueLands(key: Key, kind: Kind, evidence: Evidence, createdAt: int)
    | RetryLands(key: Key)
    | CallDrain(p: nat)
    | PassTicks(p: nat, tick: Tick)
    | PromiseSettles(p: nat)
    | ProcessRestarts

  /** The loop head, which also ends the loop. */
  function Advance(active: Option<string>, owner: string, rows: seq<SnapRow>, fates: seq<Fate>): Stage
  {
    if |fates| < |rows| && active == Some(owner) then Decrypting(Progress(rows, fates)) else Settling
  }

  function FateOf(write: Write): Fate
  {
    if write.Erase? then Erased else Quarantined
  }

  /** Only the attendance branch of the send callback answers "pending" (SendCallback.OnlyScansPend). */
  predicate CanReply(kind: Kind, reply: Reply)
  {
    reply.Pending? ==> kind.AttendanceScan?
  }

  ghost function Tock(active: Option<string>, t: Table, pass: Pass, tick: Tick): (Table, Stage)
  {
    match (pass.stage, tick)
    case (Selecting, SnapshotRead(rows)) =>
      if IsSnapshot(rows, t, pass.owner) then (t, Advance(active, pass.owner, rows, [])) else (t, Selecting)
    case (Selecting, SnapshotFails) => (t, Settling)
    case (Decrypting(c), DecryptEnds(opens)) =>
      if CurrentRow(c).evidence.Corrupt? || !opens then
        (t, Writing(c, Mark(CurrentRow(c).attempts + 1, UNREADABLE), false, false))
      else if active != Some(pass.owner) then (t, Settling)
      else (t, Sending(c))
    case (Sending(c), SendReturns(reply)) =>
      if !CanReply(CurrentRow(c).kind, reply) then (t, pass.stage)
      else (
        match OnReply(CurrentRow(c).attempts, reply)
        case Leave => (t, Advance(active, pass.owner, c.rows, c.fates + [Waiting]))
        case Settle(write, stop) => (t, Writing(c, write, stop, !reply.Thrown?))
      )
    case (Writing(c, write, stop, _), WriteLands) =>
      (Written(t, Key(pass.owner, CurrentRow(c).id), write),
       if stop then Settling else Advance(active, pass.owner, c.rows, c.fates + [FateOf(write)]))
    case (Writing(c, _, _, guarded), WriteFails(message)) =>
      if guarded then (t, Writing(c, Mark(CurrentRow(c).attempts + 1, RawText(message)), true, false))
      else (t, Settling)
    case _ => (t, pass.stage)
  }

  /** Only ids that an enqueue gives out. */
  ghost function Enqueued(t: Table, key: Key, kind: Kind, evidence: Evidence, createdAt: int): Table
  {
    if Named(key.id, kind, evidence) then Inserted(t, key, kind, evidence, createdAt) else t
  }

  ghost function Step(s: State, ev: Event): State
  {
    match ev
    case SwitchOwner(next) => s.(active := next)
    case EnqueueLands(key, kind, evidence, createdAt) =>
      s.(table := Enqueued(s.table, key, kind, evidence, createdAt))
    case RetryLands(key) => s.(table := Reopened(s.table, key))
    case CallDrain(p) =>
      if s.drainPromise.Some? || s.active.None? || p in s.passes then s
      else s.(passes := s.passes[p := Pass(s.active.value, Selecting)], drainPromise := Some(p))
    case PassTicks(p, tick) =>
      if p !in s.passes then s
      else
        var (t, stage) := Tock(s.active, s.table, s.passes[p], tick);
        s.(table := t, passes := s.passes[p := s.passes[p].(stage := stage)])
    case PromiseSettles(p) =>
      if p in s.passes && s.passes[p].stage.Settling? then s.(passes := s.passes - {p}, drainPromise := None) else s
    case ProcessRestarts => State(None, s.table, map[], None)
  }

  ghost function Run(s: State, evs: seq<Event>): State
  {
    if evs == [] then s else Step(Run(s, evs[..|evs| - 1]), evs[|evs| - 1])
  }

  lemma {:induction false} RunAppend(s: State, a: seq<Event>, b: seq<Event>)
    ensures Run(s, a + b) == Run(Run(s, a), b)
  {
    if b == [] {
      assert a + b == a;
    } else {
      RunAppend(s, a, b[..|b| - 1]);
      assert (a + b)[..|a + b| - 1] == a + b[..|b| - 1];
    }
  }

  // ---------------------------------------------------------------- invariant

  ghost predicate Unvisited(t: Table, owner: string, c: Cursor)
  {
    && DistinctIds(c.rows)
    && (forall j | |c.fates| <= j < |c.rows| :: Current(t, owner, c.rows[j]))
    && (forall j | 0 <= j < |c.fates| && c.fates[j] == Waiting :: c.rows[j].kind.AttendanceScan?)
  }

  ghost predicate PassOk(t: Table, pass: Pass)
  {
    match pass.stage
    case Selecting => true
    case Settling => true
    case Decrypting(c) => Unvisited(t, pass.owner, c)
    case Sending(c) => Unvisited(t, pass.owner, c) && CurrentRow(c).evidence.Readable?
    case Writing(c, write, stop, guarded) =>
      && Unvisited(t, pass.owner, c)
      && (write.Mark? ==> write.attempts == CurrentRow(c).attempts + 1 && |write.error| <= 500)
      && (write.Mark? && !stop ==> LikeTerminal(write.error))
      && (write.Erase? ==> CurrentRow(c).evidence.Readable?)
  }

  ghost predicate Inv(s: State)
  {
    PassesOk(s) && TextsFit(s.table) && AllNamed(s.table)
  }

  ghost predicate PassesOk(s: State)
  {
    forall p | p in s.passes :: s.drainPromise == Some(p) && PassOk(s.table, s.passes[p])
  }

  predicate TextsFit(t: Table)
  {
    forall k | k in t && t[k].lastError.Some? :: |t[k].lastError.value| <= 500
  }

  ghost predicate AllNamed(t: Table)
  {
    forall k | k in t :: Named(k.id, t[k].kind, t[k].evidence)
  }

  lemma ReplyWritesFit(attempts: nat, reply: Reply)
    ensures match OnReply(attempts, reply)
            case Leave => reply.Pending?
            case Settle(Erase, stop) => !stop
            case Settle(Mark(n, error), stop) => n == attempts + 1 && |error| <= 500 && (!stop ==> LikeTerminal(error))
  {
    match reply
    case Terminal(error) => TerminalTextReadsBack(error);
    case Retryable(error) => RetryableTextReadsBack(error);
    case _ =>
  }

  lemma TockKeepsPassOk(active: Option<string>, t: Table, pass: Pass, tick: Tick)
    requires PassOk(t, pass)
    ensures var (t', stage) := Tock(active, t, pass, tick); PassOk(t', pass.(stage := stage))
  {
    UnreadableIsTerminal();
    if pass.stage.Sending? && tick.SendReturns? {
      ReplyWritesFit(CurrentRow(pass.stage.c).attempts, tick.reply);
    }
  }

  lemma TockKeepsTables(active: Option<string>, t: Table, pass: Pass, tick: Tick)
    requires PassOk(t, pass) && TextsFit(t) && AllNamed(t)
    ensures TextsFit(Tock(active, t, pass, tick).0) && AllNamed(Tock(active, t, pass, tick).0)
  {
  }

  lemma StepKeepsPasses(s: State, ev: Event)
    requires PassesOk(s)
    ensures PassesOk(Step(s, ev))
  {
    match ev
    case PassTicks(p, tick) =>
      if p in s.passes { TockKeepsPassOk(s.active, s.table, s.passes[p], tick); }
    case _ =>
  }

  lemma StepKeepsInv(s: State, ev: Event)
    requires Inv(s)
    ensures Inv(Step(s, ev))
  {
    StepKeepsPasses(s, ev);
    match ev
    case PassTicks(p, tick) =>
      if p in s.passes { TockKeepsTables(s.active, s.table, s.passes[p], tick); }
    case _ =>
  }

  lemma {:induction false} RunKeepsInv(s: State, evs: seq<Event>)
    requires Inv(s)
    ensures Inv(Run(s, evs))
  {
    if evs == [] {
    } else {
      RunKeepsInv(s, evs[..|evs| - 1]);
      StepKeepsInv(Run(s, evs[..|evs| - 1]), evs[|evs| - 1]);
    }
  }

  /** In every reachable state at most one pass exists, so at most one send is outstanding. */
  lemma SingleFlight(evs: seq<Event>, p: nat, q: nat)
    requires p in Run(INIT, evs).passes && q in Run(INIT, evs).passes
    ensures p == q
  {
    RunKeepsInv(INIT, evs);
  }

  // ---------------------------------------------------------------- conservation

  predicate SameOperation(a: Row, b: Row)
  {
    a.kind == b.kind && a.evidence == b.evidence && a.createdAt == b.createdAt
  }

  /** Pass p of s awaits the deletion of exactly this row. */
  ghost predicate Deleting(s: State, p: nat, k: Key)
  {
    && p in s.passes && s.passes[p].stage.Writing? && s.passes[p].stage.write.Erase?
    && k == Key(s.passes[p].owner, CurrentRow(s.passes[p].stage.c).id)
  }

  /** Pass p of s awaits the reply for exactly this row. */
  ghost predicate AwaitsReply(s: State, p: nat, k: Key)
  {
    && p in s.passes && s.passes[p].stage.Sending?
    && k == Key(s.passes[p].owner, CurrentRow(s.passes[p].stage.c).id)
  }

  lemma StepConserves(s: State, ev: Event, k: Key)
    requires Inv(s) && k in s.table
    ensures var t := Step(s, ev).table;
            (k in t && SameOperation(t[k], s.table[k])) ||
            (k !in t && exists p :: ev == PassTicks(p, WriteLands) && Deleting(s, p, k))
  {
    if k !in Step(s, ev).table { assert Deleting(s, ev.p, k); }
  }

  /** A pass that awaits a deletion was just answered "synced" or nothing for that very row. */
  ghost predicate Acknowledged(evs: seq<Event>, j: nat, p: nat, k: Key)
  {
    && j < |evs|
    && AwaitsReply(Run(INIT, evs[..j]), p, k)
    && (evs[j] == PassTicks(p, SendReturns(Synced)) || evs[j] == PassTicks(p, SendReturns(Void)))
  }

  lemma DeletionStarts(s: State, ev: Event, p: nat, k: Key)
    requires Inv(s) && !Deleting(s, p, k) && Deleting(Step(s, ev), p, k)
    ensures AwaitsReply(s, p, k)
    ensures ev == PassTicks(p, SendReturns(Synced)) || ev == PassTicks(p, SendReturns(Void))
  {
    assert ev.PassTicks? && ev.p == p && p in s.passes;
    var stage := s.passes[p].stage;
    assert stage.Sending? && ev.tick.SendReturns?;
  }

  ghost predicate DeletingAt(evs: seq<Event>, m: nat, p: nat, k: Key)
  {
    m <= |evs| && Deleting(Run(INIT, evs[..m]), p, k)
  }

  /** Event j is the reply that ordered the deletion, and the pass has awaited it ever since. */
  ghost predicate OrderedBy(evs: seq<Event>, j: nat, p: nat, k: Key)
  {
    Acknowledged(evs, j, p, k) && forall m | j < m <= |evs| :: DeletingAt(evs, m, p, k)
  }

  lemma PrefixOfPrefix(evs: seq<Event>)
    requires evs != []
    ensures evs[..|evs|] == evs
    ensures forall m | 0 <= m < |evs| :: evs[..|evs| - 1][..m] == evs[..m]
  {
  }

  lemma AcknowledgementExtends(evs: seq<Event>, j: nat, p: nat, k: Key)
    requires evs != [] && Acknowledged(evs[..|evs| - 1], j, p, k)
    ensures Acknowledged(evs, j, p, k)
  {
    PrefixOfPrefix(evs);
  }

  lemma AwaitedSince(before: seq<Event>, evs: seq<Event>, j: nat, p: nat, k: Key)
    requires evs != [] && before == evs[..|evs| - 1] && DeletingAt(evs, |evs|, p, k)
    requires forall m | j < m < |evs| :: DeletingAt(before, m, p, k)
    ensures forall m | j < m <= |evs| :: DeletingAt(evs, m, p, k)
  {
    forall m | j < m < |evs| ensures DeletingAt(evs, m, p, k) {
      EarlierState(evs, m, p, k);
    }
  }

  lemma EarlierState(evs: seq<Event>, m: nat, p: nat, k: Key)
    requires m < |evs| && DeletingAt(evs[..|evs| - 1], m, p, k)
    ensures DeletingAt(evs, m, p, k)
  {
    PrefixOfPrefix(evs);
  }

  lemma {:induction false} DeletionWasAcknowledged(evs: seq<Event>, p: nat, k: Key)
    requires Deleting(Run(INIT, evs), p, k)
    ensures exists j: nat :: OrderedBy(evs, j, p, k)
  {
    if evs == [] {
    } else {
      var before, ev := evs[..|evs| - 1], evs[|evs| - 1];
      PrefixOfPrefix(evs);
      assert DeletingAt(evs, |evs|, p, k);
      if Deleting(Run(INIT, before), p, k) {
        DeletionWasAcknowledged(before, p, k);
        var j: nat :| OrderedBy(before, j, p, k);
        StillOrdered(before, evs, j, p, k);
      } else {
        RunKeepsInv(INIT, before);
        DeletionStarts(Run(INIT, before), ev, p, k);
        JustOrdered(evs, |before|, p, k);
      }
    }
  }

  lemma StillOrdered(before: seq<Event>, evs: seq<Event>, j: nat, p: nat, k: Key)
    requires evs != [] && before == evs[..|evs| - 1] && OrderedBy(before, j, p, k) && DeletingAt(evs, |evs|, p, k)
    ensures OrderedBy(evs, j, p, k)
  {
    AcknowledgementExtends(evs, j, p, k);
    AwaitedSince(before, evs, j, p, k);
  }

  lemma JustOrdered(evs: seq<Event>, j: nat, p: nat, k: Key)
    requires |evs| == j + 1 && Acknowledged(evs, j, p, k) && DeletingAt(evs, |evs|, p, k)
    ensures OrderedBy(evs, j, p, k)
  {
  }

  /**
   Conservation. An operation queued at some point of a run is still queued at the end, with kind,
   payload and creation time unchanged, or it left at a later point in a deletion that followed a
   send of that operation answered "synced" or nothing.
   */
  lemma {:induction false} Conservation(evs: seq<Event>, n: nat, k: Key)
    requires n <= |evs| && k in Run(INIT, evs[..n]).table
    ensures (k in Run(INIT, evs).table && SameOperation(Run(INIT, evs).table[k], Run(INIT, evs[..n]).table[k]))
            || exists j, m, p :: n <= m < |evs| && Removal(evs, j, m, p, k)
  {
    if n == |evs| {
      assert evs[..n] == evs;
    } else {
      var before := evs[..|evs| - 1];
      PrefixOfPrefix(evs);
      Conservation(before, n, k);
      if k in Run(INIT, before).table && SameOperation(Run(INIT, before).table[k], Run(INIT, evs[..n]).table[k]) {
        RunKeepsInv(INIT, before);
        LastEventConserves(evs, before, evs[|before|], Run(INIT, before), k);
      } else {
        var j, m, p :| n <= m < |before| && Removal(before, j, m, p, k);
        RemovalExtends(evs, before, j, m, p, k);
      }
    }
  }

  lemma LastEventConserves(evs: seq<Event>, before: seq<Event>, ev: Event, s: State, k: Key)
    requires evs == before + [ev] && s == Run(INIT, before) && Inv(s) && k in s.table
    ensures (k in Step(s, ev).table && SameOperation(Step(s, ev).table[k], s.table[k]))
            || exists j, p :: Removal(evs, j, |before|, p, k)
  {
    StepConserves(s, ev, k);
    if k !in Step(s, ev).table {
      var p :| ev == PassTicks(p, WriteLands) && Deleting(s, p, k);
      var j := LastEventRemoves(evs, before, p, k);
    }
  }

  lemma LastEventRemoves(evs: seq<Event>, before: seq<Event>, p: nat, k: Key) returns (j: nat)
    requires evs == before + [PassTicks(p, WriteLands)] && Deleting(Run(INIT, before), p, k)
    requires k in Run(INIT, before).table && k !in Step(Run(INIT, before), PassTicks(p, WriteLands)).table
    ensures Removal(evs, j, |before|, p, k)
  {
    assert evs[..|before|] == before && evs[..|before| + 1] == evs && evs[..|evs| - 1] == before;
    DeletionWasAcknowledged(before, p, k);
    j :| OrderedBy(before, j, p, k);
    AcknowledgementExtends(evs, j, p, k);
  }

  lemma RemovalExtends(evs: seq<Event>, before: seq<Event>, j: nat, m: nat, p: nat, k: Key)
    requires evs != [] && before == evs[..|evs| - 1] && Removal(before, j, m, p, k)
    ensures Removal(evs, j, m, p, k)
  {
    AcknowledgementExtends(evs, j, p, k);
    assert before[..m] == evs[..m] && before[..m + 1] == evs[..m + 1];
  }

  /**
   Event m deletes the row; event j is the reply that ordered it, and the pass has awaited the deletion
   ever since.
   */
  ghost predicate Removal(evs: seq<Event>, j: nat, m: nat, p: nat, k: Key)
  {
    && j < m < |evs|
    && Acknowledged(evs, j, p, k) && OrderedBy(evs[..m], j, p, k)
    && evs[m] == PassTicks(p, WriteLands) && Deleting(Run(INIT, evs[..m]), p, k)
    && k in Run(INIT, evs[..m]).table && k !in Run(INIT, evs[..m + 1]).table
  }

  /** Enqueueing an id that is already queued changes nothing at all. */
  lemma ReEnqueueIsIdle(s: State, ev: Event)
    requires ev.EnqueueLands? && ev.key in s.table
    ensures Step(s, ev) == s
  {
  }

  // ---------------------------------------------------------------- attempts

  /** The failed visits of a row since it was last enqueued: landed writes that are not deletions. */
  ghost function FailedVisits(evs: seq<Event>, k: Key): nat
  {
    if evs == [] then 0
    else
      var before, ev := evs[..|evs| - 1], evs[|evs| - 1];
      var s := Run(INIT, before);
      if ev.EnqueueLands? && ev.key == k && k !in s.table then 0
      else if MarksRow(s, ev, k) then FailedVisits(before, k) + 1
      else FailedVisits(before, k)
  }

  ghost predicate MarksRow(s: State, ev: Event, k: Key)
  {
    && ev.PassTicks? && ev.tick.WriteLands? && ev.p in s.passes
    && s.passes[ev.p].stage.Writing? && s.passes[ev.p].stage.write.Mark?
    && k == Key(s.passes[ev.p].owner, CurrentRow(s.passes[ev.p].stage.c).id)
  }

  /** Writing back the snapshot's attempts plus one is exact: pending visits are not counted, no failure is lost. */
  lemma {:induction false} AttemptsCountFailedVisits(evs: seq<Event>, k: Key)
    requires k in Run(INIT, evs).table
    ensures Run(INIT, evs).table[k].attempts == FailedVisits(evs, k)
  {
    if evs == [] {
    } else {
      var before, ev := evs[..|evs| - 1], evs[|evs| - 1];
      var s := Run(INIT, before);
      RunKeepsInv(INIT, before);
      if k in s.table {
        AttemptsCountFailedVisits(before, k);
        StepCountsAttempts(s, ev, k);
      }
    }
  }

  lemma StepCountsAttempts(s: State, ev: Event, k: Key)
    requires Inv(s) && k in s.table && k in Step(s, ev).table
    ensures Step(s, ev).table[k].attempts == s.table[k].attempts + if MarksRow(s, ev, k) then 1 else 0
  {
    if MarksRow(s, ev, k) {
      assert PassOk(s.table, s.passes[ev.p]);
      assert Current(s.table, s.passes[ev.p].owner, CurrentRow(s.passes[ev.p].stage.c));
    }
  }

  // ---------------------------------------------------------------- owner isolation

  lemma ForeignTick(s: State, p: nat, tick: Tick, k: Key)
    requires p in s.passes && k.owner != s.passes[p].owner
    ensures Lookup(Step(s, PassTicks(p, tick)).table, k) == Lookup(s.table, k)
    ensures p in Step(s, PassTicks(p, tick)).passes && Step(s, PassTicks(p, tick)).passes[p].owner == s.passes[p].owner
  {
  }

  /** Whatever tick event i is, it belongs to a pass for another account. */
  ghost predicate TicksAreForeign(s: State, evs: seq<Event>, owner: string)
  {
    forall i | 0 <= i < |evs| && evs[i].PassTicks? && evs[i].p in Run(s, evs[..i]).passes ::
      Run(s, evs[..i]).passes[evs[i].p].owner != owner
  }

  /**
   A row changes only by its own account's passes, a retry or an enqueue of its id: passes for other
   accounts leave it alone over any run, whoever is active when.
   */
  lemma {:induction false} OwnerIsolation(s: State, evs: seq<Event>, k: Key)
    requires TicksAreForeign(s, evs, k.owner)
    requires forall i | 0 <= i < |evs| :: !Disturbs(evs[i], k)
    ensures Lookup(Run(s, evs).table, k) == Lookup(s.table, k)
  {
    if evs == [] {
    } else {
      var before, ev := evs[..|evs| - 1], evs[|evs| - 1];
      assert forall i | 0 <= i < |before| :: before[..i] == evs[..i];
      OwnerIsolation(s, before, k);
      if ev.PassTicks? && ev.p in Run(s, before).passes { ForeignTick(Run(s, before), ev.p, ev.tick, k); }
    }
  }

  /** The step starts a send of this row. */
  ghost predicate StartsSend(s: State, ev: Event, k: Key)
  {
    exists p :: !AwaitsReply(s, p, k) && AwaitsReply(Step(s, ev), p, k)
  }

  /** A send starts only while its own account is active, so none starts while that account is away. */
  lemma SendsNeedTheirOwner(s: State, ev: Event, k: Key)
    requires StartsSend(s, ev, k)
    ensures s.active == Some(k.owner)
  {
    var p :| !AwaitsReply(s, p, k) && AwaitsReply(Step(s, ev), p, k);
    assert ev.PassTicks? && ev.p == p;
  }

  lemma {:induction false} NoSendWhileAway(s: State, evs: seq<Event>, n: nat, owner: string, k: Key)
    requires n < |evs| && k.owner == owner && s.active != Some(owner)
    requires forall i | 0 <= i < n && evs[i].SwitchOwner? :: evs[i].next != Some(owner)
    ensures !StartsSend(Run(s, evs[..n]), evs[n], k)
  {
    StaysAway(s, evs[..n], owner);
    if StartsSend(Run(s, evs[..n]), evs[n], k) { SendsNeedTheirOwner(Run(s, evs[..n]), evs[n], k); }
  }

  lemma {:induction false} StaysAway(s: State, evs: seq<Event>, owner: string)
    requires s.active != Some(owner)
    requires forall i | 0 <= i < |evs| && evs[i].SwitchOwner? :: evs[i].next != Some(owner)
    ensures Run(s, evs).active != Some(owner)
  {
    if evs == [] {
    } else {
      StaysAway(s, evs[..|evs| - 1], owner);
    }
  }

  // ---------------------------------------------------------------- terminal rows

  ghost predicate IsTerminal(t: Table, k: Key)
  {
    k in t && !Selectable(t[k])
  }

  lemma SentRowsAreOpen(s: State, k: Key)
    requires Inv(s)
    ensures forall p :: AwaitsReply(s, p, k) ==> k in s.table && Selectable(s.table[k])
  {
    forall p | AwaitsReply(s, p, k) ensures k in s.table && Selectable(s.table[k]) {
      assert Current(s.table, s.passes[p].owner, CurrentRow(s.passes[p].stage.c));
    }
  }

  lemma TerminalRowStays(s: State, ev: Event, k: Key)
    requires Inv(s) && IsTerminal(s.table, k) && ev != RetryLands(k)
    ensures k in Step(s, ev).table && Step(s, ev).table[k] == s.table[k]
  {
    if ev.PassTicks? && ev.p in s.passes && s.passes[ev.p].stage.Writing? {
      assert Current(s.table, s.passes[ev.p].owner, CurrentRow(s.passes[ev.p].stage.c));
    }
  }

  /** Until it is retried by hand, a terminal row is neither sent nor deleted nor changed in any column. */
  lemma {:induction false} TerminalIsAbsorbing(s: State, evs: seq<Event>, k: Key)
    requires Inv(s) && IsTerminal(s.table, k)
    requires forall i | 0 <= i < |evs| :: evs[i] != RetryLands(k)
    ensures k in Run(s, evs).table && Run(s, evs).table[k] == s.table[k]
    ensures forall p :: !AwaitsReply(Run(s, evs), p, k)
  {
    RunKeepsInv(s, evs);
    if evs == [] {
    } else {
      var before := evs[..|evs| - 1];
      TerminalIsAbsorbing(s, before, k);
      RunKeepsInv(s, before);
      TerminalRowStays(Run(s, before), evs[|evs| - 1], k);
    }
    SentRowsAreOpen(Run(s, evs), k);
  }

  // ---------------------------------------------------------------- no overtaking

  /** The kinds that act on a session or on a server-checked attempt, and so must keep their order. */
  predicate Ordered(kind: Kind)
  {
    kind.SessionActivation? || kind.SessionEnd? || kind.ScanAttempt?
  }

  function CursorOf(stage: Stage): Option<Progress>
  {
    match stage
    case Decrypting(c) => Some(c)
    case Sending(c) => Some(c)
    case Writing(c, _, _, _) => Some(c)
    case _ => None
  }

  /** The row is absent or terminal, so the next drain query will not see it. */
  predicate Settled(t: Table, k: Key)
  {
    k !in t || !Selectable(t[k])
  }

  predicate Disturbs(ev: Event, k: Key)
  {
    ev == RetryLands(k) || (ev.EnqueueLands? && ev.key == k)
  }

  /** Only a retry or an enqueue of its id brings a settled row back. */
  lemma SettledRowsStay(s: State, ev: Event, k: Key)
    requires Inv(s) && Settled(s.table, k) && !Disturbs(ev, k)
    ensures Settled(Step(s, ev).table, k)
  {
    if ev.PassTicks? && ev.p in s.passes && s.passes[ev.p].stage.Writing? {
      assert Current(s.table, s.passes[ev.p].owner, CurrentRow(s.passes[ev.p].stage.c));
    }
  }

  /** Pass p is working on these rows for this account. */
  ghost predicate WorksOn(s: State, p: nat, owner: string, rows: seq<SnapRow>)
  {
    && p in s.passes && s.passes[p].owner == owner
    && CursorOf(s.passes[p].stage).Some? && CursorOf(s.passes[p].stage).value.rows == rows
  }

  /** Pass p awaits the reply for row j of its snapshot. */
  ghost predicate SendsRow(s: State, p: nat, owner: string, rows: seq<SnapRow>, j: nat)
  {
    WorksOn(s, p, owner, rows) && s.passes[p].stage.Sending? && |s.passes[p].stage.c.fates| == j
  }

  /** Event n read the snapshot of pass p. */
  ghost predicate ReadsSnapshot(evs: seq<Event>, n: nat, p: nat, owner: string, rows: seq<SnapRow>)
  {
    && n < |evs| && evs[n] == PassTicks(p, SnapshotRead(rows))
    && p in Run(INIT, evs[..n]).passes && Run(INIT, evs[..n]).passes[p] == Pass(owner, Selecting)
    && IsSnapshot(rows, Run(INIT, evs[..n]).table, owner)
  }

  ghost predicate WorksSince(evs: seq<Event>, n: nat, p: nat, owner: string, rows: seq<SnapRow>)
  {
    forall m | n < m <= |evs| :: WorksOn(Run(INIT, evs[..m]), p, owner, rows)
  }

  /** The key store fails pass p at row j of its snapshot, so the row is quarantined unsent. */
  ghost predicate FailsToOpen(s: State, ev: Event, p: nat, owner: string, rows: seq<SnapRow>, j: nat)
  {
    && WorksOn(s, p, owner, rows) && s.passes[p].stage.Decrypting? && |s.passes[p].stage.c.fates| == j
    && ev == PassTicks(p, DecryptEnds(false))
  }

  /** Row j was sent by pass p after event n, or its decryption failed. */
  ghost predicate WasTried(evs: seq<Event>, n: nat, p: nat, owner: string, rows: seq<SnapRow>, j: nat)
  {
    exists m :: n < m < |evs| && TriedAt(evs, m, p, owner, rows, j)
  }

  ghost predicate TriedAt(evs: seq<Event>, m: nat, p: nat, owner: string, rows: seq<SnapRow>, j: nat)
    requires m < |evs|
  {
    || SendsRow(Run(INIT, evs[..m]), p, owner, rows, j)
    || FailsToOpen(Run(INIT, evs[..m]), evs[m], p, owner, rows, j)
  }

  ghost predicate Disturbed(evs: seq<Event>, n: nat, k: Key)
  {
    exists i :: n < i < |evs| && Disturbs(evs[i], k)
  }

  /** What is known of row j once the pass that read its snapshot at event n has handled it. */
  ghost predicate Handled(evs: seq<Event>, n: nat, p: nat, owner: string, c: Cursor, j: nat)
    requires j < |c.fates|
  {
    var k := Key(owner, c.rows[j].id);
    && (c.rows[j].evidence.Readable? ==> WasTried(evs, n, p, owner, c.rows, j))
    && (Ordered(c.rows[j].kind) && !Disturbed(evs, n, k) ==> Settled(Run(INIT, evs).table, k))
  }

  /** Pass p has walked its snapshot, read at event n, up to cursor c. */
  ghost predicate Walked(evs: seq<Event>, n: nat, p: nat, owner: string, c: Cursor)
  {
    && ReadsSnapshot(evs, n, p, owner, c.rows) && WorksSince(evs, n, p, owner, c.rows)
    && TriedIfWriting(evs, n, p, owner, c)
    && forall j | 0 <= j < |c.fates| :: Handled(evs, n, p, owner, c, j)
  }

  ghost predicate TriedIfWriting(evs: seq<Event>, n: nat, p: nat, owner: string, c: Cursor)
  {
    var s := Run(INIT, evs);
    p in s.passes && s.passes[p].stage.Writing? && CurrentRow(c).evidence.Readable? ==>
      WasTried(evs, n, p, owner, c.rows, |c.fates|)
  }

  ghost predicate HasCursor(s: State, p: nat, owner: string, c: Cursor)
  {
    p in s.passes && s.passes[p].owner == owner && CursorOf(s.passes[p].stage) == Some(c)
  }

  /**
   No overtaking, over every run. A pass that stands at some row of its snapshot has read that
   snapshot, oldest first, at one event and has worked on it ever since. Each earlier row was sent in
   this pass, unless it could not be opened; and each earlier activation, end or attempt is by now absent
   from the queue or terminal, unless it has been enqueued or retried by hand meanwhile.
   */
  lemma {:induction false} NothingOvertakes(evs: seq<Event>, p: nat, owner: string, c: Cursor) returns (n: nat)
    requires HasCursor(Run(INIT, evs), p, owner, c)
    ensures Walked(evs, n, p, owner, c)
  {
    if evs == [] {
      assert false;
    } else {
      var before := evs[..|evs| - 1];
      var s := Run(INIT, before);
      if p in s.passes && CursorOf(s.passes[p].stage).Some? {
        var was: Cursor := CursorOf(s.passes[p].stage).value;
        CursorOnlyAdvances(s, evs[|evs| - 1], p);
        n := NothingOvertakes(before, p, owner, was);
        StillWalked(before, evs, n, p, owner, was, c);
      } else {
        n := |before|;
        JustRead(evs, n, s, p, owner, c);
      }
    }
  }

  /** A pass gets its cursor by reading its snapshot. */
  lemma JustRead(evs: seq<Event>, n: nat, s: State, p: nat, owner: string, c: Cursor)
    requires |evs| == n + 1 && s == Run(INIT, evs[..n])
    requires HasCursor(Step(s, evs[n]), p, owner, c) && !(p in s.passes && CursorOf(s.passes[p].stage).Some?)
    ensures Walked(evs, n, p, owner, c)
  {
    CursorIsRead(s, evs[n], p, owner, c);
    FreshWalk(evs, n, Step(s, evs[n]), p, owner, c);
  }

  lemma FreshWalk(evs: seq<Event>, n: nat, s: State, p: nat, owner: string, c: Cursor)
    requires |evs| == n + 1 && ReadsSnapshot(evs, n, p, owner, c.rows) && c.fates == []
    requires s == Run(INIT, evs) && HasCursor(s, p, owner, c) && s.passes[p].stage.Decrypting?
    ensures Walked(evs, n, p, owner, c)
  {
    assert evs[..n + 1] == evs;
  }

  lemma CursorIsRead(s: State, ev: Event, p: nat, owner: string, c: Cursor)
    requires HasCursor(Step(s, ev), p, owner, c) && !(p in s.passes && CursorOf(s.passes[p].stage).Some?)
    ensures c.fates == [] && ev == PassTicks(p, SnapshotRead(c.rows)) && Step(s, ev).passes[p].stage.Decrypting?
    ensures p in s.passes && s.passes[p] == Pass(owner, Selecting) && IsSnapshot(c.rows, s.table, owner)
  {
  }

  lemma StillWalked(before: seq<Event>, evs: seq<Event>, n: nat, p: nat, owner: string, was: Cursor, c: Cursor)
    requires evs != [] && before == evs[..|evs| - 1]
    requires Walked(before, n, p, owner, was) && HasCursor(Run(INIT, before), p, owner, was)
    requires HasCursor(Run(INIT, evs), p, owner, c) && c.rows == was.rows && was.fates <= c.fates
    requires |c.fates| <= |was.fates| + 1
    ensures Walked(evs, n, p, owner, c)
  {
    PrefixOfPrefix(evs);
    StillWorks(before, evs, n, p, owner, c);
    StillTriedIfWriting(before, evs, n, p, owner, was, c);
    forall j | 0 <= j < |c.fates| ensures Handled(evs, n, p, owner, c, j) {
      if j < |was.fates| {
        StillHandled(before, evs, n, p, owner, was, c, j);
      } else {
        JustHandled(before, evs, n, p, owner, was, c);
      }
    }
  }

  lemma StillWorks(before: seq<Event>, evs: seq<Event>, n: nat, p: nat, owner: string, c: Cursor)
    requires evs != [] && before == evs[..|evs| - 1] && HasCursor(Run(INIT, evs), p, owner, c)
    requires n < |before| && WorksSince(before, n, p, owner, c.rows)
    ensures WorksSince(evs, n, p, owner, c.rows)
  {
    forall m | n < m <= |evs| ensures WorksOn(Run(INIT, evs[..m]), p, owner, c.rows) {
      if m == |evs| {
        assert evs[..m] == evs;
      } else {
        WorkedBefore(before, evs, n, m, p, owner, c.rows);
      }
    }
  }

  lemma WorkedBefore(before: seq<Event>, evs: seq<Event>, n: nat, m: nat, p: nat, owner: string, rows: seq<SnapRow>)
    requires evs != [] && before == evs[..|evs| - 1] && n < m <= |before| && WorksSince(before, n, p, owner, rows)
    ensures WorksOn(Run(INIT, evs[..m]), p, owner, rows)
  {
    assert before[..m] == evs[..m];
  }

  lemma StillTriedIfWriting(before: seq<Event>, evs: seq<Event>, n: nat, p: nat, owner: string, was: Cursor, c: Cursor)
    requires evs != [] && before == evs[..|evs| - 1] && n < |before|
    requires HasCursor(Run(INIT, before), p, owner, was) && TriedIfWriting(before, n, p, owner, was)
    requires HasCursor(Run(INIT, evs), p, owner, c)
    ensures TriedIfWriting(evs, n, p, owner, c)
  {
    var s, s' := Run(INIT, before), Run(INIT, evs);
    if s'.passes[p].stage.Writing? && CurrentRow(c).evidence.Readable? {
      WritesFollowTries(s, evs[|evs| - 1], p, owner, was, c);
      TryIsRemembered(before, evs, n, p, owner, c.rows, |c.fates|);
    }
  }

  lemma WritesFollowTries(s: State, ev: Event, p: nat, owner: string, was: Cursor, c: Cursor)
    requires HasCursor(s, p, owner, was) && HasCursor(Step(s, ev), p, owner, c)
    requires Step(s, ev).passes[p].stage.Writing? && CurrentRow(c).evidence.Readable?
    ensures was == c
    ensures s.passes[p].stage.Writing? || s.passes[p].stage.Sending? || FailsToOpen(s, ev, p, owner, c.rows, |c.fates|)
  {
  }

  lemma StillHandled(before: seq<Event>, evs: seq<Event>, n: nat, p: nat, owner: string, was: Cursor, c: Cursor, j: nat)
    requires evs != [] && before == evs[..|evs| - 1] && j < |was.fates| <= |c.fates| && c.rows == was.rows
    requires n < |before| && Handled(before, n, p, owner, was, j)
    ensures Handled(evs, n, p, owner, c, j)
  {
    PrefixOfPrefix(evs);
    RunKeepsInv(INIT, before);
    var k := Key(owner, c.rows[j].id);
    if c.rows[j].evidence.Readable? {
      TryIsRemembered(before, evs, n, p, owner, c.rows, j);
    }
    if Ordered(c.rows[j].kind) && !Disturbed(evs, n, k) {
      assert forall i | n < i < |before| :: before[i] == evs[i];
      assert !Disturbs(evs[|evs| - 1], k);
      SettledRowsStay(Run(INIT, before), evs[|evs| - 1], k);
    }
  }

  lemma JustHandled(before: seq<Event>, evs: seq<Event>, n: nat, p: nat, owner: string, was: Cursor, c: Cursor)
    requires evs != [] && before == evs[..|evs| - 1] && n < |before|
    requires HasCursor(Run(INIT, before), p, owner, was) && HasCursor(Run(INIT, evs), p, owner, c)
    requires c.rows == was.rows && |c.fates| == |was.fates| + 1
    requires TriedIfWriting(before, n, p, owner, was)
    ensures Handled(evs, n, p, owner, c, |was.fates|)
  {
    var ev, k := evs[|evs| - 1], Key(owner, CurrentRow(was).id);
    var s := Run(INIT, before);
    RunKeepsInv(INIT, before);
    RowIsLeft(s, ev, p, owner, was, c);
    if CurrentRow(was).evidence.Readable? {
      TryIsRemembered(before, evs, n, p, owner, was.rows, |was.fates|);
    }
  }

  /** A pass leaves a row when its reply is "pending", which only scans get, or when a write settles it. */
  lemma RowIsLeft(s: State, ev: Event, p: nat, owner: string, was: Cursor, c: Cursor)
    requires Inv(s) && HasCursor(s, p, owner, was) && HasCursor(Step(s, ev), p, owner, c)
    requires c.rows == was.rows && |c.fates| == |was.fates| + 1
    ensures s.passes[p].stage.Sending? || s.passes[p].stage.Writing?
    ensures Ordered(CurrentRow(was).kind) ==> Settled(Step(s, ev).table, Key(owner, CurrentRow(was).id))
  {
    assert PassOk(s.table, s.passes[p]);
  }

  /** A try made by the last event, or known before it, is known afterwards. */
  lemma TryIsRemembered(before: seq<Event>, evs: seq<Event>, n: nat, p: nat, owner: string, rows: seq<SnapRow>, j: nat)
    requires evs != [] && before == evs[..|evs| - 1] && n < |before|
    requires || WasTried(before, n, p, owner, rows, j)
             || SendsRow(Run(INIT, before), p, owner, rows, j)
             || FailsToOpen(Run(INIT, before), evs[|before|], p, owner, rows, j)
    ensures WasTried(evs, n, p, owner, rows, j)
  {
    PrefixOfPrefix(evs);
    if m :| n < m < |before| && TriedAt(before, m, p, owner, rows, j) {
      assert before[..m] == evs[..m] && TriedAt(evs, m, p, owner, rows, j);
    } else {
      assert TriedAt(evs, |before|, p, owner, rows, j);
    }
  }

  /** A pass walks its one snapshot row by row: no event makes it skip, repeat or reorder rows. */
  lemma CursorOnlyAdvances(s: State, ev: Event, p: nat)
    requires p in s.passes && CursorOf(s.passes[p].stage).Some?
    requires p in Step(s, ev).passes && CursorOf(Step(s, ev).passes[p].stage).Some?
    ensures Step(s, ev).passes[p].owner == s.passes[p].owner
    ensures var c, c' := CursorOf(s.passes[p].stage).value, CursorOf(Step(s, ev).passes[p].stage).value;
            c'.rows == c.rows && c.fates <= c'.fates && |c'.fates| <= |c.fates| + 1
  {
  }

  // ---------------------------------------------------------------- the machine computes the loop

  /** What happens while one row is handled and nothing interferes; `next` is read at the following loop head. */
  ghost function RowEvents(p: nat, owner: string, r: SnapRow, v: Visit, next: Option<string>): seq<Event>
  {
    if Unreadable(r, v) then [PassTicks(p, DecryptEnds(v.opens)), SwitchOwner(next), PassTicks(p, WriteLands)]
    else if v.mid != Some(owner) then [SwitchOwner(v.mid), PassTicks(p, DecryptEnds(true))]
    else [SwitchOwner(v.mid), PassTicks(p, DecryptEnds(true))] + AnswerEvents(p, v.reply, next)
  }

  ghost function AnswerEvents(p: nat, reply: Reply, next: Option<string>): seq<Event>
  {
    if reply.Pending? then [SwitchOwner(next), PassTicks(p, SendReturns(reply))]
    else [PassTicks(p, SendReturns(reply)), SwitchOwner(next), PassTicks(p, WriteLands)]
  }

  /** An undisturbed pass from row i on, with the account switches of the script. */
  ghost function PassEvents(p: nat, owner: string, rows: seq<SnapRow>, script: Script, i: nat): seq<Event>
    requires i <= |rows|
    decreases |rows| - i
  {
    if i == |rows| || script(i).head != Some(owner) then []
    else
      RowEvents(p, owner, rows[i], script(i), script(i + 1).head) +
      if Continues(owner, rows[i], script(i)) then PassEvents(p, owner, rows, script, i + 1) else []
  }

  ghost predicate AtRow(s: State, p: nat, owner: string, rows: seq<SnapRow>, i: nat, head: Option<string>)
    requires i <= |rows|
  {
    && p in s.passes && s.passes[p].owner == owner && s.active == head
    && exists fates: seq<Fate> :: |fates| == i && s.passes[p].stage == Advance(head, owner, rows, fates)
  }

  ghost predicate RowHandled(s: State, s': State, p: nat, owner: string, rows: seq<SnapRow>, script: Script, i: nat)
    requires i < |rows|
  {
    if Continues(owner, rows[i], script(i)) then
      AtRow(s', p, owner, rows, i + 1, script(i + 1).head) && s'.table == FirstWrite(s.table, owner, rows, script, i)
    else
      && p in s'.passes && s'.passes[p].stage.Settling?
      && s'.table == if !Unreadable(rows[i], script(i)) && script(i).mid != Some(owner) then s.table
                     else FirstWrite(s.table, owner, rows, script, i)
  }

  lemma RowEventsHandleTheRow(s: State, p: nat, owner: string, rows: seq<SnapRow>, script: Script, i: nat)
    requires i < |rows| && AtRow(s, p, owner, rows, i, script(i).head) && script(i).head == Some(owner)
    requires CanReply(rows[i].kind, script(i).reply)
    ensures RowHandled(s, Run(s, RowEvents(p, owner, rows[i], script(i), script(i + 1).head)), p, owner, rows,
            script, i)
  {
    var fates: seq<Fate> :| |fates| == i && s.passes[p].stage == Advance(script(i).head, owner, rows, fates);
    StartedRowIsHandled(s, p, owner, Progress(rows, fates), script);
  }

  lemma StartedRowIsHandled(s: State, p: nat, owner: string, c: Cursor, script: Script)
    requires p in s.passes && s.passes[p] == Pass(owner, Decrypting(c)) && script(|c.fates|).head == Some(owner)
    requires CanReply(CurrentRow(c).kind, script(|c.fates|).reply)
    ensures var i := |c.fates|;
            RowHandled(s, Run(s, RowEvents(p, owner, c.rows[i], script(i), script(i + 1).head)), p, owner, c.rows,
                script, i)
  {
    var i := |c.fates|;
    if Unreadable(CurrentRow(c), script(i)) {
      UnreadableRow(s, p, owner, c, script(i).opens, script(i + 1).head);
    } else if script(i).mid != Some(owner) {
      AbandonedRow(s, p, owner, c, script(i).mid);
    } else {
      SentRowIsHandled(s, p, owner, c, script);
    }
  }

  lemma SentRowIsHandled(s: State, p: nat, owner: string, c: Cursor, script: Script)
    requires p in s.passes && s.passes[p] == Pass(owner, Decrypting(c))
             && CanReply(CurrentRow(c).kind, script(|c.fates|).reply)
    requires IsSent(owner, CurrentRow(c), script(|c.fates|))
    ensures var i := |c.fates|;
            RowHandled(s, Run(s, RowEvents(p, owner, c.rows[i], script(i), script(i + 1).head)), p, owner, c.rows,
                script, i)
  {
    var i := |c.fates|;
    SendStarts(s, p, owner, c);
    RunAppend(s, [SwitchOwner(Some(owner)), PassTicks(p, DecryptEnds(true))],
              AnswerEvents(p, script(i).reply, script(i + 1).head));
    AnsweredRow(SendingState(s, p, owner, c), p, owner, c, script(i).reply, script(i + 1).head);
  }

  /** The pass stands after the row, or has stopped at it; `t` is the table it leaves. */
  ghost predicate Leaves(s: State, p: nat, owner: string, c: Cursor, stop: bool, next: Option<string>, t: Table)
  {
    && s.table == t
    && if stop then p in s.passes && s.passes[p].stage.Settling? else AtRow(s, p, owner, c.rows, |c.fates| + 1, next)
  }

  /** The end of every row that is written: the write lands, the owner being read at the next loop head. */
  lemma WriteEnds(s: State, p: nat, owner: string, c: Cursor, write: Write, stop: bool, guarded: bool,
      next: Option<string>)
    requires p in s.passes && s.passes[p] == Pass(owner, Writing(c, write, stop, guarded))
    ensures Leaves(Step(Step(s, SwitchOwner(next)), PassTicks(p, WriteLands)), p, owner, c, stop, next,
                   Written(s.table, Key(owner, CurrentRow(c).id), write))
  {
    assert |c.fates + [FateOf(write)]| == |c.fates| + 1;
  }

  lemma UnreadableRow(s: State, p: nat, owner: string, c: Cursor, opens: bool, next: Option<string>)
    requires p in s.passes && s.passes[p] == Pass(owner, Decrypting(c))
    requires CurrentRow(c).evidence.Corrupt? || !opens
    ensures Leaves(Run(s, [PassTicks(p, DecryptEnds(opens)), SwitchOwner(next), PassTicks(p, WriteLands)]),
                   p, owner, c, false, next,
                   Written(s.table, Key(owner, CurrentRow(c).id), Mark(CurrentRow(c).attempts + 1, UNREADABLE)))
  {
    RunThree(s, PassTicks(p, DecryptEnds(opens)), SwitchOwner(next), PassTicks(p, WriteLands));
    WriteEnds(Step(s, PassTicks(p, DecryptEnds(opens))), p, owner, c,
              Mark(CurrentRow(c).attempts + 1, UNREADABLE), false, false, next);
  }

  lemma AbandonedRow(s: State, p: nat, owner: string, c: Cursor, mid: Option<string>)
    requires p in s.passes && s.passes[p] == Pass(owner, Decrypting(c)) && CurrentRow(c).evidence.Readable?
    requires mid != Some(owner)
    ensures var s' := Run(s, [SwitchOwner(mid), PassTicks(p, DecryptEnds(true))]);
            p in s'.passes && s'.passes[p].stage.Settling? && s'.table == s.table
  {
    RunTwo(s, SwitchOwner(mid), PassTicks(p, DecryptEnds(true)));
  }

  ghost function SendingState(s: State, p: nat, owner: string, c: Cursor): State
  {
    s.(active := Some(owner), passes := s.passes[p := Pass(owner, Sending(c))])
  }

  lemma SendStarts(s: State, p: nat, owner: string, c: Cursor)
    requires p in s.passes && s.passes[p] == Pass(owner, Decrypting(c)) && CurrentRow(c).evidence.Readable?
    ensures Run(s, [SwitchOwner(Some(owner)), PassTicks(p, DecryptEnds(true))]) == SendingState(s, p, owner, c)
  {
    RunTwo(s, SwitchOwner(Some(owner)), PassTicks(p, DecryptEnds(true)));
  }

  lemma AnsweredRow(s: State, p: nat, owner: string, c: Cursor, reply: Reply, next: Option<string>)
    requires p in s.passes && s.passes[p] == Pass(owner, Sending(c)) && CanReply(CurrentRow(c).kind, reply)
    ensures var s' := Run(s, AnswerEvents(p, reply, next));
            match OnReply(CurrentRow(c).attempts, reply)
            case Leave => Leaves(s', p, owner, c, false, next, s.table)
            case Settle(write, stop) =>
              Leaves(s', p, owner, c, stop, next, Written(s.table, Key(owner, CurrentRow(c).id), write))
  {
    if reply.Pending? {
      RunTwo(s, SwitchOwner(next), PassTicks(p, SendReturns(reply)));
      PendingReply(s, p, owner, c, next);
    } else {
      var Settle(write, stop) := OnReply(CurrentRow(c).attempts, reply);
      RunThree(s, PassTicks(p, SendReturns(reply)), SwitchOwner(next), PassTicks(p, WriteLands));
      WriteEnds(Step(s, PassTicks(p, SendReturns(reply))), p, owner, c, write, stop, !reply.Thrown?, next);
    }
  }

  lemma PendingReply(s: State, p: nat, owner: string, c: Cursor, next: Option<string>)
    requires p in s.passes && s.passes[p] == Pass(owner, Sending(c)) && CurrentRow(c).kind.AttendanceScan?
    ensures Leaves(Step(Step(s, SwitchOwner(next)), PassTicks(p, SendReturns(Pending))), p, owner, c, false, next,
            s.table)
  {
    assert |c.fates + [Waiting]| == |c.fates| + 1;
  }

  /** The interleaving machine, left undisturbed, ends with the table that the drain loop computes. */
  lemma {:induction false} MachineComputesTheLoop(s: State, p: nat, owner: string, rows: seq<SnapRow>,
      script: Script, i: nat)
    requires i <= |rows| && AtRow(s, p, owner, rows, i, script(i).head)
    requires forall j | 0 <= j < |rows| :: CanReply(rows[j].kind, script(j).reply)
    ensures var s' := Run(s, PassEvents(p, owner, rows, script, i));
            s'.table == DrainFrom(s.table, owner, rows, script, i) && p in s'.passes && s'.passes[p].stage.Settling?
    decreases |rows| - i
  {
    if i == |rows| || script(i).head != Some(owner) {
    } else {
      var evs := RowEvents(p, owner, rows[i], script(i), script(i + 1).head);
      RowEventsHandleTheRow(s, p, owner, rows, script, i);
      DrainUnfolds(s.table, owner, rows, script, i);
      if Continues(owner, rows[i], script(i)) {
        RunAppend(s, evs, PassEvents(p, owner, rows, script, i + 1));
        MachineComputesTheLoop(Run(s, evs), p, owner, rows, script, i + 1);
      } else {
        LastRowEvents(p, owner, rows, script, i);
      }
    }
  }

  lemma LastRowEvents(p: nat, owner: string, rows: seq<SnapRow>, script: Script, i: nat)
    requires i < |rows| && script(i).head == Some(owner) && !Continues(owner, rows[i], script(i))
    ensures PassEvents(p, owner, rows, script, i) == RowEvents(p, owner, rows[i], script(i), script(i + 1).head)
  {
  }

  lemma RunTwo(s: State, a: Event, b: Event)
    ensures Run(s, [a, b]) == Step(Step(s, a), b)
  {
    assert [a, b][..1] == [a] && [a][..0] == [];
    assert Run(s, [a]) == Step(Run(s, []), a);
  }

  lemma RunThree(s: State, a: Event, b: Event, c: Event)
    ensures Run(s, [a, b, c]) == Step(Step(Step(s, a), b), c)
  {
    RunTwo(s, a, b);
    assert [a, b, c][..2] == [a, b];
  }
}
