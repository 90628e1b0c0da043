/**
 What the queue machine does do: an enqueued row waits for a pass, a retried row waits again, a call
 starts a pass, an undisturbed pass computes the drain loop and leaves the store ready for the next
 call, and no failure leaves it stuck.
 */
module WholePass {
  import opened Wrappers
  import opened QueueTable
  import opened DrainPass
  import opened SyncMachine

  /** No drain call is in flight. */
  predicate Idle(s: State)
  {
    s.passes == map[] && s.drainPromise == None
  }

  lemma NoPromiseNoPass(s: State)
    requires Inv(s) && s.drainPromise == None
    ensures Idle(s)
  {
    assert forall p | p in s.passes :: s.drainPromise == Some(p);
  }

  /**
   From any reachable state: a call starts a pass for the active account unless one is in flight or
   nobody is signed in.
   */
  lemma CallStartsAPassIff(s: State, p: nat)
    requires Inv(s) && p !in s.passes
    ensures var s' := Step(s, CallDrain(p));
            if s.drainPromise == None && s.active.Some?
            then s' == State(s.active, s.table, map[p := Pass(s.active.value, Selecting)], Some(p))
            else s' == s
  {
    if s.drainPromise == None { NoPromiseNoPass(s); }
  }

  // ---------------------------------------------------------------- enqueue and retry

  /** An enqueue of a new id adds exactly its row: untried, without a text, and so pending. */
  lemma EnqueuedIsPending(s: State, k: Key, kind: Kind, evidence: Evidence, createdAt: int)
    requires Named(k.id, kind, evidence) && k !in s.table
    ensures var t := Step(s, EnqueueLands(k, kind, evidence, createdAt)).table;
            && k in t && t[k] == Row(kind, evidence, 0, None, createdAt)
            && PendingIds(t, k.owner) == PendingIds(s.table, k.owner) + {k.id}
            && forall other | other != k :: Lookup(t, other) == Lookup(s.table, other)
  {
    var t := Step(s, EnqueueLands(k, kind, evidence, createdAt)).table;
    forall id ensures id in PendingIds(t, k.owner) <==> id in PendingIds(s.table, k.owner) || id == k.id {
      assert id == k.id <==> Key(k.owner, id) == k;
    }
  }

  /**
   Over any run: a retry of a queued row, of whatever kind, makes it pending again and changes nothing
   but its text.
   */
  lemma RetriedIsPending(evs: seq<Event>, k: Key)
    requires k in Run(INIT, evs).table
    ensures var s, s' := Run(INIT, evs), Run(INIT, evs + [RetryLands(k)]);
            && k in s'.table && Selectable(s'.table[k]) && s'.table[k].lastError == None
            && SameOperation(s'.table[k], s.table[k]) && s'.table[k].attempts == s.table[k].attempts
            && k.id in PendingIds(s'.table, k.owner)
            && (forall other | other != k :: Lookup(s'.table, other) == Lookup(s.table, other))
            && s'.passes == s.passes && s'.drainPromise == s.drainPromise && s'.active == s.active
  {
    assert (evs + [RetryLands(k)])[..|evs|] == evs;
  }

  // ---------------------------------------------------------------- a whole pass

  ghost function StartEvents(p: nat, rows: seq<SnapRow>, head: Option<string>): seq<Event>
  {
    [CallDrain(p), SwitchOwner(head), PassTicks(p, SnapshotRead(rows))]
  }

  /** A call, its snapshot, the pass undisturbed from its first row on, and the promise settling. */
  ghost function CallEvents(p: nat, owner: string, rows: seq<SnapRow>, script: Script): seq<Event>
  {
    StartEvents(p, rows, script(0).head) + (PassEvents(p, owner, rows, script, 0) + [PromiseSettles(p)])
  }

  /**
   From any reachable state in which an account is active and no call is in flight: whatever snapshot
   the query returns and whatever the script brings, the call ends with the table that the drain loop
   computes, nothing in flight, and the next call starts another pass.
   */
  lemma CallComputesTheLoop(s: State, p: nat, owner: string, rows: seq<SnapRow>, script: Script)
    requires Inv(s) && s.active == Some(owner) && s.drainPromise == None
    requires IsSnapshot(rows, s.table, owner)
    requires forall j | 0 <= j < |rows| :: CanReply(rows[j].kind, script(j).reply)
    ensures var s' := Run(s, CallEvents(p, owner, rows, script));
            s'.table == DrainFrom(s.table, owner, rows, script, 0) && Idle(s') && TakesTheNextCall(s')
  {
    NoPromiseNoPass(s);
    CallBegins(s, p, owner, rows, script(0).head);
    RunKeepsInv(s, StartEvents(p, rows, script(0).head));
    BegunPassEnds(Begun(s, p, owner, rows, script(0).head), p, owner, rows, script);
    RunAppend(s, StartEvents(p, rows, script(0).head), PassEvents(p, owner, rows, script, 0) + [PromiseSettles(p)]);
    IdleTakesTheNextCall(Run(s, CallEvents(p, owner, rows, script)));
  }

  /** Whoever is active, the next call starts a pass for that account and no other. */
  ghost predicate TakesTheNextCall(s: State)
  {
    s.active.Some? ==> forall q: nat :: Step(s, CallDrain(q)).passes == map[q := Pass(s.active.value, Selecting)]
  }

  lemma IdleTakesTheNextCall(s: State)
    requires Idle(s)
    ensures TakesTheNextCall(s)
  {
  }

  lemma BegunPassEnds(s: State, p: nat, owner: string, rows: seq<SnapRow>, script: Script)
    requires Inv(s) && AtRow(s, p, owner, rows, 0, script(0).head)
    requires forall j | 0 <= j < |rows| :: CanReply(rows[j].kind, script(j).reply)
    ensures var s' := Run(s, PassEvents(p, owner, rows, script, 0) + [PromiseSettles(p)]);
            s'.table == DrainFrom(s.table, owner, rows, script, 0) && Idle(s')
  {
    MachineComputesTheLoop(s, p, owner, rows, script, 0);
    RunKeepsInv(s, PassEvents(p, owner, rows, script, 0));
    PromiseEnds(s, PassEvents(p, owner, rows, script, 0), p);
  }

  ghost function Begun(s: State, p: nat, owner: string, rows: seq<SnapRow>, head: Option<string>): State
  {
    State(head, s.table, map[p := Pass(owner, Advance(head, owner, rows, []))], Some(p))
  }

  lemma CallBegins(s: State, p: nat, owner: string, rows: seq<SnapRow>, head: Option<string>)
    requires Idle(s) && s.active == Some(owner) && IsSnapshot(rows, s.table, owner)
    ensures Run(s, [CallDrain(p), SwitchOwner(head), PassTicks(p, SnapshotRead(rows))]) ==
            Begun(s, p, owner, rows, head)
    ensures AtRow(Begun(s, p, owner, rows, head), p, owner, rows, 0, head)
  {
    RunThree(s, CallDrain(p), SwitchOwner(head), PassTicks(p, SnapshotRead(rows)));
    var fates: seq<Fate> := [];
    assert |fates| == 0 && Begun(s, p, owner, rows, head).passes[p].stage == Advance(head, owner, rows, fates);
  }

  lemma PromiseEnds(s: State, evs: seq<Event>, p: nat)
    requires Inv(Run(s, evs)) && p in Run(s, evs).passes && Run(s, evs).passes[p].stage.Settling?
    ensures Idle(Run(s, evs + [PromiseSettles(p)]))
    ensures Run(s, evs + [PromiseSettles(p)]).table == Run(s, evs).table
  {
    var s1 := Run(s, evs);
    assert (evs + [PromiseSettles(p)])[..|evs|] == evs;
    assert forall q | q in s1.passes :: q == p;
    assert s1.passes - {p} == map[];
  }

  // ---------------------------------------------------------------- from the very beginning

  /** One readable row answered "synced". */
  function DoneScript(owner: string): Script
  {
    _ => Visit(Some(owner), true, Some(owner), Synced)
  }

  /** A run from an empty store: an account signs in, queues any operation, and one call sends and deletes it. */
  lemma QueuedThenDeleted(k: Key, kind: Kind, payload: Payload, createdAt: int) returns (evs: seq<Event>)
    requires Named(k.id, kind, Readable(payload))
    ensures |evs| > 2 && k in Run(INIT, evs[..2]).table && Run(INIT, evs[..2]).table[k].evidence == Readable(payload)
    ensures Run(INIT, evs).table == map[] && Idle(Run(INIT, evs))
  {
    var queue := [SwitchOwner(Some(k.owner)), EnqueueLands(k, kind, Readable(payload), createdAt)];
    var rows := [SnapRow(k.id, kind, Readable(payload), 0)];
    evs := queue + CallEvents(0, k.owner, rows, DoneScript(k.owner));
    assert evs[..2] == queue;
    OneQueued(k, kind, payload, createdAt);
    RunKeepsInv(INIT, queue);
    var s := Run(INIT, queue);
    RunAppend(INIT, queue, CallEvents(0, k.owner, rows, DoneScript(k.owner)));
    CallComputesTheLoop(s, 0, k.owner, rows, DoneScript(k.owner));
    DrainUnfolds(s.table, k.owner, rows, DoneScript(k.owner), 0);
  }

  lemma OneQueued(k: Key, kind: Kind, payload: Payload, createdAt: int)
    requires Named(k.id, kind, Readable(payload))
    ensures var s := Run(INIT, [SwitchOwner(Some(k.owner)), EnqueueLands(k, kind, Readable(payload), createdAt)]);
            && s == State(Some(k.owner), map[k := Row(kind, Readable(payload), 0, None, createdAt)], map[], None)
            && IsSnapshot([SnapRow(k.id, kind, Readable(payload), 0)], s.table, k.owner)
  {
    RunTwo(INIT, SwitchOwner(Some(k.owner)), EnqueueLands(k, kind, Readable(payload), createdAt));
    var rows := [SnapRow(k.id, kind, Readable(payload), 0)];
    assert rows[0].id in Ids(rows);
  }

  // ---------------------------------------------------------------- restarts and failures

  /** A restart keeps the queue and drops everything else, so the next sign-in and call start afresh. */
  lemma RestartKeepsTheQueue(s: State, owner: string, p: nat)
    ensures var s' := Run(s, [ProcessRestarts, SwitchOwner(Some(owner)), CallDrain(p)]);
            s'.table == s.table && s'.active == Some(owner) && s'.passes == map[p := Pass(owner, Selecting)]
  {
    RunThree(s, ProcessRestarts, SwitchOwner(Some(owner)), CallDrain(p));
  }

  /** The number of failures after which a pass has certainly settled. */
  function Remaining(stage: Stage): nat
  {
    match stage
    case Settling => 0
    case Selecting => 1
    case Writing(_, _, _, guarded) => if guarded then 2 else 1
    case Sending(_) => 2
    case Decrypting(_) => 2
  }

  /** The failure that strikes a pass where it stands. */
  function NextFailure(stage: Stage): Tick
  {
    match stage
    case Selecting => SnapshotFails
    case Decrypting(_) => DecryptEnds(false)
    case Sending(_) => SendReturns(Thrown(None))
    case _ => WriteFails(None)
  }

  lemma FailureAdvances(s: State, p: nat)
    requires p in s.passes && !s.passes[p].stage.Settling?
    ensures var s' := Step(s, PassTicks(p, NextFailure(s.passes[p].stage)));
            && p in s'.passes && Remaining(s'.passes[p].stage) < Remaining(s.passes[p].stage)
            && s'.table == s.table && s'.active == s.active
  {
  }

  /**
   No failure leaves the store stuck: if everything a pass does from here on fails, it settles, and the
   queue is as it was.
   */
  lemma {:induction false} FailingPassSettles(s: State, p: nat) returns (evs: seq<Event>)
    requires Inv(s) && p in s.passes
    ensures |evs| <= Remaining(s.passes[p].stage) + 1 <= 3
    ensures Idle(Run(s, evs)) && Run(s, evs).table == s.table && Run(s, evs).active == s.active
    decreases Remaining(s.passes[p].stage)
  {
    if s.passes[p].stage.Settling? {
      evs := [PromiseSettles(p)];
      PromiseEnds(s, [], p);
      assert [] + [PromiseSettles(p)] == evs && Run(s, []) == s;
      assert evs[..0] == [];
    } else {
      var ev := PassTicks(p, NextFailure(s.passes[p].stage));
      FailureAdvances(s, p);
      StepKeepsInv(s, ev);
      var rest := FailingPassSettles(Step(s, ev), p);
      evs := [ev] + rest;
      RunAppend(s, [ev], rest);
      assert [ev][..0] == [] && Run(s, [ev]) == Step(Run(s, []), ev);
    }
  }
}
