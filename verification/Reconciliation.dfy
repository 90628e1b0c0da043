/**
 Whole plays seen from one operation: what can make the client give it up, and, for an activation, what
 makes it see that a commit whose reply was lost did happen.
 */
module Reconciliation {
  import opened Wrappers
  import opened QueueTable
  import opened DrainPass
  import opened SyncMachine
  import opened SendCallback
  import opened EndToEnd

  /** The request came back with a status by which the server refuses it for good. */
  predicate Refused(d: Delivery)
  {
    !d.Delivered? && d.failure.ApiError? && d.failure.status in {400, 403, 404, 410, 422}
  }

  /** The server stores the activation's own token in its own slot. */
  predicate OwnTokenStored(sv: Server, p: Payload)
  {
    p.token != "" && p.sessionId in sv.sessions && Slot(sv.sessions[p.sessionId], p.checkpoint) == p.token
  }

  /** The session holds a different token in that slot, or an end. */
  predicate Replaced(sv: Server, p: Payload)
  {
    && p.sessionId in sv.sessions && !OwnTokenStored(sv, p)
    && (Slot(sv.sessions[p.sessionId], p.checkpoint) != "" || sv.sessions[p.sessionId].ended)
  }

  lemma {:induction false} SessionsStay(sv: Server, evs: seq<RemoteEvent>, id: string)
    requires id in sv.sessions
    ensures id in Remotes(sv, evs).sessions
    decreases evs
  {
    if evs == [] {
    } else {
      SessionsStay(Remote(sv, evs[0]), evs[1..], id);
    }
  }

  // ---------------------------------------------------------------- one call

  /** The first request is answered with a 409, by the server or on the way. */
  predicate Conflicts(sv: Server, r: Request, call: Call)
  {
    if call.post.Delivered? then
      var reply := Handle(sv, r, call.choice).1.session;
      reply.Raised? && reply.failure.ApiError? && reply.failure.status == 409
    else call.post.failure.ApiError? && call.post.failure.status == 409
  }

  /** The final result of a scan that this call shows the client, at once or through the receipt. */
  function FirstResult(sv: Server, r: Request, call: Call): Option<ScanResult>
  {
    if !call.post.Delivered? then None
    else if !call.choice.viaQueue then Some(JudgeScan(sv, r, call.choice.ruling).1)
    else
      var jobs := Exchange(sv, r, call).0.jobs;
      if call.read.Delivered? && r in jobs && jobs[r].Done? then Some(jobs[r].result) else None
  }

  predicate RejectsForGood(result: ScanResult)
  {
    result.Rejected? && (result.retryable == Some(false) || IsEvidenceFailure(result.error))
  }

  predicate UnknownSession(sv: Server, r: Request)
  {
    !Known(sv, r) && r.payload.sessionId !in sv.sessions
  }

  /** The call speaks against the operation. */
  predicate GivesUp(sv: Server, r: Request, call: Call)
  {
    || Refused(call.post)
    || match r.kind
       case AttendanceScan =>
         || (call.post.Delivered? && call.choice.viaQueue && Refused(call.read))
         || (FirstResult(sv, r, call).Some? && RejectsForGood(FirstResult(sv, r, call).value))
       case ScanAttempt => call.post.Delivered? && call.choice.ruling.Declines?
       case SessionActivation =>
         || (call.post.Delivered? && UnknownSession(sv, r))
         || (Conflicts(sv, r, call) && (Refused(call.read) || (call.read.Delivered? && Disowned(sv, r, call))))
       case SessionEnd =>
         || (call.post.Delivered? && UnknownSession(sv, r))
         || (Conflicts(sv, r, call)
             && (Refused(call.read)
                 || (call.read.Delivered? && r.payload.sessionId !in Exchange(sv, r, call).0.sessions)))
       case OtherKind(_) => true
  }

  /** The session read back is gone, or holds another token or an end. */
  predicate Disowned(sv: Server, r: Request, call: Call)
  {
    var sv' := Exchange(sv, r, call).0;
    r.payload.sessionId !in sv'.sessions || Replaced(sv', r.payload)
  }

  /** A call gives an operation of any kind up exactly when it speaks against it. */
  lemma GivesUpIff(sv: Server, r: Request, call: Call)
    ensures Exchange(sv, r, call).1.Terminal? <==> GivesUp(sv, r, call)
  {
    match r.kind
    case AttendanceScan => ScanGivesUpIff(sv, r, call);
    case ScanAttempt =>
    case SessionActivation =>
      var a := Seens(sv, Exchange(sv, r, call).0, r, call);
      ActivationTerminalIff(r.payload, a.session, a.reread);
    case SessionEnd => EndGivesUpIff(sv, r, call);
    case OtherKind(_) =>
  }

  lemma ScanGivesUpIff(sv: Server, r: Request, call: Call)
    requires r.kind.AttendanceScan?
    ensures Exchange(sv, r, call).1.Terminal? <==> GivesUp(sv, r, call)
  {
    var a := Seens(sv, Exchange(sv, r, call).0, r, call);
    ScanTerminalIff(a.batch, a.status);
    var results := FinalResults(a.batch, a.status);
    assert FirstResult(sv, r, call) == if results.Some? then Some(results.value[0]) else None;
  }

  lemma EndGivesUpIff(sv: Server, r: Request, call: Call)
    requires r.kind.SessionEnd?
    ensures Exchange(sv, r, call).1.Terminal? <==> GivesUp(sv, r, call)
  {
    var a := Seens(sv, Exchange(sv, r, call).0, r, call);
    if Conflicts(sv, r, call) && a.reread.Replied? {
      EndConflictIsNeverTerminal(r.payload, a.session.failure, a.reread.value);
    }
  }

  /** The server carries a session operation out now, or answers it from the stored reply. */
  predicate Succeeds(sv: Server, r: Request, choice: Choice)
  {
    if Known(sv, r) then choice.replays
    else
      && r.payload.sessionId in sv.sessions && !sv.sessions[r.payload.sessionId].ended
      && (r.kind.SessionActivation? ==>
            && r.payload.token != ""
            && (Slot(sv.sessions[r.payload.sessionId], r.payload.checkpoint) == "" || r.payload.regenerate))
  }

  /** The call shows that the operation is done. */
  predicate Acknowledges(sv: Server, r: Request, call: Call)
  {
    var sv' := Exchange(sv, r, call).0;
    match r.kind
    case AttendanceScan => FirstResult(sv, r, call) == Some(Recorded)
    case ScanAttempt => call.post.Delivered? && call.choice.ruling.Accepts?
    case SessionActivation =>
      || (call.post.Delivered? && Succeeds(sv, r, call.choice))
      || (Conflicts(sv, r, call) && call.read.Delivered? && OwnTokenStored(sv', r.payload))
    case SessionEnd =>
      || (call.post.Delivered? && Succeeds(sv, r, call.choice))
      || (Conflicts(sv, r, call) && call.read.Delivered?
          && r.payload.sessionId in sv'.sessions && sv'.sessions[r.payload.sessionId].ended)
    case OtherKind(_) => false
  }

  /** The server has queued the scan and its receipt shows no result yet. */
  predicate Pends(sv: Server, r: Request, call: Call)
  {
    && r.kind.AttendanceScan? && call.post.Delivered? && call.choice.viaQueue && call.read.Delivered?
    && FirstResult(sv, r, call).None?
  }

  /** Every answer of the callback, for every kind, told from deliveries and server state alone. */
  lemma AnswerIff(sv: Server, r: Request, call: Call)
    ensures var reply := Exchange(sv, r, call).1;
            && (reply.Synced? || reply.Void? <==> Acknowledges(sv, r, call))
            && (reply.Pending? <==> Pends(sv, r, call))
            && (reply.Terminal? <==> GivesUp(sv, r, call))
            && (reply.Retryable? <==> !Acknowledges(sv, r, call) && !Pends(sv, r, call) && !GivesUp(sv, r, call))
  {
    GivesUpIff(sv, r, call);
    CallsAreNeverBlocked(sv, r, call);
    match r.kind
    case AttendanceScan => ScanAnswerIff(sv, r, call);
    case ScanAttempt =>
    case SessionActivation => ActivationAnswerIff(sv, r, call);
    case SessionEnd => EndAnswerIff(sv, r, call);
    case OtherKind(_) =>
  }

  lemma ScanAnswerIff(sv: Server, r: Request, call: Call)
    requires r.kind.AttendanceScan?
    ensures var reply := Exchange(sv, r, call).1;
            (reply.Synced? || reply.Void? <==> Acknowledges(sv, r, call)) && (reply.Pending? <==> Pends(sv, r, call))
  {
    var a := Seens(sv, Exchange(sv, r, call).0, r, call);
    ScanSyncedIff(a.batch, a.status);
    OnlyScansPend(r.kind, r.payload, a);
    var results := FinalResults(a.batch, a.status);
    assert FirstResult(sv, r, call) == if results.Some? then Some(results.value[0]) else None;
  }

  lemma ActivationAnswerIff(sv: Server, r: Request, call: Call)
    requires r.kind.SessionActivation?
    ensures var reply := Exchange(sv, r, call).1; reply.Synced? || reply.Void? <==> Acknowledges(sv, r, call)
  {
    var a := Seens(sv, Exchange(sv, r, call).0, r, call);
    ActivationDoneIff(r.payload, a.session, a.reread);
  }

  lemma EndAnswerIff(sv: Server, r: Request, call: Call)
    requires r.kind.SessionEnd?
    ensures var reply := Exchange(sv, r, call).1; reply.Synced? || reply.Void? <==> Acknowledges(sv, r, call)
  {
    var a := Seens(sv, Exchange(sv, r, call).0, r, call);
    if Conflicts(sv, r, call) && a.reread.Replied? {
      EndConflictIsNeverTerminal(r.payload, a.session.failure, a.reread.value);
    }
  }

  /** A rejected scan or check carries the server's own words, and a failure its message. */
  lemma AnswerTexts(sv: Server, r: Request, call: Call)
    ensures var reply := Exchange(sv, r, call).1;
            && (r.kind.AttendanceScan? && FirstResult(sv, r, call).Some? && FirstResult(sv, r, call).value.Rejected? ==>
                  var result := FirstResult(sv, r, call).value;
                  reply == if RejectsForGood(result) then Terminal(result.error) else Retryable(result.error))
            && (r.kind.ScanAttempt? && call.post.Delivered? && call.choice.ruling.Declines? ==>
                  reply == Terminal(if call.choice.ruling.error != "" then call.choice.ruling.error
                      else "Check-in rejected"))
            && (!r.kind.OtherKind? && Refused(call.post) ==> reply == Terminal(call.post.failure.message))
            && (!r.kind.OtherKind? && !call.post.Delivered? && call.post.failure.OtherError? ==>
                  reply == Retryable(if call.post.failure.text.Some? then call.post.failure.text.value
                      else "Sync failed"))
  {
  }

  /** The failure that decides this call is transient: lost, timed out, a server fault and the like. */
  predicate FailsTransiently(sv: Server, r: Request, call: Call)
  {
    var failure := DecidingFailure(r.kind, Seens(sv, Exchange(sv, r, call).0, r, call));
    failure.Some? && IsTransient(failure.value)
  }

  /** The activation's own token is stored when the call begins and when it ends, and no request is refused. */
  predicate OwnTokenStays(sv: Server, r: Request, call: Call)
  {
    && r.kind.SessionActivation? && !Refused(call.post) && !Refused(call.read)
    && OwnTokenStored(sv, r.payload) && OwnTokenStored(Exchange(sv, r, call).0, r.payload)
  }

  lemma FaultsAndOwnTokensSpare(sv: Server, r: Request, call: Call)
    requires FailsTransiently(sv, r, call) || OwnTokenStays(sv, r, call)
    ensures !GivesUp(sv, r, call)
  {
    GivesUpIff(sv, r, call);
    if FailsTransiently(sv, r, call) {
      TransientFaultsKeepTheOperation(r.kind, r.payload, Seens(sv, Exchange(sv, r, call).0, r, call));
    }
  }

  /**
   When the requests get through, an operation applied before is given up iff its reply is gone and it
   was replaced.
   */
  lemma AppliedIsGivenUpIff(sv: Server, r: Request, call: Call)
    requires r.kind.SessionActivation? && r.payload.sessionId in sv.sessions && Known(sv, r)
    requires call.post.Delivered? && call.read.Delivered?
    ensures Exchange(sv, r, call).1.Terminal? <==> !call.choice.replays && Replaced(Exchange(sv, r, call).0, r.payload)
  {
    var sv' := Exchange(sv, r, call).0;
    var a := Seens(sv, sv', r, call);
    SessionsStay(Posted(sv, r, call), call.between, r.payload.sessionId);
    ActivationTerminalIff(r.payload, a.session, a.reread);
  }

  /** A commit leaves the token stored, unless the in-person window had run out on the server. */
  lemma CommitStoresTheToken(sv: Server, r: Request, choice: Choice)
    requires r.kind.SessionActivation? && !Known(sv, r) && Handle(sv, r, choice).0.effects != sv.effects
    ensures OwnTokenStored(Handle(sv, r, choice).0, r.payload) <==>
            !(choice.lapses && r.payload.checkpoint.NoCheckpoint?)
  {
  }

  /**
   A first call commits and its reply is lost; the stored reply is gone when the next call arrives. Then
   the client sees that the operation was done, unless the in-person window had run out on the server: in
   that case it gives up an operation the server applied.
   */
  lemma LostCommitIsSeenIff(sv: Server, r: Request, first: Call, choice: Choice)
    requires r.kind.SessionActivation? && !Known(sv, r) && first.post.ReplyLost? && first.between == []
    requires Exchange(sv, r, first).0.effects != sv.effects && !choice.replays
    ensures var sv1 := Exchange(sv, r, first).0;
            && HasEffect(sv1, r.key)
            && Exchange(sv1, r, Call(Delivered, choice, [], Delivered)).1 ==
               if first.choice.lapses && r.payload.checkpoint.NoCheckpoint? then Terminal(SESSION_CHANGED) else Synced
  {
    CommitStoresTheToken(sv, r, first.choice);
    var sv1 := Exchange(sv, r, first).0;
    assert sv1 == PostActivation(sv, r, first.choice).0 && sv1.effects == sv.effects + [r];
    assert sv1.effects[|sv.effects|] == r;
    assert Known(sv1, r);
    assert Exchange(sv1, r, Call(Delivered, choice, [], Delivered)).0 == sv1;
  }

  // ---------------------------------------------------------------- over plays

  /** Pass q is about to write to this row. */
  ghost predicate WritesTo(s: State, q: nat, k: Key)
  {
    q in s.passes && s.passes[q].stage.Writing? && Key(s.passes[q].owner, CurrentRow(s.passes[q].stage.c).id) == k
  }

  /** The row is open or gone, it is this operation if it is there, and no pass is about to give it up. */
  ghost predicate Standing(s: State, r: Request)
  {
    && (r.key in s.table ==>
          && s.table[r.key].kind == r.kind && s.table[r.key].evidence == Readable(r.payload)
          && Selectable(s.table[r.key]))
    && (forall q | WritesTo(s, q, r.key) ::
          s.passes[q].stage.write.Mark? ==> !LikeTerminal(s.passes[q].stage.write.error))
  }

  /** Pass q is about to open this row. */
  ghost predicate Opens(s: State, q: nat, k: Key)
  {
    q in s.passes && s.passes[q].stage.Decrypting? && Key(s.passes[q].owner, CurrentRow(s.passes[q].stage.c).id) == k
  }

  /** The device does its part: the row opens, no failed write brings a terminal text in, no enqueue reuses the id. */
  ghost predicate DeviceWorks(s: State, ev: Event, r: Request)
  {
    match ev
    case PassTicks(q, DecryptEnds(opens)) => Opens(s, q, r.key) ==> opens
    case PassTicks(q, WriteFails(message)) => WritesTo(s, q, r.key) ==> !LikeTerminal(RawText(message))
    case EnqueueLands(key, kind, evidence, _) => key == r.key ==> kind == r.kind && evidence == Readable(r.payload)
    case _ => true
  }

  ghost predicate CallsFor(w: World, act: Act, r: Request)
  {
    act.Calls? && InCall(w.client, act.p) && Sent(w.client, act.p).key == r.key
  }

  /** The act gives neither the server nor the device a reason to give the operation up. */
  ghost predicate Spares(w: World, act: Act, r: Request)
  {
    && (act.Client? ==> DeviceWorks(w.client, act.ev, r))
    && (CallsFor(w, act, r) ==> !GivesUp(w.server, r, act.call))
  }

  /** The theorem can start from an operation that is not queued yet: nothing writes to it either. */
  lemma AbsentStands(s: State, r: Request)
    requires Inv(s) && r.key !in s.table
    ensures Standing(s, r)
  {
    assert !exists q :: WritesTo(s, q, r.key) by {
      if q :| WritesTo(s, q, r.key) { VisitedIsQueued(s, q); }
    }
  }

  /** The row a pass stands at is in the table as the snapshot has it, and open. */
  lemma VisitedIsQueued(s: State, q: nat)
    requires Inv(s) && q in s.passes && CursorOf(s.passes[q].stage).Some?
    ensures var c := CursorOf(s.passes[q].stage).value;
            |c.fates| < |c.rows| && Current(s.table, s.passes[q].owner, c.rows[|c.fates|])
  {
    assert PassOk(s.table, s.passes[q]);
  }

  /** What a client event must not do. */
  ghost predicate Harmless(s: State, ev: Event, r: Request)
  {
    && DeviceWorks(s, ev, r)
    && (IsReply(ev) && AwaitsReply(s, ev.p, r.key) ==> !ev.tick.reply.Terminal? && !ev.tick.reply.Thrown?)
  }

  /** A failed write of another row, or an erasing one, is all that a tick can do to the table. */
  lemma TickKeepsRow(s: State, p: nat, tick: Tick, r: Request)
    requires Standing(s, r) && p in s.passes && r.key in Step(s, PassTicks(p, tick)).table
    ensures r.key in s.table
    ensures var row := Step(s, PassTicks(p, tick)).table[r.key];
            row.kind == r.kind && row.evidence == Readable(r.payload) && Selectable(row)
  {
    if tick.WriteLands? && s.passes[p].stage.Writing? && r.key in s.table {
      if WritesTo(s, p, r.key) {
        assert s.passes[p].stage.write.Mark? ==> !LikeTerminal(s.passes[p].stage.write.error);
      } else {
        assert Step(s, PassTicks(p, tick)).table[r.key] == s.table[r.key];
      }
    }
  }

  lemma TickKeepsWrite(s: State, p: nat, tick: Tick, r: Request)
    requires Inv(s) && Standing(s, r) && p in s.passes && Harmless(s, PassTicks(p, tick), r)
    requires WritesTo(Step(s, PassTicks(p, tick)), p, r.key)
    ensures var write := Step(s, PassTicks(p, tick)).passes[p].stage.write;
            write.Mark? ==> !LikeTerminal(write.error)
  {
    match s.passes[p].stage
    case Decrypting(c) => VisitedIsQueued(s, p);
    case Sending(c) => ReplyKeepsWrite(s, p, tick, r);
    case Writing(c, _, _, _) => assert WritesTo(s, p, r.key);
    case _ =>
  }

  lemma ReplyKeepsWrite(s: State, p: nat, tick: Tick, r: Request)
    requires p in s.passes && s.passes[p].stage.Sending? && Harmless(s, PassTicks(p, tick), r)
    requires WritesTo(Step(s, PassTicks(p, tick)), p, r.key)
    ensures var write := Step(s, PassTicks(p, tick)).passes[p].stage.write;
            write.Mark? ==> !LikeTerminal(write.error)
  {
    assert tick.SendReturns? && AwaitsReply(s, p, r.key);
    if tick.reply.Retryable? { RetryableTextReadsBack(tick.reply.error); }
  }

  lemma TickKeepsStanding(s: State, p: nat, tick: Tick, r: Request)
    requires Inv(s) && Standing(s, r) && p in s.passes && Harmless(s, PassTicks(p, tick), r)
    ensures Standing(Step(s, PassTicks(p, tick)), r)
  {
    var s' := Step(s, PassTicks(p, tick));
    if r.key in s'.table { TickKeepsRow(s, p, tick, r); }
    forall q | WritesTo(s', q, r.key)
      ensures s'.passes[q].stage.write.Mark? ==> !LikeTerminal(s'.passes[q].stage.write.error)
    {
      assert q == p by { assert q in s.passes && s.drainPromise == Some(q) && s.drainPromise == Some(p); }
      TickKeepsWrite(s, p, tick, r);
    }
  }

  lemma EventKeepsStanding(s: State, ev: Event, r: Request)
    requires Inv(s) && Standing(s, r) && Harmless(s, ev, r)
    ensures Standing(Step(s, ev), r)
  {
    var s' := Step(s, ev);
    if ev.PassTicks? {
      if ev.p in s.passes { TickKeepsStanding(s, ev.p, ev.tick, r); }
    } else {
      forall q | WritesTo(s', q, r.key) ensures WritesTo(s, q, r.key) && s'.passes[q] == s.passes[q] {
        NoNewWrites(s, ev, q);
      }
    }
  }

  lemma NoNewWrites(s: State, ev: Event, q: nat)
    requires !ev.PassTicks? && q in Step(s, ev).passes && Step(s, ev).passes[q].stage.Writing?
    ensures q in s.passes && Step(s, ev).passes[q] == s.passes[q]
  {
  }

  lemma SparedIsHarmless(w: World, act: Act, r: Request, loose: set<Key>)
    requires WorldOk(w, loose) && Standing(w.client, r) && Spares(w, act, r)
    requires EventOf(w, act).Some?
    ensures Harmless(w.client, EventOf(w, act).value, r)
  {
    if act.Calls? && Sent(w.client, act.p).key == r.key {
      SentIsLegit(w, act.p, loose);
      assert Sent(w.client, act.p) == r;
      GivesUpIff(w.server, r, act.call);
      CallsAreNeverBlocked(w.server, r, act.call);
    }
  }

  /**
   Over every play: an operation of any kind stays open, or leaves the queue by being acknowledged, for
   as long as no call speaks against it and the device does its part. How many requests and replies are
   lost makes no difference, nor do receipts that stay pending, nor a 409 that nothing stands behind.
   */
  lemma {:induction false} OperationIsNotGivenUp(acts: seq<Act>, n: nat, r: Request)
    requires n <= |acts| && Standing(Play(acts[..n]).client, r) && AllSpared(acts, n, r)
    ensures Standing(Play(acts).client, r)
  {
    if n == |acts| {
      assert acts[..n] == acts;
    } else {
      var before, act := acts[..|acts| - 1], acts[|acts| - 1];
      assert forall i | 0 <= i <= |before| :: before[..i] == acts[..i];
      OperationIsNotGivenUp(before, n, r);
      PlaysAreOk(before);
      MoveIsStep(Play(before), act);
      if EventOf(Play(before), act).Some? {
        SparedIsHarmless(Play(before), act, r, LooseKeys(before));
        EventKeepsStanding(Play(before).client, EventOf(Play(before), act).value, r);
      }
    }
  }

  /**
   And no weaker condition will do: in every play, a call for a standing operation leaves it standing
   iff it does not give it up.
   */
  lemma CallStandsIff(acts: seq<Act>, q: nat, call: Call)
    requires InCall(Play(acts).client, q) && Standing(Play(acts).client, Sent(Play(acts).client, q))
    ensures var r := Sent(Play(acts).client, q);
            Standing(Play(acts + [Calls(q, call)]).client, r) <==> !GivesUp(Play(acts).server, r, call)
  {
    PlaysAreOk(acts);
    OneActMore(acts, Calls(q, call));
    CallStandsIn(Play(acts), q, call, LooseKeys(acts));
  }

  lemma CallStandsIn(w: World, q: nat, call: Call, loose: set<Key>)
    requires WorldOk(w, loose) && InCall(w.client, q) && Standing(w.client, Sent(w.client, q))
    ensures Standing(Move(w, Calls(q, call)).client, Sent(w.client, q)) <==> !GivesUp(w.server, Sent(w.client, q), call)
  {
    var r := Sent(w.client, q);
    var reply := Exchange(w.server, r, call).1;
    GivesUpIff(w.server, r, call);
    if GivesUp(w.server, r, call) {
      TerminalReplyFalls(w.client, q, reply);
    } else {
      SparedIsHarmless(w, Calls(q, call), r, loose);
      EventKeepsStanding(w.client, PassTicks(q, SendReturns(reply)), r);
    }
  }

  lemma TerminalReplyFalls(s: State, q: nat, reply: Reply)
    requires InCall(s, q) && reply.Terminal?
    ensures !Standing(Step(s, PassTicks(q, SendReturns(reply))), Sent(s, q))
  {
    TerminalTextReadsBack(reply.error);
    assert WritesTo(Step(s, PassTicks(q, SendReturns(reply))), q, Sent(s, q).key);
  }

  /**
   In every play, what a call does to the pass: a done operation is about to be deleted, a pending scan is
   passed over and left as it is, one given up is about to be quarantined, and after anything else the
   pass is about to note the failure and stop.
   */
  lemma CallDecides(acts: seq<Act>, q: nat, call: Call)
    requires InCall(Play(acts).client, q)
    ensures var w, w' := Play(acts), Play(acts + [Calls(q, call)]);
            && q in w'.client.passes && w'.client.table == w.client.table
            && DecidedAs(w, q, call, w'.client.passes[q].stage)
  {
    OneActMore(acts, Calls(q, call));
    CallDecidesIn(Play(acts), q, call);
  }

  ghost predicate DecidedAs(w: World, q: nat, call: Call, stage: Stage)
    requires InCall(w.client, q)
  {
    var c, r := w.client.passes[q].stage.c, Sent(w.client, q);
    if Acknowledges(w.server, r, call) then stage == Writing(c, Erase, false, true)
    else if Pends(w.server, r, call) then stage == Advance(w.client.active, r.key.owner, c.rows, c.fates + [Waiting])
    else if GivesUp(w.server, r, call) then
      exists error :: stage == Writing(c, Mark(CurrentRow(c).attempts + 1, TerminalText(error)), false, true)
    else
      exists error :: stage == Writing(c, Mark(CurrentRow(c).attempts + 1, RetryableText(error)), true, true)
  }

  lemma CallDecidesIn(w: World, q: nat, call: Call)
    requires InCall(w.client, q)
    ensures var w' := Move(w, Calls(q, call));
            q in w'.client.passes && w'.client.table == w.client.table
                && DecidedAs(w, q, call, w'.client.passes[q].stage)
  {
    AnswerIff(w.server, Sent(w.client, q), call);
    CallsAreNeverBlocked(w.server, Sent(w.client, q), call);
    ReplyDecides(w.client, q, Exchange(w.server, Sent(w.client, q), call).1);
  }

  lemma ReplyDecides(s: State, q: nat, reply: Reply)
    requires InCall(s, q) && CanReply(Sent(s, q).kind, reply) && !reply.Thrown?
    ensures var s' := Step(s, PassTicks(q, SendReturns(reply)));
            var c := s.passes[q].stage.c;
            && s'.table == s.table && q in s'.passes
            && match reply
               case Pending => s'.passes[q].stage == Advance(s.active, s.passes[q].owner, c.rows, c.fates + [Waiting])
               case Terminal(error) =>
                 s'.passes[q].stage == Writing(c, Mark(CurrentRow(c).attempts + 1, TerminalText(error)), false, true)
               case Retryable(error) =>
                 s'.passes[q].stage == Writing(c, Mark(CurrentRow(c).attempts + 1, RetryableText(error)), true, true)
               case _ => s'.passes[q].stage == Writing(c, Erase, false, true)
  {
  }

  /** A call for the operation fails transiently, or finds and leaves an activation's own token stored. */
  ghost predicate Sheltered(w: World, act: Act, r: Request)
  {
    && (act.Client? ==> DeviceWorks(w.client, act.ev, r))
    && (CallsFor(w, act, r) ==> FailsTransiently(w.server, r, act.call) || OwnTokenStays(w.server, r, act.call))
  }

  /**
   Over every play: an operation of any kind whose calls fail transiently, and an activation whose own
   token is stored around each of its calls, is never given up, from before it was queued on.
   */
  lemma FaultsAndOwnTokensKeepIt(acts: seq<Act>, n: nat, r: Request)
    requires n <= |acts| && r.key !in Play(acts[..n]).client.table && AllSheltered(acts, n, r)
    ensures Standing(Play(acts).client, r)
  {
    PlaysAreOk(acts[..n]);
    AbsentStands(Play(acts[..n]).client, r);
    ShelteredAreSpared(acts, n, r);
    OperationIsNotGivenUp(acts, n, r);
  }

  ghost predicate AllSheltered(acts: seq<Act>, n: nat, r: Request)
  {
    forall i | n <= i < |acts| :: Sheltered(Play(acts[..i]), acts[i], r)
  }

  /** From act n on, every act spares the operation. */
  ghost predicate AllSpared(acts: seq<Act>, n: nat, r: Request)
  {
    forall i | n <= i < |acts| :: Spares(Play(acts[..i]), acts[i], r)
  }

  lemma ShelteredAreSpared(acts: seq<Act>, n: nat, r: Request)
    requires AllSheltered(acts, n, r)
    ensures AllSpared(acts, n, r)
  {
    forall i | n <= i < |acts| ensures Spares(Play(acts[..i]), acts[i], r) {
      ShelteredIsSpared(Play(acts[..i]), acts[i], r);
    }
  }

  lemma ShelteredIsSpared(w: World, act: Act, r: Request)
    requires Sheltered(w, act, r)
    ensures Spares(w, act, r)
  {
    if CallsFor(w, act, r) { FaultsAndOwnTokensSpare(w.server, r, act.call); }
  }

  /**
   In every play: once the activation's own token is stored, the first call whose post is answered,
   by success or by 409, and whose read-back gets through orders the deletion of the row, and the
   write that follows takes that row and no other out of the queue.
   */
  lemma OwnTokenIsAcknowledged(acts: seq<Act>, q: nat, call: Call)
    requires InCall(Play(acts).client, q) && Sent(Play(acts).client, q).kind.SessionActivation?
    requires call.read.Delivered? && (call.post.Delivered? || IsConflict(call.post.failure))
    requires OwnTokenStored(Play(acts).server, Sent(Play(acts).client, q).payload)
    requires OwnTokenStored(Exchange(Play(acts).server, Sent(Play(acts).client, q), call).0,
                            Sent(Play(acts).client, q).payload)
    ensures var w := Play(acts);
            var k, w' := Sent(w.client, q).key, Play(acts + [Calls(q, call)]);
            && Deleting(w'.client, q, k)
            && k in w.client.table
            && Step(w'.client, PassTicks(q, WriteLands)).table == w.client.table - {k}
  {
    PlaysAreOk(acts);
    SentIsLegit(Play(acts), q, LooseKeys(acts));
    OwnTokenIsRecognised(Play(acts).server, Sent(Play(acts).client, q), call);
    DoneReplyDeletes(Play(acts).client, q, Exchange(Play(acts).server, Sent(Play(acts).client, q), call).1);
    OneActMore(acts, Calls(q, call));
  }

  lemma DoneReplyDeletes(s: State, q: nat, reply: Reply)
    requires InCall(s, q) && (reply.Synced? || reply.Void?)
    ensures var s' := Step(s, PassTicks(q, SendReturns(reply)));
            var k := Sent(s, q).key;
            Deleting(s', q, k) && Step(s', PassTicks(q, WriteLands)).table == s.table - {k}
  {
  }

  lemma OwnTokenIsRecognised(sv: Server, r: Request, call: Call)
    requires r.kind.SessionActivation? && OwnTokenStored(sv, r.payload)
    requires OwnTokenStored(Exchange(sv, r, call).0, r.payload)
    requires call.read.Delivered? && (call.post.Delivered? || IsConflict(call.post.failure))
    ensures Exchange(sv, r, call).1.Synced? || Exchange(sv, r, call).1.Void?
  {
    var a := Seens(sv, Exchange(sv, r, call).0, r, call);
    ActivationDoneIff(r.payload, a.session, a.reread);
  }
}
