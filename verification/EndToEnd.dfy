/**
 The queue machine composed with a server. Requests and replies are lost, refused or delivered late
 and more than once; the server queues, processes and expires batches when it likes; other devices
 change sessions. The server promises four things:
 - it applies no request whose idempotency token it has applied before (the student and the client
   attempt id of a scan, the operation-id header of anything else);
 - it reports success, or a recorded scan, only once the request has been applied;
 - an accepted activation leaves its token in its slot, unless the in-person window has already run
   out: then the session ends without a token;
 - sessions do not disappear.
 */
module EndToEnd {
  import opened Wrappers
  import opened QueueTable
  import opened DrainPass
  import opened SyncMachine
  import opened SendCallback

  /** One row's operation as it goes over the wire; the key is carried to tell whose effect it is. */
  datatype Request = Request(key: Key, kind: Kind, payload: Payload)

  datatype Token = AttemptOf(owner: string, attemptId: string) | Header(key: Key)

  /** A batch POST has no header, so a scan is recognised by its attempt id or not at all. */
  function TokenOf(r: Request): Option<Token>
  {
    if !r.kind.AttendanceScan? then Some(Header(r.key))
    else if r.payload.attemptId != "" then Some(AttemptOf(r.key.owner, r.payload.attemptId))
    else None
  }

  datatype Job = Accepted | Done(result: ScanResult)

  type Stored = (string, Checkpoint, string)

  /** Applied requests in order, batches by receipt, sessions, tokens ever stored, and requests still on their way. */
  datatype Server = Server(
    effects: seq<Request>, jobs: map<Request, Job>, sessions: map<string, Session>, stored: set<Stored>,
    wire: set<Request>)

  const EMPTY := Server([], map[], map[], {}, {})

  const FRESH := Session("", "", "", false)
  /** Ending a session clears its tokens. */
  const ENDED := Session("", "", "", true)

  datatype Ruling = Accepts | Declines(error: string, retryable: Option<bool>)

  /** The server's free choices about one request. */
  datatype Choice = Choice(ruling: Ruling, viaQueue: bool, replays: bool, lapses: bool)

  /** A request that fails may have reached the server or not, now or later; the client sees the failure. */
  datatype Delivery = Delivered | RequestLost(failure: Failure) | ReplyLost(failure: Failure)

  datatype RemoteEvent =
    | WorkerRuns(receipt: Request, ruling: Ruling)
    | ReceiptExpires(receipt: Request)
    | Arrives(request: Request, choice: Choice)
    | SessionAppears(sessionId: string)
    | OtherDeviceActivates(sessionId: string, checkpoint: Checkpoint, token: string)
    | OtherDeviceEnds(sessionId: string)

  /** One call of the callback: both requests' deliveries, the server's choice, and what happens between. */
  datatype Call = Call(post: Delivery, choice: Choice, between: seq<RemoteEvent>, read: Delivery)

  // ---------------------------------------------------------------- server

  predicate Known(sv: Server, r: Request)
  {
    TokenOf(r).Some? && exists i :: 0 <= i < |sv.effects| && TokenOf(sv.effects[i]) == TokenOf(r)
  }

  function Applied(sv: Server, r: Request): Server
  {
    if Known(sv, r) then sv else sv.(effects := sv.effects + [r])
  }

  function JudgeScan(sv: Server, r: Request, ruling: Ruling): (Server, ScanResult)
  {
    match ruling
    case Accepts => (Applied(sv, r), Recorded)
    case Declines(error, retryable) => (sv, Rejected(error, retryable))
  }

  function PostBatch(sv: Server, r: Request, choice: Choice): (Server, Batch)
  {
    if choice.viaQueue then
      (sv.(jobs := if r in sv.jobs then sv.jobs else sv.jobs[r := Accepted]), Queued(r.key.id))
    else
      var (sv', result) := JudgeScan(sv, r, choice.ruling);
      (sv', Processed([result]))
  }

  function ReadStatus(sv: Server, r: Request): Http<Status>
  {
    Replied(if r in sv.jobs && sv.jobs[r].Done? then Completed([sv.jobs[r].result]) else Unfinished)
  }

  function PostCheck(sv: Server, r: Request, ruling: Ruling): (Server, Check)
  {
    var (sv', result) := JudgeScan(sv, r, ruling);
    (sv', if result.Recorded? then Check(true, "", "") else Check(false, result.error, ""))
  }

  function WithToken(s: Session, checkpoint: Checkpoint, token: string): Session
  {
    match checkpoint
    case EndCheckpoint => s.(endToken := token)
    case StartCheckpoint => s.(startToken := token)
    case NoCheckpoint => s.(qrToken := token)
  }

  function StoreToken(sv: Server, sessionId: string, checkpoint: Checkpoint, token: string): Server
    requires sessionId in sv.sessions
  {
    sv.(sessions := sv.sessions[sessionId := WithToken(sv.sessions[sessionId], checkpoint, token)],
        stored := sv.stored + {(sessionId, checkpoint, token)})
  }

  function EndSession(sv: Server, sessionId: string): Server
  {
    sv.(sessions := sv.sessions[sessionId := ENDED])
  }

  const NOT_FOUND := ApiError(404, "", "Not found")
  const CONFLICT := ApiError(409, "", "Conflict")

  /** A session operation applied before is answered from the stored reply, or with a 409 if that reply is gone. */
  function Again(replays: bool): Http<()>
  {
    if replays then Replied(()) else Raised(CONFLICT)
  }

  function PostActivation(sv: Server, r: Request, choice: Choice): (Server, Http<()>)
  {
    var p := r.payload;
    if Known(sv, r) then (sv, Again(choice.replays))
    else if p.sessionId !in sv.sessions then (sv, Raised(NOT_FOUND))
    else
      var s := sv.sessions[p.sessionId];
      if p.token == "" || s.ended || (Slot(s, p.checkpoint) != "" && !p.regenerate) then (sv, Raised(CONFLICT))
      else if choice.lapses && p.checkpoint.NoCheckpoint? then (Applied(EndSession(sv, p.sessionId), r), Replied(()))
      else (Applied(StoreToken(sv, p.sessionId, p.checkpoint, p.token), r), Replied(()))
  }

  function PostEnd(sv: Server, r: Request, choice: Choice): (Server, Http<()>)
  {
    var id := r.payload.sessionId;
    if Known(sv, r) then (sv, Again(choice.replays))
    else if id !in sv.sessions then (sv, Raised(NOT_FOUND))
    else if sv.sessions[id].ended then (sv, Raised(CONFLICT))
    else (Applied(EndSession(sv, id), r), Replied(()))
  }

  function ReadSession(sv: Server, sessionId: string): Http<Session>
  {
    if sessionId in sv.sessions then Replied(sv.sessions[sessionId]) else Raised(NOT_FOUND)
  }

  /** The server handles the request that starts a call. */
  function Handle(sv: Server, r: Request, choice: Choice): (Server, Answers)
  {
    var none := Answers(Raised(NOT_FOUND), Raised(NOT_FOUND), Raised(NOT_FOUND), Raised(NOT_FOUND), Raised(NOT_FOUND));
    match r.kind
    case AttendanceScan =>
      var (sv', batch) := PostBatch(sv, r, choice);
      (sv', none.(batch := Replied(batch)))
    case ScanAttempt =>
      var (sv', check) := PostCheck(sv, r, choice.ruling);
      (sv', none.(check := Replied(check)))
    case SessionActivation =>
      var (sv', reply) := PostActivation(sv, r, choice);
      (sv', none.(session := reply))
    case SessionEnd =>
      var (sv', reply) := PostEnd(sv, r, choice);
      (sv', none.(session := reply))
    case OtherKind(_) => (sv, none)
  }

  function Remote(sv: Server, ev: RemoteEvent): Server
  {
    match ev
    case WorkerRuns(r, ruling) =>
      if r in sv.jobs && sv.jobs[r].Accepted? then
        var (sv', result) := JudgeScan(sv, r, ruling);
        sv'.(jobs := sv'.jobs[r := Done(result)])
      else sv
    case ReceiptExpires(r) => sv.(jobs := sv.jobs - {r})
    case Arrives(r, choice) => if r in sv.wire then Handle(sv, r, choice).0 else sv
    case SessionAppears(id) => if id in sv.sessions then sv else sv.(sessions := sv.sessions[id := FRESH])
    case OtherDeviceActivates(id, checkpoint, token) =>
      if id in sv.sessions then StoreToken(sv, id, checkpoint, token) else sv
    case OtherDeviceEnds(id) => if id in sv.sessions then EndSession(sv, id) else sv
  }

  function Remotes(sv: Server, evs: seq<RemoteEvent>): Server
    decreases evs
  {
    if evs == [] then sv else Remotes(Remote(sv, evs[0]), evs[1..])
  }

  function Seen<T>(delivery: Delivery, reply: Http<T>): Http<T>
  {
    if delivery.Delivered? then reply else Raised(delivery.failure)
  }

  /** The server once the first request is delivered, or is on its way to arrive late. */
  function Posted(sv: Server, r: Request, call: Call): Server
  {
    if call.post.RequestLost? then sv.(wire := sv.wire + {r}) else Handle(sv, r, call.choice).0
  }

  function Seens(sv: Server, sv': Server, r: Request, call: Call): Answers
  {
    var raw := Handle(sv, r, call.choice).1;
    Answers(Seen(call.post, raw.batch), Seen(call.read, ReadStatus(sv', r)), Seen(call.post, raw.check),
            Seen(call.post, raw.session), Seen(call.read, ReadSession(sv', r.payload.sessionId)))
  }

  /** A whole call: post, other activity, read, answer. */
  function Exchange(sv: Server, r: Request, call: Call): (Server, Reply)
  {
    var sv' := Remotes(Posted(sv, r, call), call.between);
    (sv', Send(r.kind, r.payload, Seens(sv, sv', r, call)))
  }

  // ---------------------------------------------------------------- the composed machine

  datatype World = World(client: State, server: Server)

  datatype Act = Client(ev: Event) | Calls(p: nat, call: Call) | Elsewhere(remote: RemoteEvent)

  predicate IsReply(ev: Event)
  {
    ev.PassTicks? && ev.tick.SendReturns?
  }

  /** Replies come from exchanges only; everything else the client does is as in the queue machine. */
  ghost function Move(w: World, act: Act): World
  {
    match act
    case Client(ev) => if IsReply(ev) then w else w.(client := Step(w.client, ev))
    case Calls(p, call) =>
      if InCall(w.client, p) then
        var (sv, reply) := Exchange(w.server, Sent(w.client, p), call);
        World(Step(w.client, PassTicks(p, SendReturns(reply))), sv)
      else w
    case Elsewhere(ev) => w.(server := Remote(w.server, ev))
  }

  ghost predicate InCall(s: State, p: nat)
  {
    p in s.passes && s.passes[p].stage.Sending? && CurrentRow(s.passes[p].stage.c).evidence.Readable?
  }

  /** The request that pass p is making. */
  ghost function Sent(s: State, p: nat): Request
    requires InCall(s, p)
  {
    var r := CurrentRow(s.passes[p].stage.c);
    Request(Key(s.passes[p].owner, r.id), r.kind, r.evidence.payload)
  }

  ghost function Play(acts: seq<Act>): World
  {
    if acts == [] then World(INIT, EMPTY) else Move(Play(acts[..|acts| - 1]), acts[|acts| - 1])
  }

  /** The client event that an act amounts to, if any. */
  ghost function EventOf(w: World, act: Act): Option<Event>
  {
    match act
    case Client(ev) => if IsReply(ev) then None else Some(ev)
    case Calls(p, call) =>
      if InCall(w.client, p) then Some(PassTicks(p, SendReturns(Exchange(w.server, Sent(w.client, p), call).1)))
      else None
    case Elsewhere(_) => None
  }

  /** The client's part of a play as a run of the queue machine. */
  ghost function Projected(acts: seq<Act>): seq<Event>
  {
    if acts == [] then []
    else
      var before := acts[..|acts| - 1];
      var ev := EventOf(Play(before), acts[|acts| - 1]);
      if ev.Some? then Projected(before) + [ev.value] else Projected(before)
  }

  lemma MoveIsStep(w: World, act: Act)
    ensures Move(w, act).client == if EventOf(w, act).Some? then Step(w.client, EventOf(w, act).value) else w.client
  {
  }

  /** So every law of the queue machine holds of every play. */
  lemma {:induction false} PlaysAreRuns(acts: seq<Act>)
    ensures Play(acts).client == Run(INIT, Projected(acts))
    ensures Inv(Play(acts).client)
  {
    if acts == [] {
    } else {
      var before, act := acts[..|acts| - 1], acts[|acts| - 1];
      PlaysAreRuns(before);
      MoveIsStep(Play(before), act);
      var ev := EventOf(Play(before), act);
      if ev.Some? { RunOneMore(Projected(before), ev.value); }
    }
    RunKeepsInv(INIT, Projected(acts));
  }

  lemma RunOneMore(evs: seq<Event>, ev: Event)
    ensures Run(INIT, evs + [ev]) == Step(Run(INIT, evs), ev)
  {
    assert (evs + [ev])[..|evs + [ev]| - 1] == evs;
  }

  /** The machine's restriction on "pending" never blocks a real reply, and the callback never throws. */
  lemma CallsAreNeverBlocked(sv: Server, r: Request, call: Call)
    ensures CanReply(r.kind, Exchange(sv, r, call).1)
    ensures !Exchange(sv, r, call).1.Thrown?
  {
    var sv' := Remotes(Posted(sv, r, call), call.between);
    OnlyScansPend(r.kind, r.payload, Seens(sv, sv', r, call));
  }

  // ---------------------------------------------------------------- evidence

  predicate HasEffect(sv: Server, k: Key)
  {
    exists i :: 0 <= i < |sv.effects| && sv.effects[i].key == k
  }

  /** The server holds the operation's effect: it applied it, or stored its token, or the session has ended. */
  predicate Holds(sv: Server, r: Request)
  {
    || HasEffect(sv, r.key)
    || (r.kind.SessionActivation? && r.payload.token != ""
        && (r.payload.sessionId, r.payload.checkpoint, r.payload.token) in sv.stored)
    || (r.kind.SessionEnd? && r.payload.sessionId in sv.sessions && sv.sessions[r.payload.sessionId].ended)
  }

  /** The request carries the id its row was queued under; `loose` are the ids of scans queued without an attempt id. */
  ghost predicate Legit(r: Request, loose: set<Key>)
  {
    && Named(r.key.id, r.kind, Readable(r.payload))
    && (TokenOf(r).None? ==> r.key in loose)
  }

  /** Requests of one row carry one token, and requests of different rows carry different ones. */
  lemma TokensAreRows(a: Request, b: Request, loose: set<Key>)
    requires Legit(a, loose) && Legit(b, loose) && !a.kind.OtherKind? && !b.kind.OtherKind?
    ensures TokenOf(a).Some? && TokenOf(a) == TokenOf(b) ==> a.key == b.key
    ensures a.key == b.key && a.key !in loose ==> TokenOf(a) == TokenOf(b)
  {
    if a.key == b.key { NamesTellTheAttempt(a.key.id, a.kind, a.payload, b.kind, b.payload); }
    if a.kind.AttendanceScan? && TokenOf(a).Some? && TokenOf(a) == TokenOf(b) {
      var ra :| a.key.id == OperationId(a.kind, a.payload.attemptId, ra);
      var rb :| b.key.id == OperationId(b.kind, b.payload.attemptId, rb);
      assert a.key.id == b.key.id;
    }
  }

  ghost predicate EffectsSound(sv: Server, loose: set<Key>)
  {
    && (forall i | 0 <= i < |sv.effects| :: Legit(sv.effects[i], loose) && !sv.effects[i].kind.OtherKind?)
    && (forall i, j | 0 <= i < j < |sv.effects| ::
          TokenOf(sv.effects[i]).None? || TokenOf(sv.effects[i]) != TokenOf(sv.effects[j]))
  }

  ghost predicate RequestsSound(sv: Server, loose: set<Key>)
  {
    && (forall r | r in sv.wire :: Legit(r, loose))
    && (forall r | r in sv.jobs :: Legit(r, loose) && r.kind.AttendanceScan?)
    && (forall r | r in sv.jobs && sv.jobs[r] == Done(Recorded) :: HasEffect(sv, r.key))
  }

  ghost predicate SlotsSound(sv: Server)
  {
    forall id, cp | id in sv.sessions && Slot(sv.sessions[id], cp) != "" ::
      (id, cp, Slot(sv.sessions[id], cp)) in sv.stored
  }

  ghost predicate Sound(sv: Server, loose: set<Key>)
  {
    EffectsSound(sv, loose) && RequestsSound(sv, loose) && SlotsSound(sv)
  }

  /** What a server never takes back. */
  ghost predicate Grows(a: Server, b: Server)
  {
    && a.effects <= b.effects && a.stored <= b.stored
    && (forall id | id in a.sessions :: id in b.sessions)
    && (forall id | id in a.sessions && a.sessions[id].ended :: b.sessions[id].ended)
  }

  lemma GrowsKeepsEffects(a: Server, b: Server, k: Key)
    requires a.effects <= b.effects && HasEffect(a, k)
    ensures HasEffect(b, k)
  {
    var i :| 0 <= i < |a.effects| && a.effects[i].key == k;
    assert b.effects[i].key == k;
  }

  lemma GrowsKeepsHolds(a: Server, b: Server, r: Request)
    requires Grows(a, b) && Holds(a, r)
    ensures Holds(b, r)
  {
    if HasEffect(a, r.key) { GrowsKeepsEffects(a, b, r.key); }
  }

  /** Applying a request leaves its row with an effect, whether this request or an earlier one of the row had it. */
  lemma AppliedIsSound(sv: Server, r: Request, loose: set<Key>)
    requires EffectsSound(sv, loose) && Legit(r, loose) && !r.kind.OtherKind?
    ensures EffectsSound(Applied(sv, r), loose) && sv.effects <= Applied(sv, r).effects
    ensures HasEffect(Applied(sv, r), r.key)
  {
    var sv' := Applied(sv, r);
    if Known(sv, r) {
      KnownHasEffect(sv, r, loose);
    } else {
      assert sv'.effects[|sv.effects|].key == r.key;
    }
  }

  lemma KnownHasEffect(sv: Server, r: Request, loose: set<Key>)
    requires EffectsSound(sv, loose) && Legit(r, loose) && !r.kind.OtherKind? && Known(sv, r)
    ensures HasEffect(sv, r.key)
  {
    var i :| 0 <= i < |sv.effects| && TokenOf(sv.effects[i]) == TokenOf(r);
    TokensAreRows(sv.effects[i], r, loose);
  }

  /** A change of the effects alone, forward, keeps everything else sound. */
  lemma MoreEffects(sv: Server, sv': Server, loose: set<Key>)
    requires Sound(sv, loose) && EffectsSound(sv', loose) && sv.effects <= sv'.effects
    requires sv' == sv.(effects := sv'.effects)
    ensures Sound(sv', loose) && Grows(sv, sv')
  {
    forall r | r in sv'.jobs && sv'.jobs[r] == Done(Recorded) ensures HasEffect(sv', r.key) {
      GrowsKeepsEffects(sv, sv', r.key);
    }
  }

  lemma JudgeScanIsSound(sv: Server, r: Request, ruling: Ruling, loose: set<Key>)
    requires Sound(sv, loose) && Legit(r, loose) && !r.kind.OtherKind?
    ensures var (sv', result) := JudgeScan(sv, r, ruling);
            && Sound(sv', loose) && Grows(sv, sv') && sv'.jobs == sv.jobs
            && (result.Recorded? ==> HasEffect(sv', r.key))
  {
    AppliedIsSound(sv, r, loose);
    MoreEffects(sv, Applied(sv, r), loose);
  }

  lemma StoreTokenIsSound(sv: Server, id: string, checkpoint: Checkpoint, token: string, loose: set<Key>)
    requires Sound(sv, loose) && id in sv.sessions
    ensures Sound(StoreToken(sv, id, checkpoint, token), loose) && Grows(sv, StoreToken(sv, id, checkpoint, token))
  {
    var sv' := StoreToken(sv, id, checkpoint, token);
    forall x, cp | x in sv'.sessions && Slot(sv'.sessions[x], cp) != ""
      ensures (x, cp, Slot(sv'.sessions[x], cp)) in sv'.stored
    {
      assert Slot(sv'.sessions[x], cp) == if x == id && cp == checkpoint then token else Slot(sv.sessions[x], cp);
    }
    assert forall k :: HasEffect(sv', k) == HasEffect(sv, k);
  }

  lemma EndSessionIsSound(sv: Server, id: string, loose: set<Key>)
    requires Sound(sv, loose)
    ensures Sound(EndSession(sv, id), loose) && Grows(sv, EndSession(sv, id))
  {
    var sv' := EndSession(sv, id);
    assert forall cp :: Slot(ENDED, cp) == "";
    assert forall k :: HasEffect(sv', k) == HasEffect(sv, k);
  }

  lemma PostActivationIsSound(sv: Server, r: Request, choice: Choice, loose: set<Key>)
    requires Sound(sv, loose) && Legit(r, loose) && r.kind.SessionActivation?
    ensures var (sv', reply) := PostActivation(sv, r, choice);
            Sound(sv', loose) && Grows(sv, sv') && (reply.Replied? ==> HasEffect(sv', r.key))
  {
    var p := r.payload;
    if Known(sv, r) {
      KnownHasEffect(sv, r, loose);
    } else if p.sessionId in sv.sessions {
      StoreTokenIsSound(sv, p.sessionId, p.checkpoint, p.token, loose);
      ThenApplied(sv, StoreToken(sv, p.sessionId, p.checkpoint, p.token), r, loose);
      EndSessionIsSound(sv, p.sessionId, loose);
      ThenApplied(sv, EndSession(sv, p.sessionId), r, loose);
    }
  }

  lemma ThenApplied(sv: Server, sv1: Server, r: Request, loose: set<Key>)
    requires Grows(sv, sv1) && Sound(sv1, loose) && Legit(r, loose) && !r.kind.OtherKind?
    ensures Sound(Applied(sv1, r), loose) && Grows(sv, Applied(sv1, r)) && HasEffect(Applied(sv1, r), r.key)
  {
    AppliedIsSound(sv1, r, loose);
    MoreEffects(sv1, Applied(sv1, r), loose);
  }

  lemma PostEndIsSound(sv: Server, r: Request, choice: Choice, loose: set<Key>)
    requires Sound(sv, loose) && Legit(r, loose) && r.kind.SessionEnd?
    ensures var (sv', reply) := PostEnd(sv, r, choice);
            Sound(sv', loose) && Grows(sv, sv') && (reply.Replied? ==> HasEffect(sv', r.key))
  {
    var id := r.payload.sessionId;
    if Known(sv, r) {
      KnownHasEffect(sv, r, loose);
    } else {
      EndSessionIsSound(sv, id, loose);
      ThenApplied(sv, EndSession(sv, id), r, loose);
    }
  }

  lemma PostBatchIsSound(sv: Server, r: Request, choice: Choice, loose: set<Key>)
    requires Sound(sv, loose) && Legit(r, loose) && r.kind.AttendanceScan?
    ensures var (sv', batch) := PostBatch(sv, r, choice);
            Sound(sv', loose) && Grows(sv, sv') && (batch == Processed([Recorded]) ==> HasEffect(sv', r.key))
  {
    JudgeScanIsSound(sv, r, choice.ruling, loose);
    assert choice.viaQueue ==> forall k :: HasEffect(PostBatch(sv, r, choice).0, k) == HasEffect(sv, k);
  }

  /** The success that an answer reports. */
  predicate ReportsSuccess(kind: Kind, a: Answers)
  {
    match kind
    case AttendanceScan => a.batch == Replied(Processed([Recorded]))
    case ScanAttempt => a.check.Replied? && a.check.value.success
    case OtherKind(_) => false
    case _ => a.session.Replied?
  }

  lemma HandleIsSound(sv: Server, r: Request, choice: Choice, loose: set<Key>)
    requires Sound(sv, loose) && Legit(r, loose)
    ensures var (sv', a) := Handle(sv, r, choice);
            Sound(sv', loose) && Grows(sv, sv') && (ReportsSuccess(r.kind, a) ==> HasEffect(sv', r.key))
  {
    match r.kind
    case AttendanceScan => PostBatchIsSound(sv, r, choice, loose);
    case ScanAttempt => JudgeScanIsSound(sv, r, choice.ruling, loose);
    case SessionActivation => PostActivationIsSound(sv, r, choice, loose);
    case SessionEnd => PostEndIsSound(sv, r, choice, loose);
    case OtherKind(_) =>
  }

  lemma RemoteIsSound(sv: Server, ev: RemoteEvent, loose: set<Key>)
    requires Sound(sv, loose)
    ensures Sound(Remote(sv, ev), loose) && Grows(sv, Remote(sv, ev))
  {
    match ev
    case WorkerRuns(r, ruling) =>
      if r in sv.jobs {
        JudgeScanIsSound(sv, r, ruling, loose);
        var sv1 := JudgeScan(sv, r, ruling).0;
        assert forall result, k :: HasEffect(sv1.(jobs := sv1.jobs[r := Done(result)]), k) == HasEffect(sv1, k);
      }
    case ReceiptExpires(r) =>
      assert forall k :: HasEffect(Remote(sv, ev), k) == HasEffect(sv, k);
    case Arrives(r, choice) =>
      if r in sv.wire { HandleIsSound(sv, r, choice, loose); }
    case SessionAppears(id) =>
      assert forall cp :: Slot(FRESH, cp) == "";
      assert forall k :: HasEffect(Remote(sv, ev), k) == HasEffect(sv, k);
    case OtherDeviceActivates(id, checkpoint, token) =>
      if id in sv.sessions { StoreTokenIsSound(sv, id, checkpoint, token, loose); }
    case OtherDeviceEnds(id) =>
      EndSessionIsSound(sv, id, loose);
  }

  lemma {:induction false} RemotesAreSound(sv: Server, evs: seq<RemoteEvent>, loose: set<Key>)
    requires Sound(sv, loose)
    ensures Sound(Remotes(sv, evs), loose) && Grows(sv, Remotes(sv, evs))
    decreases evs
  {
    if evs == [] {
    } else {
      RemoteIsSound(sv, evs[0], loose);
      RemotesAreSound(Remote(sv, evs[0]), evs[1..], loose);
    }
  }

  /** Every exchange leaves a sound server that has lost nothing, and what the post reports is true afterwards. */
  lemma ExchangeIsSound(sv: Server, r: Request, call: Call, loose: set<Key>)
    requires Sound(sv, loose) && Legit(r, loose)
    ensures var sv' := Exchange(sv, r, call).0;
            && Sound(sv', loose) && Grows(sv, sv')
            && (call.post.Delivered? && ReportsSuccess(r.kind, Handle(sv, r, call.choice).1) ==> HasEffect(sv', r.key))
  {
    HandleIsSound(sv, r, call.choice, loose);
    var sv1 := Posted(sv, r, call);
    assert Sound(sv1, loose) && Grows(sv, sv1) by {
      assert call.post.RequestLost? ==> forall k :: HasEffect(sv1, k) == HasEffect(sv, k);
    }
    RemotesAreSound(sv1, call.between, loose);
    if call.post.Delivered? && HasEffect(sv1, r.key) { GrowsKeepsEffects(sv1, Exchange(sv, r, call).0, r.key); }
  }

  /** A reply that deletes the row comes only from a server that holds the effect. */
  lemma AcknowledgedMeansHeld(sv: Server, r: Request, call: Call, loose: set<Key>)
    requires Sound(sv, loose) && Legit(r, loose)
    requires Exchange(sv, r, call).1.Synced? || Exchange(sv, r, call).1.Void?
    ensures Holds(Exchange(sv, r, call).0, r)
  {
    ExchangeIsSound(sv, r, call, loose);
    var sv' := Exchange(sv, r, call).0;
    var a := Seens(sv, sv', r, call);
    match r.kind
    case AttendanceScan =>
      ScanSyncedIff(a.batch, a.status);
      assert call.post.Delivered?;
    case ScanAttempt =>
    case SessionActivation => ActivationDoneIff(r.payload, a.session, a.reread);
    case SessionEnd =>
  }

  /** The request a readable queue row makes. */
  function RequestOf(k: Key, row: Row): Request
    requires row.evidence.Readable?
  {
    Request(k, row.kind, row.evidence.payload)
  }

  ghost predicate RowsLegit(t: Table, loose: set<Key>)
  {
    forall k | k in t && t[k].evidence.Readable? :: Legit(RequestOf(k, t[k]), loose)
  }

  /** Pass p awaits the deletion of an operation whose effect the server holds. */
  ghost predicate DeletionsHeld(w: World)
  {
    forall p | p in w.client.passes && w.client.passes[p].stage.Writing? && w.client.passes[p].stage.write.Erase? ::
      DeletionHeld(w, p)
  }

  ghost predicate DeletionHeld(w: World, p: nat)
    requires p in w.client.passes && w.client.passes[p].stage.Writing?
  {
    var r := CurrentRow(w.client.passes[p].stage.c);
    && r.evidence.Readable?
    && Holds(w.server, Request(Key(w.client.passes[p].owner, r.id), r.kind, r.evidence.payload))
  }

  ghost predicate WorldOk(w: World, loose: set<Key>)
  {
    Inv(w.client) && RowsLegit(w.client.table, loose) && Sound(w.server, loose) && DeletionsHeld(w)
  }

  /** The key of a scan that is queued without a client attempt id, if the event queues one. */
  function LooseOf(ev: Event): set<Key>
  {
    if ev.EnqueueLands? && ev.kind.AttendanceScan? && ev.evidence.Readable? && ev.evidence.payload.attemptId == ""
    then {ev.key} else {}
  }

  function LooseKeys(acts: seq<Act>): set<Key>
  {
    if acts == [] then {}
    else
      var act := acts[|acts| - 1];
      LooseKeys(acts[..|acts| - 1]) + if act.Client? then LooseOf(act.ev) else {}
  }

  lemma SoundWidens(sv: Server, loose: set<Key>, wider: set<Key>)
    requires Sound(sv, loose) && loose <= wider
    ensures Sound(sv, wider)
  {
  }

  lemma StepKeepsRowsLegit(s: State, ev: Event, loose: set<Key>, wider: set<Key>)
    requires RowsLegit(s.table, loose) && loose + LooseOf(ev) <= wider
    ensures RowsLegit(Step(s, ev).table, wider)
  {
    forall k | k in Step(s, ev).table && Step(s, ev).table[k].evidence.Readable?
      ensures Legit(RequestOf(k, Step(s, ev).table[k]), wider)
    {
      if k in s.table { assert Legit(RequestOf(k, s.table[k]), loose); }
    }
  }

  lemma OnlyRepliesOrderDeletions(s: State, ev: Event, p: nat)
    requires Inv(s) && !IsReply(ev) && p in Step(s, ev).passes
    requires Step(s, ev).passes[p].stage.Writing? && Step(s, ev).passes[p].stage.write.Erase?
    ensures p in s.passes && Step(s, ev).passes[p] == s.passes[p]
  {
  }

  lemma EventKeepsDeletionsHeld(w: World, ev: Event)
    requires Inv(w.client) && DeletionsHeld(w) && !IsReply(ev)
    ensures DeletionsHeld(w.(client := Step(w.client, ev)))
  {
    var s' := Step(w.client, ev);
    forall p | p in s'.passes && s'.passes[p].stage.Writing? && s'.passes[p].stage.write.Erase?
      ensures DeletionHeld(w.(client := s'), p)
    {
      OnlyRepliesOrderDeletions(w.client, ev, p);
      assert DeletionHeld(w, p);
    }
  }

  lemma ServerKeepsDeletionsHeld(w: World, sv: Server)
    requires DeletionsHeld(w) && Grows(w.server, sv)
    ensures DeletionsHeld(w.(server := sv))
  {
    forall p | p in w.client.passes && w.client.passes[p].stage.Writing? && w.client.passes[p].stage.write.Erase?
      ensures DeletionHeld(w.(server := sv), p)
    {
      assert DeletionHeld(w, p);
      var r := CurrentRow(w.client.passes[p].stage.c);
      GrowsKeepsHolds(w.server, sv, Request(Key(w.client.passes[p].owner, r.id), r.kind, r.evidence.payload));
    }
  }

  /** The row in a call is still in the table as the snapshot has it. */
  lemma SentIsLegit(w: World, p: nat, loose: set<Key>)
    requires Inv(w.client) && RowsLegit(w.client.table, loose) && InCall(w.client, p)
    ensures Legit(Sent(w.client, p), loose) && Sent(w.client, p).key in w.client.table
    ensures var row := w.client.table[Sent(w.client, p).key];
            row.evidence.Readable? && Selectable(row) && Sent(w.client, p) == RequestOf(Sent(w.client, p).key, row)
  {
    assert PassOk(w.client.table, w.client.passes[p]);
    assert Current(w.client.table, w.client.passes[p].owner, CurrentRow(w.client.passes[p].stage.c));
  }

  lemma CallKeepsWorldOk(w: World, p: nat, call: Call, loose: set<Key>)
    requires WorldOk(w, loose) && InCall(w.client, p)
    ensures WorldOk(Move(w, Calls(p, call)), loose) && Grows(w.server, Move(w, Calls(p, call)).server)
  {
    var r := Sent(w.client, p);
    SentIsLegit(w, p, loose);
    ExchangeIsSound(w.server, r, call, loose);
    var (sv, reply) := Exchange(w.server, r, call);
    StepKeepsInv(w.client, PassTicks(p, SendReturns(reply)));
    StepKeepsRowsLegit(w.client, PassTicks(p, SendReturns(reply)), loose, loose);
    if reply.Synced? || reply.Void? { AcknowledgedMeansHeld(w.server, r, call, loose); }
    ReplyKeepsDeletionsHeld(w, p, sv, reply);
  }

  lemma ReplyKeepsDeletionsHeld(w: World, p: nat, sv: Server, reply: Reply)
    requires Inv(w.client) && InCall(w.client, p)
    requires reply.Synced? || reply.Void? ==> Holds(sv, Sent(w.client, p))
    ensures DeletionsHeld(World(Step(w.client, PassTicks(p, SendReturns(reply))), sv))
  {
    var s' := Step(w.client, PassTicks(p, SendReturns(reply)));
    forall q | q in s'.passes && s'.passes[q].stage.Writing? && s'.passes[q].stage.write.Erase?
      ensures DeletionHeld(World(s', sv), q)
    {
      assert q in w.client.passes;
      assert w.client.drainPromise == Some(q) && w.client.drainPromise == Some(p);
    }
  }

  lemma MoveKeepsWorldOk(w: World, act: Act, loose: set<Key>, wider: set<Key>)
    requires WorldOk(w, loose) && loose <= wider && (act.Client? ==> LooseOf(act.ev) <= wider)
    ensures WorldOk(Move(w, act), wider) && Grows(w.server, Move(w, act).server)
  {
    SoundWidens(w.server, loose, wider);
    StepKeepsRowsLegit(w.client, ProcessRestarts, loose, wider);
    match act
    case Client(ev) =>
      if !IsReply(ev) {
        StepKeepsInv(w.client, ev);
        StepKeepsRowsLegit(w.client, ev, loose, wider);
        EventKeepsDeletionsHeld(w, ev);
      }
    case Calls(p, call) =>
      if InCall(w.client, p) { CallKeepsWorldOk(w, p, call, wider); }
    case Elsewhere(ev) =>
      RemoteIsSound(w.server, ev, wider);
      ServerKeepsDeletionsHeld(w, Remote(w.server, ev));
  }

  lemma {:induction false} PlaysAreOk(acts: seq<Act>)
    ensures WorldOk(Play(acts), LooseKeys(acts))
  {
    if acts == [] {
    } else {
      var before := acts[..|acts| - 1];
      PlaysAreOk(before);
      MoveKeepsWorldOk(Play(before), acts[|acts| - 1], LooseKeys(before), LooseKeys(acts));
    }
  }

  // ---------------------------------------------------------------- nothing is lost, nothing happens twice

  /** The operation is still queued unchanged, or the server holds its effect. */
  ghost predicate QueuedOrHeld(w: World, k: Key, row: Row)
  {
    || (k in w.client.table && SameOperation(w.client.table[k], row))
    || (row.evidence.Readable? && Holds(w.server, RequestOf(k, row)))
  }

  lemma MoveKeepsQueuedOrHeld(w: World, act: Act, k: Key, row: Row, loose: set<Key>)
    requires WorldOk(w, loose) && QueuedOrHeld(w, k, row) && Grows(w.server, Move(w, act).server)
    ensures QueuedOrHeld(Move(w, act), k, row)
  {
    MoveIsStep(w, act);
    if row.evidence.Readable? && Holds(w.server, RequestOf(k, row)) {
      GrowsKeepsHolds(w.server, Move(w, act).server, RequestOf(k, row));
    } else if EventOf(w, act).Some? {
      StepConserves(w.client, EventOf(w, act).value, k);
      if k !in Move(w, act).client.table { DeletedWasHeld(w, EventOf(w, act).value, k, row); }
    }
  }

  lemma DeletedWasHeld(w: World, ev: Event, k: Key, row: Row)
    requires Inv(w.client) && DeletionsHeld(w)
    requires k in w.client.table && SameOperation(w.client.table[k], row) && k !in Step(w.client, ev).table
    ensures row.evidence.Readable? && Holds(w.server, RequestOf(k, row))
  {
    StepConserves(w.client, ev, k);
    var p :| ev == PassTicks(p, WriteLands) && Deleting(w.client, p, k);
    assert DeletionHeld(w, p);
    assert Current(w.client.table, w.client.passes[p].owner, CurrentRow(w.client.passes[p].stage.c));
  }

  /**
   Nothing is lost: whatever requests and replies disappear or arrive late, and however many passes
   run, an operation that was ever queued is still queued with its original evidence, or the server
   holds its effect.
   */
  lemma {:induction false} DeletedMeansHeld(acts: seq<Act>, n: nat, k: Key)
    requires n <= |acts| && k in Play(acts[..n]).client.table
    ensures QueuedOrHeld(Play(acts), k, Play(acts[..n]).client.table[k])
  {
    if n == |acts| {
      assert acts[..n] == acts;
    } else {
      var before, act := acts[..|acts| - 1], acts[|acts| - 1];
      assert before[..n] == acts[..n];
      DeletedMeansHeld(before, n, k);
      PlaysAreOk(before);
      MoveKeepsWorldOk(Play(before), act, LooseKeys(before), LooseKeys(acts));
      MoveKeepsQueuedOrHeld(Play(before), act, k, Play(acts[..n]).client.table[k], LooseKeys(before));
    }
  }

  /** How often the server applied an operation of this row. */
  function Times(effects: seq<Request>, k: Key): nat
  {
    if effects == [] then 0
    else Times(effects[..|effects| - 1], k) + if effects[|effects| - 1].key == k then 1 else 0
  }

  lemma {:induction false} TimesCounts(effects: seq<Request>, k: Key)
    ensures Times(effects, k) >= 1 <==> exists i :: 0 <= i < |effects| && effects[i].key == k
    ensures Times(effects, k) <= 1 <==>
            forall i, j | 0 <= i < j < |effects| :: !(effects[i].key == k && effects[j].key == k)
  {
    if effects == [] {
    } else {
      var n := |effects| - 1;
      TimesCounts(effects[..n], k);
      if effects[n].key == k {
        assert Times(effects, k) <= 1 <==> Times(effects[..n], k) == 0;
      } else {
        assert Times(effects, k) == Times(effects[..n], k);
      }
      OneLonger(effects, k);
    }
  }

  lemma OneLonger(effects: seq<Request>, k: Key)
    requires effects != []
    ensures var n := |effects| - 1;
            (exists i :: 0 <= i < |effects| && effects[i].key == k) <==>
            (effects[n].key == k || exists i :: 0 <= i < n && effects[..n][i].key == k)
  {
    var n := |effects| - 1;
    if i :| 0 <= i < |effects| && effects[i].key == k && i != n { assert effects[..n][i].key == k; }
    if i :| 0 <= i < n && effects[..n][i].key == k { assert effects[i].key == k; }
  }

  /**
   Exactly once. The server recognises scans by the attempt id and everything else by the id in the
   header; rows carry both in their own id, so no row takes effect twice, unless it was queued as a
   scan without an attempt id. A scan or an attempt that has left the queue has taken effect.
   */
  lemma ExactlyOnce(acts: seq<Act>, n: nat, k: Key)
    requires n <= |acts| && k in Play(acts[..n]).client.table
    ensures k !in LooseKeys(acts) ==> Times(Play(acts).server.effects, k) <= 1
    ensures var row := Play(acts[..n]).client.table[k];
            k !in Play(acts).client.table && (row.kind.AttendanceScan? || row.kind.ScanAttempt?) ==>
              Times(Play(acts).server.effects, k) >= 1
  {
    PlaysAreOk(acts);
    var effects := Play(acts).server.effects;
    TimesCounts(effects, k);
    DeletedMeansHeld(acts, n, k);
    if k !in LooseKeys(acts) {
      forall i, j | 0 <= i < j < |effects| ensures !(effects[i].key == k && effects[j].key == k) {
        if effects[i].key == k && effects[j].key == k { TokensAreRows(effects[i], effects[j], LooseKeys(acts)); }
      }
    }
  }

  /** No effect serves two rows: of two rows that have left the queue each has an effect, under its own token. */
  lemma EffectsAreNotShared(acts: seq<Act>, n: nat, k: Key, m: nat, l: Key) returns (i: nat, j: nat)
    requires n <= |acts| && k in Play(acts[..n]).client.table && k !in Play(acts).client.table
    requires m <= |acts| && l in Play(acts[..m]).client.table && l !in Play(acts).client.table
    requires Play(acts[..n]).client.table[k].kind.AttendanceScan? || Play(acts[..n]).client.table[k].kind.ScanAttempt?
    requires Play(acts[..m]).client.table[l].kind.AttendanceScan? || Play(acts[..m]).client.table[l].kind.ScanAttempt?
    requires k != l
    ensures var effects := Play(acts).server.effects;
            && i < |effects| && j < |effects| && i != j && effects[i].key == k && effects[j].key == l
            && (TokenOf(effects[i]).Some? ==> TokenOf(effects[i]) != TokenOf(effects[j]))
  {
    PlaysAreOk(acts);
    DeletedMeansHeld(acts, n, k);
    DeletedMeansHeld(acts, m, l);
    var effects := Play(acts).server.effects;
    i :| 0 <= i < |effects| && effects[i].key == k;
    j :| 0 <= j < |effects| && effects[j].key == l;
    TokensAreRows(effects[i], effects[j], LooseKeys(acts));
  }

  /** Without an attempt id nothing protects a scan: one lost request that arrives twice takes effect twice. */
  lemma ScanWithoutAttemptIdCanRepeat(sv: Server, r: Request, failure: Failure)
    requires r.kind.AttendanceScan? && r.payload.attemptId == ""
    ensures var accept := Choice(Accepts, false, false, false);
            var call := Call(RequestLost(failure), accept, [Arrives(r, accept), Arrives(r, accept)], Delivered);
            Times(Exchange(sv, r, call).0.effects, r.key) == Times(sv.effects, r.key) + 2
  {
    var accept := Choice(Accepts, false, false, false);
    var sv0 := sv.(wire := sv.wire + {r});
    var evs := [Arrives(r, accept), Arrives(r, accept)];
    var sv1 := Remote(sv0, evs[0]);
    assert sv1.effects == sv.effects + [r] && sv1.wire == sv0.wire;
    var sv2 := Remote(sv1, evs[0]);
    assert sv2.effects == sv1.effects + [r];
    assert evs[1..] == [Arrives(r, accept)] && evs[1..][1..] == [];
    assert Remotes(sv0, evs) == Remotes(sv1, evs[1..]) == Remotes(sv2, []);
    assert (sv.effects + [r])[..|sv.effects|] == sv.effects;
    assert (sv1.effects + [r])[..|sv1.effects|] == sv1.effects;
  }

  lemma {:induction false} LooseKeysAppend(a: seq<Act>, b: seq<Act>)
    ensures LooseKeys(a + b) == LooseKeys(a) + LooseKeys(b)
  {
    if b == [] {
      assert a + b == a;
    } else {
      LooseKeysAppend(a, b[..|b| - 1]);
      assert (a + b)[..|a + b| - 1] == a + b[..|b| - 1];
    }
  }

  lemma OneActMore(acts: seq<Act>, act: Act)
    ensures Play(acts + [act]) == Move(Play(acts), act)
  {
    assert (acts + [act])[..|acts + [act]| - 1] == acts;
  }

  /**
   The play can go on to a second effect of this row, without its id being queued again for a scan with
   no attempt id.
   */
  ghost predicate CanRepeat(acts: seq<Act>, k: Key)
  {
    exists more :: k !in LooseKeys(more) && Times(Play(acts + more).server.effects, k) >= 2
  }

  /**
   In every play that is sending a scan: the scan can take effect twice if and only if it has no attempt
   id. (No random id equals an attempt id, so a row with one was not queued before without.)
   */
  lemma ScanRepeatsIff(acts: seq<Act>, q: nat)
    requires InCall(Play(acts).client, q) && Sent(Play(acts).client, q).kind.AttendanceScan?
    requires Sent(Play(acts).client, q).payload.attemptId != "" ==> Sent(Play(acts).client, q).key !in LooseKeys(acts)
    ensures CanRepeat(acts, Sent(Play(acts).client, q).key) <==> Sent(Play(acts).client, q).payload.attemptId == ""
  {
    var r := Sent(Play(acts).client, q);
    if r.payload.attemptId == "" {
      SendingScanCanRepeat(acts, q);
    } else {
      PlaysAreOk(acts);
      SentIsLegit(Play(acts), q, LooseKeys(acts));
      forall more | r.key !in LooseKeys(more) ensures Times(Play(acts + more).server.effects, r.key) <= 1 {
        LooseKeysAppend(acts, more);
        assert (acts + more)[..|acts|] == acts;
        ExactlyOnce(acts + more, |acts|, r.key);
      }
    }
  }

  lemma SendingScanCanRepeat(acts: seq<Act>, q: nat)
    requires InCall(Play(acts).client, q) && Sent(Play(acts).client, q).kind.AttendanceScan?
    requires Sent(Play(acts).client, q).payload.attemptId == ""
    ensures CanRepeat(acts, Sent(Play(acts).client, q).key)
  {
    var r, accept := Sent(Play(acts).client, q), Choice(Accepts, false, false, false);
    var failure := OtherError(None);
    var call := Call(RequestLost(failure), accept, [Arrives(r, accept), Arrives(r, accept)], Delivered);
    ScanWithoutAttemptIdCanRepeat(Play(acts).server, r, failure);
    OneActMore(acts, Calls(q, call));
    assert r.key !in LooseKeys([Calls(q, call)]);
    assert Times(Play(acts + [Calls(q, call)]).server.effects, r.key) >= 2;
  }

  /** The order of session operations and attempts holds in every play against the server. */
  lemma NothingOvertakesEndToEnd(acts: seq<Act>, p: nat, owner: string, c: Cursor) returns (n: nat)
    requires HasCursor(Play(acts).client, p, owner, c)
    ensures Walked(Projected(acts), n, p, owner, c)
  {
    PlaysAreRuns(acts);
    n := NothingOvertakes(Projected(acts), p, owner, c);
  }
}
