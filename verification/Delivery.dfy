/**
 A play from nothing to a delivered operation: the client and the server together can do what all the
 other laws only constrain.
 */
module Delivery {
  import opened Wrappers
  import opened QueueTable
  import opened DrainPass
  import opened SyncMachine
  import opened WholePass
  import opened SendCallback
  import opened EndToEnd
  import opened Reconciliation

  /** A call in which everything gets through and the server agrees. */
  const PLAIN := Call(Delivered, Choice(Accepts, false, true, false), [], Delivered)

  /** The pass that holds this one row, at the given stage. */
  function Alone(k: Key, stage: Stage): map<nat, Pass>
  {
    map[0 := Pass(k.owner, stage)]
  }

  function RowsOf(r: Request): seq<SnapRow> { [SnapRow(r.key.id, r.kind, Readable(r.payload), 0)] }

  function TableOf(r: Request, createdAt: int): Table
  {
    map[r.key := Row(r.kind, Readable(r.payload), 0, None, createdAt)]
  }

  /** The session exists, the account is active, the operation is queued and about to be sent. */
  ghost function SendingWorld(r: Request, createdAt: int): World
  {
    World(State(Some(r.key.owner), TableOf(r, createdAt), Alone(r.key, Sending(Progress(RowsOf(r), []))), Some(0)),
          Remote(EMPTY, SessionAppears(r.payload.sessionId)))
  }

  function UntilSent(r: Request, createdAt: int): seq<Act>
  {
    [Elsewhere(SessionAppears(r.payload.sessionId)),
     Client(SwitchOwner(Some(r.key.owner))),
     Client(EnqueueLands(r.key, r.kind, Readable(r.payload), createdAt)),
     Client(CallDrain(0)),
     Client(PassTicks(0, SnapshotRead(RowsOf(r)))),
     Client(PassTicks(0, DecryptEnds(true)))]
  }

  lemma PlaySix(a: Act, b: Act, c: Act, d: Act, e: Act, f: Act)
    ensures Play([a, b, c, d, e, f]) ==
            Move(Move(Move(Move(Move(Move(World(INIT, EMPTY), a), b), c), d), e), f)
  {
    OneActMore([], a);
    OneActMore([a], b);
    OneActMore([a, b], c);
    OneActMore([a, b, c], d);
    OneActMore([a, b, c, d], e);
    OneActMore([a, b, c, d, e], f);
    assert [] + [a] == [a] && [a] + [b] == [a, b] && [a, b] + [c] == [a, b, c] && [a, b, c] + [d] == [a, b, c, d];
    assert [a, b, c, d] + [e] == [a, b, c, d, e] && [a, b, c, d, e] + [f] == [a, b, c, d, e, f];
  }

  lemma ReachesTheSend(r: Request, createdAt: int)
    requires Named(r.key.id, r.kind, Readable(r.payload))
    ensures Play(UntilSent(r, createdAt)) == SendingWorld(r, createdAt)
  {
    var acts := UntilSent(r, createdAt);
    PlaySix(acts[0], acts[1], acts[2], acts[3], acts[4], acts[5]);
    OneQueued(r.key, r.kind, r.payload, createdAt);
    var sv := Remote(EMPTY, SessionAppears(r.payload.sessionId));
    var w3 := World(State(Some(r.key.owner), TableOf(r, createdAt), map[], None), sv);
    assert Move(Move(Move(World(INIT, EMPTY), acts[0]), acts[1]), acts[2]) == w3;
    StartsAlone(w3, r);
  }

  lemma StartsAlone(w: World, r: Request)
    requires w.client.active == Some(r.key.owner) && w.client.passes == map[] && w.client.drainPromise == None
    requires IsSnapshot(RowsOf(r), w.client.table, r.key.owner)
    ensures Move(Move(Move(w, Client(CallDrain(0))), Client(PassTicks(0, SnapshotRead(RowsOf(r))))),
                 Client(PassTicks(0, DecryptEnds(true))))
            == w.(client := w.client.(passes := Alone(r.key, Sending(Progress(RowsOf(r), []))),
                drainPromise := Some(0)))
  {
  }

  /** The play so far, the call, the deletion, and the promise settling. */
  function WholePlay(r: Request, createdAt: int): seq<Act>
  {
    UntilSent(r, createdAt) + [Calls(0, PLAIN)] + [Client(PassTicks(0, WriteLands))] + [Client(PromiseSettles(0))]
  }

  /**
   For an operation of any known kind, under any id an enqueue gives it: the play queues it, sends it
   once, and ends with an empty queue, nothing in flight, and its effect held by the server exactly once.
   */
  lemma AnyOperationCanBeDelivered(r: Request, createdAt: int)
    requires Named(r.key.id, r.kind, Readable(r.payload)) && !r.kind.OtherKind?
    requires r.kind.SessionActivation? ==> r.payload.token != ""
    ensures r.key in Play(UntilSent(r, createdAt)).client.table
    ensures var w := Play(WholePlay(r, createdAt));
            && w.client.table == map[] && Idle(w.client) && w.server.effects == [r]
            && Times(w.server.effects, r.key) == 1
  {
    var acts := UntilSent(r, createdAt);
    ReachesTheSend(r, createdAt);
    var w := SendingWorld(r, createdAt);
    OneActMore(acts, Calls(0, PLAIN));
    OneActMore(acts + [Calls(0, PLAIN)], Client(PassTicks(0, WriteLands)));
    OneActMore(acts + [Calls(0, PLAIN)] + [Client(PassTicks(0, WriteLands))], Client(PromiseSettles(0)));
    PlainCallApplies(w.server, r);
    assert InCall(w.client, 0) && Sent(w.client, 0) == r;
    AnswerIff(w.server, r, PLAIN);
    DoneRowLeaves(w.client, r, Exchange(w.server, r, PLAIN).1);
    assert Times([], r.key) == 0 && [r][..0] == [];
  }

  lemma PlainCallApplies(sv: Server, r: Request)
    requires sv == Remote(EMPTY, SessionAppears(r.payload.sessionId)) && !r.kind.OtherKind?
    requires r.kind.SessionActivation? ==> r.payload.token != ""
    ensures Exchange(sv, r, PLAIN).0.effects == [r] && Acknowledges(sv, r, PLAIN)
  {
    assert !Known(sv, r) && sv.sessions[r.payload.sessionId] == FRESH;
    assert Slot(FRESH, r.payload.checkpoint) == "";
    assert [] + [r] == [r];
  }

  lemma DoneRowLeaves(s: State, r: Request, reply: Reply)
    requires s.passes == Alone(r.key, Sending(Progress(RowsOf(r), []))) && s.table.Keys == {r.key}
    requires reply.Synced? || reply.Void?
    ensures var s' := Step(Step(Step(s, PassTicks(0, SendReturns(reply))), PassTicks(0, WriteLands)),
            PromiseSettles(0));
            s'.table == map[] && Idle(s')
  {
    var s1 := Step(s, PassTicks(0, SendReturns(reply)));
    assert s1.passes[0] == Pass(r.key.owner, Writing(Progress(RowsOf(r), []), Erase, false, true));
    var s2 := Step(s1, PassTicks(0, WriteLands));
    assert s2.passes == Alone(r.key, Settling) && s2.table == map[];
    assert s2.passes - {0} == map[];
  }
}
