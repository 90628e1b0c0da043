/**
 The assistant's chat-thread transitions: folding stream events under a (thread, message) guard, and
 reconciling a stopped reply with the server's copy of the thread.
 */
module AssistantState {
  import opened Wrappers

  datatype Role = User | Assistant

  /** `rest` stands for the fields no transition looks at: timestamps, attachments, tool activity. */
  datatype Message = Message(id: string, threadId: string, role: Role, content: string, rest: string)

  ghost predicate UniqueIds(ms: seq<Message>)
  {
    forall i, j | 0 <= i < j < |ms| :: ms[i].id != ms[j].id
  }

  /** `findIndex`, with the length for -1. */
  function IndexOf(ms: seq<Message>, id: string): (i: nat)
    ensures i <= |ms| && (i < |ms| ==> ms[i].id == id) && forall j | 0 <= j < i :: ms[j].id != id
  {
    if ms == [] then 0 else if ms[0].id == id then 0 else 1 + IndexOf(ms[1..], id)
  }

  predicate HasId(ms: seq<Message>, id: string) { IndexOf(ms, id) < |ms| }

  lemma IndexIsUnique(ms: seq<Message>, i: nat)
    requires UniqueIds(ms) && i < |ms|
    ensures IndexOf(ms, ms[i].id) == i
  {
    var j := IndexOf(ms, ms[i].id);
  }

  // ---------------------------------------------------------------- stream events

  function UpsertMessage(ms: seq<Message>, m: Message): seq<Message>
  {
    var i := IndexOf(ms, m.id);
    if i == |ms| then ms + [m] else ms[i := m]
  }

  function AppendDelta(ms: seq<Message>, threadId: string, messageId: string, text: string): seq<Message>
  {
    var i := IndexOf(ms, messageId);
    if text == "" || i == |ms| || ms[i].threadId != threadId || ms[i].role != Assistant then ms
    else ms[i := ms[i].(content := ms[i].content + text)]
  }

  /** An error's message id of "" is an absent one. */
  datatype Event =
    | Delta(threadId: string, messageId: string, text: string)
    | Finished(threadId: string, message: Message)
    | Error(threadId: string, failedId: string, reason: string)

  /** "" stands for null in both fields. */
  datatype Guard = Guard(threadId: string, messageId: string)

  datatype Update = Update(messages: seq<Message>, handled: bool, done: bool, error: Option<string>)

  function ApplyStreamEvent(ms: seq<Message>, ev: Event, g: Guard): Update
  {
    if g.threadId == "" || ev.threadId != g.threadId then Update(ms, false, false, None)
    else if ev.Error? then
      if g.messageId != "" && ev.failedId != "" && ev.failedId != g.messageId then Update(ms, false, false, None)
      else Update(ms, true, true, Some(ev.reason))
    else if g.messageId != "" && (if ev.Delta? then ev.messageId else ev.message.id) != g.messageId
    then Update(ms, false, false, None)
    else if ev.Delta? then Update(AppendDelta(ms, ev.threadId, ev.messageId, ev.text), true, false, None)
    else Update(UpsertMessage(ms, ev.message), true, true, None)
  }

  /** The event is about the guarded thread and, if one is guarded, the guarded message. */
  predicate Concerns(ev: Event, g: Guard)
  {
    && g.threadId != "" && ev.threadId == g.threadId
    && (g.messageId == "" ||
        match ev
        case Delta(_, id, _) => id == g.messageId
        case Finished(_, m) => m.id == g.messageId
        case Error(_, id, _) => id == "" || id == g.messageId)
  }

  function Fold(ms: seq<Message>, evs: seq<Event>, g: Guard): seq<Message>
  {
    if evs == [] then ms
    else ApplyStreamEvent(Fold(ms, evs[..|evs| - 1], g), evs[|evs| - 1], g).messages
  }

  function Concerning(evs: seq<Event>, g: Guard): seq<Event>
  {
    if evs == [] then []
    else
      var kept := Concerning(evs[..|evs| - 1], g);
      if Concerns(evs[|evs| - 1], g) then kept + [evs[|evs| - 1]] else kept
  }

  /** The text that the event adds to the message of this id. */
  function TextFor(ev: Event, g: Guard, id: string): string
  {
    if ev.Delta? && Concerns(ev, g) && ev.messageId == id then ev.text else ""
  }

  /** The texts of the concerning deltas for one message, in order. */
  function Streamed(evs: seq<Event>, g: Guard, id: string): string
  {
    if evs == [] then "" else Streamed(evs[..|evs| - 1], g, id) + TextFor(evs[|evs| - 1], g, id)
  }

  /** No concerning event finishes this message. */
  ghost predicate StillOpen(evs: seq<Event>, g: Guard, id: string)
  {
    forall i | 0 <= i < |evs| && Concerns(evs[i], g) && evs[i].Finished? :: evs[i].message.id != id
  }

  /** An event is reported handled exactly when it concerns the guard; any other event is ignored. */
  lemma HandledIff(ms: seq<Message>, ev: Event, g: Guard)
    ensures ApplyStreamEvent(ms, ev, g).handled <==> Concerns(ev, g)
    ensures !Concerns(ev, g) ==> ApplyStreamEvent(ms, ev, g).messages == ms
    ensures ApplyStreamEvent(ms, ev, g).done <==> Concerns(ev, g) && !ev.Delta?
    ensures ApplyStreamEvent(ms, ev, g).error == if Concerns(ev, g) && ev.Error? then Some(ev.reason) else None
  {
  }

  /** Events of other threads and messages have no influence at all. */
  lemma {:induction false} ForeignEventsDoNotInterfere(ms: seq<Message>, evs: seq<Event>, g: Guard)
    ensures Fold(ms, evs, g) == Fold(ms, Concerning(evs, g), g)
  {
    if evs == [] {
    } else {
      var before, ev := evs[..|evs| - 1], evs[|evs| - 1];
      ForeignEventsDoNotInterfere(ms, before, g);
      HandledIff(Fold(ms, before, g), ev, g);
      if Concerns(ev, g) {
        assert Concerning(evs, g)[..|Concerning(evs, g)| - 1] == Concerning(before, g);
      }
    }
  }

  /**
   Any event list keeps ids unique, positions, and every message but the guarded one; it adds at most
   that one, at the end.
   */
  lemma {:induction false} OnlyTheGuardedMessageChanges(ms: seq<Message>, evs: seq<Event>, g: Guard)
    requires g.messageId != "" && UniqueIds(ms)
    ensures OnlyGuardedDiffers(ms, Fold(ms, evs, g), g)
  {
    if evs == [] {
    } else {
      var before := evs[..|evs| - 1];
      OnlyTheGuardedMessageChanges(ms, before, g);
      OneEventChanges(Fold(ms, before, g), evs[|evs| - 1], g);
    }
  }

  ghost predicate OnlyGuardedDiffers(ms: seq<Message>, r: seq<Message>, g: Guard)
  {
    && UniqueIds(r)
    && |ms| <= |r| <= |ms| + 1
    && (forall i | 0 <= i < |ms| :: r[i].id == ms[i].id && (ms[i].id != g.messageId ==> r[i] == ms[i]))
    && (|r| > |ms| ==> r[|ms|].id == g.messageId)
  }

  lemma OneEventChanges(ms: seq<Message>, ev: Event, g: Guard)
    requires g.messageId != "" && UniqueIds(ms)
    ensures OnlyGuardedDiffers(ms, ApplyStreamEvent(ms, ev, g).messages, g)
  {
  }

  /** Whatever the guard, events keep ids unique and every message in its place. */
  ghost predicate Extends(ms: seq<Message>, r: seq<Message>)
  {
    UniqueIds(r) && |ms| <= |r| && forall i | 0 <= i < |ms| :: r[i].id == ms[i].id
  }

  lemma {:induction false} FoldExtends(ms: seq<Message>, evs: seq<Event>, g: Guard)
    requires UniqueIds(ms)
    ensures Extends(ms, Fold(ms, evs, g))
  {
    if evs == [] {
    } else {
      FoldExtends(ms, evs[..|evs| - 1], g);
      OneEventExtends(Fold(ms, evs[..|evs| - 1], g), evs[|evs| - 1], g);
    }
  }

  lemma OneEventExtends(ms: seq<Message>, ev: Event, g: Guard)
    requires UniqueIds(ms)
    ensures Extends(ms, ApplyStreamEvent(ms, ev, g).messages)
  {
  }

  /**
   Under any guard, also one without a message: until a reply of the thread is done, it is what it was
   with the deltas for it appended in order.
   */
  lemma {:induction false} ContentIsTheStream(ms: seq<Message>, evs: seq<Event>, g: Guard, t: nat)
    requires UniqueIds(ms) && t < |ms| && ms[t].threadId == g.threadId && ms[t].role == Assistant
    requires StillOpen(evs, g, ms[t].id)
    ensures t < |Fold(ms, evs, g)|
    ensures Fold(ms, evs, g)[t] == ms[t].(content := ms[t].content + Streamed(evs, g, ms[t].id))
  {
    if evs == [] {
      assert ms[t].content + "" == ms[t].content;
    } else {
      var before, ev := evs[..|evs| - 1], evs[|evs| - 1];
      ContentIsTheStream(ms, before, g, t);
      FoldExtends(ms, before, g);
      TargetTakesTheDelta(Fold(ms, before, g), ev, g, t);
      assert ms[t].content + Streamed(evs, g, ms[t].id)
          == (ms[t].content + Streamed(before, g, ms[t].id)) + TextFor(ev, g, ms[t].id);
    }
  }

  lemma TargetTakesTheDelta(ms: seq<Message>, ev: Event, g: Guard, t: nat)
    requires UniqueIds(ms) && t < |ms| && ms[t].threadId == g.threadId && ms[t].role == Assistant
    requires Concerns(ev, g) && ev.Finished? ==> ev.message.id != ms[t].id
    ensures var r := ApplyStreamEvent(ms, ev, g).messages;
            t < |r| && r[t] == ms[t].(content := ms[t].content + TextFor(ev, g, ms[t].id))
  {
    IndexIsUnique(ms, t);
    assert ms[t].content + "" == ms[t].content;
  }

  /** User messages and messages of other threads take no deltas, even those addressed to their id. */
  lemma {:induction false} OnlyRepliesAreStreamed(ms: seq<Message>, evs: seq<Event>, g: Guard, t: nat)
    requires UniqueIds(ms) && t < |ms| && (ms[t].role == User || ms[t].threadId != g.threadId)
    requires StillOpen(evs, g, ms[t].id)
    ensures t < |Fold(ms, evs, g)| && Fold(ms, evs, g)[t] == ms[t]
  {
    if evs == [] {
    } else {
      var before, ev := evs[..|evs| - 1], evs[|evs| - 1];
      OnlyRepliesAreStreamed(ms, before, g, t);
      FoldExtends(ms, before, g);
      OthersTakeNoDelta(Fold(ms, before, g), ev, g, t);
    }
  }

  lemma OthersTakeNoDelta(ms: seq<Message>, ev: Event, g: Guard, t: nat)
    requires UniqueIds(ms) && t < |ms| && (ms[t].role == User || ms[t].threadId != g.threadId)
    requires Concerns(ev, g) && ev.Finished? ==> ev.message.id != ms[t].id
    ensures t < |ApplyStreamEvent(ms, ev, g).messages| && ApplyStreamEvent(ms, ev, g).messages[t] == ms[t]
  {
    IndexIsUnique(ms, t);
  }

  /** Under a guard with a message, that is all that happens to the thread. */
  lemma GuardedStreamIsAll(ms: seq<Message>, evs: seq<Event>, g: Guard, t: nat)
    requires UniqueIds(ms) && t < |ms| && ms[t].threadId == g.threadId && ms[t].role == Assistant
    requires g.messageId != "" && ms[t].id == g.messageId && StillOpen(evs, g, ms[t].id)
    ensures Fold(ms, evs, g) == ms[t := ms[t].(content := ms[t].content + Streamed(evs, g, ms[t].id))]
  {
    ContentIsTheStream(ms, evs, g, t);
    OnlyTheGuardedMessageChanges(ms, evs, g);
    var r := Fold(ms, evs, g);
    assert |r| == |ms|;
    assert forall i | 0 <= i < |ms| && i != t :: ms[i].id != ms[t].id;
  }

  /**
   A finished reply replaces whatever was streamed, and later deltas continue from it, whichever
   events came before and whether or not the message was already there.
   */
  lemma FinishedReplyIsInstalled(ms: seq<Message>, before: seq<Event>, m: Message, after: seq<Event>, g: Guard)
    returns (t: nat)
    requires UniqueIds(ms) && Concerns(Finished(g.threadId, m), g) && m.threadId == g.threadId && m.role == Assistant
    requires StillOpen(after, g, m.id)
    ensures var r := Fold(ms, before + [Finished(g.threadId, m)] + after, g);
            t < |r| && r[t] == m.(content := m.content + Streamed(after, g, m.id))
  {
    var start, all := Fold(ms, before, g), before + [Finished(g.threadId, m)];
    FoldExtends(ms, before, g);
    assert Fold(ms, all, g) == UpsertMessage(start, m) by { assert all[..|all| - 1] == before; }
    t := Upserted(start, m);
    FoldAppend(ms, all, after, g);
    ContentIsTheStream(UpsertMessage(start, m), after, g, t);
  }

  lemma Upserted(ms: seq<Message>, m: Message) returns (t: nat)
    requires UniqueIds(ms)
    ensures UniqueIds(UpsertMessage(ms, m)) && t < |UpsertMessage(ms, m)| && UpsertMessage(ms, m)[t] == m
  {
    t := IndexOf(ms, m.id);
  }

  lemma {:induction false} FoldAppend(ms: seq<Message>, a: seq<Event>, b: seq<Event>, g: Guard)
    ensures Fold(ms, a + b, g) == Fold(Fold(ms, a, g), b, g)
  {
    if b == [] {
      assert a + b == a;
    } else {
      FoldAppend(ms, a, b[..|b| - 1], g);
      assert (a + b)[..|a + b| - 1] == a + b[..|b| - 1];
    }
  }

  // ---------------------------------------------------------------- stopped replies

  /** The characters `trim` removes. */
  predicate IsSpace(c: char)
  {
    || c in "\t\n\r "
    || c in ['\U{000B}', '\U{000C}', '\U{00A0}', '\U{1680}', '\U{2028}', '\U{2029}', '\U{202F}', '\U{205F}',
        '\U{3000}', '\U{FEFF}']
    || '\U{2000}' <= c <= '\U{200A}'
  }

  predicate Blank(text: string)
  {
    forall i | 0 <= i < |text| :: IsSpace(text[i])
  }

  /** The server's row, with the local text if that is longer and the row is the assistant's. */
  function Preferred(local: seq<Message>, m: Message): Message
  {
    var i := IndexOf(local, m.id);
    if i < |local| && m.role == Assistant && |local[i].content| > |m.content|
    then m.(content := local[i].content) else m
  }

  predicate CarriedOver(server: seq<Message>, m: Message)
  {
    m.role == Assistant && !HasId(server, m.id) && !Blank(m.content)
  }

  function Preferreds(local: seq<Message>, server: seq<Message>): (r: seq<Message>)
    ensures |r| == |server| && forall i | 0 <= i < |r| :: r[i] == Preferred(local, server[i])
  {
    seq(|server|, i requires 0 <= i < |server| => Preferred(local, server[i]))
  }

  function Carried(local: seq<Message>, server: seq<Message>): seq<Message>
  {
    if local == [] then []
    else
      var kept, m := Carried(local[..|local| - 1], server), local[|local| - 1];
      if CarriedOver(server, m) then kept + [m] else kept
  }

  function Reconciled(local: seq<Message>, server: seq<Message>): seq<Message>
  {
    Preferreds(local, server) + Carried(local, server)
  }

  method ReconcileStoppedThread(local: seq<Message>, server: seq<Message>) returns (merged: seq<Message>)
    ensures merged == Reconciled(local, server)
  {
    merged := [];
    for i := 0 to |server|
      invariant merged == Preferreds(local, server)[..i]
    {
      var message := server[i];
      var j := IndexOf(local, message.id);
      if j < |local| && message.role == Assistant && |local[j].content| > |message.content| {
        message := message.(content := local[j].content);
      }
      merged := merged + [message];
    }
    for i := 0 to |local|
      invariant merged == Preferreds(local, server) + Carried(local[..i], server)
    {
      var message := local[i];
      assert local[..i + 1][..i] == local[..i];
      if message.role == Assistant && IndexOf(server, message.id) == |server| && !Blank(message.content) {
        merged := merged + [message];
      }
    }
    assert local[..|local|] == local;
  }

  lemma {:induction false} CarriedAre(local: seq<Message>, server: seq<Message>)
    requires UniqueIds(local)
    ensures var c := Carried(local, server);
            && UniqueIds(c)
            && (forall i | 0 <= i < |c| :: c[i] in local && CarriedOver(server, c[i]))
            && (forall m | m in local && CarriedOver(server, m) :: m in c)
  {
    if local == [] {
    } else {
      CarriedAre(local[..|local| - 1], server);
      assert forall m | m in local :: m in local[..|local| - 1] || m == local[|local| - 1];
      assert forall m | m in local[..|local| - 1] :: m.id != local[|local| - 1].id;
    }
  }

  /**
   Ids stay unique, the server's rows come first in order, none with less text, and user messages come
   only from the server.
   */
  lemma ReconciledShape(local: seq<Message>, server: seq<Message>)
    requires UniqueIds(local) && UniqueIds(server)
    ensures var r := Reconciled(local, server);
            && UniqueIds(r)
            && |server| <= |r|
            && (forall i | 0 <= i < |server| :: r[i].(content := server[i].content) == server[i])
            && (forall i | 0 <= i < |server| :: |r[i].content| >= |server[i].content|)
            && (forall i | 0 <= i < |r| && r[i].role == User :: i < |server| && r[i] == server[i])
  {
    CarriedAre(local, server);
    var r := Reconciled(local, server);
    forall i, j | 0 <= i < j < |r| ensures r[i].id != r[j].id {
      if i < |server| <= j {
        assert r[j] == Carried(local, server)[j - |server|];
        assert !HasId(server, r[j].id);
      }
    }
  }

  /** The merged thread shows this message with at least this much text. */
  ghost predicate Shows(merged: seq<Message>, m: Message)
  {
    exists i :: 0 <= i < |merged| && merged[i].id == m.id && |merged[i].content| >= |m.content|
  }

  /** The merged thread shows exactly this text under the message's id. */
  ghost predicate ShowsText(merged: seq<Message>, m: Message)
  {
    exists i :: 0 <= i < |merged| && merged[i].id == m.id && merged[i].content == m.content
  }

  /**
   A non-blank assistant text streamed locally is never shortened, unless the server holds its id as a
   user message with a shorter text; and that one case does replace it.
   */
  lemma TextIsNotShortenedIff(local: seq<Message>, server: seq<Message>, j: nat)
    requires UniqueIds(local) && UniqueIds(server)
    requires j < |local| && local[j].role == Assistant && !Blank(local[j].content)
    ensures Shows(Reconciled(local, server), local[j]) <==>
            !(exists i :: 0 <= i < |server| && server[i].id == local[j].id && server[i].role == User
                          && |server[i].content| < |local[j].content|)
  {
    if HasId(server, local[j].id) {
      var i := IndexOf(server, local[j].id);
      ShownAtServerIndex(local, server, i, local[j]);
      TextAtServerIndex(local, server, i, j);
      assert forall x | 0 <= x < |server| && server[x].id == local[j].id :: x == i;
    } else {
      var i := CarriedText(local, server, j);
      assert Reconciled(local, server)[i] == local[j];
    }
  }

  /**
   It is kept word for word if and only if a server row of its id, where there is one, has the same text
   or is the assistant's with a shorter one.
   */
  lemma TextIsKeptIff(local: seq<Message>, server: seq<Message>, j: nat)
    requires UniqueIds(local) && UniqueIds(server)
    requires j < |local| && local[j].role == Assistant && !Blank(local[j].content)
    ensures ShowsText(Reconciled(local, server), local[j]) <==>
            forall i | 0 <= i < |server| && server[i].id == local[j].id ::
              || server[i].content == local[j].content
              || (server[i].role == Assistant && |server[i].content| < |local[j].content|)
  {
    if HasId(server, local[j].id) {
      var i := IndexOf(server, local[j].id);
      ShownAtServerIndex(local, server, i, local[j]);
      TextAtServerIndex(local, server, i, j);
      assert forall x | 0 <= x < |server| && server[x].id == local[j].id :: x == i;
    } else {
      var i := CarriedText(local, server, j);
      assert Reconciled(local, server)[i] == local[j];
    }
  }

  lemma CarriedText(local: seq<Message>, server: seq<Message>, j: nat) returns (i: nat)
    requires UniqueIds(local) && j < |local| && CarriedOver(server, local[j])
    ensures i < |Reconciled(local, server)| && Reconciled(local, server)[i] == local[j]
    ensures forall x | 0 <= x < |server| :: server[x].id != local[j].id
  {
    CarriedAre(local, server);
    assert local[j] in local;
    var c :| 0 <= c < |Carried(local, server)| && Carried(local, server)[c] == local[j];
    i := |server| + c;
  }

  lemma TextAtServerIndex(local: seq<Message>, server: seq<Message>, i: nat, j: nat)
    requires UniqueIds(local) && i < |server| && j < |local| && server[i].id == local[j].id
    ensures Reconciled(local, server)[i].content ==
            if server[i].role == Assistant && |local[j].content| > |server[i].content| then local[j].content
            else server[i].content
  {
    IndexIsUnique(local, j);
    assert Reconciled(local, server)[i] == Preferred(local, server[i]);
  }

  lemma ShownAtServerIndex(local: seq<Message>, server: seq<Message>, i: nat, m: Message)
    requires UniqueIds(local) && UniqueIds(server) && i < |server| && server[i].id == m.id
    ensures Shows(Reconciled(local, server), m) <==> |Reconciled(local, server)[i].content| >= |m.content|
    ensures ShowsText(Reconciled(local, server), m) <==> Reconciled(local, server)[i].content == m.content
  {
    ReconciledShape(local, server);
    assert Reconciled(local, server)[i].id == m.id;
  }

  /**
   Which local messages are there afterwards: those whose id the server has, and of the others exactly
   the assistant's that hold a character which is not white space. Empty placeholders go.
   */
  lemma LocalMessageRemainsIff(local: seq<Message>, server: seq<Message>, j: nat)
    requires UniqueIds(local) && j < |local|
    ensures (exists i :: 0 <= i < |Reconciled(local, server)| && Reconciled(local, server)[i].id == local[j].id) <==>
            || (exists i :: 0 <= i < |server| && server[i].id == local[j].id)
            || (local[j].role == Assistant
                && exists i :: 0 <= i < |local[j].content| && !IsSpace(local[j].content[i]))
  {
    var r := Reconciled(local, server);
    CarriedAre(local, server);
    if HasId(server, local[j].id) {
      assert r[IndexOf(server, local[j].id)].id == local[j].id;
    } else if CarriedOver(server, local[j]) {
      var i := CarriedText(local, server, j);
      assert r[i].id == local[j].id;
    } else if i :| 0 <= i < |r| && r[i].id == local[j].id {
      OnlyCarriedAreNew(local, server, i, j);
    }
  }

  lemma OnlyCarriedAreNew(local: seq<Message>, server: seq<Message>, i: nat, j: nat)
    requires UniqueIds(local) && j < |local| && i < |Reconciled(local, server)|
    requires Reconciled(local, server)[i].id == local[j].id && !HasId(server, local[j].id)
    ensures CarriedOver(server, local[j])
  {
    CarriedAre(local, server);
    if i >= |server| {
      var m := Carried(local, server)[i - |server|];
      assert m in local;
      var x :| 0 <= x < |local| && local[x] == m;
    }
  }

  /** If the local and the server text are prefixes of one reply, the reconciled text is the longer of them. */
  lemma LongerPrefixWins(local: seq<Message>, server: seq<Message>, i: nat, j: nat, reply: string)
    requires UniqueIds(local) && i < |server| && j < |local|
    requires local[j].id == server[i].id && server[i].role == Assistant
    requires local[j].content <= reply && server[i].content <= reply
    ensures var text := Reconciled(local, server)[i].content;
            && (text == local[j].content || text == server[i].content)
            && local[j].content <= text && server[i].content <= text <= reply
  {
    IndexIsUnique(local, j);
    assert |local[j].content| <= |server[i].content| ==> local[j].content <= server[i].content;
    assert |server[i].content| <= |local[j].content| ==> server[i].content <= local[j].content;
  }

  lemma {:induction false} NothingLeftToCarry(local: seq<Message>, server: seq<Message>)
    requires forall m | m in local :: !CarriedOver(server, m)
    ensures Carried(local, server) == []
  {
    if local == [] {
    } else {
      NothingLeftToCarry(local[..|local| - 1], server);
    }
  }

  /** Reconciling again with the result as the server copy changes nothing. */
  lemma ReconcileIsIdempotent(local: seq<Message>, server: seq<Message>)
    requires UniqueIds(local) && UniqueIds(server)
    ensures Reconciled(local, Reconciled(local, server)) == Reconciled(local, server)
  {
    var r := Reconciled(local, server);
    CarriedAre(local, server);
    forall i | 0 <= i < |r| ensures Preferred(local, r[i]) == r[i] {
      if i >= |server| {
        var m := Carried(local, server)[i - |server|];
        var j :| 0 <= j < |local| && local[j] == m;
        IndexIsUnique(local, j);
      }
    }
    forall m | m in local ensures !CarriedOver(r, m) {
      if CarriedOver(server, m) {
        var i :| 0 <= i < |Carried(local, server)| && Carried(local, server)[i] == m;
        assert r[|server| + i].id == m.id;
      } else if HasId(server, m.id) {
        assert r[IndexOf(server, m.id)].id == m.id;
      }
    }
    NothingLeftToCarry(local, r);
    assert Preferreds(local, r) == r;
  }

  lemma {:induction false} AllCarried(local: seq<Message>, server: seq<Message>)
    requires forall i | 0 <= i < |local| :: CarriedOver(server, local[i])
    ensures Carried(local, server) == local
  {
    if local == [] {
    } else {
      AllCarried(local[..|local| - 1], server);
    }
  }

  lemma {:induction false} CarriedAppend(a: seq<Message>, b: seq<Message>, server: seq<Message>)
    ensures Carried(a + b, server) == Carried(a, server) + Carried(b, server)
  {
    if b == [] {
      assert a + b == a;
    } else {
      CarriedAppend(a, b[..|b| - 1], server);
      assert (a + b)[..|a + b| - 1] == a + b[..|b| - 1];
    }
  }

  /** Reconciling the result as the new local copy with the same server copy changes nothing either. */
  lemma ReconcileIsStable(local: seq<Message>, server: seq<Message>)
    requires UniqueIds(local) && UniqueIds(server)
    ensures Reconciled(Reconciled(local, server), server) == Reconciled(local, server)
  {
    var p, c := Preferreds(local, server), Carried(local, server);
    assert UniqueIds(p + c) by { ReconciledShape(local, server); }
    PreferredsAreStable(local, server, c);
    assert Carried(p + c, server) == c by {
      CarriedAppend(p, c, server);
      assert Carried(p, server) == [] by {
        PreferredsAreNotCarried(local, server);
        NothingLeftToCarry(p, server);
      }
      assert Carried(c, server) == c by {
        CarriedAre(local, server);
        AllCarried(c, server);
      }
    }
  }

  lemma PreferredsAreStable(local: seq<Message>, server: seq<Message>, c: seq<Message>)
    requires UniqueIds(Preferreds(local, server) + c)
    ensures Preferreds(Preferreds(local, server) + c, server) == Preferreds(local, server)
  {
    var p := Preferreds(local, server);
    forall i | 0 <= i < |server| ensures Preferred(p + c, server[i]) == p[i] {
      assert (p + c)[i] == p[i];
      IndexIsUnique(p + c, i);
    }
  }

  lemma PreferredsAreNotCarried(local: seq<Message>, server: seq<Message>)
    requires UniqueIds(server)
    ensures forall m | m in Preferreds(local, server) :: !CarriedOver(server, m)
  {
    var p := Preferreds(local, server);
    forall i | 0 <= i < |p| ensures !CarriedOver(server, p[i]) {
      IndexIsUnique(server, i);
    }
  }
}
