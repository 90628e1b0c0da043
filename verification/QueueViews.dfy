/**
 The three readers of the queue over whole runs: the drain query and the counter test the stored text
 with LIKE, the issue list with startsWith. They agree as long as no failing write brings in a text
 that only LIKE takes for terminal, and one such failure makes them disagree.
 */
module QueueViews {
  import opened Wrappers
  import opened QueueTable
  import opened DrainPass
  import opened OfflineStore
  import opened SyncMachine
  import EndToEnd

  /** The failure that an event hands to the catch block of a pass, as it will be stored. */
  function CaughtText(ev: Event): Option<string>
  {
    match ev
    case PassTicks(_, SendReturns(Thrown(message))) => Some(RawText(message))
    case PassTicks(_, WriteFails(message)) => Some(RawText(message))
    case _ => None
  }

  predicate CatchesVariant(ev: Event)
  {
    CaughtText(ev).Some? && CaseVariant(CaughtText(ev).value)
  }

  ghost predicate PlainTable(t: Table)
  {
    forall k | k in t && t[k].lastError.Some? :: !CaseVariant(t[k].lastError.value)
  }

  /** No text is stored, or about to be stored, that the readers take differently. */
  ghost predicate Plain(s: State)
  {
    && PlainTable(s.table)
    && (forall p | p in s.passes && s.passes[p].stage.Writing? && s.passes[p].stage.write.Mark? ::
          !CaseVariant(s.passes[p].stage.write.error))
  }

  /** None of the texts that the store composes itself is a variant. */
  lemma ComposedTextsArePlain(attempts: nat, reply: Reply)
    ensures match OnReply(attempts, reply)
            case Settle(Mark(_, text), _) => CaseVariant(text) ==> reply.Thrown? && text == RawText(reply.message)
            case _ => true
  {
    match reply
    case Terminal(error) => TerminalTextReadsBack(error);
    case Retryable(error) => RetryableTextReadsBack(error);
    case _ =>
  }

  lemma TickKeepsPlain(active: Option<string>, t: Table, pass: Pass, tick: Tick)
    requires !CatchesVariant(PassTicks(0, tick))
    requires pass.stage.Writing? && pass.stage.write.Mark? ==> !CaseVariant(pass.stage.write.error)
    ensures var stage := Tock(active, t, pass, tick).1;
            stage.Writing? && stage.write.Mark? ==> !CaseVariant(stage.write.error)
  {
    UnreadableIsTerminal();
    if pass.stage.Sending? && tick.SendReturns? {
      ComposedTextsArePlain(CurrentRow(pass.stage.c).attempts, tick.reply);
    }
  }

  lemma StepKeepsPlain(s: State, ev: Event)
    requires Plain(s) && !CatchesVariant(ev)
    ensures Plain(Step(s, ev))
  {
    if ev.PassTicks? && ev.p in s.passes { TickKeepsPlain(s.active, s.table, s.passes[ev.p], ev.tick); }
  }

  lemma {:induction false} RunKeepsPlain(evs: seq<Event>)
    requires forall i | 0 <= i < |evs| :: !CatchesVariant(evs[i])
    ensures Plain(Run(INIT, evs))
  {
    if evs == [] {
    } else {
      RunKeepsPlain(evs[..|evs| - 1]);
      StepKeepsPlain(Run(INIT, evs[..|evs| - 1]), evs[|evs| - 1]);
    }
  }

  /** The counter, the drain query and the issue list speak of the same rows. */
  ghost predicate ViewsAgree(t: Table, owner: string, issues: seq<Issue>, rows: seq<SnapRow>)
  {
    && OpenIds(issues) == PendingIds(t, owner)
    && Ids(rows) <= OpenIds(issues) && (|OpenIds(issues)| <= BATCH_LIMIT ==> Ids(rows) == OpenIds(issues))
  }

  /**
   In every run in which no failure caught by a pass is a case variant of the tag, for every account:
   the issues listed as not failed are the ids the counter counts, and a drain takes from exactly those.
   */
  lemma ViewsAgreeOverRuns(evs: seq<Event>, t: Table, owner: string, issues: seq<Issue>, rows: seq<SnapRow>)
    requires forall i | 0 <= i < |evs| :: !CatchesVariant(evs[i])
    requires t == Run(INIT, evs).table && IsListing(issues, t, owner) && IsSnapshot(rows, t, owner)
    ensures ViewsAgree(t, owner, issues, rows)
  {
    RunKeepsPlain(evs);
    assert PlainTable(t);
    PlainViewsAgree(t, owner, issues, rows);
  }

  /** The failures that reach a pass in a play are those of its own writes, since the callback never throws. */
  lemma {:induction false} PlaysCatchFailedWrites(acts: seq<EndToEnd.Act>)
    requires forall i | 0 <= i < |acts| && acts[i].Client? && !EndToEnd.IsReply(acts[i].ev) ::
             !CatchesVariant(acts[i].ev)
    ensures forall i | 0 <= i < |EndToEnd.Projected(acts)| :: !CatchesVariant(EndToEnd.Projected(acts)[i])
  {
    if acts == [] {
    } else {
      var before, act := acts[..|acts| - 1], acts[|acts| - 1];
      PlaysCatchFailedWrites(before);
      var w := EndToEnd.Play(before);
      if act.Calls? && EndToEnd.InCall(w.client, act.p) {
        EndToEnd.CallsAreNeverBlocked(w.server, EndToEnd.Sent(w.client, act.p), act.call);
      }
    }
  }

  /** So in every play the views agree unless the failure of a write in the device's own database is a case variant. */
  lemma ViewsAgreeInPlays(acts: seq<EndToEnd.Act>, t: Table, owner: string, issues: seq<Issue>, rows: seq<SnapRow>)
    requires forall i | 0 <= i < |acts| && acts[i].Client? && !EndToEnd.IsReply(acts[i].ev) ::
             !CatchesVariant(acts[i].ev)
    requires t == EndToEnd.Play(acts).client.table && IsListing(issues, t, owner) && IsSnapshot(rows, t, owner)
    ensures ViewsAgree(t, owner, issues, rows)
  {
    EndToEnd.PlaysAreRuns(acts);
    PlaysCatchFailedWrites(acts);
    ViewsAgreeOverRuns(EndToEnd.Projected(acts), t, owner, issues, rows);
  }

  lemma PlainViewsAgree(t: Table, owner: string, issues: seq<Issue>, rows: seq<SnapRow>)
    requires PlainTable(t)
    requires IsListing(issues, t, owner) && IsSnapshot(rows, t, owner)
    ensures ViewsAgree(t, owner, issues, rows)
  {
    OpenIssuesArePending(issues, t, owner);
    SnapshotSize(rows, t, owner);
    SubsetCount(Ids(rows), PendingIds(t, owner));
    DistinctIdsCount(rows);
    if |PendingIds(t, owner)| <= BATCH_LIMIT { NothingBetween(Ids(rows), PendingIds(t, owner)); }
  }

  lemma NothingBetween(a: set<string>, b: set<string>)
    requires a <= b && |b - a| == 0
    ensures a == b
  {
    assert b == a + (b - a);
  }

  /**
   When the write of an answered row fails in any run, the caught text is stored by the next write,
   and the counter and the issue list then agree on that row if and only if the text is no case variant.
   */
  lemma CaughtTextDecides(evs: seq<Event>, p: nat, message: Option<string>, issues: seq<Issue>)
    requires p in Run(INIT, evs).passes && Run(INIT, evs).passes[p].stage.Writing?
             && Run(INIT, evs).passes[p].stage.guarded
    requires IsListing(issues, Caught(evs, p, message).table, Run(INIT, evs).passes[p].owner)
    ensures var pass := Run(INIT, evs).passes[p];
            var id := CurrentRow(pass.stage.c).id;
            (id in OpenIds(issues) <==> id in PendingIds(Caught(evs, p, message).table, pass.owner)) <==>
            !CatchesVariant(PassTicks(p, WriteFails(message)))
  {
    var pass := Run(INIT, evs).passes[p];
    var k := Key(pass.owner, CurrentRow(pass.stage.c).id);
    CaughtTextIsStored(evs, p, message);
    ListedOpen(issues, Caught(evs, p, message).table, k);
    ViewsAgreeIff(Caught(evs, p, message).table[k]);
  }

  /** The input that splits them: a write that fails with the message "Terminal: x". */
  lemma CapitalisedFailureSplitsTheViews(evs: seq<Event>, p: nat, issues: seq<Issue>)
    requires p in Run(INIT, evs).passes && Run(INIT, evs).passes[p].stage.Writing?
             && Run(INIT, evs).passes[p].stage.guarded
    requires IsListing(issues, Caught(evs, p, Some("Terminal: x")).table, Run(INIT, evs).passes[p].owner)
    ensures var pass := Run(INIT, evs).passes[p];
            var id := CurrentRow(pass.stage.c).id;
            (id in OpenIds(issues)) != (id in PendingIds(Caught(evs, p, Some("Terminal: x")).table, pass.owner))
  {
    CapitalisedFailureIsVariant();
    CaughtTextDecides(evs, p, Some("Terminal: x"), issues);
  }

  /** The state after the write fails and the text of its failure lands. */
  ghost function Caught(evs: seq<Event>, p: nat, message: Option<string>): State
  {
    Step(Step(Run(INIT, evs), PassTicks(p, WriteFails(message))), PassTicks(p, WriteLands))
  }

  lemma CaughtTextIsStored(evs: seq<Event>, p: nat, message: Option<string>)
    requires p in Run(INIT, evs).passes && Run(INIT, evs).passes[p].stage.Writing?
             && Run(INIT, evs).passes[p].stage.guarded
    ensures var pass := Run(INIT, evs).passes[p];
            var k := Key(pass.owner, CurrentRow(pass.stage.c).id);
            k in Caught(evs, p, message).table && Caught(evs, p, message).table[k].lastError == Some(RawText(message))
  {
    RunKeepsInv(INIT, evs);
    var pass := Run(INIT, evs).passes[p];
    assert PassOk(Run(INIT, evs).table, pass);
    assert Current(Run(INIT, evs).table, pass.owner, CurrentRow(pass.stage.c));
  }

  /** A row is open in a listing exactly when it does not count as failed there. */
  lemma ListedOpen(issues: seq<Issue>, t: Table, k: Key)
    requires IsListing(issues, t, k.owner) && k in t
    ensures k.id in OpenIds(issues) <==> !Failed(t[k])
  {
    assert k.id in OwnIds(t, k.owner);
  }
}
