/**
 The store's module state and queue operations in their own imperative form, each proved against
 the table functions of QueueTable and DrainPass.
 */
module OfflineStore {
  import opened Wrappers
  import opened QueueTable
  import opened DrainPass

  /** One line of the issue list. */
  datatype Issue = Issue(id: string, kind: Kind, sessionId: string, error: string, failed: bool)

  const NO_OWNER := "Offline storage requires an authenticated account"
  const UNAVAILABLE := "Unavailable"
  const NO_DATABASE := "Offline queue is unavailable on this platform"

  /** The session id is "Unavailable" when it is absent or the evidence cannot be read this time. */
  function IssueOf(id: string, row: Row, opens: bool): Issue
  {
    Issue(id, row.kind,
          if row.evidence.Readable? && opens && row.evidence.payload.sessionId != ""
          then row.evidence.payload.sessionId else UNAVAILABLE,
          IssueError(row), Failed(row))
  }

  /**
   What the list shows of a row: the kind, the session if it can be read and is there, the error the store
   was told in its first 490 or 489 characters, and whether it was given up.
   */
  lemma IssueReads(id: string, row: Row, opens: bool, error: string)
    ensures var issue := IssueOf(id, row, opens);
            && issue.id == id && issue.kind == row.kind
            && (row.evidence.Corrupt? || !opens ==> issue.sessionId == "Unavailable")
            && (row.evidence.Readable? && opens && row.evidence.payload.sessionId != "" ==>
                  issue.sessionId == row.evidence.payload.sessionId)
            && (row.lastError == None ==> issue.error == "Awaiting server confirmation" && !issue.failed)
            && (row.lastError == Some(TerminalText(error)) ==> issue.error == Slice(error, 490) && issue.failed)
            && (row.lastError == Some(RetryableText(error)) ==> issue.error == Slice(error, 489) && !issue.failed)
  {
    TerminalTextReadsBack(error);
    RetryableTextReadsBack(error);
    var text := RetryableText(error);
    assert text[0] == 'r' && TERMINAL_TAG[0] == 't';
    assert TERMINAL_TAG <= TerminalText(error) by {
      assert TerminalText(error) == TERMINAL_TAG + (" " + Slice(error, 490));
    }
  }

  predicate InOrder(t: Table, owner: string, x: string, y: string)
    requires Key(owner, x) in t && Key(owner, y) in t
  {
    t[Key(owner, x)].createdAt <= t[Key(owner, y)].createdAt
  }

  /** The ids are the oldest `limit` of the wanted ones, each once, in creation order. */
  ghost predicate IsOldestFirst(ids: seq<string>, wanted: set<string>, t: Table, owner: string, limit: nat)
    requires forall x | x in wanted :: Key(owner, x) in t
  {
    && |ids| <= limit
    && (forall i | 0 <= i < |ids| :: ids[i] in wanted)
    && (forall i, j | 0 <= i < j < |ids| :: ids[i] != ids[j] && InOrder(t, owner, ids[i], ids[j]))
    && (forall x | x in wanted && x !in ids ::
          |ids| == limit && forall i | 0 <= i < |ids| :: InOrder(t, owner, ids[i], x))
  }

  lemma OldestFirstIsAll(ids: seq<string>, wanted: set<string>, t: Table, owner: string)
    requires forall x | x in wanted :: Key(owner, x) in t
    requires IsOldestFirst(ids, wanted, t, owner, |wanted|)
    ensures forall x | x in wanted :: x in ids
  {
    var taken := set x | x in ids;
    DistinctCount(ids);
    if x :| x in wanted && x !in ids {
      assert taken <= wanted - {x};
      SubsetCount(taken, wanted - {x});
    }
  }

  lemma {:induction false} DistinctCount(ids: seq<string>)
    requires forall i, j | 0 <= i < j < |ids| :: ids[i] != ids[j]
    ensures |set x | x in ids| == |ids|
  {
    if ids == [] {
    } else {
      var n := |ids| - 1;
      DistinctCount(ids[..n]);
      assert (set x | x in ids) == (set x | x in ids[..n]) + {ids[n]};
    }
  }

  /** The issue list shows every row of the owner once, in creation order. */
  ghost predicate IsListing(issues: seq<Issue>, t: Table, owner: string)
  {
    && (forall i | 0 <= i < |issues| ::
          && Key(owner, issues[i].id) in t
          && exists opens :: issues[i] == IssueOf(issues[i].id, t[Key(owner, issues[i].id)], opens))
    && (forall id | id in OwnIds(t, owner) :: exists i :: 0 <= i < |issues| && issues[i].id == id)
    && (forall i, j | 0 <= i < j < |issues| ::
          issues[i].id != issues[j].id && InOrder(t, owner, issues[i].id, issues[j].id))
  }

  class Store {
    const hasDatabase: bool
    var activeOwner: Option<string>
    var draining: bool
    var queue: Table

    constructor (hasDatabase: bool)
      ensures this.hasDatabase == hasDatabase && activeOwner == None && !draining && queue == map[]
    {
      this.hasDatabase := hasDatabase;
      activeOwner, draining, queue := None, false, map[];
    }

    method SetOfflineOwner(owner: Option<string>)
      modifies `activeOwner
      ensures activeOwner == owner
    {
      activeOwner := owner;
    }

    method EnqueueOfflineOperation(kind: Kind, payload: Payload, random: string, now: int)
      returns (error: Option<string>)
      modifies `queue
      ensures error == if !hasDatabase then Some(NO_DATABASE) else if activeOwner.None? then Some(NO_OWNER) else None
      ensures error.Some? ==> queue == old(queue)
      ensures error.None? ==>
                var k := Key(activeOwner.value, OperationId(kind, payload.attemptId, random));
                && k in queue && old(queue).Keys + {k} == queue.Keys
                && Named(k.id, kind, Readable(payload))
                && (k !in old(queue) ==> queue[k] == Row(kind, Readable(payload), 0, None, now))
                && forall other | other in old(queue) :: queue[other] == old(queue)[other]
    {
      if !hasDatabase { return Some(NO_DATABASE); }
      if activeOwner.None? { return Some(NO_OWNER); }
      var k := Key(activeOwner.value, OperationId(kind, payload.attemptId, random));
      if k !in queue {
        queue := queue[k := Row(kind, Readable(payload), 0, None, now)];
      }
      error := None;
    }

    method RetryOfflineOperation(id: string) returns (error: Option<string>)
      modifies `queue
      ensures error == if hasDatabase && activeOwner.None? then Some(NO_OWNER) else None
      ensures queue.Keys == old(queue).Keys
      ensures hasDatabase && activeOwner.Some? && Key(activeOwner.value, id) in queue ==>
                && id in PendingIds(queue, activeOwner.value)
                && queue[Key(activeOwner.value, id)] == old(queue)[Key(activeOwner.value, id)].(lastError := None)
      ensures forall k | k in queue && !(hasDatabase && activeOwner == Some(k.owner) && k.id == id) ::
                queue[k] == old(queue)[k]
      ensures queue == if hasDatabase && activeOwner.Some? then Reopened(old(queue), Key(activeOwner.value, id))
                       else old(queue)
    {
      if !hasDatabase { return None; }
      if activeOwner.None? { return Some(NO_OWNER); }
      var k := Key(activeOwner.value, id);
      if k in queue {
        queue := queue[k := queue[k].(lastError := None)];
      }
      error := None;
    }

    method GetPendingSyncCount() returns (count: nat)
      ensures count == if hasDatabase && activeOwner.Some? then |PendingIds(queue, activeOwner.value)| else 0
    {
      if !hasDatabase || activeOwner.None? { return 0; }
      count := 0;
      var rest := OwnIds(queue, activeOwner.value);
      ghost var counted: set<string> := {};
      while rest != {}
        invariant rest <= OwnIds(queue, activeOwner.value)
        invariant counted == PendingIds(queue, activeOwner.value) - rest && count == |counted|
        decreases rest
      {
        var id :| id in rest;
        var row := queue[Key(activeOwner.value, id)];
        if row.lastError.None? || !LikeTerminal(row.lastError.value) {
          count := count + 1;
          counted := counted + {id};
        }
        rest := rest - {id};
      }
    }

    /** The oldest of some of an owner's rows, as ORDER BY created_at yields them. */
    method Oldest(owner: string, ids: set<string>) returns (id: string)
      requires ids != {} && forall x | x in ids :: Key(owner, x) in queue
      ensures id in ids && forall x | x in ids :: queue[Key(owner, id)].createdAt <= queue[Key(owner, x)].createdAt
    {
      id :| id in ids;
      var rest := ids - {id};
      while rest != {}
        invariant id in ids && rest <= ids
        invariant forall x | x in ids - rest :: queue[Key(owner, id)].createdAt <= queue[Key(owner, x)].createdAt
        decreases rest
      {
        var x :| x in rest;
        if queue[Key(owner, x)].createdAt < queue[Key(owner, id)].createdAt { id := x; }
        rest := rest - {x};
      }
    }

    /** The oldest `limit` of some of an owner's rows, in creation order. */
    method OldestFirst(owner: string, wanted: set<string>, limit: nat) returns (ids: seq<string>)
      requires forall x | x in wanted :: Key(owner, x) in queue
      ensures IsOldestFirst(ids, wanted, queue, owner, limit)
    {
      ids := [];
      var rest := wanted;
      while rest != {} && |ids| < limit
        invariant |ids| <= limit && rest <= wanted
        invariant forall x :: x in ids <==> x in wanted && x !in rest
        invariant forall i, j | 0 <= i < j < |ids| :: ids[i] != ids[j] && InOrder(queue, owner, ids[i], ids[j])
        invariant forall i, x | 0 <= i < |ids| && x in rest :: InOrder(queue, owner, ids[i], x)
        decreases rest
      {
        var id := Oldest(owner, rest);
        ids := ids + [id];
        rest := rest - {id};
      }
    }

    /** One line per row of the active owner, oldest first. */
    method GetOfflineQueueIssues(opens: string -> bool) returns (issues: seq<Issue>)
      ensures !hasDatabase || activeOwner.None? ==> issues == []
      ensures hasDatabase && activeOwner.Some? ==> IsListing(issues, queue, activeOwner.value)
      ensures forall i | 0 <= i < |issues| ::
                issues[i] == IssueOf(issues[i].id, queue[Key(activeOwner.value, issues[i].id)], opens(issues[i].id))
    {
      issues := [];
      if !hasDatabase || activeOwner.None? { return; }
      var owner := activeOwner.value;
      var own := OwnIds(queue, owner);
      var ids := OldestFirst(owner, own, |own|);
      OldestFirstIsAll(ids, own, queue, owner);
      for i := 0 to |ids|
        invariant |issues| == i
        invariant forall j | 0 <= j < i :: issues[j] == IssueOf(ids[j], queue[Key(owner, ids[j])], opens(ids[j]))
      {
        issues := issues + [IssueOf(ids[i], queue[Key(owner, ids[i])], opens(ids[i]))];
      }
    }

    /** The drain query: the oldest hundred selectable rows. */
    method SelectForDrain(owner: string) returns (rows: seq<SnapRow>)
      ensures IsSnapshot(rows, queue, owner)
    {
      rows := [];
      var ids := OldestFirst(owner, PendingIds(queue, owner), BATCH_LIMIT);
      for i := 0 to |ids|
        invariant |rows| == i
        invariant forall j | 0 <= j < i :: rows[j].id == ids[j] && Current(queue, owner, rows[j])
      {
        var row := queue[Key(owner, ids[i])];
        rows := rows + [SnapRow(ids[i], row.kind, row.evidence, row.attempts)];
      }
      forall id | id in PendingIds(queue, owner) && id !in Ids(rows)
        ensures |rows| == BATCH_LIMIT
        ensures forall i | 0 <= i < |rows| :: InOrder(queue, owner, rows[i].id, id)
      {
        assert id !in ids by {
          if i :| 0 <= i < |ids| && ids[i] == id { assert rows[i].id == id; }
        }
      }
    }

    /**
     One pass. The script holds what the pass cannot know: the active owner each time it is read
     after an await, and what `send` answers. A second call while a pass runs joins it.
     */
    method DrainOfflineQueue(script: Script) returns (error: Option<string>, rows: seq<SnapRow>)
      modifies `queue, `draining
      ensures old(draining) ==> error == None && queue == old(queue) && draining
      ensures !old(draining) ==> !draining && error == if activeOwner.None? then Some(NO_OWNER) else None
      ensures !old(draining) && !(hasDatabase && activeOwner.Some?) ==> queue == old(queue)
      ensures !old(draining) && hasDatabase && activeOwner.Some? ==>
                && IsSnapshot(rows, old(queue), activeOwner.value)
                && queue == DrainFrom(old(queue), activeOwner.value, rows, script, 0)
    {
      rows := [];
      if draining { return None, rows; }
      if activeOwner.None? { return Some(NO_OWNER), rows; }
      var owner := activeOwner.value;
      draining := true;
      if hasDatabase {
        rows := SelectForDrain(owner);
        DrainRows(owner, rows, script);
      }
      draining := false;
      error := None;
    }

    /** The loop of a pass. */
    method DrainRows(owner: string, rows: seq<SnapRow>, script: Script)
      modifies `queue
      ensures queue == DrainFrom(old(queue), owner, rows, script, 0)
    {
      var i := 0;
      while i < |rows|
        invariant 0 <= i <= |rows|
        invariant DrainFrom(queue, owner, rows, script, i) == DrainFrom(old(queue), owner, rows, script, 0)
        decreases |rows| - i
      {
        var row := rows[i];
        var k := Key(owner, row.id);
        if script(i).head != Some(owner) { break; }
        if row.evidence.Corrupt? || !script(i).opens {
          UpdateFailure(k, row.attempts + 1, UNREADABLE);
          i := i + 1;
          continue;
        }
        if script(i).mid != Some(owner) { break; }
        match script(i).reply {
          case Pending =>
            i := i + 1;
            continue;
          case Terminal(text) =>
            UpdateFailure(k, row.attempts + 1, TerminalText(text));
            i := i + 1;
            continue;
          case Retryable(text) =>
            UpdateFailure(k, row.attempts + 1, RetryableText(text));
            break;
          case Thrown(message) =>
            UpdateFailure(k, row.attempts + 1, RawText(message));
            break;
          case _ =>
            queue := queue - {k};
            i := i + 1;
        }
      }
    }

    method UpdateFailure(k: Key, attempts: nat, error: string)
      modifies `queue
      ensures queue == Written(old(queue), k, Mark(attempts, error))
    {
      if k in queue {
        queue := queue[k := queue[k].(attempts := attempts, lastError := Some(error))];
      }
    }
  }

  // ---------------------------------------------------------------- issue list against counter

  function OpenIds(issues: seq<Issue>): (ids: set<string>)
    ensures forall i | 0 <= i < |issues| && !issues[i].failed :: issues[i].id in ids
    ensures forall id | id in ids :: exists i :: 0 <= i < |issues| && !issues[i].failed && issues[i].id == id
  {
    set i | 0 <= i < |issues| && !issues[i].failed :: issues[i].id
  }

  /** The issues a full listing shows as not failed are the pending ids, if no text is a case variant of the tag. */
  lemma OpenIssuesArePending(issues: seq<Issue>, t: Table, owner: string)
    requires IsListing(issues, t, owner)
    requires forall k | k in t && t[k].lastError.Some? :: !CaseVariant(t[k].lastError.value)
    ensures OpenIds(issues) == PendingIds(t, owner)
  {
    forall id ensures id in OpenIds(issues) <==> id in PendingIds(t, owner) {
      if Key(owner, id) in t {
        ViewsAgreeIff(t[Key(owner, id)]);
        assert id in OwnIds(t, owner) by { assert Key(owner, id).owner == owner; }
      }
    }
  }
}
