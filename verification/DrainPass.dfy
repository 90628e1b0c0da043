/**
 One drain pass as a recursive function of the snapshot and of what happens while each row is
 handled, with its laws: a pointwise description, no overtaking, and the progress bound.
 */
module DrainPass {
  import opened Wrappers
  import opened QueueTable

  /** What the send callback answers, or throws. */
  datatype Reply =
    | Synced
    | Void
    | Pending
    | Terminal(error: string)
    | Retryable(error: string)
    | Thrown(message: Option<string>)

  /**
   The active owner at the loop head and after decryption, whether the key store lets decryption
   proceed, and the reply if the row is sent.
   */
  datatype Visit = Visit(head: Option<string>, opens: bool, mid: Option<string>, reply: Reply)

  type Script = nat -> Visit

  /** Decryption throws: the evidence is corrupt, or its key cannot be read this time. */
  predicate Unreadable(r: SnapRow, v: Visit)
  {
    r.evidence.Corrupt? || !v.opens
  }

  /** What a pass does about an answered row. */
  datatype Verdict = Leave | Settle(write: Write, stop: bool)

  function OnReply(attempts: nat, reply: Reply): Verdict
  {
    match reply
    case Pending => Leave
    case Terminal(error) => Settle(Mark(attempts + 1, TerminalText(error)), false)
    case Retryable(error) => Settle(Mark(attempts + 1, RetryableText(error)), true)
    case Thrown(message) => Settle(Mark(attempts + 1, RawText(message)), true)
    case Synced => Settle(Erase, false)
    case Void => Settle(Erase, false)
  }

  function DrainFrom(t: Table, owner: string, rows: seq<SnapRow>, script: Script, i: nat): Table
    requires i <= |rows|
    decreases |rows| - i
  {
    if i == |rows| || script(i).head != Some(owner) then t
    else
      var k := Key(owner, rows[i].id);
      if Unreadable(rows[i], script(i)) then
        DrainFrom(Written(t, k, Mark(rows[i].attempts + 1, UNREADABLE)), owner, rows, script, i + 1)
      else if script(i).mid != Some(owner) then t
      else
        match OnReply(rows[i].attempts, script(i).reply)
        case Leave => DrainFrom(t, owner, rows, script, i + 1)
        case Settle(write, stop) =>
          if stop then Written(t, k, write) else DrainFrom(Written(t, k, write), owner, rows, script, i + 1)
  }

  // ---------------------------------------------------------------- pointwise description

  function Lookup(t: Table, k: Key): Option<Row>
  {
    if k in t then Some(t[k]) else None
  }

  /** The row is handed to the send callback, provided the loop reaches it. */
  predicate IsSent(owner: string, r: SnapRow, v: Visit)
  {
    v.head == Some(owner) && !Unreadable(r, v) && v.mid == Some(owner)
  }

  /** The loop goes on to the next row. */
  predicate Continues(owner: string, r: SnapRow, v: Visit)
  {
    && v.head == Some(owner)
    && (Unreadable(r, v) || (v.mid == Some(owner) && !v.reply.Retryable? && !v.reply.Thrown?))
  }

  ghost predicate Reaches(owner: string, rows: seq<SnapRow>, script: Script, from: nat, j: nat)
  {
    forall i | from <= i < j && i < |rows| :: Continues(owner, rows[i], script(i))
  }

  /** The fate of a reached row, told without the loop. */
  function RowAfter(before: Option<Row>, owner: string, r: SnapRow, v: Visit): Option<Row>
  {
    if before.None? || v.head != Some(owner) then before
    else if Unreadable(r, v) then Some(before.value.(attempts := r.attempts + 1, lastError := Some(UNREADABLE)))
    else if v.mid != Some(owner) || v.reply.Pending? then before
    else if v.reply.Synced? || v.reply.Void? then None
    else
      var text := match v.reply
        case Terminal(error) => TerminalText(error)
        case Retryable(error) => RetryableText(error)
        case Thrown(message) => RawText(message)
        case _ => "";
      Some(before.value.(attempts := r.attempts + 1, lastError := Some(text)))
  }

  lemma {:induction false} OthersUntouched(t: Table, owner: string, rows: seq<SnapRow>, script: Script, i: nat, k: Key)
    requires i <= |rows|
    requires forall j | i <= j < |rows| :: k != Key(owner, rows[j].id)
    ensures Lookup(DrainFrom(t, owner, rows, script, i), k) == Lookup(t, k)
    decreases |rows| - i
  {
    if i == |rows| || script(i).head != Some(owner) {
    } else {
      var key := Key(owner, rows[i].id);
      if Unreadable(rows[i], script(i)) {
        OthersUntouched(Written(t, key, Mark(rows[i].attempts + 1, UNREADABLE)), owner, rows, script, i + 1, k);
      } else if script(i).mid == Some(owner) {
        match OnReply(rows[i].attempts, script(i).reply)
        case Leave => OthersUntouched(t, owner, rows, script, i + 1, k);
        case Settle(write, stop) =>
          if !stop { OthersUntouched(Written(t, key, write), owner, rows, script, i + 1, k); }
      }
    }
  }

  /** A pass changes nothing but the rows it reaches, and each of those exactly as its visit says. */
  lemma {:induction false} PassIsPointwise(t: Table, owner: string, rows: seq<SnapRow>, script: Script, i: nat, j: nat)
    requires DistinctIds(rows) && i <= j < |rows|
    ensures var k := Key(owner, rows[j].id);
            Lookup(DrainFrom(t, owner, rows, script, i), k) ==
            if Reaches(owner, rows, script, i, j) then RowAfter(Lookup(t, k), owner, rows[j], script(j))
            else Lookup(t, k)
    decreases |rows| - i
  {
    var k, key := Key(owner, rows[j].id), Key(owner, rows[i].id);
    if i < j {
      assert Reaches(owner, rows, script, i, j) <==>
        Continues(owner, rows[i], script(i)) && Reaches(owner, rows, script, i + 1, j);
      if script(i).head == Some(owner) {
        if Unreadable(rows[i], script(i)) {
          PassIsPointwise(Written(t, key, Mark(rows[i].attempts + 1, UNREADABLE)), owner, rows, script, i + 1, j);
        } else if script(i).mid == Some(owner) {
          match OnReply(rows[i].attempts, script(i).reply)
          case Leave => PassIsPointwise(t, owner, rows, script, i + 1, j);
          case Settle(write, stop) =>
            if !stop { PassIsPointwise(Written(t, key, write), owner, rows, script, i + 1, j); }
        }
      }
    } else {
      var after := FirstWrite(t, owner, rows, script, i);
      if Continues(owner, rows[i], script(i)) {
        OthersUntouched(after, owner, rows, script, i + 1, k);
      }
    }
  }

  function FirstWrite(t: Table, owner: string, rows: seq<SnapRow>, script: Script, i: nat): Table
    requires i < |rows|
  {
    var k := Key(owner, rows[i].id);
    if Unreadable(rows[i], script(i)) then Written(t, k, Mark(rows[i].attempts + 1, UNREADABLE))
    else
      match OnReply(rows[i].attempts, script(i).reply)
      case Leave => t
      case Settle(write, _) => Written(t, k, write)
  }

  /** The loop one row at a time. */
  lemma DrainUnfolds(t: Table, owner: string, rows: seq<SnapRow>, script: Script, i: nat)
    requires i < |rows| && script(i).head == Some(owner)
    ensures DrainFrom(t, owner, rows, script, i) ==
            if Continues(owner, rows[i], script(i)) then
              DrainFrom(FirstWrite(t, owner, rows, script, i), owner, rows, script, i + 1)
            else if !Unreadable(rows[i], script(i)) && script(i).mid != Some(owner) then t
            else FirstWrite(t, owner, rows, script, i)
  {
  }

  // ---------------------------------------------------------------- no overtaking

  /**
   When row j is sent, every earlier row of the snapshot has by the end of the pass left the queue
   or become terminal, unless its own reply was "pending".
   */
  lemma NoOvertaking(t: Table, owner: string, rows: seq<SnapRow>, script: Script, i: nat, j: nat)
    requires DistinctIds(rows) && i < j < |rows|
    requires Reaches(owner, rows, script, 0, j) && IsSent(owner, rows[j], script(j))
    ensures (!Unreadable(rows[i], script(i)) && script(i).reply.Pending?)
            || (var after := Lookup(DrainFrom(t, owner, rows, script, 0), Key(owner, rows[i].id));
                after.None? || !Selectable(after.value))
  {
    assert Reaches(owner, rows, script, 0, i);
    assert Continues(owner, rows[i], script(i));
    PassIsPointwise(t, owner, rows, script, 0, i);
    UnreadableIsTerminal();
    if script(i).reply.Terminal? { TerminalTextReadsBack(script(i).reply.error); }
  }

  // ---------------------------------------------------------------- progress

  /** The owner stays, and every send is answered synced or terminal. */
  ghost predicate AllSettle(owner: string, rows: seq<SnapRow>, script: Script)
  {
    forall i | 0 <= i < |rows| ::
      && script(i).head == Some(owner) && script(i).mid == Some(owner)
      && (script(i).reply.Synced? || script(i).reply.Void? || script(i).reply.Terminal?)
  }

  /** No pass turns a terminal row back or invents one: the pending ids only shrink. */
  lemma PassNeverRaisesPending(t: Table, owner: string, rows: seq<SnapRow>, script: Script)
    requires IsSnapshot(rows, t, owner)
    ensures PendingIds(DrainFrom(t, owner, rows, script, 0), owner) <= PendingIds(t, owner)
    ensures |PendingIds(DrainFrom(t, owner, rows, script, 0), owner)| <= |PendingIds(t, owner)|
  {
    var t' := DrainFrom(t, owner, rows, script, 0);
    forall id | id in PendingIds(t', owner) ensures id in PendingIds(t, owner) {
      KeptFromBefore(t, owner, rows, script, id);
    }
    SubsetCount(PendingIds(t', owner), PendingIds(t, owner));
  }

  lemma KeptFromBefore(t: Table, owner: string, rows: seq<SnapRow>, script: Script, id: string)
    requires IsSnapshot(rows, t, owner)
    requires id in PendingIds(DrainFrom(t, owner, rows, script, 0), owner)
    ensures id in PendingIds(t, owner)
  {
    var k := Key(owner, id);
    if j :| 0 <= j < |rows| && rows[j].id == id {
      assert Current(t, owner, rows[j]);
    } else {
      OthersUntouched(t, owner, rows, script, 0, k);
      assert Lookup(DrainFrom(t, owner, rows, script, 0), k) == Lookup(t, k);
    }
  }

  /** A pass in which everything settles takes exactly its snapshot out of the pending ids. */
  lemma SettledPassTakesItsSnapshot(t: Table, owner: string, rows: seq<SnapRow>, script: Script)
    requires IsSnapshot(rows, t, owner) && AllSettle(owner, rows, script)
    ensures PendingIds(DrainFrom(t, owner, rows, script, 0), owner) == PendingIds(t, owner) - Ids(rows)
  {
    var t' := DrainFrom(t, owner, rows, script, 0);
    forall id ensures id in PendingIds(t', owner) <==> id in PendingIds(t, owner) - Ids(rows) {
      var k := Key(owner, id);
      if j :| 0 <= j < |rows| && rows[j].id == id {
        assert Reaches(owner, rows, script, 0, j);
        PassIsPointwise(t, owner, rows, script, 0, j);
        UnreadableIsTerminal();
        if script(j).reply.Terminal? { TerminalTextReadsBack(script(j).reply.error); }
        assert Lookup(t', k).None? || !Selectable(t'[k]);
      } else {
        OthersUntouched(t, owner, rows, script, 0, k);
        assert Lookup(t', k) == Lookup(t, k);
      }
    }
  }

  /** t' is the outcome of some pass over t in which everything settles. */
  ghost predicate SettledPass(t: Table, t': Table, owner: string)
  {
    exists rows, script ::
      IsSnapshot(rows, t, owner) && AllSettle(owner, rows, script) && t' == DrainFrom(t, owner, rows, script, 0)
  }

  /** k such passes leave max(0, n - 100k) pending rows, whichever rows the ties pick. */
  lemma {:induction false} ProgressBound(tables: seq<Table>, owner: string)
    requires |tables| > 0
    requires forall i | 0 <= i < |tables| - 1 :: SettledPass(tables[i], tables[i + 1], owner)
    ensures var n, k := |PendingIds(tables[0], owner)|, |tables| - 1;
            |PendingIds(tables[k], owner)| == if n <= 100 * k then 0 else n - 100 * k
  {
    var k := |tables| - 1;
    if k == 0 {
    } else {
      ProgressBound(tables[..k], owner);
      assert SettledPass(tables[k - 1], tables[k - 1 + 1], owner);
      OneSettledPass(tables[k - 1], tables[k], owner);
    }
  }

  lemma OneSettledPass(t: Table, t': Table, owner: string)
    requires SettledPass(t, t', owner)
    ensures var n := |PendingIds(t, owner)|; |PendingIds(t', owner)| == if n <= BATCH_LIMIT then 0 else n - BATCH_LIMIT
  {
    var rows, script :| IsSnapshot(rows, t, owner) && AllSettle(owner, rows, script)
                        && t' == DrainFrom(t, owner, rows, script, 0);
    SettledPassTakesItsSnapshot(t, owner, rows, script);
    SnapshotSize(rows, t, owner);
    SubsetCount(Ids(rows), PendingIds(t, owner));
    DistinctIdsCount(rows);
  }

  /** So ceil(n / 100) passes empty the pending rows, and one fewer does not. */
  lemma PassesNeeded(tables: seq<Table>, owner: string)
    requires |tables| > 0
    requires forall i | 0 <= i < |tables| - 1 :: SettledPass(tables[i], tables[i + 1], owner)
    ensures PendingIds(tables[|tables| - 1], owner) == {}
            <==> |tables| - 1 >= (|PendingIds(tables[0], owner)| + 99) / 100
  {
    ProgressBound(tables, owner);
  }
}
