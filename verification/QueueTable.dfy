/**
 The `sync_queue_v2` table: its rows, the texts the store writes into `last_error`, the three
 views that read them (drain query, pending counter, issue list), and the query that picks the
 rows of one drain pass.
 */
module QueueTable {
  import opened Wrappers

  datatype Kind = AttendanceScan | ScanAttempt | SessionActivation | SessionEnd | OtherKind(name: string)

  datatype Checkpoint = NoCheckpoint | StartCheckpoint | EndCheckpoint

  /** The fields of a queued operation that matter to the queue or to the send callback; "" is an absent string. */
  datatype Payload =
    Payload(sessionId: string, checkpoint: Checkpoint, token: string, regenerate: bool, attemptId: string)

  /** What decrypting a stored payload gives. */
  datatype Evidence = Readable(payload: Payload) | Corrupt

  datatype Row = Row(kind: Kind, evidence: Evidence, attempts: nat, lastError: Option<string>, createdAt: int)

  /** The primary key (owner_id, id). */
  datatype Key = Key(owner: string, id: string)

  type Table = map<Key, Row>

  const BATCH_LIMIT: nat := 100

  // ---------------------------------------------------------------- operation ids

  function KindName(kind: Kind): string
  {
    match kind
    case AttendanceScan => "attendance_scan"
    case ScanAttempt => "scan_attempt"
    case SessionActivation => "session_activation"
    case SessionEnd => "session_end"
    case OtherKind(name) => name
  }

  /** A client attempt id names the operation; without one a random id does. */
  function OperationId(kind: Kind, attemptId: string, random: string): string
  {
    KindName(kind) + ":" + if attemptId != "" then attemptId else random
  }

  /** Some enqueue of this kind and evidence gives this id; unreadable evidence no longer tells which. */
  ghost predicate Named(id: string, kind: Kind, evidence: Evidence)
  {
    if evidence.Readable? then exists random :: id == OperationId(kind, evidence.payload.attemptId, random)
    else exists attemptId, random :: id == OperationId(kind, attemptId, random)
  }

  /** Ids of different kinds never meet, and those of one kind are told apart by what follows the kind. */
  lemma OperationIdsAreInjective(a: Kind, b: Kind, x: string, y: string, rx: string, ry: string)
    requires !a.OtherKind? && !b.OtherKind?
    requires OperationId(a, x, rx) == OperationId(b, y, ry)
    ensures a == b && (if x != "" then x else rx) == (if y != "" then y else ry)
  {
    var id := OperationId(a, x, rx);
    assert id[0] == KindName(a)[0] && id[1] == KindName(a)[1] && id[8] == KindName(a)[8];
    assert id[0] == KindName(b)[0] && id[1] == KindName(b)[1] && id[8] == KindName(b)[8];
    assert a == b;
    assert id[|KindName(a)| + 1..] == if x != "" then x else rx;
    assert id[|KindName(a)| + 1..] == if y != "" then y else ry;
  }

  /** One id cannot serve two attempts, nor two kinds. */
  lemma NamesTellTheAttempt(id: string, a: Kind, p: Payload, b: Kind, q: Payload)
    requires Named(id, a, Readable(p)) && Named(id, b, Readable(q)) && !a.OtherKind? && !b.OtherKind?
    ensures a == b && (p.attemptId != "" && q.attemptId != "" ==> p.attemptId == q.attemptId)
  {
    var rp :| id == OperationId(a, p.attemptId, rp);
    var rq :| id == OperationId(b, q.attemptId, rq);
    OperationIdsAreInjective(a, b, p.attemptId, q.attemptId, rp, rq);
  }

  // ---------------------------------------------------------------- last_error

  const TERMINAL_TAG := "terminal:"
  const RETRYABLE_TAG := "retryable:"
  const UNREADABLE := TERMINAL_TAG + " Saved evidence could not be read. Contact support."
  const AWAITING := "Awaiting server confirmation"

  /** `text.slice(0, n)` */
  function Slice(text: string, n: nat): (r: string)
    ensures r <= text && |r| == if |text| <= n then |text| else n
  {
    if |text| <= n then text else text[..n]
  }

  function TerminalText(error: string): string { TERMINAL_TAG + " " + Slice(error, 490) }

  function RetryableText(error: string): string { RETRYABLE_TAG + " " + Slice(error, 489) }

  /** The text of a thrown value: an Error's message, or a fixed text for anything else. */
  function RawText(message: Option<string>): string
  {
    match message
    case Some(text) => Slice(text, 500)
    case None => "Sync failed"
  }

  function AsciiLower(c: char): char
  {
    if 'A' <= c <= 'Z' then c - 'A' + 'a' else c
  }

  /** SQLite's `text LIKE 'terminal:%'`, which ignores the case of ASCII letters. */
  predicate LikeTerminal(text: string)
  {
    |text| >= |TERMINAL_TAG| && forall i | 0 <= i < |TERMINAL_TAG| :: AsciiLower(text[i]) == TERMINAL_TAG[i]
  }

  /** The WHERE clause of the drain query and of the pending counter. */
  predicate Selectable(row: Row)
  {
    row.lastError.None? || !LikeTerminal(row.lastError.value)
  }

  /** The `failed` flag of the issue list, which uses `startsWith`. */
  predicate Failed(row: Row)
  {
    row.lastError.Some? && TERMINAL_TAG <= row.lastError.value
  }

  /** `text.replace(/^(terminal|retryable): /, '')` */
  function StripTag(text: string): string
  {
    if TERMINAL_TAG + " " <= text then text[|TERMINAL_TAG| + 1..]
    else if RETRYABLE_TAG + " " <= text then text[|RETRYABLE_TAG| + 1..]
    else text
  }

  function IssueError(row: Row): string
  {
    match row.lastError
    case Some(text) => StripTag(text)
    case None => AWAITING
  }

  /** A text that LIKE matches and startsWith does not, such as "Terminal: x". */
  predicate CaseVariant(text: string)
  {
    LikeTerminal(text) && !(TERMINAL_TAG <= text)
  }

  lemma TaggedIsLikeTerminal(text: string)
    requires TERMINAL_TAG <= text
    ensures LikeTerminal(text) && !CaseVariant(text)
  {
    assert text[..|TERMINAL_TAG|] == TERMINAL_TAG;
  }

  /** A terminal text reads back as the first 490 characters of the error and is terminal for every view. */
  lemma TerminalTextReadsBack(error: string)
    ensures |TerminalText(error)| <= 500
    ensures StripTag(TerminalText(error)) == Slice(error, 490)
    ensures LikeTerminal(TerminalText(error)) && !CaseVariant(TerminalText(error))
  {
    var text := TerminalText(error);
    assert text == (TERMINAL_TAG + " ") + Slice(error, 490);
    TaggedIsLikeTerminal(text);
  }

  /** A retryable text reads back as the first 489 characters of the error and stays selectable. */
  lemma RetryableTextReadsBack(error: string)
    ensures |RetryableText(error)| <= 500
    ensures StripTag(RetryableText(error)) == Slice(error, 489)
    ensures !LikeTerminal(RetryableText(error))
  {
    var text := RetryableText(error);
    assert text == (RETRYABLE_TAG + " ") + Slice(error, 489);
    assert text[0] == 'r';
  }

  /** A thrown message is kept in its first 500 characters; any other thrown value has a fixed text. */
  lemma RawTextReadsBack(message: string)
    ensures RawText(Some(message)) <= message && RawText(None) == "Sync failed"
    ensures |RawText(Some(message))| == if |message| <= 500 then |message| else 500
  {
  }

  lemma UnreadableIsTerminal()
    ensures |UNREADABLE| <= 500 && LikeTerminal(UNREADABLE) && !CaseVariant(UNREADABLE)
  {
    TaggedIsLikeTerminal(UNREADABLE);
  }

  /** The three views split the rows the same way exactly when no text is a case variant of the tag. */
  lemma ViewsAgreeIff(row: Row)
    ensures (Selectable(row) <==> !Failed(row)) <==> !(row.lastError.Some? && CaseVariant(row.lastError.value))
  {
    if row.lastError.Some? && TERMINAL_TAG <= row.lastError.value {
      assert row.lastError.value[..9] == TERMINAL_TAG;
    }
  }

  /**
   The case variants exist: a failure with the message "Terminal: x" is skipped by the drain yet listed
   as not failed.
   */
  lemma CapitalisedFailureIsVariant()
    ensures CaseVariant(RawText(Some("Terminal: x")))
  {
    var text := "Terminal: x";
    assert text[0] != TERMINAL_TAG[0];
    assert forall i | 0 <= i < 9 :: AsciiLower(text[i]) == TERMINAL_TAG[i];
  }

  // ---------------------------------------------------------------- views

  function OwnIds(t: Table, owner: string): set<string>
  {
    set k | k in t && k.owner == owner :: k.id
  }

  /** The ids counted by `getPendingSyncCount` and open to the drain query. */
  function PendingIds(t: Table, owner: string): (ids: set<string>)
    ensures forall id :: id in ids <==> Key(owner, id) in t && Selectable(t[Key(owner, id)])
  {
    set k | k in t && k.owner == owner && Selectable(t[k]) :: k.id
  }

  // ---------------------------------------------------------------- drain query

  /** The columns the drain query reads. */
  datatype SnapRow = SnapRow(id: string, kind: Kind, evidence: Evidence, attempts: nat)

  predicate DistinctIds(rows: seq<SnapRow>)
  {
    forall i, j | 0 <= i < j < |rows| :: rows[i].id != rows[j].id
  }

  /** The snapshot row still describes a selectable row of the table. */
  predicate Current(t: Table, owner: string, r: SnapRow)
  {
    var k := Key(owner, r.id);
    && k in t && Selectable(t[k])
    && t[k].kind == r.kind && t[k].evidence == r.evidence && t[k].attempts == r.attempts
  }

  /**
   `SELECT … WHERE owner_id = ? AND (not terminal) ORDER BY created_at ASC LIMIT 100`. Rows created
   in the same millisecond come in any order, so this is a relation and not a function.
   */
  ghost predicate IsSnapshot(rows: seq<SnapRow>, t: Table, owner: string)
  {
    && DistinctIds(rows)
    && |rows| <= BATCH_LIMIT
    && (forall i | 0 <= i < |rows| :: Current(t, owner, rows[i]))
    && (forall i, j | 0 <= i < j < |rows| ::
          t[Key(owner, rows[i].id)].createdAt <= t[Key(owner, rows[j].id)].createdAt)
    && (forall id | id in PendingIds(t, owner) && id !in Ids(rows) ::
          && |rows| == BATCH_LIMIT
          && forall i | 0 <= i < |rows| :: t[Key(owner, rows[i].id)].createdAt <= t[Key(owner, id)].createdAt)
  }

  function Ids(rows: seq<SnapRow>): (ids: set<string>)
    ensures forall i | 0 <= i < |rows| :: rows[i].id in ids
    ensures forall id | id in ids :: exists i :: 0 <= i < |rows| && rows[i].id == id
  {
    set i | 0 <= i < |rows| :: rows[i].id
  }

  lemma {:induction false} DistinctIdsCount(rows: seq<SnapRow>)
    requires DistinctIds(rows)
    ensures |Ids(rows)| == |rows|
  {
    if rows == [] {
    } else {
      var n := |rows| - 1;
      DistinctIdsCount(rows[..n]);
      IdsOfFront(rows);
    }
  }

  lemma IdsOfFront(rows: seq<SnapRow>)
    requires rows != [] && DistinctIds(rows)
    ensures var n := |rows| - 1; Ids(rows) == Ids(rows[..n]) + {rows[n].id} && rows[n].id !in Ids(rows[..n])
  {
    var n := |rows| - 1;
    forall i | 0 <= i < n ensures rows[i].id in Ids(rows[..n]) { assert rows[..n][i] == rows[i]; }
    forall id | id in Ids(rows[..n]) ensures id in Ids(rows) && id != rows[n].id {
      var i :| 0 <= i < n && rows[..n][i].id == id;
      assert rows[i].id == id;
    }
  }

  /** A pass looks at min(100, pending) rows. */
  lemma SnapshotSize(rows: seq<SnapRow>, t: Table, owner: string)
    requires IsSnapshot(rows, t, owner)
    ensures Ids(rows) <= PendingIds(t, owner)
    ensures |rows| == if |PendingIds(t, owner)| <= 100 then |PendingIds(t, owner)| else 100
  {
    DistinctIdsCount(rows);
    var pending := PendingIds(t, owner);
    forall id | id in Ids(rows) ensures id in pending {
      var i :| 0 <= i < |rows| && rows[i].id == id;
      assert Current(t, owner, rows[i]);
    }
    SubsetCount(Ids(rows), pending);
    if |rows| < BATCH_LIMIT {
      assert pending <= Ids(rows);
      assert pending == Ids(rows);
    }
  }

  lemma SubsetCount<T>(a: set<T>, b: set<T>)
    requires a <= b
    ensures |b - a| == |b| - |a|
  {
    assert b == a + (b - a);
  }

  // ---------------------------------------------------------------- writes

  datatype Write = Erase | Mark(attempts: nat, error: string)

  /** DELETE, or UPDATE of attempts and last_error; an UPDATE of an absent row does nothing. */
  function Written(t: Table, k: Key, w: Write): Table
  {
    match w
    case Erase => t - {k}
    case Mark(attempts, error) =>
      if k in t then t[k := t[k].(attempts := attempts, lastError := Some(error))] else t
  }

  /** `INSERT OR IGNORE` */
  function Inserted(t: Table, k: Key, kind: Kind, evidence: Evidence, createdAt: int): Table
  {
    if k in t then t else t[k := Row(kind, evidence, 0, None, createdAt)]
  }

  /** `UPDATE … SET last_error = NULL` */
  function Reopened(t: Table, k: Key): Table
  {
    if k in t then t[k := t[k].(lastError := None)] else t
  }
}
