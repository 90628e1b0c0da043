/**
 The callback that `syncOfflineQueue` hands to the drain loop: what it answers for each kind of
 operation, as a function of the server's replies, and exactly when it gives an operation up.
 */
module SendCallback {
  import opened Wrappers
  import opened QueueTable
  import opened DrainPass

  /** An ApiRequestError, or any other thrown value (its message if it is an Error). */
  datatype Failure =
    | ApiError(status: int, code: string, message: string)
    | OtherError(text: Option<string>)

  /** The outcome of one awaited request. */
  datatype Http<+T> = Replied(value: T) | Raised(failure: Failure)

  datatype ScanResult = Recorded | Rejected(error: string, retryable: Option<bool>)

  datatype Batch = Queued(receiptId: string) | Processed(results: seq<ScanResult>)

  datatype Status = Completed(results: seq<ScanResult>) | Unfinished

  datatype Check = Check(success: bool, message: string, reason: string)

  /** The session fields that reconciliation reads; "" is an absent token. */
  datatype Session = Session(qrToken: string, startToken: string, endToken: string, ended: bool)

  const MAINTENANCE_NOTICE := "Polycheck is under maintenance — safe on this device; sync resumes when servers reopen"
  const SESSION_CHANGED := "Session changed on the server. Review it with your instructor."
  const SESSION_PENDING := "Session operation is still in progress"
  const NO_RESULT := "Attendance sync returned no result"
  const UNKNOWN_KIND := "Unknown offline operation. Contact support."

  const TERMINAL_EVIDENCE_FAILURES := [
    "signature is invalid",
    "does not match this session",
    "outside the session geofence",
    "mocked locations are not accepted",
    "location accuracy is too poor",
    "location fix is stale",
    "location uncertainty extends outside",
    "scan timestamp is invalid",
    "attendance window has expired",
    "already submitted for this session",
    "not enrolled in this section",
    "clientattemptid was already used"
  ]

  function Lower(text: string): (r: string)
    ensures |r| == |text|
  {
    seq(|text|, i requires 0 <= i < |text| => AsciiLower(text[i]))
  }

  predicate Includes(text: string, part: string)
  {
    exists i | 0 <= i <= |text| :: part <= text[i..]
  }

  predicate IsEvidenceFailure(error: string)
  {
    exists i | 0 <= i < |TERMINAL_EVIDENCE_FAILURES| :: Includes(Lower(error), TERMINAL_EVIDENCE_FAILURES[i])
  }

  function ClassifyAttendanceSyncError(error: string): Reply
  {
    if IsEvidenceFailure(error) then Terminal(error) else Retryable(error)
  }

  predicate IsMaintenance(f: Failure)
  {
    f.ApiError? && f.status == 503 && f.code == "system_maintenance"
  }

  /** The statuses with which the server refuses an operation for good. */
  predicate IsRefusal(f: Failure)
  {
    f.ApiError? && f.status in {400, 403, 404, 410, 422}
  }

  predicate IsConflict(f: Failure)
  {
    f.ApiError? && f.status == 409
  }

  function Message(f: Failure): string
  {
    match f
    case ApiError(_, _, message) => message
    case OtherError(text) => if text.Some? then text.value else "Sync failed"
  }

  /** The end of the catch block. */
  function OnFailure(f: Failure): Reply
  {
    if IsMaintenance(f) then Retryable(MAINTENANCE_NOTICE)
    else if IsRefusal(f) then Terminal(Message(f))
    else Retryable(Message(f))
  }

  // ---------------------------------------------------------------- attendance scans

  function OnResults(results: seq<ScanResult>): Reply
  {
    if results == [] then Retryable(NO_RESULT)
    else
      match results[0]
      case Recorded => Synced
      case Rejected(error, retryable) =>
        if retryable == Some(false) then Terminal(error) else ClassifyAttendanceSyncError(error)
  }

  /** `status` is what reading the receipt gives; it is consulted only if the batch was queued. */
  function SendScan(batch: Http<Batch>, status: Http<Status>): Reply
  {
    match batch
    case Raised(f) => OnFailure(f)
    case Replied(Processed(results)) => OnResults(results)
    case Replied(Queued(_)) =>
      match status
      case Raised(f) => OnFailure(f)
      case Replied(Unfinished) => Pending
      case Replied(Completed(results)) => OnResults(results)
  }

  // ---------------------------------------------------------------- scan attempts

  function SendAttempt(check: Http<Check>): Reply
  {
    match check
    case Raised(f) => OnFailure(f)
    case Replied(c) =>
      if c.success then Void
      else Terminal(if c.message != "" then c.message else if c.reason != "" then c.reason else "Check-in rejected")
  }

  // ---------------------------------------------------------------- session operations

  /** The token a session stores for a checkpoint; sessions without checkpoints use the plain one. */
  function Slot(session: Session, checkpoint: Checkpoint): string
  {
    match checkpoint
    case EndCheckpoint => session.endToken
    case StartCheckpoint => session.startToken
    case NoCheckpoint => session.qrToken
  }

  /** After a 409 the session read back from the server decides. */
  function Reconcile(activation: bool, payload: Payload, session: Session): Reply
  {
    var committed :=
      if activation then payload.token != "" && Slot(session, payload.checkpoint) == payload.token else session.ended;
    if committed then Synced
    else
      var changed := if activation then Slot(session, payload.checkpoint) != "" || session.ended else session.ended;
      if changed then Terminal(SESSION_CHANGED) else Retryable(SESSION_PENDING)
  }

  /** `reread` is what reading the session gives; it is consulted only after a 409. */
  function SendSession(activation: bool, payload: Payload, post: Http<()>, reread: Http<Session>): Reply
  {
    match post
    case Replied(_) => Void
    case Raised(f) =>
      if !IsConflict(f) then OnFailure(f)
      else
        match reread
        case Raised(g) => OnFailure(g)
        case Replied(session) => Reconcile(activation, payload, session)
  }

  // ---------------------------------------------------------------- the whole callback

  /** The server's side of one call: the reply to each request the callback may make. */
  datatype Answers = Answers(
    batch: Http<Batch>, status: Http<Status>, check: Http<Check>, session: Http<()>, reread: Http<Session>)

  function Send(kind: Kind, payload: Payload, a: Answers): Reply
  {
    match kind
    case AttendanceScan => SendScan(a.batch, a.status)
    case ScanAttempt => SendAttempt(a.check)
    case SessionActivation => SendSession(true, payload, a.session, a.reread)
    case SessionEnd => SendSession(false, payload, a.session, a.reread)
    case OtherKind(_) => Terminal(UNKNOWN_KIND)
  }

  /** The premise of the no-overtaking claims; and the callback itself never throws. */
  lemma OnlyScansPend(kind: Kind, payload: Payload, a: Answers)
    ensures Send(kind, payload, a).Pending? ==>
              kind.AttendanceScan? && a.batch.Replied? && a.batch.value.Queued? && a.status == Replied(Unfinished)
    ensures !Send(kind, payload, a).Thrown?
  {
  }

  /**
   A failure that says nothing about the operation: no reply, a timeout, a server fault, no login, too
   many requests.
   */
  predicate IsTransient(f: Failure)
  {
    f.OtherError? || !(400 <= f.status < 500) || f.status in {401, 408, 425, 429}
  }

  /** What becomes of a failure: maintenance is announced and waits, five statuses are final, all else waits. */
  lemma FailureReads(f: Failure)
    ensures f.ApiError? && f.status == 503 && f.code == "system_maintenance" ==>
              OnFailure(f) == Retryable(MAINTENANCE_NOTICE)
    ensures f.ApiError? && f.status in {400, 403, 404, 410, 422} ==> OnFailure(f) == Terminal(f.message)
    ensures f.ApiError? && f.status !in {400, 403, 404, 410, 422, 503} ==> OnFailure(f) == Retryable(f.message)
    ensures f == OtherError(None) ==> OnFailure(f) == Retryable("Sync failed")
    ensures f.OtherError? && f.text.Some? ==> OnFailure(f) == Retryable(f.text.value)
  {
  }

  /** The results a scan was given, inline or through its receipt. */
  function FinalResults(batch: Http<Batch>, status: Http<Status>): Option<seq<ScanResult>>
  {
    match batch
    case Replied(Processed(results)) => Some(results)
    case Replied(Queued(_)) => if status.Replied? && status.value.Completed? then Some(status.value.results) else None
    case Raised(_) => None
  }

  /** A scan leaves the queue exactly when the server's first final result records it. */
  lemma ScanSyncedIff(batch: Http<Batch>, status: Http<Status>)
    ensures SendScan(batch, status).Synced? <==>
              (var r := FinalResults(batch, status); r.Some? && r.value != [] && r.value[0] == Recorded)
    ensures !SendScan(batch, status).Void?
  {
  }

  /** The failure that ends a scan's exchange, if one does. */
  function ScanFailure(batch: Http<Batch>, status: Http<Status>): Option<Failure>
  {
    match batch
    case Raised(f) => Some(f)
    case Replied(Queued(_)) => if status.Raised? then Some(status.failure) else None
    case Replied(Processed(_)) => None
  }

  /**
   The failure that decides the answer, if one does: of the first request, the receipt read or the
   session read-back.
   */
  function DecidingFailure(kind: Kind, a: Answers): Option<Failure>
  {
    match kind
    case AttendanceScan => ScanFailure(a.batch, a.status)
    case ScanAttempt => if a.check.Raised? then Some(a.check.failure) else None
    case OtherKind(_) => None
    case _ =>
      if a.session.Replied? then None
      else if !IsConflict(a.session.failure) then Some(a.session.failure)
      else if a.reread.Raised? then Some(a.reread.failure)
      else None
  }

  /** Evidence survives every transient fault, of whichever request: the operation stays retryable. */
  lemma TransientFaultsKeepTheOperation(kind: Kind, payload: Payload, a: Answers)
    requires DecidingFailure(kind, a).Some? && IsTransient(DecidingFailure(kind, a).value)
    ensures Send(kind, payload, a).Retryable?
  {
  }

  /** A scan is given up exactly when the server evaluated and rejected it, or refused the request. */
  lemma ScanTerminalIff(batch: Http<Batch>, status: Http<Status>)
    ensures SendScan(batch, status).Terminal? <==>
              || (var f := ScanFailure(batch, status); f.Some? && IsRefusal(f.value))
              || (var r := FinalResults(batch, status);
                  && r.Some? && r.value != [] && r.value[0].Rejected?
                  && (r.value[0].retryable == Some(false) || IsEvidenceFailure(r.value[0].error)))
  {
  }

  /** An activation is given up exactly when it is refused, or conflicts with a different token or an ended session. */
  lemma ActivationTerminalIff(payload: Payload, post: Http<()>, reread: Http<Session>)
    ensures SendSession(true, payload, post, reread).Terminal? <==>
              && post.Raised?
              && (|| IsRefusal(post.failure)
                  || (IsConflict(post.failure) && reread.Raised? && IsRefusal(reread.failure))
                  || (&& IsConflict(post.failure) && reread.Replied?
                      && (payload.token == "" || Slot(reread.value, payload.checkpoint) != payload.token)
                      && (Slot(reread.value, payload.checkpoint) != "" || reread.value.ended)))
  {
  }

  /** An activation leaves the queue exactly when it succeeded, or a 409 hides its own token in its own slot. */
  lemma ActivationDoneIff(payload: Payload, post: Http<()>, reread: Http<Session>)
    ensures var r := SendSession(true, payload, post, reread);
            (r.Synced? || r.Void?) <==>
              || post.Replied?
              || (&& IsConflict(post.failure) && reread.Replied?
                  && payload.token != "" && Slot(reread.value, payload.checkpoint) == payload.token)
  {
  }

  /** A conflicting session end with a readable session is never terminal: it is synced or still in progress. */
  lemma EndConflictIsNeverTerminal(payload: Payload, f: Failure, session: Session)
    requires IsConflict(f)
    ensures SendSession(false, payload, Raised(f), Replied(session)) ==
            if session.ended then Synced else Retryable(SESSION_PENDING)
  {
  }

  /** The phrases by which the server says that it has judged the evidence and rejected it. */
  predicate IsListedPhrase(phrase: string)
  {
    || phrase == "signature is invalid" || phrase == "does not match this session"
    || phrase == "outside the session geofence" || phrase == "mocked locations are not accepted"
    || phrase == "location accuracy is too poor" || phrase == "location fix is stale"
    || phrase == "location uncertainty extends outside" || phrase == "scan timestamp is invalid"
    || phrase == "attendance window has expired" || phrase == "already submitted for this session"
    || phrase == "not enrolled in this section" || phrase == "clientattemptid was already used"
  }

  lemma ListedPhrases(phrase: string)
    ensures IsListedPhrase(phrase) <==> phrase in TERMINAL_EVIDENCE_FAILURES
  {
    var list := TERMINAL_EVIDENCE_FAILURES;
    assert |list| == 12;
    assert list[0] == "signature is invalid" && list[1] == "does not match this session";
    assert list[2] == "outside the session geofence" && list[3] == "mocked locations are not accepted";
    assert list[4] == "location accuracy is too poor" && list[5] == "location fix is stale";
    assert list[6] == "location uncertainty extends outside" && list[7] == "scan timestamp is invalid";
    assert list[8] == "attendance window has expired" && list[9] == "already submitted for this session";
    assert list[10] == "not enrolled in this section" && list[11] == "clientattemptid was already used";
  }

  lemma IncludesIff(text: string, part: string)
    ensures Includes(text, part) <==> exists before: string, after: string :: text == before + part + after
  {
    if i :| 0 <= i <= |text| && part <= text[i..] {
      assert text == text[..i] + part + text[i..][|part|..];
    }
    if before: string, after: string :| text == before + part + after {
      assert text[|before|..] == part + after;
    }
  }

  /** An error is terminal exactly when, in lower case, it contains a listed phrase; it is passed on as it is. */
  lemma ClassifiedTerminalIff(error: string)
    ensures ClassifyAttendanceSyncError(error) == Terminal(error) || ClassifyAttendanceSyncError(error) ==
            Retryable(error)
    ensures ClassifyAttendanceSyncError(error).Terminal? <==>
            exists phrase :: IsListedPhrase(phrase) && Includes(Lower(error), phrase)
  {
    if i :| 0 <= i < |TERMINAL_EVIDENCE_FAILURES| && Includes(Lower(error), TERMINAL_EVIDENCE_FAILURES[i]) {
      ListedPhrases(TERMINAL_EVIDENCE_FAILURES[i]);
    }
    if phrase :| IsListedPhrase(phrase) && Includes(Lower(error), phrase) {
      ListedPhrases(phrase);
    }
  }

  /** The letter case of the server's wording and the text around it make no difference. */
  lemma ClassificationIgnoresCaseAndContext(before: string, error: string, after: string)
    requires IsListedPhrase(Lower(error))
    ensures ClassifyAttendanceSyncError(before + error + after) == Terminal(before + error + after)
  {
    var text := before + error + after;
    assert Lower(text)[|before|..][..|error|] == Lower(error);
    assert Includes(Lower(text), Lower(error));
    ClassifiedTerminalIff(text);
  }
}
