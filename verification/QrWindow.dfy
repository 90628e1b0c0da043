/**
 Signed QR windows: the two generators, the two offline checkers, and their agreement on which
 capture times count and how. Signatures, PIN hashes and geofences are abstract: a checker is told
 what verification and the geofence test gave.
 */
module QrWindow {
  import opened Wrappers
  import opened TrustedClock

  datatype Mode = InPerson | Online

  datatype Point = NoPoint | StartPoint | EndPoint

  /** The signed fields that the window depends on; instants are milliseconds. */
  datatype Token = Token(
    issuedAt: int, validityMinutes: real, graceMinutes: real, validitySeconds: Option<real>, mode: Mode,
    checkpoint: Point)

  /** What the generator caches for offline use when the network is down. */
  datatype Issued = Issued(token: Token, expiresAt: int)

  /** `new Date(x).getTime()`, which drops the fraction of a millisecond. */
  function DateTime(x: real): int
  {
    if x >= 0.0 then x.Floor else -((-x).Floor)
  }

  // ---------------------------------------------------------------- generators

  /** None stands for a thrown validation error. */
  function GenerateQrCode(issuedAt: int, validityMinutes: real, grace: Option<real>, sessionGrace: real): Option<Issued>
  {
    var effective := if grace.Some? then grace.value else if sessionGrace < 60.0 then sessionGrace else 60.0;
    if validityMinutes < 1.0 || validityMinutes > 15.0 || (grace.Some? && grace.value > 60.0) then None
    else if effective < 0.0 || effective > 60.0 then None
    else Some(Issued(Token(issuedAt, validityMinutes, effective, None, InPerson, NoPoint),
                     DateTime(issuedAt as real + validityMinutes * 60000.0)))
  }

  function Ceil(x: real): int { -((-x).Floor) }

  /** The checkpoint is "start" or "end" by type. */
  function GenerateCheckpointQrCode(issuedAt: int, atEnd: bool, validitySeconds: real, grace: Option<real>,
      online: bool): Option<Issued>
  {
    var effective := if atEnd then 0.0 else if grace.Some? then grace.value else 10.0;
    if validitySeconds != validitySeconds.Floor as real || validitySeconds < 60.0 || validitySeconds > 300.0 then None
    else if !atEnd && (effective < 0.0 || effective > 60.0) then None
    else if !online then None
    else Some(Issued(Token(issuedAt, Ceil(validitySeconds / 60.0) as real, effective, Some(validitySeconds), Online,
                           if atEnd then EndPoint else StartPoint),
                     DateTime(issuedAt as real + validitySeconds * 1000.0)))
  }

  /** Every token that either generator can sign, with the expiry it caches. */
  ghost predicate CanIssue(i: Issued)
  {
    || (exists at, minutes, grace, sessionGrace :: GenerateQrCode(at, minutes, grace, sessionGrace) == Some(i))
    || (exists at, atEnd, seconds, grace, online ::
          GenerateCheckpointQrCode(at, atEnd, seconds, grace, online) == Some(i))
  }

  // ---------------------------------------------------------------- windows

  function ValidityEnd(t: Token): real
  {
    t.issuedAt as real +
    if t.validitySeconds.Some? then t.validitySeconds.value * 1000.0 else t.validityMinutes * 60000.0
  }

  function GraceEnd(t: Token): real
  {
    ValidityEnd(t) + if t.checkpoint.EndPoint? then 0.0 else t.graceMinutes * 60000.0
  }

  datatype Leg = Present | Late

  // ---------------------------------------------------------------- submitScan, offline branch

  /** The scan's surroundings; a capture time of None is an unparsable timestamp. */
  datatype Scan = Scan(
    hasToken: bool, verified: Option<Token>, hasSession: bool, mocked: bool, hasLocation: bool, insideGeofence: bool,
    accuracyMeters: real, locationCapturedAt: Option<int>, capturedAt: Option<int>, deviceFlagged: bool)

  datatype Status = SPresent | SLate | SPending | SDisputed

  datatype ScanResult = Refused(error: string) | Saved(status: Status, checkIn: Option<Leg>, checkOut: Option<Leg>)

  const EXPIRED := "The QR attendance window has expired"

  function SubmitScanOffline(s: Scan): ScanResult
  {
    if !s.hasToken then Refused("QR token is required")
    else if s.verified.None? then Refused("QR token signature is invalid")
    else
      var t := s.verified.value;
      if t.mode.InPerson? && s.mocked then Refused("Mocked locations are not accepted")
      else if !s.hasSession then Refused("Session data is not available offline. Sync before class.")
      else if t.mode.InPerson? && !s.hasLocation then Refused("Location is required for in-person attendance.")
      else if t.mode.InPerson? && !s.insideGeofence then Refused("You are outside the session geofence")
      else if t.mode.InPerson? && s.accuracyMeters > 50.0 then
        Refused("Location accuracy is too poor to verify attendance")
      else if t.mode.InPerson? && s.locationCapturedAt.Some? && s.capturedAt.Some?
              && !(-120000 <= s.capturedAt.value - s.locationCapturedAt.value <= 120000)
      then Refused("Location fix is stale. Acquire a fresh location and try again.")
      else if s.capturedAt.None? || s.capturedAt.value < t.issuedAt - 30000 || s.capturedAt.value as real > GraceEnd(t)
      then Refused(EXPIRED)
      else
        var leg := if s.capturedAt.value as real <= ValidityEnd(t) then Present else Late;
        var status :=
          if s.deviceFlagged then SDisputed
          else if t.mode.Online? then SPending
          else if leg.Present? then SPresent else SLate;
        if t.mode.InPerson? then Saved(status, None, None)
        else if t.checkpoint.EndPoint? then Saved(status, None, Some(Present))
        else Saved(status, Some(leg), None)
  }

  // ---------------------------------------------------------------- checkAttendance, offline branch

  datatype Check = Check(
    hasSessionAndToken: bool, clockOffset: Option<int>, verified: Option<Token>, belongsToSession: bool,
    insideGeofence: bool, endedAt: Option<int>, capturedAt: Option<int>)

  datatype CheckResult = NotSynced | InvalidSignature | OutsideGeofence | SessionInactive | QrExpired | Queued(leg: Leg)

  function CheckAttendanceOffline(c: Check): CheckResult
  {
    if !c.hasSessionAndToken || c.clockOffset.None? then NotSynced
    else if c.verified.None? || !c.belongsToSession then InvalidSignature
    else
      var t := c.verified.value;
      if t.mode.InPerson? && !c.insideGeofence then OutsideGeofence
      else if c.endedAt.Some? && c.capturedAt.Some? && c.capturedAt.value > c.endedAt.value then SessionInactive
      else if c.capturedAt.None? || c.capturedAt.value < t.issuedAt - 30000 || c.capturedAt.value as real > GraceEnd(t)
      then QrExpired
      else Queued(if c.capturedAt.value as real <= ValidityEnd(t) then Present else Late)
  }

  // ---------------------------------------------------------------- who passes

  /** Captured no later than the end of validity: seconds if the token has them, minutes otherwise. */
  predicate InValidity(t: Token, at: int)
  {
    match t.validitySeconds
    case Some(seconds) => at as real <= t.issuedAt as real + seconds * 1000.0
    case None => at as real <= t.issuedAt as real + t.validityMinutes * 60000.0
  }

  /** Captured at most 30 s before issuance and no later than validity plus grace; an end checkpoint has no grace. */
  predicate InWindow(t: Token, at: int)
  {
    && at >= t.issuedAt - 30000
    && if t.checkpoint.EndPoint? then InValidity(t, at)
       else
         match t.validitySeconds
         case Some(seconds) => at as real <= t.issuedAt as real + seconds * 1000.0 + t.graceMinutes * 60000.0
         case None => at as real <= t.issuedAt as real + t.validityMinutes * 60000.0 + t.graceMinutes * 60000.0
  }

  /** What an in-person scan has to bring: a real, accurate location inside the geofence, fixed within two minutes. */
  predicate LocationInOrder(s: Scan)
  {
    && !s.mocked && s.hasLocation && s.insideGeofence && s.accuracyMeters <= 50.0
    && (s.locationCapturedAt.Some? && s.capturedAt.Some? ==>
          s.capturedAt.value - 120000 <= s.locationCapturedAt.value <= s.capturedAt.value + 120000)
  }

  /**
   A scan is saved offline exactly when its token verifies, its session is cached, an in-person scan
   brings a location in order, and it was captured inside the window.
   */
  lemma ScanSavedIff(s: Scan)
    ensures SubmitScanOffline(s).Saved? <==>
            && s.hasToken && s.verified.Some? && s.hasSession
            && s.capturedAt.Some? && InWindow(s.verified.value, s.capturedAt.value)
            && (s.verified.value.mode.InPerson? ==> LocationInOrder(s))
  {
  }

  /** What a saved scan records: a flag disputes it, online ones wait, and in person the capture time decides. */
  lemma SavedScanReads(s: Scan)
    requires SubmitScanOffline(s).Saved?
    ensures var r, t := SubmitScanOffline(s), s.verified.value;
            var leg := if InValidity(t, s.capturedAt.value) then Present else Late;
            && (r.status.SDisputed? <==> s.deviceFlagged)
            && (r.status.SPending? <==> !s.deviceFlagged && t.mode.Online?)
            && (r.status.SPresent? <==> !s.deviceFlagged && t.mode.InPerson? && leg.Present?)
            && (r.status.SLate? <==> !s.deviceFlagged && t.mode.InPerson? && leg.Late?)
            && r.checkIn == (if t.mode.Online? && !t.checkpoint.EndPoint? then Some(leg) else None)
            && r.checkOut == (if t.mode.Online? && t.checkpoint.EndPoint? then Some(Present) else None)
  {
  }

  /** Which fault a refusal names, when a scan has several. */
  lemma RefusalNamesTheFirstFault(s: Scan)
    requires s.hasToken && s.verified.Some?
    ensures var r, inPerson := SubmitScanOffline(s), s.verified.value.mode.InPerson?;
            && (inPerson && s.mocked ==> r == Refused("Mocked locations are not accepted"))
            && (!(inPerson && s.mocked) && !s.hasSession ==>
                  r == Refused("Session data is not available offline. Sync before class."))
            && (inPerson && !s.mocked && s.hasSession ==>
                  && (!s.hasLocation ==> r == Refused("Location is required for in-person attendance."))
                  && (s.hasLocation && !s.insideGeofence ==> r == Refused("You are outside the session geofence"))
                  && (s.hasLocation && s.insideGeofence && s.accuracyMeters > 50.0 ==>
                        r == Refused("Location accuracy is too poor to verify attendance"))
                  && (s.hasLocation && s.insideGeofence && s.accuracyMeters <= 50.0 && !LocationInOrder(s) ==>
                        r == Refused("Location fix is stale. Acquire a fresh location and try again.")))
            && (s.hasSession && (inPerson ==> LocationInOrder(s))
                && (s.capturedAt.None? || !InWindow(s.verified.value, s.capturedAt.value)) ==>
                  r == Refused("The QR attendance window has expired"))
  {
  }

  /**
   A check is queued exactly when class data, token and clock offset are there, the token verifies and
   belongs to the session, an in-person check is inside the geofence, and it was captured inside the
   window and not after the session's end.
   */
  lemma CheckQueuedIff(c: Check)
    ensures CheckAttendanceOffline(c).Queued? <==>
            && c.hasSessionAndToken && c.clockOffset.Some? && c.verified.Some? && c.belongsToSession
            && (c.verified.value.mode.InPerson? ==> c.insideGeofence)
            && c.capturedAt.Some? && InWindow(c.verified.value, c.capturedAt.value)
            && (c.endedAt.Some? ==> c.capturedAt.value <= c.endedAt.value)
    ensures CheckAttendanceOffline(c).Queued? ==>
              (CheckAttendanceOffline(c).leg.Present? <==> InValidity(c.verified.value, c.capturedAt.value))
  {
  }

  /** Every check that is not queued names a fault it has. */
  lemma CheckNamesAFault(c: Check)
    ensures match CheckAttendanceOffline(c)
            case NotSynced => !c.hasSessionAndToken || c.clockOffset.None?
            case InvalidSignature => c.verified.None? || !c.belongsToSession
            case OutsideGeofence => c.verified.Some? && c.verified.value.mode.InPerson? && !c.insideGeofence
            case SessionInactive => c.endedAt.Some? && c.capturedAt.Some? && c.capturedAt.value > c.endedAt.value
            case QrExpired =>
              c.verified.Some? && (c.capturedAt.None? || !InWindow(c.verified.value, c.capturedAt.value))
            case Queued(_) => true
  {
  }

  /** Which in-person tokens are issued, and what they say. */
  lemma QrCodeIssuedIff(issuedAt: int, minutes: real, grace: Option<real>, sessionGrace: real)
    ensures var r := GenerateQrCode(issuedAt, minutes, grace, sessionGrace);
            var effective := if grace.Some? then grace.value else if sessionGrace <= 60.0 then sessionGrace else 60.0;
            && (r.Some? <==> 1.0 <= minutes <= 15.0 && 0.0 <= effective <= 60.0)
            && (r.Some? ==> r.value.token == Token(issuedAt, minutes, effective, None, InPerson, NoPoint))
  {
  }

  /** Which checkpoint tokens are issued, and what they say. */
  lemma CheckpointIssuedIff(issuedAt: int, atEnd: bool, seconds: int, grace: Option<real>, online: bool)
    ensures var r := GenerateCheckpointQrCode(issuedAt, atEnd, seconds as real, grace, online);
            && (r.Some? <==> 60 <= seconds <= 300 && online && (!atEnd && grace.Some? ==> 0.0 <= grace.value <= 60.0))
            && (r.Some? ==>
                  && r.value.token.issuedAt == issuedAt && r.value.token.mode.Online?
                  && r.value.token.validitySeconds == Some(seconds as real)
                  && r.value.token.checkpoint == (if atEnd then EndPoint else StartPoint)
                  && r.value.token.graceMinutes == (if atEnd then 0.0 else if grace.Some? then grace.value else 10.0)
                  && r.value.token.validityMinutes == ((seconds + 59) / 60) as real)
  {
    if 60 <= seconds <= 300 { CeilOfMinutes(seconds); }
  }

  lemma CeilOfMinutes(seconds: int)
    requires 60 <= seconds <= 300
    ensures Ceil(seconds as real / 60.0) == (seconds + 59) / 60
  {
    var up := (seconds + 59) / 60;
    assert 60 * (up - 1) < seconds <= 60 * up;
    assert (up - 1) as real < seconds as real / 60.0 <= up as real;
  }

  // ---------------------------------------------------------------- agreement

  /** Everything but the capture time is in order for submitScan. */
  predicate ScanReady(s: Scan, t: Token)
  {
    && s.hasToken && s.verified == Some(t) && s.hasSession
    && (t.mode.InPerson? ==>
          && !s.mocked && s.hasLocation && s.insideGeofence && s.accuracyMeters <= 50.0
          && (s.locationCapturedAt.Some? && s.capturedAt.Some? ==>
                -120000 <= s.capturedAt.value - s.locationCapturedAt.value <= 120000))
  }

  /** Everything but the capture time is in order for checkAttendance, and the session has not ended. */
  predicate CheckReady(c: Check, t: Token)
  {
    && c.hasSessionAndToken && c.clockOffset.Some? && c.verified == Some(t) && c.belongsToSession
    && (t.mode.InPerson? ==> c.insideGeofence)
    && (c.endedAt.Some? && c.capturedAt.Some? ==> c.capturedAt.value <= c.endedAt.value)
  }

  /** The leg a saved scan shows, if its status or its check-in or check-out tells one. */
  function LegOf(r: ScanResult): Option<Leg>
    requires r.Saved?
  {
    if r.checkIn.Some? then r.checkIn
    else if r.checkOut.Some? then r.checkOut
    else if r.status.SPresent? then Some(Present)
    else if r.status.SLate? then Some(Late)
    else None
  }

  /**
   For every token either generator can issue and every capture time, both checkers accept exactly the
   window from 30 s before issuance to the end of grace, and whenever the saved scan tells a leg it is
   the one the check reports.
   */
  lemma CheckersAgree(i: Issued, s: Scan, c: Check)
    requires CanIssue(i) && ScanReady(s, i.token) && CheckReady(c, i.token) && s.capturedAt == c.capturedAt
    ensures var inside := s.capturedAt.Some?
            && i.token.issuedAt - 30000 <= s.capturedAt.value <= DateTime(GraceEnd(i.token));
            i.token.issuedAt >= 0 ==>
              && (SubmitScanOffline(s).Saved? <==> inside) && (CheckAttendanceOffline(c).Queued? <==> inside)
    ensures SubmitScanOffline(s).Saved? <==> CheckAttendanceOffline(c).Queued?
    ensures SubmitScanOffline(s).Refused? ==>
              SubmitScanOffline(s).error == EXPIRED && CheckAttendanceOffline(c).QrExpired?
    ensures SubmitScanOffline(s).Saved? && LegOf(SubmitScanOffline(s)).Some? ==>
              LegOf(SubmitScanOffline(s)).value == CheckAttendanceOffline(c).leg
    ensures SubmitScanOffline(s).Saved? ==>
              (LegOf(SubmitScanOffline(s)).None? <==> s.deviceFlagged && i.token.mode.InPerson?)
  {
    IssuedTokens(i);
    if i.token.issuedAt >= 0 && s.capturedAt.Some? { WholeInstants(s.capturedAt.value, GraceEnd(i.token)); }
  }

  /** What the generators guarantee about a token: a non-negative grace, and a validity of one to fifteen minutes. */
  lemma IssuedTokens(i: Issued)
    requires CanIssue(i)
    ensures i.token.graceMinutes >= 0.0 && GraceEnd(i.token) >= ValidityEnd(i.token)
    ensures 60000.0 <= ValidityEnd(i.token) - i.token.issuedAt as real <= 900000.0
    ensures i.expiresAt == DateTime(ValidityEnd(i.token))
    ensures i.token.checkpoint.NoPoint? <==> i.token.mode.InPerson?
    ensures i.token.validitySeconds.Some? ==>
              i.token.validitySeconds.value <= i.token.validityMinutes * 60.0 < i.token.validitySeconds.value + 60.0
  {
    if at, minutes, grace, sessionGrace :| GenerateQrCode(at, minutes, grace, sessionGrace) == Some(i) {
    } else {
      var at, atEnd, seconds, grace, online :| GenerateCheckpointQrCode(at, atEnd, seconds, grace, online) == Some(i);
      assert seconds / 60.0 <= Ceil(seconds / 60.0) as real < seconds / 60.0 + 1.0;
    }
  }

  lemma WholeInstants(n: int, x: real)
    requires x >= 0.0
    ensures n as real <= x <==> n <= DateTime(x)
  {
  }

  /** The expiry the teacher's device caches is exactly the last whole millisecond that counts as present. */
  lemma CachedExpiryIsLastPresentInstant(i: Issued, c: Check)
    requires CanIssue(i) && i.token.issuedAt >= 0 && CheckReady(c, i.token) && CheckAttendanceOffline(c).Queued?
    ensures CheckAttendanceOffline(c).leg.Present? <==> c.capturedAt.value <= i.expiresAt
    ensures CheckAttendanceOffline(c.(capturedAt := Some(i.expiresAt), endedAt := None)) == Queued(Present)
  {
    IssuedTokens(i);
    WholeInstants(c.capturedAt.value, ValidityEnd(i.token));
    WholeInstants(i.expiresAt, ValidityEnd(i.token));
    WholeInstants(i.token.issuedAt, ValidityEnd(i.token));
  }

  /** An end-checkpoint token has no grace, whatever it says, so neither checker ever reports it late. */
  lemma EndIsNeverLate(t: Token, s: Scan, c: Check)
    requires t.checkpoint.EndPoint? && s.verified == Some(t) && c.verified == Some(t)
    ensures CheckAttendanceOffline(c) != Queued(Late)
    ensures SubmitScanOffline(s).Saved? ==>
              SubmitScanOffline(s).status != SLate && LegOf(SubmitScanOffline(s)) != Some(Late)
  {
  }

  // ---------------------------------------------------------------- clocks and windows together

  /** A device stamps an event with its trusted clock. */
  function Stamp(m: Measurement, now: int): int { now + m.Offset() }

  /** The server time at that device's instant. */
  function Truly(m: Measurement, now: int): real { now as real + m.skew }

  /**
   The teacher issues and the student captures on trusted clocks. If the two error bounds sum to at
   most 30 s, a scan truly after issuance is not too early; and a scan truly later than the end of
   grace by more than that sum is always refused as expired.
   */
  lemma SlackCoversClockError(teacher: Measurement, student: Measurement, issue: int, capture: int, s: Scan, t: Token)
    requires teacher.Physical() && student.Physical()
    requires t.issuedAt == Stamp(teacher, issue) && s.capturedAt == Some(Stamp(student, capture))
    requires ScanReady(s, t)
    ensures (&& teacher.Radius() + student.Radius() <= 30000.0
             && Truly(student, capture) >= Truly(teacher, issue) && s.capturedAt.value as real <= GraceEnd(t))
            ==> SubmitScanOffline(s).Saved?
    ensures var grace, error := GraceEnd(t) - t.issuedAt as real, teacher.Radius() + student.Radius();
            Truly(student, capture) > Truly(teacher, issue) + grace + error ==>
              SubmitScanOffline(s) == Refused(EXPIRED)
  {
    TrustedTimeIsClose(teacher, issue);
    TrustedTimeIsClose(student, capture);
  }

  /** How far ahead of server time, or behind it, a clock can be that was set by a request with these two readings. */
  function Ahead(startedAt: int, completedAt: int): int { completedAt - (startedAt + completedAt) / 2 }
  function Behind(startedAt: int, completedAt: int): int { (startedAt + completedAt) / 2 - startedAt }

  lemma OffsetIsFloored(startedAt: int, completedAt: int, serverTime: int)
    ensures MeasuredOffset(startedAt, completedAt, serverTime) == serverTime - (startedAt + completedAt) / 2
  {
    var sum := startedAt + completedAt;
    var half := sum / 2;
    assert sum == 2 * half || sum == 2 * half + 1;
    assert sum as real / 2.0 == half as real || sum as real / 2.0 == half as real + 0.5;
  }

  /** Trusted time is between Behind below and Ahead above server time. */
  lemma StampIsBetween(m: Measurement, now: int)
    requires m.Physical()
    ensures Stamp(m, now) as real - Truly(m, now) <= Ahead(m.startedAt, m.completedAt) as real
    ensures Truly(m, now) - Stamp(m, now) as real <= Behind(m.startedAt, m.completedAt) as real
  {
    OffsetIsFloored(m.startedAt, m.completedAt, m.serverTime);
  }

  /** The teacher's clock was set by a request read at ts and tc, the student's by one read at ss and sc. */
  ghost predicate SetBy(teacher: Measurement, ts: int, tc: int, student: Measurement, ss: int, sc: int)
  {
    && teacher.Physical() && teacher.startedAt == ts && teacher.completedAt == tc
    && student.Physical() && student.startedAt == ss && student.completedAt == sc
  }

  /** The teacher issues a token and the student scans it, each stamping with the own trusted clock. */
  ghost predicate Scanned(teacher: Measurement, issue: int, i: Issued, student: Measurement, capture: int, s: Scan)
  {
    && CanIssue(i) && i.token.issuedAt == Stamp(teacher, issue)
    && s.capturedAt == Some(Stamp(student, capture)) && ScanReady(s, i.token)
  }

  /** No scan truly after issuance, and stamped within grace, is refused. */
  ghost predicate TimelyScansPass(ts: int, tc: int, ss: int, sc: int)
  {
    forall teacher, issue, i, student, capture, s |
      && SetBy(teacher, ts, tc, student, ss, sc) && Scanned(teacher, issue, i, student, capture, s)
      && Truly(student, capture) >= Truly(teacher, issue) && s.capturedAt.value as real <= GraceEnd(i.token) ::
      SubmitScanOffline(s).Saved?
  }

  /** Every scan truly later than the end of grace by more than the margin is refused as expired. */
  ghost predicate LateScansFail(ts: int, tc: int, ss: int, sc: int, margin: real)
  {
    forall teacher, issue, i, student, capture, s |
      && SetBy(teacher, ts, tc, student, ss, sc) && Scanned(teacher, issue, i, student, capture, s)
      && Truly(student, capture) > Truly(teacher, issue) + (GraceEnd(i.token) - i.token.issuedAt as real) + margin ::
      SubmitScanOffline(s) == Refused(EXPIRED)
  }

  /** An in-person token of five minutes with ten minutes of grace, and a scan of it in good order. */
  function PlainToken(issuedAt: int): Token { Token(issuedAt, 5.0, 10.0, None, InPerson, NoPoint) }

  function PlainIssue(issuedAt: int): Issued
  {
    Issued(PlainToken(issuedAt), DateTime(issuedAt as real + 5.0 * 60000.0))
  }

  function PlainScan(issuedAt: int, capturedAt: int): Scan
  {
    Scan(true, Some(PlainToken(issuedAt)), true, false, true, true, 5.0, None, Some(capturedAt), false)
  }

  /** The teacher's request was read by the server on completion, the student's on departure: the worst case. */
  function LateRead(ts: int, tc: int): Measurement { Measurement(ts, tc, tc, tc as real, 0.0) }
  function EarlyRead(ss: int, sc: int): Measurement { Measurement(ss, sc, ss, ss as real, 0.0) }

  lemma WorstCase(ts: int, tc: int, ss: int, sc: int, delay: int)
    requires ts <= tc && ss <= sc
    ensures SetBy(LateRead(ts, tc), ts, tc, EarlyRead(ss, sc), ss, sc)
    ensures var issued, captured := Ahead(ts, tc), delay - Behind(ss, sc);
            && Scanned(LateRead(ts, tc), 0, PlainIssue(issued), EarlyRead(ss, sc), delay, PlainScan(issued, captured))
            && Truly(LateRead(ts, tc), 0) == 0.0 && Truly(EarlyRead(ss, sc), delay) == delay as real
  {
    OffsetIsFloored(ts, tc, tc);
    OffsetIsFloored(ss, sc, ss);
    var issued := Ahead(ts, tc);
    assert GenerateQrCode(issued, 5.0, Some(10.0), 10.0) == Some(PlainIssue(issued));
  }

  /**
   The 30-second slack is enough exactly when the teacher's clock can be ahead and the student's behind
   by at most 30 s together; for any larger sum the worst case refuses a scan made at issuance.
   */
  lemma TimelyScansPassIff(ts: int, tc: int, ss: int, sc: int)
    requires ts <= tc && ss <= sc
    ensures TimelyScansPass(ts, tc, ss, sc) <==> Ahead(ts, tc) + Behind(ss, sc) <= 30000
  {
    if Ahead(ts, tc) + Behind(ss, sc) <= 30000 {
      forall teacher, issue, i, student, capture, s |
        && SetBy(teacher, ts, tc, student, ss, sc) && Scanned(teacher, issue, i, student, capture, s)
        && Truly(student, capture) >= Truly(teacher, issue) && s.capturedAt.value as real <= GraceEnd(i.token)
        ensures SubmitScanOffline(s).Saved?
      {
        StampIsBetween(teacher, issue);
        StampIsBetween(student, capture);
      }
    } else {
      WorstCase(ts, tc, ss, sc, 0);
      var issued, captured := Ahead(ts, tc), -Behind(ss, sc);
      assert SubmitScanOffline(PlainScan(issued, captured)) == Refused(EXPIRED);
      assert captured as real <= GraceEnd(PlainToken(issued));
    }
  }

  /** And the same sum is exactly the margin after which a late scan is certain to be refused. */
  lemma LateScansFailIff(ts: int, tc: int, ss: int, sc: int, margin: real)
    requires ts <= tc && ss <= sc
    ensures LateScansFail(ts, tc, ss, sc, margin) <==> (Ahead(ts, tc) + Behind(ss, sc)) as real <= margin
  {
    var worst := Ahead(ts, tc) + Behind(ss, sc);
    if worst as real <= margin {
      forall teacher, issue, i, student, capture, s |
        && SetBy(teacher, ts, tc, student, ss, sc) && Scanned(teacher, issue, i, student, capture, s)
        && Truly(student, capture) > Truly(teacher, issue) + (GraceEnd(i.token) - i.token.issuedAt as real) + margin
        ensures SubmitScanOffline(s) == Refused(EXPIRED)
      {
        StampIsBetween(teacher, issue);
        StampIsBetween(student, capture);
      }
    } else {
      var delay := 900000 + worst;
      WorstCase(ts, tc, ss, sc, delay);
      var issued, captured := Ahead(ts, tc), delay - Behind(ss, sc);
      assert GraceEnd(PlainToken(issued)) == (issued + 900000) as real == captured as real;
      assert SubmitScanOffline(PlainScan(issued, captured)).Saved?;
    }
  }
}
