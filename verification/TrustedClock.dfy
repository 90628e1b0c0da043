/**
 The server clock offset: measured at the midpoint of one request, rounded to a millisecond, kept per
 account for a week, and added to the device clock. Instants are milliseconds; device clock readings
 are whole milliseconds, true times are reals.
 */
module TrustedClock {
  import opened Wrappers

  const OFFSET_LIFETIME: int := 7 * 24 * 60 * 60 * 1000

  /** `Math.round`, which rounds halves up. */
  function JsRound(x: real): int { (x + 0.5).Floor }

  function MeasuredOffset(startedAt: int, completedAt: int, serverTime: int): int
  {
    JsRound(serverTime as real - (startedAt + completedAt) as real / 2.0)
  }

  datatype SavedOffset = SavedOffset(offsetMs: int, updatedAt: int)

  /** The row of one account, unless it is more than a week old. */
  function FreshOffset(saved: map<string, SavedOffset>, owner: Option<string>, now: int): Option<int>
  {
    if owner.None? || owner.value !in saved || now - saved[owner.value].updatedAt > OFFSET_LIFETIME then None
    else Some(saved[owner.value].offsetMs)
  }

  /** The device clock corrected by a fresh offset, or as it is. */
  function TrustedNow(saved: map<string, SavedOffset>, owner: Option<string>, now: int): int
  {
    match FreshOffset(saved, owner, now)
    case Some(offset) => now + offset
    case None => now
  }

  class ClockStore {
    var activeOwner: Option<string>
    var saved: map<string, SavedOffset>

    /** False stands for the thrown "requires an authenticated account". */
    method SetServerClockOffset(offsetMs: real, now: int) returns (ok: bool)
      modifies `saved
      ensures ok == activeOwner.Some?
      ensures saved == if ok then old(saved)[activeOwner.value := SavedOffset(JsRound(offsetMs), now)] else old(saved)
    {
      ok := activeOwner.Some?;
      if ok { saved := saved[activeOwner.value := SavedOffset((offsetMs + 0.5).Floor, now)]; }
    }

    method GetServerClockOffset(now: int) returns (offset: Option<int>)
      ensures offset == FreshOffset(saved, activeOwner, now)
    {
      if activeOwner.None? || activeOwner.value !in saved { return None; }
      var row := saved[activeOwner.value];
      if now - row.updatedAt > OFFSET_LIFETIME { return None; }
      return Some(row.offsetMs);
    }

    method GetTrustedTimestamp(now: int) returns (timestamp: int)
      ensures timestamp == TrustedNow(saved, activeOwner, now)
    {
      var offset := GetServerClockOffset(now);
      timestamp := now + if offset.Some? then offset.value else 0;
    }

    /** The clock part of the pre-sync: time a health request and keep the offset it shows. */
    method PreSyncClock(startedAt: int, completedAt: int, serverTime: Option<int>) returns (ok: bool)
      modifies `saved
      ensures serverTime.None? ==> ok && saved == old(saved)
      ensures serverTime.Some? ==> ok == activeOwner.Some?
      ensures ok && serverTime.Some? ==>
                && activeOwner.value in saved
                && saved[activeOwner.value] ==
                   SavedOffset(MeasuredOffset(startedAt, completedAt, serverTime.value), completedAt)
      ensures forall o | activeOwner != Some(o) ::
                (o in saved <==> o in old(saved)) && (o in saved ==> saved[o] == old(saved)[o])
    {
      if serverTime.None? { return true; }
      ok := SetServerClockOffset(serverTime.value as real - (startedAt + completedAt) as real / 2.0, completedAt);
    }
  }

  // ---------------------------------------------------------------- error bound

  /**
   One timed request. The server reads its clock at device time `sampledAt`, some time between sending
   and receiving, and its clock is `skew` ahead of the device's.
   */
  datatype Measurement = Measurement(startedAt: int, completedAt: int, serverTime: int, sampledAt: real, skew: real) {
    ghost predicate Physical()
    {
      startedAt as real <= sampledAt <= completedAt as real && serverTime as real == sampledAt + skew
    }

    function Offset(): int { MeasuredOffset(startedAt, completedAt, serverTime) }

    /** Half the measured round trip plus half a millisecond. */
    function Radius(): real { (completedAt - startedAt) as real / 2.0 + 0.5 }
  }

  function Abs(x: real): real { if x < 0.0 then -x else x }

  /** The trusted time is within half the round trip plus half a millisecond of server time. */
  lemma TrustedTimeIsClose(m: Measurement, now: int)
    requires m.Physical()
    ensures Abs((now + m.Offset()) as real - (now as real + m.skew)) <= m.Radius()
  {
    var mid := (m.startedAt + m.completedAt) as real / 2.0;
    var exact := m.serverTime as real - mid;
    assert exact - 0.5 <= m.Offset() as real <= exact + 0.5 by { JsRoundIsClose(exact); }
    assert exact == m.skew + (m.sampledAt - mid);
    assert mid - m.startedAt as real == m.completedAt as real - mid;
  }

  /**
   What a pre-sync stores, as it is read back: for seven days the account's trusted time is within half
   the round trip plus half a millisecond of server time; after that it is the device clock again.
   */
  lemma StoredOffsetIsTrusted(saved: map<string, SavedOffset>, owner: string, m: Measurement, now: int)
    requires m.Physical() && owner in saved && saved[owner] == SavedOffset(m.Offset(), m.completedAt)
    ensures now - m.completedAt <= 604800000 ==>
              Abs(TrustedNow(saved, Some(owner), now) as real - (now as real + m.skew)) <= m.Radius()
    ensures now - m.completedAt > 604800000 ==> TrustedNow(saved, Some(owner), now) == now
  {
    TrustedTimeIsClose(m, now);
  }

  /** Without an account, or with one that has stored no offset, trusted time is the device clock. */
  lemma OthersKeepTheDeviceClock(saved: map<string, SavedOffset>, owner: Option<string>, now: int)
    requires owner.None? || owner.value !in saved
    ensures TrustedNow(saved, owner, now) == now
  {
  }

  /** One device: an account measures the offset, then someone reads the time. */
  method PreSyncThenRead(store: ClockStore, m: Measurement, reader: Option<string>, now: int) returns (timestamp: int)
    requires m.Physical() && store.activeOwner.Some?
    modifies store
    ensures reader == old(store.activeOwner) && now - m.completedAt <= 604800000 ==>
              Abs(timestamp as real - (now as real + m.skew)) <= m.Radius()
    ensures reader == old(store.activeOwner) && now - m.completedAt > 604800000 ==> timestamp == now
    ensures reader != old(store.activeOwner) && (reader.None? || reader.value !in old(store.saved)) ==> timestamp == now
  {
    var ok := store.PreSyncClock(m.startedAt, m.completedAt, Some(m.serverTime));
    StoredOffsetIsTrusted(store.saved, store.activeOwner.value, m, now);
    store.activeOwner := reader;
    timestamp := store.GetTrustedTimestamp(now);
  }

  lemma JsRoundIsClose(x: real)
    ensures x - 0.5 < JsRound(x) as real <= x + 0.5
  {
  }

  /** The bound cannot be improved by more than the rounding: a reply sampled on sending is off by half the trip. */
  lemma BoundIsReached(startedAt: int, halfTrip: nat, serverTime: int)
    ensures var m := Measurement(startedAt, startedAt + 2 * halfTrip, serverTime, startedAt as real,
            (serverTime - startedAt) as real);
            m.Physical() && Abs(m.Offset() as real - m.skew) == m.Radius() - 0.5
  {
    var m := Measurement(startedAt, startedAt + 2 * halfTrip, serverTime, startedAt as real,
        (serverTime - startedAt) as real);
    assert (startedAt + (startedAt + 2 * halfTrip)) as real / 2.0 == (startedAt + halfTrip) as real;
    assert m.Offset() == serverTime - startedAt - halfTrip by { JsRoundOfWhole(serverTime - startedAt - halfTrip); }
  }

  lemma JsRoundOfWhole(n: int)
    ensures JsRound(n as real) == n
  {
    JsRoundIsClose(n as real);
  }
}
