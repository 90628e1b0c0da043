/**
 The attendance caches of all accounts while accounts are switched. A pass deletes queue rows for the
 account it started with, but the callback's cache writes go to whichever account is signed in when
 the reply arrives.
 */
module AccountSwitch {
  import opened Wrappers
  import opened QueueTable
  import opened DrainPass
  import opened SendCallback
  import opened AttendanceCache

  datatype Device = Device(queue: Table, caches: map<string, Cache>)

  function CacheOf(d: Device, owner: string): Cache
  {
    if owner in d.caches then d.caches[owner] else map[]
  }

  function ViewOf(d: Device, owner: string): View { View(d.queue, CacheOf(d, owner)) }

  datatype Deed =
    /** A call of the signed-in account that is not a sync. */
    | Uses(owner: string, call: ApiCall)
    /** One scan of a pass for the key's account, while `active` is signed in when the reply arrives. */
    | Syncs(key: Key, batch: Http<Batch>, status: Http<Status>, server: Record, active: Option<string>)

  const NO_ACCOUNT := "Offline storage requires an authenticated account"

  /** Without an account the cache write throws, which the callback turns into a retryable answer. */
  function ReplyUnder(batch: Http<Batch>, status: Http<Status>, active: Option<string>): Reply
  {
    var reply := SendScan(batch, status);
    if reply.Synced? && active.None? then OnFailure(OtherError(Some(NO_ACCOUNT))) else reply
  }

  function AfterDeed(d: Device, deed: Deed): Device
  {
    match deed
    case Uses(owner, call) =>
      var v := After(owner, ViewOf(d, owner), call);
      if call.SyncRow? then d else Device(v.queue, d.caches[owner := v.cache])
    case Syncs(k, batch, status, server, active) =>
      if !SyncsScan(k.owner, ViewOf(d, k.owner), k) then d
      else
        var sessionId := d.queue[k].evidence.payload.sessionId;
        var caches :=
          if active.None? then d.caches
          else
            d.caches[active.value := CacheAfterScan(CacheOf(d, active.value), k.owner, sessionId, batch, status,
                server)];
        (match OnReply(d.queue[k].attempts, ReplyUnder(batch, status, active))
         case Leave => Device(d.queue, caches)
         case Settle(write, _) => Device(Written(d.queue, k, write), caches))
  }

  /** For every account, each awaiting row is that account's and has a queued scan of its session. */
  ghost predicate AllCovered(d: Device)
  {
    forall owner :: Covered(owner, ViewOf(d, owner))
  }

  /** A row of the session awaits confirmation in the account's own cache. */
  ghost predicate AwaitsIn(d: Device, owner: string, sessionId: string)
  {
    var c := CacheOf(d, owner);
    exists id :: id in c && c[id].unsynced && c[id].sessionId == sessionId
  }

  ghost predicate OtherScanQueued(d: Device, k: Key, sessionId: string)
  {
    exists l :: l in d.queue && l != k && IsScanOf(l, d.queue[l], k.owner, sessionId)
  }

  /**
   What decides: a scan is recorded while another account is signed in, its row waits, and no other
   scan covers it.
   */
  ghost predicate Strands(d: Device, deed: Deed)
  {
    && deed.Syncs? && SyncsScan(deed.key.owner, ViewOf(d, deed.key.owner), deed.key)
    && SendScan(deed.batch, deed.status).Synced?
    && deed.active.Some? && deed.active.value != deed.key.owner
    && AwaitsIn(d, deed.key.owner, d.queue[deed.key].evidence.payload.sessionId)
    && !OtherScanQueued(d, deed.key, d.queue[deed.key].evidence.payload.sessionId)
  }

  lemma QueuedAfterSync(d: Device, deed: Deed, owner: string, sessionId: string)
    requires deed.Syncs? && SyncsScan(deed.key.owner, ViewOf(d, deed.key.owner), deed.key)
    requires ScanQueued(d.queue, owner, sessionId)
    requires var mine := d.queue[deed.key].evidence.payload.sessionId;
             !SendScan(deed.batch, deed.status).Synced? || deed.active.None? || owner != deed.key.owner
             || sessionId != mine || OtherScanQueued(d, deed.key, mine)
    ensures ScanQueued(AfterDeed(d, deed).queue, owner, sessionId)
  {
    var queue, mine := AfterDeed(d, deed).queue, d.queue[deed.key].evidence.payload.sessionId;
    var reply := ReplyUnder(deed.batch, deed.status, deed.active);
    ScanSyncedIff(deed.batch, deed.status);
    var l :| l in d.queue && IsScanOf(l, d.queue[l], owner, sessionId);
    if l in queue {
      assert IsScanOf(l, queue[l], owner, sessionId);
    } else {
      assert l == deed.key && owner == deed.key.owner && sessionId == mine;
      var other :| other in d.queue && other != deed.key && IsScanOf(other, d.queue[other], deed.key.owner, mine);
      assert other in queue && IsScanOf(other, queue[other], owner, sessionId);
    }
  }

  lemma GoneAfterSync(d: Device, deed: Deed)
    requires deed.Syncs? && SyncsScan(deed.key.owner, ViewOf(d, deed.key.owner), deed.key)
    requires SendScan(deed.batch, deed.status).Synced? && deed.active.Some?
    requires !OtherScanQueued(d, deed.key, d.queue[deed.key].evidence.payload.sessionId)
    ensures !ScanQueued(AfterDeed(d, deed).queue, deed.key.owner, d.queue[deed.key].evidence.payload.sessionId)
  {
    var queue, mine := AfterDeed(d, deed).queue, d.queue[deed.key].evidence.payload.sessionId;
    assert queue == d.queue - {deed.key};
  }

  /** The cache of the signed-in account after a sync: an old row, or a confirmed one. */
  lemma CacheRowsAfterSync(c: Cache, owner: string, sessionId: string, batch: Http<Batch>, status: Http<Status>,
      server: Record, id: string)
    requires var after := CacheAfterScan(c, owner, sessionId, batch, status, server); id in after && after[id].unsynced
    ensures id in c && c[id] == CacheAfterScan(c, owner, sessionId, batch, status, server)[id]
    ensures SendScan(batch, status).Synced? ==> c[id].sessionId != sessionId || c[id].studentId != owner
  {
    ScanSyncedIff(batch, status);
    var kept := WithoutAttempt(c, sessionId, owner);
    CacheOne(kept, server.(unsynced := false));
  }

  /** A sync leaves every account covered exactly when it strands no row. */
  lemma SyncCoversIff(d: Device, deed: Deed)
    requires AllCovered(d) && deed.Syncs?
    ensures AllCovered(AfterDeed(d, deed)) <==> !Strands(d, deed)
  {
    var e, k := AfterDeed(d, deed), deed.key;
    if SyncsScan(k.owner, ViewOf(d, k.owner), k) {
      if Strands(d, deed) {
        StrandedRow(d, deed);
      } else {
        forall owner ensures Covered(owner, ViewOf(e, owner)) {
          forall id | id in CacheOf(e, owner) && CacheOf(e, owner)[id].unsynced
            ensures CacheOf(e, owner)[id].studentId == owner
            ensures ScanQueued(e.queue, owner, CacheOf(e, owner)[id].sessionId)
          {
            RowStaysCovered(d, deed, owner, id);
          }
        }
      }
    }
  }

  lemma RowStaysCovered(d: Device, deed: Deed, owner: string, id: string)
    requires AllCovered(d) && deed.Syncs? && SyncsScan(deed.key.owner, ViewOf(d, deed.key.owner), deed.key)
    requires !Strands(d, deed)
    requires id in CacheOf(AfterDeed(d, deed), owner) && CacheOf(AfterDeed(d, deed), owner)[id].unsynced
    ensures CacheOf(AfterDeed(d, deed), owner)[id].studentId == owner
    ensures ScanQueued(AfterDeed(d, deed).queue, owner, CacheOf(AfterDeed(d, deed), owner)[id].sessionId)
  {
    var mine := d.queue[deed.key].evidence.payload.sessionId;
    if deed.active == Some(owner) {
      CacheRowsAfterSync(CacheOf(d, owner), deed.key.owner, mine, deed.batch, deed.status, deed.server, id);
    }
    var row := CacheOf(AfterDeed(d, deed), owner)[id];
    assert id in CacheOf(d, owner) && CacheOf(d, owner)[id] == row;
    assert Covered(owner, ViewOf(d, owner));
    assert owner == deed.key.owner && row.sessionId == mine ==> AwaitsIn(d, owner, mine);
    QueuedAfterSync(d, deed, owner, row.sessionId);
  }

  lemma StrandedRow(d: Device, deed: Deed)
    requires Strands(d, deed)
    ensures !AllCovered(AfterDeed(d, deed))
  {
    var e, owner := AfterDeed(d, deed), deed.key.owner;
    var mine := d.queue[deed.key].evidence.payload.sessionId;
    var id :| id in CacheOf(d, owner) && CacheOf(d, owner)[id].unsynced && CacheOf(d, owner)[id].sessionId == mine;
    assert id in CacheOf(e, owner) && CacheOf(e, owner)[id] == CacheOf(d, owner)[id];
    GoneAfterSync(d, deed);
    assert !Covered(owner, ViewOf(e, owner));
  }

  /** And then the account that is signed in gets the other account's record. */
  lemma RecordLandsWithTheWrongAccount(d: Device, deed: Deed)
    requires Strands(d, deed)
    ensures var c := CacheOf(AfterDeed(d, deed), deed.active.value);
            deed.server.id in c && c[deed.server.id] == deed.server.(unsynced := false)
  {
    ScanSyncedIff(deed.batch, deed.status);
    var kept := WithoutAttempt(CacheOf(d, deed.active.value), d.queue[deed.key].evidence.payload.sessionId,
        deed.key.owner);
    CacheOne(kept, deed.server.(unsynced := false));
  }

  // ---------------------------------------------------------------- over runs

  ghost predicate WellBehavedDeed(d: Device, deed: Deed)
  {
    deed.Uses? ==> WellBehaved(deed.owner, ViewOf(d, deed.owner), deed.call)
  }

  lemma UseKeepsCovered(d: Device, deed: Deed)
    requires AllCovered(d) && deed.Uses? && WellBehavedDeed(d, deed)
    ensures AllCovered(AfterDeed(d, deed))
  {
    var e := AfterDeed(d, deed);
    StepKeepsCovered(deed.owner, ViewOf(d, deed.owner), deed.call);
    forall owner ensures Covered(owner, ViewOf(e, owner)) {
      if owner == deed.owner && !deed.call.SyncRow? {
        assert ViewOf(e, owner) == After(owner, ViewOf(d, owner), deed.call);
      } else {
        assert Covered(owner, ViewOf(d, owner)) && CacheOf(e, owner) == CacheOf(d, owner);
        forall sessionId | ScanQueued(d.queue, owner, sessionId) ensures ScanQueued(e.queue, owner, sessionId) {
          UseKeepsScans(d, deed, owner, sessionId);
        }
      }
    }
  }

  lemma UseKeepsScans(d: Device, deed: Deed, owner: string, sessionId: string)
    requires deed.Uses? && ScanQueued(d.queue, owner, sessionId)
    ensures ScanQueued(AfterDeed(d, deed).queue, owner, sessionId)
  {
    var l :| l in d.queue && IsScanOf(l, d.queue[l], owner, sessionId);
    var queue := AfterDeed(d, deed).queue;
    assert l in queue && IsScanOf(l, queue[l], owner, sessionId);
  }

  function AfterDeeds(deeds: seq<Deed>): Device
  {
    if deeds == [] then Device(map[], map[]) else AfterDeed(AfterDeeds(deeds[..|deeds| - 1]), deeds[|deeds| - 1])
  }

  /** The scans of one account have ids of their own, and records from the server are confirmed ones. */
  ghost predicate HonestDeeds(deeds: seq<Deed>)
  {
    && (forall i | 0 <= i < |deeds| && deeds[i].Uses? :: ServerRecordsConfirmed(deeds[i].call))
    && (forall i, j | 0 <= i < j < |deeds| && IsScan(deeds[i]) && IsScan(deeds[j]) ::
          deeds[i].owner != deeds[j].owner || OwnId(deeds[i].call) != OwnId(deeds[j].call))
  }

  predicate IsScan(deed: Deed)
  {
    deed.Uses? && deed.call.SubmitOffline?
  }

  /** Every queued row was queued by one of the scans. */
  lemma {:induction false} QueuedByADeed(deeds: seq<Deed>, k: Key)
    requires k in AfterDeeds(deeds).queue
    ensures exists i :: 0 <= i < |deeds| && IsScan(deeds[i]) && k == DeedKey(deeds[i])
  {
    if deeds == [] {
    } else {
      var before, deed := deeds[..|deeds| - 1], deeds[|deeds| - 1];
      if k in AfterDeeds(before).queue {
        QueuedByADeed(before, k);
        var i :| 0 <= i < |before| && IsScan(before[i]) && k == DeedKey(before[i]);
        assert deeds[i] == before[i];
      } else {
        NewKeyIsAScan(AfterDeeds(before), deed, k);
      }
    }
  }

  function DeedKey(deed: Deed): Key
    requires IsScan(deed)
  {
    ScanKey(deed.owner, deed.call.payload, deed.call.random)
  }

  lemma NewKeyIsAScan(d: Device, deed: Deed, k: Key)
    requires k !in d.queue && k in AfterDeed(d, deed).queue
    ensures IsScan(deed) && k == DeedKey(deed)
  {
  }

  lemma HonestScansAreWellBehaved(deeds: seq<Deed>)
    requires deeds != [] && HonestDeeds(deeds)
    ensures WellBehavedDeed(AfterDeeds(deeds[..|deeds| - 1]), deeds[|deeds| - 1])
  {
    var before, deed := deeds[..|deeds| - 1], deeds[|deeds| - 1];
    if IsScan(deed) && DeedKey(deed) in AfterDeeds(before).queue {
      QueuedByADeed(before, DeedKey(deed));
      var i :| 0 <= i < |before| && IsScan(before[i]) && DeedKey(deed) == DeedKey(before[i]);
      SameKeySameId(deeds[i], deed);
    }
  }

  lemma SameKeySameId(a: Deed, b: Deed)
    requires IsScan(a) && IsScan(b) && DeedKey(a) == DeedKey(b)
    ensures a.owner == b.owner && OwnId(a.call) == OwnId(b.call)
  {
    OperationIdsAreInjective(AttendanceScan, AttendanceScan, a.call.payload.attemptId, b.call.payload.attemptId,
                             a.call.random, b.call.random);
  }

  /** Covered after every deed of the run. */
  ghost predicate AlwaysCovered(deeds: seq<Deed>)
  {
    AllCovered(AfterDeeds(deeds)) && (deeds == [] || AlwaysCovered(deeds[..|deeds| - 1]))
  }

  ghost predicate NeverStrands(deeds: seq<Deed>)
  {
    deeds == [] ||
    (NeverStrands(deeds[..|deeds| - 1]) && !Strands(AfterDeeds(deeds[..|deeds| - 1]), deeds[|deeds| - 1]))
  }

  /**
   Over any run with account switches: every account stays covered throughout if and only if no scan is
   recorded while another account is signed in and its own row, waiting, has no other scan to cover it.
   */
  lemma {:induction false} AlwaysCoveredIff(deeds: seq<Deed>)
    requires HonestDeeds(deeds)
    ensures AlwaysCovered(deeds) <==> NeverStrands(deeds)
  {
    if deeds == [] {
    } else {
      var before, deed := deeds[..|deeds| - 1], deeds[|deeds| - 1];
      AlwaysCoveredIff(before);
      if AlwaysCovered(before) {
        HonestScansAreWellBehaved(deeds);
        if deed.Syncs? { SyncCoversIff(AfterDeeds(before), deed); } else { UseKeepsCovered(AfterDeeds(before), deed); }
      }
    }
  }

  // ---------------------------------------------------------------- one account

  /** The account does all this itself, and stays signed in while its scans are sent. */
  predicate DoneBy(deed: Deed, owner: string)
  {
    match deed
    case Uses(o, call) => o == owner && !call.SyncRow?
    case Syncs(k, _, _, _, active) => k.owner == owner && active == Some(owner)
  }

  function CallOf(deed: Deed): ApiCall
  {
    match deed
    case Uses(_, call) => call
    case Syncs(k, batch, status, server, _) => SyncRow(k, batch, status, server)
  }

  function CallsOf(deeds: seq<Deed>): seq<ApiCall>
  {
    if deeds == [] then [] else CallsOf(deeds[..|deeds| - 1]) + [CallOf(deeds[|deeds| - 1])]
  }

  /** Without switches this is the one-account cache: the same deeds give the same queue and the same rows. */
  lemma {:induction false} OneAccountIsTheCache(deeds: seq<Deed>, owner: string)
    requires forall i | 0 <= i < |deeds| :: DoneBy(deeds[i], owner)
    ensures ViewOf(AfterDeeds(deeds), owner) == AfterAll(owner, View(map[], map[]), CallsOf(deeds))
  {
    if deeds == [] {
    } else {
      var before, deed := deeds[..|deeds| - 1], deeds[|deeds| - 1];
      OneAccountIsTheCache(before, owner);
      OneDeedIsTheCall(AfterDeeds(before), deed, owner);
      assert CallsOf(deeds)[..|CallsOf(deeds)| - 1] == CallsOf(before);
    }
  }

  lemma OneDeedIsTheCall(d: Device, deed: Deed, owner: string)
    requires DoneBy(deed, owner)
    ensures ViewOf(AfterDeed(d, deed), owner) == After(owner, ViewOf(d, owner), CallOf(deed))
  {
  }
}
