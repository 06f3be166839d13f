/** What a restart brings back: exactly when the storage still agrees with the memory that was lost. */
module UserStoreRestart {
  import opened Bytes
  import opened UserSync
  import opened UserStore
  import opened UserStoreRuns
  import opened UserStoreReplay
  import CcittCrc

  /** The storage holds these records behind the header. */
  predicate RecordsIn(nv: Bytes, s: Store)
    requires IsNv(nv) && WellKept(s)
  {
    nv[NV_HEADER..NV_HEADER + |s.users|] == s.users
  }

  /** The storage agrees with a store; without a valid header it agrees with an empty one. */
  predicate Agrees(nv: Bytes, s: Store)
    requires IsNv(nv) && WellKept(s)
    ensures Agrees(nv, s) ==> s.nonce == KeptNonce(nv)
  {
    if HeaderValid(nv) then
      LoadedCount(nv) == s.count && NvNonce(nv) == s.nonce && Decode32(nv, 12) == s.time && RecordsIn(nv, s)
    else s.count == 0 && s.nonce == 0 && s.time == 0
  }

  /** A start brings back users, nonce and time. */
  predicate Restores(r: Store, s: Store) {
    r.initialized && r.count == s.count && r.users == s.users && r.nonce == s.nonce && r.time == s.time
  }

  lemma StartRestoresIff(s: Store, nv: Bytes, config: Config)
    requires WellKept(s) && IsNv(nv) && config.hasRead
    ensures Restores(Initialized(config, nv, ALL_WELL), s) <==> Agrees(nv, s)
  {
  }

  /** A save makes the storage agree exactly when the header was written and the records were too, or were there. */
  lemma SaveAgreesIff(s: Store, nv: Bytes, io: Io)
    requires WellKept(s) && IsNv(nv) && s.config.hasWrite
    ensures Agrees(Saved(s, nv, io).nv, s) <==>
            if io.header then io.records || RecordsIn(nv, s) else Agrees(nv, s)
  {
    if io.header {
      SavedHeader(s, nv, io);
      HeaderReadsBack(Saved(s, nv, io).nv, s);
      SavedRecordsIff(s, nv, io);
    }
  }

  lemma SavedRecordsIff(s: Store, nv: Bytes, io: Io)
    requires WellKept(s) && IsNv(nv) && s.config.hasWrite && io.header
    ensures RecordsIn(Saved(s, nv, io).nv, s) <==> io.records || RecordsIn(nv, s)
  {
    var end := NV_HEADER + |s.users|;
    var written := Overwritten(nv, 0, HeaderBytes(s));
    assert written[NV_HEADER..end] == nv[NV_HEADER..end];
    if io.records {
      SavedRecords(s, nv);
    }
  }

  /** Shutdown and restart bring everything back exactly when its save leaves the storage in agreement. */
  lemma RestartRestoresIff(d: Device, io: Io, config: Config)
    requires Sound(d) && d.store.initialized && d.store.config.hasWrite && config.hasRead
    ensures Restores(Apply(Apply(d, Shutdown(io)), Init(config, ALL_WELL)).store, d.store) <==>
            if io.header then io.records || RecordsIn(d.nv, d.store) else Agrees(d.nv, d.store)
  {
    SaveAgreesIff(d.store, d.nv, io);
    StartRestoresIff(d.store, Saved(d.store, d.nv, io).nv, config);
  }

  /** So do a sync, a power loss and a restart, for the users of the sync. */
  lemma SyncSurvivesIff(d: Device, p: Bytes, io: Io, config: Config)
    requires Sound(d) && Guarded(d) && Installs(d, p) && config.hasRead
    ensures HasRecords(p)
    ensures var s := Synced(d.store, p);
            Restores(Apply(Apply(Apply(d, Sync(p, io)), PowerLoss), Init(config, ALL_WELL)).store, s) <==>
            if io.header then io.records || RecordsIn(d.nv, s) else Agrees(d.nv, s)
  {
    InstallFacts(d, p);
    var s := Synced(d.store, p);
    SaveAgreesIff(s, d.nv, io);
    StartRestoresIff(s, Saved(s, d.nv, io).nv, config);
  }

  /**
   * A torn save: the header is written and the records are not.  The sync is answered with StorageWrite; after
   * a restart the unit has the new nonce and count with the record bytes of before, and refuses the resend.
   */
  lemma TornSync(d: Device, p: Bytes, config: Config)
    requires Sound(d) && Guarded(d) && Installs(d, p) && HasRecords(p) && p[6] != 0 && ProtectedInit(config, ALL_WELL)
    ensures Received(d, p, Io(true, false)).result == StorageWrite
    ensures var r := Apply(Apply(Apply(d, Sync(p, Io(true, false))), PowerLoss), Init(config, ALL_WELL)).store;
            && r.initialized && r.nonce == Nonce(p) && r.count == p[6]
            && r.users == d.nv[NV_HEADER..NV_HEADER + |Records(p)|]
            && Checked(r, p) == Replay
  {
    InstalledOutcome(d, p, Io(true, false));
    TornStart(Synced(d.store, p), d.nv, config);
    ResendRefused(d.store, Initialized(config, Received(d, p, Io(true, false)).device.nv, ALL_WELL), p);
  }

  lemma InstalledOutcome(d: Device, p: Bytes, io: Io)
    requires Sound(d) && Guarded(d) && Installs(d, p) && HasRecords(p)
    ensures Synced(d.store, p).config.hasWrite && WellKept(Synced(d.store, p))
    ensures Received(d, p, io).device.nv == Saved(Synced(d.store, p), d.nv, io).nv
    ensures Received(d, p, io).result == Saved(Synced(d.store, p), d.nv, io).result
  {
    InstallFacts(d, p);
  }

  lemma ResendRefused(s: Store, r: Store, p: Bytes)
    requires Checked(s, p) == Ok && r.initialized && r.config.replayProtection && HasRecords(p) && r.nonce == Nonce(p)
    ensures Checked(r, p) == Replay
  {
  }

  lemma TornStart(s: Store, nv: Bytes, config: Config)
    requires WellKept(s) && IsNv(nv) && s.config.hasWrite && config.hasRead && s.count != 0
    ensures Saved(s, nv, Io(true, false)).result == StorageWrite
    ensures var r := Initialized(config, Saved(s, nv, Io(true, false)).nv, ALL_WELL);
            && r.initialized && r.nonce == s.nonce && r.count == s.count && r.config == config
            && r.users == nv[NV_HEADER..NV_HEADER + |s.users|]
  {
    var saved := Saved(s, nv, Io(true, false)).nv;
    SavedHeader(s, nv, Io(true, false));
    HeaderReadsBack(saved, s);
    TornRecords(s, nv);
    TornLoad(s, saved, config);
  }

  lemma TornRecords(s: Store, nv: Bytes)
    requires WellKept(s) && IsNv(nv) && s.config.hasWrite && s.count != 0
    ensures Saved(s, nv, Io(true, false)).result == StorageWrite
    ensures Saved(s, nv, Io(true, false)).nv[NV_HEADER..NV_HEADER + |s.users|] == nv[NV_HEADER..NV_HEADER + |s.users|]
  {
    assert s.count as nat > 0;
    HeaderOnly(nv, HeaderBytes(s), |s.users|);
  }

  lemma HeaderOnly(nv: Bytes, header: Bytes, n: nat)
    requires |header| == NV_HEADER && NV_HEADER + n <= |nv|
    ensures Overwritten(nv, 0, header)[NV_HEADER..NV_HEADER + n] == nv[NV_HEADER..NV_HEADER + n]
  {
  }

  lemma TornLoad(s: Store, nv: Bytes, config: Config)
    requires WellKept(s) && IsNv(nv) && config.hasRead
    requires HeaderValid(nv) && nv[5] == s.count && NvNonce(nv) == s.nonce
    ensures var r := Initialized(config, nv, ALL_WELL);
            && r.initialized && r.nonce == s.nonce && r.count == s.count && r.config == config
            && r.users == nv[NV_HEADER..NV_HEADER + |s.users|]
  {
    assert LoadedCount(nv) == s.count;
  }

  // --- over runs ---

  /** Every storage access of the event succeeds, and a start has both. */
  predicate Clean(ev: Event) {
    match ev
    case Init(config, io) => config.hasRead && config.hasWrite && io == ALL_WELL
    case Shutdown(io) => io == ALL_WELL
    case Sync(_, io) => io == ALL_WELL
    case Clear(io) => io == ALL_WELL
    case _ => true
  }

  predicate InAgreement(d: Device)
    requires Sound(d)
  {
    d.store.initialized ==> d.store.config.hasWrite && Agrees(d.nv, d.store)
  }

  lemma CleanStep(d: Device, ev: Event)
    requires Sound(d) && InAgreement(d) && Clean(ev)
    ensures InAgreement(Apply(d, ev))
  {
    match ev
    case Sync(p, io) => CleanSync(d, p);
    case Clear(io) =>
      if d.store.initialized {
        CleanSave(d.store.(users := [], count := 0), d.nv);
      }
    case Init(config, io) => StartAgrees(d.nv, config);
    case Login(name, password) => SameAgrees(d.nv, d.store, Apply(d, ev).store);
    case ResetStats => SameAgrees(d.nv, d.store, Apply(d, ev).store);
    case _ =>
  }

  /** Agreement does not look at counters. */
  lemma SameAgrees(nv: Bytes, s: Store, t: Store)
    requires IsNv(nv) && WellKept(s) && WellKept(t)
    requires t.count == s.count && t.users == s.users && t.nonce == s.nonce && t.time == s.time
    ensures Agrees(nv, t) == Agrees(nv, s)
  {
  }

  lemma CleanSave(s: Store, nv: Bytes)
    requires WellKept(s) && IsNv(nv) && s.config.hasWrite
    ensures Agrees(Saved(s, nv, ALL_WELL).nv, s)
  {
    SaveAgreesIff(s, nv, ALL_WELL);
  }

  lemma CleanSync(d: Device, p: Bytes)
    requires Sound(d) && InAgreement(d)
    ensures InAgreement(Apply(d, Sync(p, ALL_WELL)))
  {
    if Installs(d, p) {
      CleanSave(Synced(d.store, p), d.nv);
    }
  }

  lemma StartAgrees(nv: Bytes, config: Config)
    requires IsNv(nv) && config.hasRead
    ensures Agrees(nv, Initialized(config, nv, ALL_WELL))
  {
    StartRestoresIff(Initialized(config, nv, ALL_WELL), nv, config);
  }

  lemma {:induction false} CleanRun(nv: Bytes, evs: seq<Event>)
    requires IsNv(nv) && forall i | 0 <= i < |evs| :: Clean(evs[i])
    ensures InAgreement(After(nv, evs))
  {
    if evs != [] {
      var n := |evs| - 1;
      CleanRun(nv, evs[..n]);
      CleanStep(After(nv, evs[..n]), evs[n]);
    }
  }

  /** While every access succeeds, the power can go at any point of a run and a restart brings everything back. */
  lemma PowerLossIsHarmless(nv: Bytes, evs: seq<Event>, config: Config)
    requires IsNv(nv) && (forall i | 0 <= i < |evs| :: Clean(evs[i])) && config.hasRead
    requires After(nv, evs).store.initialized
    ensures Restores(Apply(Apply(After(nv, evs), PowerLoss), Init(config, ALL_WELL)).store, After(nv, evs).store)
  {
    CleanRun(nv, evs);
    StartRestoresIff(After(nv, evs).store, After(nv, evs).nv, config);
  }

  // --- a unit whose users a torn save mixes up ---

  /** A payload with one user and a given checksum. */
  function Framed(n: Uint32, crc: bv16, record: Bytes): Bytes {
    [0, 0, 0, 0, 2, 0, 1, 0, 0, 0, 0, 0] + Encode32(n) + [(crc & 0xFF) as bv8, (crc >> 8) as bv8, 0, 0] + record
  }

  function OneUser(n: Uint32, record: Bytes): Bytes {
    Framed(n, CcittCrc.Crc(0xFFFF, record), record)
  }

  lemma BytesOfCrc(crc: bv16)
    ensures ((((crc >> 8) as bv8) as bv16) << 8) | (((crc & 0xFF) as bv8) as bv16) == crc
  {
  }

  lemma FramedChecksum(n: Uint32, crc: bv16, record: Bytes)
    ensures Checksum(Framed(n, crc, record)) == crc
  {
    var p := Framed(n, crc, record);
    assert p[16] == (crc & 0xFF) as bv8 && p[17] == (crc >> 8) as bv8;
    BytesOfCrc(crc);
  }

  lemma FramedParts(n: Uint32, crc: bv16, record: Bytes)
    requires |record| == RECORD_SIZE
    ensures var p := Framed(n, crc, record);
            p[4] == 2 && p[6] == 1 && HasRecords(p) && Records(p) == record && Nonce(p) == n
  {
    var p := Framed(n, crc, record);
    assert p[6] as nat == 1;
    assert p[12..16] == Encode32(n);
    RoundTrip32(p, 12, n);
    assert Records(p) == record;
  }

  lemma OneUserIsIntact(n: Uint32, record: Bytes)
    requires |record| == RECORD_SIZE
    ensures Intact(OneUser(n, record)) && Nonce(OneUser(n, record)) == n && Records(OneUser(n, record)) == record
    ensures OneUser(n, record)[6] == 1
  {
    FramedParts(n, CcittCrc.Crc(0xFFFF, record), record);
    FramedChecksum(n, CcittCrc.Crc(0xFFFF, record), record);
  }

  /** A blank unit that takes its first user with a torn save does not have that user after a restart. */
  lemma FirstUserIsLost(nv: Bytes, record: Bytes)
    requires IsNv(nv) && nv[0] == 0 && |record| == RECORD_SIZE && nv[NV_HEADER..NV_HEADER + RECORD_SIZE] != record
    ensures var d := Apply(Device(OFF, nv), START);
            var p := OneUser(1, record);
            && Installs(d, p)
            && Apply(Apply(Apply(d, Sync(p, Io(true, false))), PowerLoss), START).store.users != record
            && Checked(Apply(Apply(Apply(d, Sync(p, Io(true, false))), PowerLoss), START).store, p) == Replay
  {
    var d, p := Apply(Device(OFF, nv), START), OneUser(1, record);
    BlankHeader(nv);
    StartNonce(nv, SAFE, ALL_WELL);
    OneUserIsIntact(1, record);
    InstallsIff(d, p);
    TornSync(d, p, SAFE);
  }
}
