/** What the credential store keeps over whole runs, restarts included. */
module UserStoreRuns {
  import opened Bytes
  import opened UserSync
  import opened UserStore
  import CcittCrc
  import CcittDistance

  // --- save and load ---

  lemma FourParts(nv: Bytes, a: Bytes, b: Bytes, c: Bytes, d: Bytes)
    requires |a| == |b| == |c| == |d| == 4 && |nv| >= 16 && nv[..16] == a + b + c + d
    ensures nv[..4] == a && nv[4..8] == b && nv[8..12] == c && nv[12..16] == d
  {
    var h := nv[..16];
    assert h[..4] == a && h[4..8] == b && h[8..12] == c && h[12..] == d;
  }

  /** A written header reads back. */
  lemma HeaderReadsBack(nv: Bytes, s: Store)
    requires IsNv(nv) && nv[..NV_HEADER] == HeaderBytes(s)
    ensures HeaderValid(nv) && nv[5] == s.count && NvNonce(nv) == s.nonce && Decode32(nv, 12) == s.time
  {
    FourParts(nv, NV_MAGIC, [NV_VERSION, s.count, 0, 0], Encode32(s.nonce), Encode32(s.time));
    assert nv[4] == nv[4..8][0] && nv[5] == nv[4..8][1];
    RoundTrip32(nv, 8, s.nonce);
    RoundTrip32(nv, 12, s.time);
  }

  /** Whenever the header access succeeds the storage holds the header of the store. */
  lemma SavedHeader(s: Store, nv: Bytes, io: Io)
    requires WellKept(s) && IsNv(nv) && s.config.hasWrite && io.header
    ensures Saved(s, nv, io).nv[..NV_HEADER] == HeaderBytes(s)
  {
    var written := Overwritten(nv, 0, HeaderBytes(s));
    assert written[..NV_HEADER] == HeaderBytes(s);
    if s.users != [] && io.records {
      assert Overwritten(written, NV_HEADER, s.users)[..NV_HEADER] == written[..NV_HEADER];
    }
  }

  /** A full save leaves the records behind the header. */
  lemma SavedRecords(s: Store, nv: Bytes)
    requires WellKept(s) && IsNv(nv) && s.config.hasWrite
    ensures var saved := Saved(s, nv, Io(true, true));
            saved.result == Ok && saved.nv[NV_HEADER..NV_HEADER + |s.users|] == s.users
  {
    var written := Overwritten(nv, 0, HeaderBytes(s));
    if s.users != [] {
      assert Overwritten(written, NV_HEADER, s.users)[NV_HEADER..NV_HEADER + |s.users|] == s.users;
    }
  }

  lemma LoadedBack(s: Store, nv: Bytes, config: Config)
    requires WellKept(s) && IsNv(nv) && config.hasRead
    requires HeaderValid(nv) && nv[5] == s.count && NvNonce(nv) == s.nonce && Decode32(nv, 12) == s.time
    requires nv[NV_HEADER..NV_HEADER + |s.users|] == s.users
    ensures Loaded(config, nv, Io(true, true))
            == LoadOutcome(Empty(config).(count := s.count, users := s.users, nonce := s.nonce, time := s.time), Ok)
  {
    assert LoadedCount(nv) == s.count;
  }

  /** Save then load restores users, nonce and time. */
  lemma SaveThenLoad(s: Store, nv: Bytes, config: Config)
    requires WellKept(s) && IsNv(nv) && s.config.hasWrite && config.hasRead
    ensures var saved := Saved(s, nv, Io(true, true));
            && saved.result == Ok
            && Loaded(config, saved.nv, Io(true, true))
               == LoadOutcome(Empty(config).(count := s.count, users := s.users, nonce := s.nonce, time := s.time), Ok)
  {
    var out := Saved(s, nv, Io(true, true)).nv;
    SavedHeader(s, nv, Io(true, true));
    HeaderReadsBack(out, s);
    SavedRecords(s, nv);
    LoadedBack(s, out, config);
  }

  // --- runs ---

  /** The device after a run from power-up with the given storage. */
  function After(nv: Bytes, evs: seq<Event>): (d: Device)
    requires IsNv(nv)
    ensures Sound(d)
  {
    if evs == [] then Device(OFF, nv) else Apply(After(nv, evs[..|evs| - 1]), evs[|evs| - 1])
  }

  lemma AfterNext(nv: Bytes, evs: seq<Event>, ev: Event)
    requires IsNv(nv)
    ensures After(nv, evs + [ev]) == Apply(After(nv, evs), ev)
  {
    assert (evs + [ev])[..|evs|] == evs;
  }

  // --- statistics ---

  predicate Balanced(s: Store) {
    s.attempts == Sum32(s.successes, s.failures)
  }

  lemma LoginBalances(s: Store, r: Result)
    requires Balanced(s)
    ensures Balanced(LoggedIn(s, r))
  {
  }

  predicate SameCounters(s: Store, t: Store) {
    s.attempts == t.attempts && s.successes == t.successes && s.failures == t.failures
  }

  lemma SyncKeepsCounters(d: Device, p: Bytes, io: Io)
    requires Sound(d)
    ensures SameCounters(Received(d, p, io).device.store, d.store)
  {
  }

  lemma ClearKeepsCounters(d: Device, io: Io)
    requires Sound(d)
    ensures SameCounters(Cleared(d, io).device.store, d.store)
  {
  }

  lemma EventBalances(d: Device, ev: Event)
    requires Sound(d) && Balanced(d.store)
    ensures Balanced(Apply(d, ev).store)
  {
    match ev
    case Sync(p, io) => SyncKeepsCounters(d, p, io);
    case Clear(io) => ClearKeepsCounters(d, io);
    case Login(name, password) => LoginBalances(d.store, LoginResult(d.store, name, password));
    case _ =>
  }

  /** Attempts are successes plus failures, counted in 32 bits, after every run. */
  lemma {:induction false} AttemptsBalance(nv: Bytes, evs: seq<Event>)
    requires IsNv(nv)
    ensures Balanced(After(nv, evs).store)
  {
    if evs != [] {
      AttemptsBalance(nv, evs[..|evs| - 1]);
      EventBalances(After(nv, evs[..|evs| - 1]), evs[|evs| - 1]);
    }
  }

  // --- damaged payloads ---

  /** A payload whose checksum is that of its records. */
  predicate Intact(p: Bytes) {
    p != [] && HasRecords(p) && p[4] == PROTOCOL_VERSION && CcittCrc.Crc(0xFFFF, Records(p)) == Checksum(p)
  }

  /** Damage within two adjacent bytes. */
  ghost predicate AdjacentDamage(x: Bytes, y: Bytes, i: nat)
    requires |x| == |y|
  {
    i < |x| && x != y && forall j | 0 <= j < |x| && j != i && j != i + 1 :: x[j] == y[j]
  }

  /** Damage to an odd number of bits, or to two. */
  ghost predicate BitDamage(x: Bytes, y: Bytes)
    requires |x| == |y|
  {
    var flipped := CcittDistance.BitCount(CcittCrc.Difference(x, y));
    flipped % 2 == 1 || flipped == 2
  }

  /** Damage confined to sixteen consecutive bits. */
  ghost predicate BurstDamage(x: Bytes, y: Bytes, w: bv16, k: nat, p: nat, q: nat)
    requires |x| == |y|
  {
    && w != 0 && k <= 8
    && CcittCrc.Difference(x, y) + CcittCrc.Zeros(2)
       == CcittCrc.Zeros(p) + CcittCrc.Bytes24(CcittCrc.Up(w as bv24, k)) + CcittCrc.Zeros(q)
  }

  ghost predicate Damaged(x: Bytes, y: Bytes)
    requires |x| == |y|
  {
    || (exists i :: AdjacentDamage(x, y, i))
    || BitDamage(x, y)
    || (exists w, k, p, q :: BurstDamage(x, y, w, k, p, q))
  }

  lemma DamageChangesCrc(x: Bytes, y: Bytes)
    requires |x| == |y| <= 4095 && Damaged(x, y)
    ensures CcittCrc.Crc(0xFFFF, x) != CcittCrc.Crc(0xFFFF, y)
  {
    if BitDamage(x, y) {
      var flipped := CcittDistance.BitCount(CcittCrc.Difference(x, y));
      if flipped == 2 {
        CcittDistance.FewErrorsDetected(x, y);
      } else {
        CcittDistance.OddErrorsDetected(x, y);
      }
    } else if i :| AdjacentDamage(x, y, i) {
      CcittCrc.AdjacentBytesDetected(x, y, i);
    } else {
      var w, k, p, q :| BurstDamage(x, y, w, k, p, q);
      CcittCrc.BurstDetected(x, y, w, k, p, q);
    }
  }

  /**
   * A payload whose header arrives as sent but whose records are damaged in one byte, two adjacent
   * bytes, sixteen consecutive bits, two bits or any odd number of bits is refused with a checksum
   * error and changes nothing.
   */
  lemma DamagedRecordsRefused(d: Device, sent: Bytes, p: Bytes, io: Io)
    requires Sound(d) && d.store.initialized && Intact(sent)
    requires |p| == |sent| && p[..HEADER_SIZE] == sent[..HEADER_SIZE]
    requires HasRecords(p) && |Records(p)| == |Records(sent)| && Damaged(Records(sent), Records(p))
    ensures Received(d, p, io) == SyncOutcome(d, ChecksumError)
  {
    assert forall i | 0 <= i < HEADER_SIZE :: p[i] == p[..HEADER_SIZE][i] && sent[i] == sent[..HEADER_SIZE][i];
    assert p[4] == sent[4] && p[16] == sent[16] && p[17] == sent[17];
    assert |Records(p)| <= 1024;
    DamageChangesCrc(Records(sent), Records(p));
  }

  // --- logins ---

  /** Against a record that stores the hash of `p`, password `q` is accepted exactly when its hash is the same. */
  lemma LoginIff(s: Store, name: Bytes, k: nat, p: Bytes, q: Bytes)
    requires WellKept(s) && s.initialized && k < s.count as nat
    requires FindFrom(s.users, s.count as nat, name, 0) == k
    requires IsActive(Record(s.users, k)) && StoredHash(Record(s.users, k)) == PasswordText(p)
    ensures LoginResult(s, name, q) == Ok <==> Djb2(DJB2_INIT, SALT + p) == Djb2(DJB2_INIT, SALT + q)
    ensures LoginResult(s, name, p) == Ok
  {
    SameTextIff(p, q);
  }

  /** A password mistyped in one character is always refused. */
  lemma MistypedIsRefused(s: Store, name: Bytes, k: nat, p: Bytes, i: nat, c: bv8)
    requires WellKept(s) && s.initialized && k < s.count as nat
    requires FindFrom(s.users, s.count as nat, name, 0) == k
    requires IsActive(Record(s.users, k)) && StoredHash(Record(s.users, k)) == PasswordText(p)
    requires i < |p| && c != p[i]
    ensures LoginResult(s, name, p[i := c]) == AuthFailed
  {
    MistypedPassword(p, i, c);
  }
}
