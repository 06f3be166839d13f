/** Who can log in, in terms of the bytes of the stored records. */
module UserLogins {
  import opened Bytes
  import opened UserSync
  import opened UserStore
  import opened UserStoreRuns
  import CcittCrc

  // --- the bytes of a record ---

  /** The characters of a C string, zero from its end on. */
  function CharAt(name: Bytes, k: nat): bv8 {
    if k < |name| then name[k] else 0
  }

  /** The first `n` characters of the username field of record `i` are those of the name, none of them zero. */
  predicate SameChars(users: Bytes, i: nat, name: Bytes, n: nat)
    requires 64 * (i + 1) <= |users| && n <= 32
  {
    forall k: nat | k < n :: users[64 * i + 4 + k] == CharAt(name, k) && CharAt(name, k) != 0
  }

  /** The username field of record `i` equals the name up to the first zero within 32 characters. */
  predicate SameName(users: Bytes, i: nat, name: Bytes)
    requires 64 * (i + 1) <= |users|
  {
    exists n: nat | n <= 32 ::
      SameChars(users, i, name, n) && (n == 32 || (users[64 * i + 4 + n] == 0 && CharAt(name, n) == 0))
  }

  /** Record `i` is the first with the name. */
  predicate FirstNamed(users: Bytes, i: nat, name: Bytes)
    requires 64 * (i + 1) <= |users|
  {
    SameName(users, i, name) && forall j: nat | j < i :: !SameName(users, j, name)
  }

  /** Bit 0 of the flag byte. */
  predicate Enabled(users: Bytes, i: nat)
    requires 64 * (i + 1) <= |users|
  {
    users[64 * i + 61] & 0x01 == 0x01
  }

  /** The hash field holds these 22 characters and a zero. */
  predicate Holds(users: Bytes, i: nat, text: Bytes)
    requires 64 * (i + 1) <= |users| && |text| == 22
  {
    users[64 * i + 36..64 * i + 58] == text && users[64 * i + 58] == 0
  }

  // --- the model's notions are these ---

  lemma {:induction false} TextIs(field: Bytes, n: nat)
    requires n <= |field| && 0 !in field[..n] && (n < |field| ==> field[n] == 0)
    ensures Text(field) == field[..n]
  {
    if n > 0 {
      assert field[0] in field[..n];
      assert field[1..][..n - 1] == field[..n][1..];
      TextIs(field[1..], n - 1);
      assert field[..n] == [field[0]] + field[..n][1..];
    }
  }

  function Cut(name: Bytes): (r: Bytes)
    ensures |r| <= 32 && r <= name
  {
    if |name| > 32 then name[..32] else name
  }

  lemma CutChar(name: Bytes, k: nat)
    requires k < 32
    ensures CharAt(Cut(name), k) == CharAt(name, k)
  {
  }

  lemma FieldChar(users: Bytes, i: nat, k: nat)
    requires 64 * (i + 1) <= |users| && k < 32
    ensures |Record(users, i)| == 64 && Record(users, i)[4..36][k] == users[64 * i + 4 + k]
  {
  }

  /** Two texts that agree up to a zero in both, or up to the end, are the same. */
  lemma SameTexts(field: Bytes, name: Bytes, n: nat)
    requires |field| == 32 && |name| <= 32 && n <= 32
    requires forall k: nat | k < n :: field[k] == CharAt(name, k) && CharAt(name, k) != 0
    requires n == 32 || (field[n] == 0 && CharAt(name, n) == 0)
    ensures Text(field) == Text(name)
  {
    assert CharAt(name, |name|) == 0;
    assert n <= |name|;
    assert field[..n] == name[..n];
    TextIs(field, n);
    TextIs(name, n);
  }

  lemma SameNameIsNamed(users: Bytes, i: nat, name: Bytes)
    requires 64 * (i + 1) <= |users|
    ensures SameName(users, i, name) ==> Named(Record(users, i), name)
  {
    if SameName(users, i, name) {
      var n: nat :| n <= 32 && SameChars(users, i, name, n)
        && (n == 32 || (users[64 * i + 4 + n] == 0 && CharAt(name, n) == 0));
      var field := Record(users, i)[4..36];
      forall k: nat | k < 32 ensures field[k] == users[64 * i + 4 + k] && CharAt(Cut(name), k) == CharAt(name, k) {
        FieldChar(users, i, k);
        CutChar(name, k);
      }
      SameTexts(field, Cut(name), n);
    }
  }

  lemma NamedIsSameName(users: Bytes, i: nat, name: Bytes)
    requires 64 * (i + 1) <= |users|
    ensures Named(Record(users, i), name) ==> SameName(users, i, name)
  {
    if Named(Record(users, i), name) {
      var field := Record(users, i)[4..36];
      var text := Text(field);
      var n := |text|;
      forall k: nat | k < 32 ensures field[k] == users[64 * i + 4 + k] && CharAt(Cut(name), k) == CharAt(name, k) {
        FieldChar(users, i, k);
        CutChar(name, k);
      }
      forall k: nat | k < n ensures users[64 * i + 4 + k] == CharAt(name, k) && CharAt(name, k) != 0 {
        assert text[k] in text;
      }
      assert SameChars(users, i, name, n);
    }
  }

  lemma NamedIff(users: Bytes, i: nat, name: Bytes)
    requires 64 * (i + 1) <= |users|
    ensures Named(Record(users, i), name) <==> SameName(users, i, name)
  {
    SameNameIsNamed(users, i, name);
    NamedIsSameName(users, i, name);
  }

  lemma FieldOf(users: Bytes, a: nat)
    requires a + 64 <= |users|
    ensures users[a..a + 64][36..60] == users[a + 36..a + 60]
  {
    var record := users[a..a + 64];
    var x, y := record[36..60], users[a + 36..a + 60];
    assert |x| == |y| && forall k | 0 <= k < 24 :: x[k] == record[36 + k] == users[a + 36 + k] == y[k];
  }

  lemma FieldParts(users: Bytes, a: nat)
    requires a + 24 <= |users|
    ensures users[a..a + 24][..22] == users[a..a + 22] && users[a..a + 24][22] == users[a + 22]
  {
  }

  lemma HoldsIff(users: Bytes, i: nat, text: Bytes)
    requires 64 * (i + 1) <= |users| && |text| == 22 && 0 !in text
    ensures StoredHash(Record(users, i)) == text <==> Holds(users, i, text)
  {
    var field := Record(users, i)[36..60];
    FieldOf(users, 64 * i);
    FieldParts(users, 64 * i + 36);
    if Holds(users, i, text) {
      TextIs(field, 22);
    }
    if Text(field) == text {
      assert field[..22] == text;
    }
  }

  lemma FlagBit(b: bv8)
    ensures b & FLAG_ACTIVE != 0 <==> b & 0x01 == 0x01
  {
  }

  /** The search finds the first record with the name. */
  lemma FoundIff(users: Bytes, count: nat, name: Bytes, i: nat)
    requires |users| == 64 * count && i < count
    ensures FindFrom(users, count, name, 0) == i <==> FirstNamed(users, i, name)
  {
    forall j: nat | j < count ensures Named(Record(users, j), name) <==> SameName(users, j, name) {
      NamedIff(users, j, name);
    }
  }

  // --- main results ---

  /** Record `i` admits the password: it is the first with the name, enabled, and stores the text of its hash. */
  predicate Admits(s: Store, name: Bytes, password: Bytes, i: nat)
    requires WellKept(s) && i < s.count as nat
    ensures Admits(s, name, password, i) ==> FirstNamed(s.users, i, name)
  {
    FirstNamed(s.users, i, name) && Enabled(s.users, i) && Holds(s.users, i, PasswordText(password))
  }

  /** A login succeeds exactly when the unit is initialized and the first record with the name admits it. */
  lemma LoginOkIff(s: Store, name: Bytes, password: Bytes)
    requires WellKept(s)
    ensures LoginResult(s, name, password) == Ok <==>
            s.initialized && exists i: nat | i < s.count as nat :: Admits(s, name, password, i)
  {
    if LoginResult(s, name, password) == Ok {
      var i := OkIsAdmitted(s, name, password);
    }
    if s.initialized {
      if i: nat :| i < s.count as nat && Admits(s, name, password, i) {
        RoleIsStored(s, name, password, i);
      }
    }
  }

  lemma OkIsAdmitted(s: Store, name: Bytes, password: Bytes) returns (i: nat)
    requires WellKept(s) && LoginResult(s, name, password) == Ok
    ensures s.initialized && i < s.count as nat && Admits(s, name, password, i)
  {
    i := FoundIndex(s, name, password);
    AnswerOfFirst(s, name, password, i);
  }

  lemma FoundIndex(s: Store, name: Bytes, password: Bytes) returns (i: nat)
    requires WellKept(s) && LoginResult(s, name, password) == Ok
    ensures s.initialized && i < s.count as nat && FindFrom(s.users, s.count as nat, name, 0) == i
  {
    i := FindFrom(s.users, s.count as nat, name, 0);
  }

  function Answer(s: Store, password: Bytes, i: nat): Result
    requires WellKept(s) && i < s.count as nat
  {
    if !Enabled(s.users, i) then Inactive
    else if !Holds(s.users, i, PasswordText(password)) then AuthFailed
    else Ok
  }

  lemma AnswerOfFirst(s: Store, name: Bytes, password: Bytes, i: nat)
    requires WellKept(s) && i < s.count as nat && FindFrom(s.users, s.count as nat, name, 0) == i
    ensures FirstNamed(s.users, i, name)
    ensures s.initialized ==> LoginResult(s, name, password) == Answer(s, password, i)
    ensures RoleOf(s, name) == s.users[64 * i + 60]
  {
    FoundIff(s.users, s.count as nat, name, i);
    HashTextHasNoZero(Djb2(DJB2_INIT, SALT), Djb2(DJB2_INIT, SALT + password));
    HoldsIff(s.users, i, PasswordText(password));
    FlagBit(s.users[64 * i + 61]);
    assert Record(s.users, i)[61] == s.users[64 * i + 61] && Record(s.users, i)[60] == s.users[64 * i + 60];
  }

  /** A unit answers UserNotFound exactly when no record has the name. */
  lemma UnknownIff(s: Store, name: Bytes, password: Bytes)
    requires WellKept(s) && s.initialized
    ensures LoginResult(s, name, password) == UserNotFound <==>
            forall i: nat | i < s.count as nat :: !SameName(s.users, i, name)
  {
    forall i: nat | i < s.count as nat ensures Named(Record(s.users, i), name) <==> SameName(s.users, i, name) {
      NamedIff(s.users, i, name);
    }
    var k := FindFrom(s.users, s.count as nat, name, 0);
    if k >= 0 {
      assert Named(Record(s.users, k), name);
    }
  }

  /** What a login does to the counters, in 32 bits; nothing else changes. */
  predicate Counts(d: Device, after: Device, ok: bool) {
    && after == d.(store := d.store.(attempts := after.store.attempts, successes := after.store.successes,
                                     failures := after.store.failures))
    && after.store.attempts == (d.store.attempts + 1) % 0x1_0000_0000
    && after.store.successes == (if ok then (d.store.successes + 1) % 0x1_0000_0000 else d.store.successes)
    && after.store.failures == (if ok then d.store.failures else (d.store.failures + 1) % 0x1_0000_0000)
  }

  /** A login counts one attempt, and one success or one failure by its answer. */
  lemma LoginCounts(d: Device, name: Bytes, password: Bytes)
    requires Sound(d) && d.store.initialized
    ensures Counts(d, Apply(d, Login(name, password)), LoginResult(d.store, name, password) == Ok)
  {
    CountsOf(d, LoginResult(d.store, name, password));
  }

  lemma CountsOf(d: Device, r: Result)
    requires r != InvalidParam
    ensures Counts(d, Device(LoggedIn(d.store, r), d.nv), r == Ok)
  {
  }

  /** A user whose flag is clear is refused with every password, and the failure is counted. */
  lemma DisabledIsRefused(d: Device, name: Bytes, password: Bytes, i: nat)
    requires Sound(d) && d.store.initialized && i < d.store.count as nat
    requires FirstNamed(d.store.users, i, name) && d.store.users[64 * i + 61] & 0x01 == 0
    ensures LoginResult(d.store, name, password) == Inactive
    ensures Counts(d, Apply(d, Login(name, password)), false)
  {
    FoundIff(d.store.users, d.store.count as nat, name, i);
    AnswerOfFirst(d.store, name, password, i);
    LoginCounts(d, name, password);
  }

  /** A successful login reports the role byte of the record. */
  lemma RoleIsStored(s: Store, name: Bytes, password: Bytes, i: nat)
    requires WellKept(s) && s.initialized && i < s.count as nat && Admits(s, name, password, i)
    ensures LoginResult(s, name, password) == Ok && RoleOf(s, name) == s.users[64 * i + 60]
  {
    FoundIff(s.users, s.count as nat, name, i);
    AnswerOfFirst(s, name, password, i);
  }

  // --- from the payload to the login ---

  /** Record `i` of a payload, with the 20 bytes of its header before it. */
  function SentUsers(p: Bytes): (r: Bytes)
    requires HasRecords(p)
    ensures |r| == 64 * p[6] as nat
  {
    p[20..20 + 64 * p[6] as nat]
  }

  /** After a sync that passed, exactly the users it carries can log in. */
  lemma SyncedUsersLogIn(d: Device, p: Bytes, io: Io, name: Bytes, password: Bytes)
    requires Sound(d) && Checked(d.store, p) == Ok && HasRecords(p)
    ensures LoginResult(Received(d, p, io).device.store, name, password) == Ok <==>
            exists i: nat | i < p[6] as nat :: Carries(p, name, password, i)
  {
    SyncInstalls(d, p, io);
    var s := Received(d, p, io).device.store;
    LoginOkIff(s, name, password);
    forall i: nat | i < p[6] as nat ensures Carries(p, name, password, i) == Admits(s, name, password, i) {
    }
  }

  /** Record `i` of the payload is the first with the name, enabled, and stores the text of the password's hash. */
  predicate Carries(p: Bytes, name: Bytes, password: Bytes, i: nat)
    requires HasRecords(p) && i < p[6] as nat
    ensures Carries(p, name, password, i) ==> FirstNamed(SentUsers(p), i, name)
  {
    && FirstNamed(SentUsers(p), i, name) && Enabled(SentUsers(p), i)
    && Holds(SentUsers(p), i, PasswordText(password))
  }

  lemma SyncInstalls(d: Device, p: Bytes, io: Io)
    requires Sound(d) && Checked(d.store, p) == Ok && HasRecords(p)
    ensures var s := Received(d, p, io).device.store;
            s.initialized && s.users == SentUsers(p) && s.count == p[6] && s.nonce == Nonce(p)
  {
  }

  /** After a clear nobody can log in, and the nonce stays. */
  lemma ClearedUnitRefuses(d: Device, io: Io, name: Bytes, password: Bytes)
    requires Sound(d) && d.store.initialized
    ensures LoginResult(Cleared(d, io).device.store, name, password) == UserNotFound
    ensures Cleared(d, io).device.store.nonce == d.store.nonce
  {
    UnknownIff(Cleared(d, io).device.store, name, password);
  }

  /** Resetting the statistics clears the three login counters and nothing else. */
  lemma ResetClears(d: Device)
    requires Sound(d)
    ensures var t := Apply(d, ResetStats).store;
            t.attempts == 0 && t.successes == 0 && t.failures == 0
            && t == d.store.(attempts := t.attempts, successes := t.successes, failures := t.failures)
  {
  }

  // --- which payloads pass ---

  /** Four bytes of a payload or of the storage as a number, the first the least. */
  function Word(p: Bytes, at: nat): nat
    requires at + 4 <= |p|
  {
    p[at] as nat + 0x100 * p[at + 1] as nat + 0x1_0000 * p[at + 2] as nat + 0x100_0000 * p[at + 3] as nat
  }

  lemma WordIs(p: Bytes, at: nat)
    requires at + 4 <= |p|
    ensures Decode32(p, at) == Word(p, at)
  {
  }

  /** Header of 20 bytes, protocol version 2, at most 16 users, and all their records are there. */
  predicate WellFormed(p: Bytes) {
    |p| >= 20 && p[4] == 2 && p[6] as nat <= 16 && |p| >= 20 + 64 * p[6] as nat
  }

  /** Bytes 16 and 17 hold the checksum of the records, low byte first. */
  predicate SumsUp(p: Bytes)
    requires WellFormed(p)
  {
    CcittCrc.Crc(0xFFFF, p[20..20 + 64 * p[6] as nat]) == ((p[17] as bv16) << 8) | (p[16] as bv16)
  }

  /**
   * A payload passes exactly when the unit is initialized, the payload is well formed, its checksum is right, and
   * under replay protection its nonce is above the last one.
   */
  lemma PayloadPassesIff(s: Store, p: Bytes)
    ensures Checked(s, p) == Ok <==>
            s.initialized && WellFormed(p) && SumsUp(p) && (s.config.replayProtection ==> Word(p, 12) > s.nonce)
  {
    if |p| >= 20 {
      WordIs(p, 12);
    }
  }

  /** What a sync that passed leaves in memory. */
  lemma SyncedStore(d: Device, p: Bytes, io: Io)
    requires Sound(d) && Checked(d.store, p) == Ok && WellFormed(p)
    ensures var s := Received(d, p, io).device.store;
            && s.users == p[20..20 + 64 * p[6] as nat] && s.count == p[6] && s.nonce == Word(p, 12) && s.time == Word(p, 8)
            && s.syncs == (d.store.syncs + 1) % 0x1_0000_0000
  {
    WordIs(p, 12);
    WordIs(p, 8);
  }

  // --- what is in the storage ---

  /** After a save whose accesses succeed: magic, version, count, nonce, time, and the records from byte 16 on. */
  lemma SavedLayout(s: Store, nv: Bytes)
    requires WellKept(s) && IsNv(nv) && s.config.hasWrite
    ensures var out := Saved(s, nv, Io(true, true)).nv;
            && |out| == |nv| && Word(out, 0) == 0x55535253 && out[4] == 1 && out[5] == s.count && out[6] == 0 && out[7] == 0
            && Word(out, 8) == s.nonce && Word(out, 12) == s.time
            && out[16..16 + |s.users|] == s.users && out[16 + |s.users|..] == nv[16 + |s.users|..]
  {
    var out := Saved(s, nv, Io(true, true)).nv;
    SavedHeader(s, nv, Io(true, true));
    SavedRecords(s, nv);
    HeaderReadsBack(out, s);
    HeaderLayout(out, s);
    SavedTail(s, nv);
  }

  lemma HeaderLayout(out: Bytes, s: Store)
    requires |out| >= 16 && out[..16] == HeaderBytes(s)
    ensures Word(out, 0) == 0x55535253 && out[4] == 1 && out[5] == s.count && out[6] == 0 && out[7] == 0
    ensures Word(out, 8) == s.nonce && Word(out, 12) == s.time
  {
    FourParts(out, NV_MAGIC, [NV_VERSION, s.count, 0, 0], Encode32(s.nonce), Encode32(s.time));
    assert out[0] == out[..4][0] && out[1] == out[..4][1] && out[2] == out[..4][2] && out[3] == out[..4][3];
    assert out[4] == out[4..8][0] && out[5] == out[4..8][1] && out[6] == out[4..8][2] && out[7] == out[4..8][3];
    assert out[0] as nat == 0x53 && out[1] as nat == 0x52 && out[2] as nat == 0x53 && out[3] as nat == 0x55;
    RoundTrip32(out, 8, s.nonce);
    RoundTrip32(out, 12, s.time);
    WordIs(out, 8);
    WordIs(out, 12);
  }

  lemma SavedTail(s: Store, nv: Bytes)
    requires WellKept(s) && IsNv(nv) && s.config.hasWrite
    ensures Saved(s, nv, Io(true, true)).nv[16 + |s.users|..] == nv[16 + |s.users|..]
  {
    var written := Overwritten(nv, 0, HeaderBytes(s));
    TailKept(nv, 0, HeaderBytes(s), 16 + |s.users|);
    if s.users != [] {
      TailKept(written, 16, s.users, 16 + |s.users|);
    }
  }

  lemma TailKept(nv: Bytes, at: nat, d: Bytes, from: nat)
    requires at + |d| <= from <= |nv|
    ensures Overwritten(nv, at, d)[from..] == nv[from..]
  {
  }

  /** The storage starts with the magic number and version 1. */
  predicate Readable(nv: Bytes)
    requires IsNv(nv)
  {
    Word(nv, 0) == 0x55535253 && nv[4] == 1
  }

  lemma ReadableIff(nv: Bytes)
    requires IsNv(nv)
    ensures HeaderValid(nv) <==> Readable(nv)
  {
    if HeaderValid(nv) {
      assert nv[0] == nv[..4][0] && nv[1] == nv[..4][1] && nv[2] == nv[..4][2] && nv[3] == nv[..4][3];
      MagicWord(nv[0], nv[1], nv[2], nv[3]);
    }
    if Readable(nv) {
      MagicBytes(nv[0], nv[1], nv[2], nv[3]);
      assert nv[..4] == [nv[0], nv[1], nv[2], nv[3]];
    }
  }

  lemma MagicWord(a: bv8, b: bv8, c: bv8, d: bv8)
    requires a == 0x53 && b == 0x52 && c == 0x53 && d == 0x55
    ensures a as nat + 0x100 * b as nat + 0x1_0000 * c as nat + 0x100_0000 * d as nat == 0x55535253
  {
  }

  lemma MagicParts(a: nat, b: nat, c: nat, d: nat)
    requires a < 256 && b < 256 && c < 256 && d < 256 && a + 0x100 * b + 0x1_0000 * c + 0x100_0000 * d == 0x55535253
    ensures a == 0x53 && b == 0x52 && c == 0x53 && d == 0x55
  {
  }

  lemma MagicBytes(a: bv8, b: bv8, c: bv8, d: bv8)
    requires a as nat + 0x100 * b as nat + 0x1_0000 * c as nat + 0x100_0000 * d as nat == 0x55535253
    ensures a == 0x53 && b == 0x52 && c == 0x53 && d == 0x55
  {
    MagicParts(a as nat, b as nat, c as nat, d as nat);
    ValueInjective(a, 0x53);
    ValueInjective(b, 0x52);
    ValueInjective(c, 0x53);
    ValueInjective(d, 0x55);
  }

  /** How many users the storage says it holds, 16 at most. */
  function StoredCount(nv: Bytes): nat
    requires IsNv(nv)
  {
    if nv[5] as nat > 16 then 16 else nv[5] as nat
  }

  /** The memory after a start that read the storage. */
  predicate IsLoaded(s: Store, nv: Bytes)
    requires IsNv(nv)
  {
    && s.count as nat == StoredCount(nv) && s.users == nv[16..16 + 64 * StoredCount(nv)]
    && s.nonce == Word(nv, 8) && s.time == Word(nv, 12)
  }

  predicate IsEmpty(s: Store) {
    s.count == 0 && s.users == [] && s.nonce == 0 && s.time == 0
  }

  /**
   * A start: with a backend and a readable, valid header it brings in what the storage holds, unless the records
   * cannot be read, when it fails; otherwise it begins with nothing.  The counters are zero.
   */
  lemma StartLoads(config: Config, nv: Bytes, io: Io)
    requires IsNv(nv)
    ensures var s := Initialized(config, nv, io);
            && s.config == config && s.syncs == 0 && s.attempts == 0 && s.successes == 0 && s.failures == 0
            && if !config.hasRead || !io.header || !Readable(nv) then s.initialized && IsEmpty(s)
               else if StoredCount(nv) > 0 && !io.records then !s.initialized && IsEmpty(s)
               else s.initialized && IsLoaded(s, nv)
  {
    ReadableIff(nv);
    if config.hasRead && io.header && Readable(nv) {
      CountIs(nv);
      if StoredCount(nv) == 0 || io.records {
        LoadedIs(config, nv, io);
      }
    }
  }

  lemma LoadedIs(config: Config, nv: Bytes, io: Io)
    requires IsNv(nv) && config.hasRead && io.header && HeaderValid(nv) && (LoadedCount(nv) as nat > 0 ==> io.records)
    ensures Initialized(config, nv, io).initialized && IsLoaded(Initialized(config, nv, io), nv)
  {
    CountIs(nv);
    WordIs(nv, 8);
    WordIs(nv, 12);
  }

  lemma CountIs(nv: Bytes)
    requires IsNv(nv)
    ensures LoadedCount(nv) as nat == StoredCount(nv)
  {
  }
}
