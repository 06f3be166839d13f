/**
 * The credential store of a remote unit: users received in sync payloads, kept in memory and mirrored
 * to non-volatile storage.  Whether each storage access succeeds is a parameter; an access that fails
 * leaves the storage as it was.
 */
module UserStore {
  import opened Bytes
  import opened UserSync
  import CcittCrc

  const NV_HEADER := 16
  const NV_SIZE := NV_HEADER + MAX_USERS * RECORD_SIZE
  const NV_VERSION: bv8 := 1
  /** 0x55535253, little-endian. */
  const NV_MAGIC: Bytes := [0x53, 0x52, 0x53, 0x55]

  datatype Result = Ok | InvalidParam | VersionMismatch | ChecksumError | Replay | StorageWrite
                  | UserNotFound | AuthFailed | Inactive

  datatype Config = Config(hasRead: bool, hasWrite: bool, replayProtection: bool)

  /** Whether the header access and the records access succeed. */
  datatype Io = Io(header: bool, records: bool)

  datatype Store = Store(initialized: bool, config: Config, count: bv8, users: Bytes, nonce: Uint32, time: Uint32,
                         syncs: Uint32, attempts: Uint32, successes: Uint32, failures: Uint32)

  function Empty(config: Config): Store {
    Store(false, config, 0, [], 0, 0, 0, 0, 0, 0)
  }

  predicate WellKept(s: Store) {
    s.count as nat <= MAX_USERS && |s.users| == RECORD_SIZE * s.count as nat
  }

  predicate IsNv(nv: Bytes) {
    |nv| == NV_SIZE
  }

  function Overwritten(nv: Bytes, at: nat, d: Bytes): (r: Bytes)
    requires at + |d| <= |nv|
    ensures |r| == |nv|
  {
    nv[..at] + d + nv[at + |d|..]
  }

  function HeaderBytes(s: Store): (h: Bytes)
    ensures |h| == NV_HEADER
  {
    NV_MAGIC + [NV_VERSION, s.count, 0, 0] + Encode32(s.nonce) + Encode32(s.time)
  }

  predicate HeaderValid(nv: Bytes)
    requires IsNv(nv)
  {
    nv[..4] == NV_MAGIC && nv[4] == NV_VERSION
  }

  function NvNonce(nv: Bytes): Uint32
    requires IsNv(nv)
  {
    Decode32(nv, 8)
  }

  datatype SaveOutcome = SaveOutcome(nv: Bytes, result: Result)

  function Saved(s: Store, nv: Bytes, io: Io): (o: SaveOutcome)
    requires WellKept(s) && IsNv(nv)
    ensures IsNv(o.nv)
  {
    if !s.config.hasWrite then SaveOutcome(nv, Ok)
    else if !io.header then SaveOutcome(nv, StorageWrite)
    else
      var written := Overwritten(nv, 0, HeaderBytes(s));
      if s.users == [] then SaveOutcome(written, Ok)
      else if !io.records then SaveOutcome(written, StorageWrite)
      else SaveOutcome(Overwritten(written, NV_HEADER, s.users), Ok)
  }

  function LoadedCount(nv: Bytes): (c: bv8)
    requires IsNv(nv)
    ensures c as nat <= MAX_USERS
  {
    if nv[5] as nat > MAX_USERS then 16 else nv[5]
  }

  datatype LoadOutcome = LoadOutcome(store: Store, result: Result)

  function Loaded(config: Config, nv: Bytes, io: Io): (o: LoadOutcome)
    requires IsNv(nv)
    ensures WellKept(o.store)
  {
    if !config.hasRead || !io.header || !HeaderValid(nv) then LoadOutcome(Empty(config), Ok)
    else
      var c := LoadedCount(nv);
      if c as nat > 0 && !io.records then LoadOutcome(Empty(config), StorageWrite)
      else
        LoadOutcome(Empty(config).(count := c, users := nv[NV_HEADER..NV_HEADER + RECORD_SIZE * c as nat],
                                   nonce := NvNonce(nv), time := Decode32(nv, 12)), Ok)
  }

  function Initialized(config: Config, nv: Bytes, io: Io): (s: Store)
    requires IsNv(nv)
    ensures WellKept(s)
  {
    var o := Loaded(config, nv, io);
    if o.result == Ok then o.store.(initialized := true) else o.store
  }

  // --- sync payloads ---

  predicate HasRecords(p: Bytes) {
    |p| >= HEADER_SIZE && p[6] as nat <= MAX_USERS && |p| >= HEADER_SIZE + RECORD_SIZE * p[6] as nat
  }

  function Records(p: Bytes): (d: Bytes)
    requires HasRecords(p)
  {
    p[HEADER_SIZE..HEADER_SIZE + RECORD_SIZE * p[6] as nat]
  }

  function Checksum(p: Bytes): bv16
    requires |p| >= HEADER_SIZE
  {
    ((p[17] as bv16) << 8) | (p[16] as bv16)
  }

  function Nonce(p: Bytes): Uint32
    requires |p| >= HEADER_SIZE
  {
    Decode32(p, 12)
  }

  /** The checks a payload goes through, in order. */
  function Checked(s: Store, p: Bytes): Result {
    if !s.initialized || |p| < HEADER_SIZE then InvalidParam
    else if p[4] != PROTOCOL_VERSION then VersionMismatch
    else if !HasRecords(p) then InvalidParam
    else if CcittCrc.Crc(0xFFFF, Records(p)) != Checksum(p) then ChecksumError
    else if s.config.replayProtection && Nonce(p) <= s.nonce then Replay
    else Ok
  }

  function Synced(s: Store, p: Bytes): Store
    requires HasRecords(p)
  {
    s.(users := Records(p), count := p[6], nonce := Nonce(p), time := Decode32(p, 8), syncs := Next32(s.syncs))
  }

  // --- logins ---

  function Record(users: Bytes, i: nat): Bytes
    requires RECORD_SIZE * (i + 1) <= |users|
  {
    users[RECORD_SIZE * i..RECORD_SIZE * (i + 1)]
  }

  /** Equal as C strings within the length of the username field. */
  predicate Named(record: Bytes, name: Bytes)
    requires |record| == RECORD_SIZE
  {
    Text(record[4..4 + USERNAME_LEN]) == Text(if |name| > USERNAME_LEN then name[..USERNAME_LEN] else name)
  }

  /** The first of the users from `i` on with this name, or -1. */
  function FindFrom(users: Bytes, count: nat, name: Bytes, i: nat): (k: int)
    requires |users| == RECORD_SIZE * count && i <= count
    ensures -1 <= k < count
    ensures k >= 0 ==> k >= i && Named(Record(users, k), name) && forall j: nat | i <= j < k :: !Named(Record(users, j), name)
    ensures k < 0 ==> forall j: nat | i <= j < count :: !Named(Record(users, j), name)
    decreases count - i
  {
    if i == count then -1
    else if Named(Record(users, i), name) then i
    else FindFrom(users, count, name, i + 1)
  }

  predicate IsActive(record: Bytes)
    requires |record| == RECORD_SIZE
  {
    record[61] & FLAG_ACTIVE != 0
  }

  function StoredHash(record: Bytes): Bytes
    requires |record| == RECORD_SIZE
  {
    Text(record[36..36 + HASH_LEN])
  }

  function LoginResult(s: Store, name: Bytes, password: Bytes): (r: Result)
    requires WellKept(s)
    ensures r == InvalidParam <==> !s.initialized
  {
    if !s.initialized then InvalidParam
    else
      var k := FindFrom(s.users, s.count as nat, name, 0);
      if k < 0 then UserNotFound
      else if !IsActive(Record(s.users, k)) then Inactive
      else if PasswordText(password) != StoredHash(Record(s.users, k)) then AuthFailed
      else Ok
  }

  /** The role a successful login reports. */
  function RoleOf(s: Store, name: Bytes): bv8
    requires WellKept(s)
  {
    var k := FindFrom(s.users, s.count as nat, name, 0);
    if k < 0 then 0 else Record(s.users, k)[60]
  }

  function LoggedIn(s: Store, r: Result): Store {
    if r == InvalidParam then s
    else if r == Ok then s.(attempts := Next32(s.attempts), successes := Next32(s.successes))
    else s.(attempts := Next32(s.attempts), failures := Next32(s.failures))
  }

  // --- the whole device ---

  datatype Device = Device(store: Store, nv: Bytes)

  datatype Event =
    | Init(config: Config, io: Io)
    | Shutdown(io: Io)
    | PowerLoss
    | Sync(payload: Bytes, io: Io)
    | Login(name: Bytes, password: Bytes)
    | Clear(io: Io)
    | ResetStats

  predicate Sound(d: Device) {
    WellKept(d.store) && IsNv(d.nv)
  }

  const OFF := Empty(Config(false, false, false))

  datatype SyncOutcome = SyncOutcome(device: Device, result: Result)

  function Received(d: Device, p: Bytes, io: Io): (o: SyncOutcome)
    requires Sound(d)
    ensures Sound(o.device)
  {
    var r := Checked(d.store, p);
    if r != Ok then SyncOutcome(d, r)
    else
      var s := Synced(d.store, p);
      var o := Saved(s, d.nv, io);
      SyncOutcome(Device(s, o.nv), o.result)
  }

  function ShutDown(d: Device, io: Io): (r: Device)
    requires Sound(d)
    ensures Sound(r)
  {
    Device(OFF, if d.store.initialized then Saved(d.store, d.nv, io).nv else d.nv)
  }

  function Cleared(d: Device, io: Io): (o: SyncOutcome)
    requires Sound(d)
    ensures Sound(o.device)
  {
    if !d.store.initialized then SyncOutcome(d, InvalidParam)
    else
      var s := d.store.(users := [], count := 0);
      var o := Saved(s, d.nv, io);
      SyncOutcome(Device(s, o.nv), o.result)
  }

  function Apply(d: Device, ev: Event): (r: Device)
    requires Sound(d)
    ensures Sound(r)
  {
    match ev
    case Init(config, io) => Device(Initialized(config, d.nv, io), d.nv)
    case Shutdown(io) => ShutDown(d, io)
    case PowerLoss => Device(OFF, d.nv)
    case Sync(p, io) => Received(d, p, io).device
    case Login(name, password) => Device(LoggedIn(d.store, LoginResult(d.store, name, password)), d.nv)
    case Clear(io) => Cleared(d, io).device
    case ResetStats => Device(d.store.(attempts := 0, successes := 0, failures := 0), d.nv)
  }
}
