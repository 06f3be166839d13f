/** The store object of the remote unit, with its non-volatile storage. */
module UserStoreUnit {
  import opened Bytes
  import opened UserSync
  import opened UserStore
  import CcittCrc

  class Unit {
    var initialized: bool
    var config: Config
    var count: bv8
    var users: Bytes
    var nonce: Uint32
    var time: Uint32
    var syncs: Uint32
    var attempts: Uint32
    var successes: Uint32
    var failures: Uint32
    var nv: Bytes

    ghost function State(): Device
      reads this
    {
      Device(Store(initialized, config, count, users, nonce, time, syncs, attempts, successes, failures), nv)
    }

    ghost predicate Valid()
      reads this
    {
      Sound(State())
    }

    constructor (nv: Bytes)
      requires IsNv(nv)
      ensures Valid() && State() == Device(OFF, nv)
    {
      initialized, config := false, Config(false, false, false);
      count, users, nonce, time, syncs, attempts, successes, failures := 0, [], 0, 0, 0, 0, 0, 0;
      this.nv := nv;
    }

    /** Clear the state, keeping a configuration. */
    method Reset(c: Config)
      requires IsNv(nv)
      modifies this
      ensures State() == Device(Empty(c), old(nv))
    {
      initialized, config := false, c;
      count, users, nonce, time, syncs, attempts, successes, failures := 0, [], 0, 0, 0, 0, 0, 0;
    }

    /** Take over what the storage holds. */
    method Adopt(c: bv8)
      requires IsNv(nv) && c as nat <= MAX_USERS
      modifies this`users, this`count, this`nonce, this`time
      ensures users == nv[NV_HEADER..NV_HEADER + RECORD_SIZE * c as nat]
      ensures count == c && nonce == NvNonce(nv) && time == Decode32(nv, 12)
    {
      users := nv[NV_HEADER..NV_HEADER + RECORD_SIZE * c as nat];
      count, nonce, time := c, NvNonce(nv), Decode32(nv, 12);
    }

    method LoadFromNv(io: Io) returns (r: Result)
      requires IsNv(nv) && State().store == Empty(config)
      modifies this`users, this`count, this`nonce, this`time
      ensures LoadOutcome(State().store, r) == Loaded(config, nv, io)
    {
      if !config.hasRead || !io.header || !HeaderValid(nv) {
        return Ok;
      }
      var c := LoadedCount(nv);
      if c as nat > 0 && !io.records {
        return StorageWrite;
      }
      Adopt(c);
      r := Ok;
    }

    method SaveToNv(io: Io) returns (r: Result)
      requires Valid()
      modifies this`nv
      ensures SaveOutcome(nv, r) == Saved(old(State().store), old(nv), io) && Valid()
    {
      if !config.hasWrite {
        return Ok;
      }
      if !io.header {
        return StorageWrite;
      }
      nv := Overwritten(nv, 0, NV_MAGIC + [NV_VERSION, count, 0, 0] + Encode32(nonce) + Encode32(time));
      if users != [] {
        if !io.records {
          return StorageWrite;
        }
        nv := Overwritten(nv, NV_HEADER, users);
      }
      r := Ok;
    }

    method Init(c: Config, io: Io) returns (r: Result)
      requires Valid()
      modifies this
      ensures Valid() && State() == Apply(old(State()), Event.Init(c, io))
      ensures r == Loaded(c, old(nv), io).result
    {
      Reset(c);
      r := LoadFromNv(io);
      if r == Ok {
        initialized := true;
      }
    }

    method Shutdown(io: Io)
      requires Valid()
      modifies this
      ensures Valid() && State() == Apply(old(State()), Event.Shutdown(io))
    {
      if initialized {
        var r := SaveToNv(io);
      }
      Reset(Config(false, false, false));
    }

    /** The checks of an incoming payload. */
    method CheckPayload(p: Bytes) returns (r: Result)
      requires Valid()
      ensures r == Checked(State().store, p)
    {
      if !initialized || |p| < HEADER_SIZE {
        return InvalidParam;
      }
      if p[4] != PROTOCOL_VERSION {
        return VersionMismatch;
      }
      if p[6] as nat > MAX_USERS || |p| < HEADER_SIZE + RECORD_SIZE * p[6] as nat {
        return InvalidParam;
      }
      var crc := CcittCrc.Crc16Ccitt(p[HEADER_SIZE..HEADER_SIZE + RECORD_SIZE * p[6] as nat]);
      if crc != Checksum(p) {
        return ChecksumError;
      }
      if config.replayProtection && Decode32(p, 12) <= nonce {
        return Replay;
      }
      r := Ok;
    }

    method ReceiveSync(p: Bytes, io: Io) returns (r: Result)
      requires Valid()
      modifies this
      ensures Valid() && SyncOutcome(State(), r) == Received(old(State()), p, io)
    {
      r := CheckPayload(p);
      if r != Ok {
        return;
      }
      users := p[HEADER_SIZE..HEADER_SIZE + RECORD_SIZE * p[6] as nat];
      count, nonce, time, syncs := p[6], Decode32(p, 12), Decode32(p, 8), Next32(syncs);
      r := SaveToNv(io);
    }

    /** The first user with this name, or -1. */
    method FindUser(name: Bytes) returns (k: int)
      requires Valid()
      ensures k == FindFrom(users, count as nat, name, 0)
    {
      var n := count as nat;
      k := 0;
      while k < n
        invariant 0 <= k <= n && FindFrom(users, n, name, 0) == FindFrom(users, n, name, k)
      {
        if Named(Record(users, k), name) {
          return;
        }
        k := k + 1;
      }
      k := -1;
    }

    /** Compare the hash of a password with the stored one. */
    method CheckPassword(record: Bytes, password: Bytes) returns (same: bool)
      requires |record| == RECORD_SIZE
      ensures same <==> PasswordText(password) == StoredHash(record)
    {
      var saltHash, passHash := HashWithSalt(password);
      var computed := HashText(saltHash, passHash);
      HashTextHasNoZero(saltHash, passHash);
      same := SecureCompare(computed, StoredHash(record));
    }

    /** The answer to a login, before it is counted. */
    method Judge(name: Bytes, password: Bytes) returns (r: Result, role: bv8)
      requires Valid() && initialized
      ensures r == LoginResult(State().store, name, password)
      ensures r == Ok ==> role == RoleOf(State().store, name)
    {
      role := 0;
      var k := FindUser(name);
      if k < 0 {
        return UserNotFound, 0;
      }
      var record := Record(users, k);
      if record[61] & FLAG_ACTIVE == 0 {
        return Inactive, 0;
      }
      var same := CheckPassword(record, password);
      if !same {
        return AuthFailed, 0;
      }
      return Ok, record[60];
    }

    method Authenticate(name: Bytes, password: Bytes) returns (r: Result, role: bv8)
      requires Valid()
      modifies this`attempts, this`successes, this`failures
      ensures Valid() && State() == Apply(old(State()), Event.Login(name, password))
      ensures r == LoginResult(old(State().store), name, password)
      ensures r == Ok ==> role == RoleOf(old(State().store), name)
    {
      if !initialized {
        return InvalidParam, 0;
      }
      r, role := Judge(name, password);
      CountLogin(r);
    }

    method CountLogin(r: Result)
      requires Valid() && r != InvalidParam
      modifies this`attempts, this`successes, this`failures
      ensures State() == Device(LoggedIn(old(State().store), r), nv)
    {
      attempts := Next32(attempts);
      if r == Ok {
        successes := Next32(successes);
      } else {
        failures := Next32(failures);
      }
    }

    method Clear(io: Io) returns (r: Result)
      requires Valid()
      modifies this
      ensures Valid() && SyncOutcome(State(), r) == Cleared(old(State()), io)
    {
      if !initialized {
        return InvalidParam;
      }
      users, count := [], 0;
      r := SaveToNv(io);
    }

    method ResetAuthStats()
      requires Valid()
      modifies this`attempts, this`successes, this`failures
      ensures Valid() && State() == Apply(old(State()), Event.ResetStats)
    {
      attempts, successes, failures := 0, 0, 0;
    }
  }
}
