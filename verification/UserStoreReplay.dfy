/** Replay protection across restarts: which syncs a unit can be made to take twice. */
module UserStoreReplay {
  import opened Common
  import opened Bytes
  import opened UserSync
  import opened UserStore
  import opened UserStoreRuns

  predicate Increasing(xs: seq<Uint32>) {
    forall i, j | 0 <= i < j < |xs| :: xs[i] < xs[j]
  }

  lemma Extended(xs: seq<Uint32>, n: Uint32)
    requires Increasing(xs) && (xs != [] ==> xs[|xs| - 1] < n)
    ensures Increasing(xs + [n]) && (xs + [n])[|xs + [n]| - 1] == n
  {
  }

  /** Protection switched on, a storage backend given, and the header readable. */
  predicate ProtectedInit(c: Config, io: Io) {
    c.replayProtection && c.hasRead && c.hasWrite && io.header
  }

  predicate ProtectedEvent(ev: Event) {
    ev.Init? ==> ProtectedInit(ev.config, ev.io)
  }

  /** So at every start of the run. */
  predicate Protected(evs: seq<Event>) {
    forall i | 0 <= i < |evs| :: ProtectedEvent(evs[i])
  }

  predicate Guarded(d: Device) {
    d.store.initialized ==> d.store.config.replayProtection && d.store.config.hasRead && d.store.config.hasWrite
  }

  lemma EventGuards(d: Device, ev: Event)
    requires Sound(d) && Guarded(d) && ProtectedEvent(ev)
    ensures Guarded(Apply(d, ev))
  {
  }

  lemma {:induction false} RunGuards(nv: Bytes, evs: seq<Event>)
    requires IsNv(nv) && Protected(evs)
    ensures Guarded(After(nv, evs))
  {
    if evs != [] {
      RunGuards(nv, evs[..|evs| - 1]);
      assert ProtectedEvent(evs[|evs| - 1]);
      EventGuards(After(nv, evs[..|evs| - 1]), evs[|evs| - 1]);
    }
  }

  /** The nonce a start finds in the storage: 0 without a valid header. */
  function KeptNonce(nv: Bytes): Uint32
    requires IsNv(nv)
  {
    if HeaderValid(nv) then NvNonce(nv) else 0
  }

  /** The storage holds a nonce at least `n`. */
  predicate InStorage(nv: Bytes, n: Uint32)
    requires IsNv(nv)
  {
    n <= KeptNonce(nv)
  }

  lemma SaveKeeps(s: Store, nv: Bytes, io: Io, n: Uint32)
    requires WellKept(s) && IsNv(nv) && s.config.hasWrite && n <= s.nonce
    requires InStorage(nv, n) || io.header
    ensures InStorage(Saved(s, nv, io).nv, n)
  {
    if io.header {
      SavedHeader(s, nv, io);
      HeaderReadsBack(Saved(s, nv, io).nv, s);
    }
  }

  lemma SaveWithoutHeader(s: Store, nv: Bytes, io: Io)
    requires WellKept(s) && IsNv(nv) && s.config.hasWrite && !io.header
    ensures Saved(s, nv, io).nv == nv && Saved(s, nv, io).result == StorageWrite
  {
  }

  // --- syncs that are installed ---

  /** The payload passes every check, so its users and nonce replace those in memory. */
  predicate Installs(d: Device, p: Bytes) {
    Checked(d.store, p) == Ok
  }

  /** A payload that does not pass changes nothing. */
  lemma NotInstalledIsRefused(d: Device, p: Bytes, io: Io)
    requires Sound(d) && !Installs(d, p)
    ensures Received(d, p, io).device == d && Received(d, p, io).result != Ok
  {
  }

  lemma InstallFacts(d: Device, p: Bytes)
    requires Guarded(d) && Installs(d, p)
    ensures d.store.initialized && HasRecords(p) && Nonce(p) > d.store.nonce
  {
  }

  /** A well-formed payload is taken exactly when its nonce is above the one in memory. */
  lemma InstallsIff(d: Device, p: Bytes)
    requires Guarded(d) && d.store.initialized && Intact(p)
    ensures Installs(d, p) <==> Nonce(p) > d.store.nonce
  {
  }

  /** The nonces of the syncs installed by a run, in order. */
  function Installed(nv: Bytes, evs: seq<Event>): seq<Uint32>
    requires IsNv(nv)
  {
    if evs == [] then []
    else
      var d, ev := After(nv, evs[..|evs| - 1]), evs[|evs| - 1];
      Installed(nv, evs[..|evs| - 1]) + NonceOf(d, ev)
  }

  function NonceOf(d: Device, ev: Event): seq<Uint32> {
    if ev.Sync? && Installs(d, ev.payload) then [Nonce(ev.payload)] else []
  }

  /** The nonce in memory is in the storage too. */
  predicate Stored(d: Device)
    requires Sound(d)
  {
    InStorage(d.nv, d.store.nonce)
  }

  /** The call writes the header of the store to the storage. */
  predicate WritesHeader(d: Device, ev: Event) {
    match ev
    case Sync(p, io) => Installs(d, p) && io.header
    case Clear(io) => d.store.initialized && io.header
    case Shutdown(io) => d.store.initialized && io.header
    case _ => false
  }

  /** The call wipes the memory. */
  predicate Wipes(ev: Event) {
    ev.PowerLoss? || ev.Init? || ev.Shutdown?
  }

  /** The call wipes a nonce that is in memory only. */
  predicate Forgets(d: Device, ev: Event)
    requires Sound(d)
    ensures Forgets(d, ev) ==> Wipes(ev)
  {
    d.store.initialized && Wipes(ev) && !Stored(d) && !WritesHeader(d, ev)
  }

  /** The call installs a nonce above the stored one. */
  predicate Overtakes(d: Device, ev: Event)
    requires Sound(d)
  {
    ev.Sync? && Installs(d, ev.payload) && KeptNonce(d.nv) < Nonce(ev.payload)
  }

  /** While the memory lasts, its nonce is in the storage exactly from the next header write on. */
  lemma StoredIff(d: Device, ev: Event)
    requires Sound(d) && Guarded(d) && d.store.initialized && !Wipes(ev)
    ensures Stored(Apply(d, ev)) <==>
            WritesHeader(d, ev) || (Stored(d) && !Overtakes(d, ev))
  {
    match ev
    case Sync(p, io) =>
      if Installs(d, p) {
        InstallFacts(d, p);
        SaveStores(Synced(d.store, p), d.nv, io);
      }
    case Clear(io) => SaveStores(d.store.(users := [], count := 0), d.nv, io);
    case _ =>
  }

  lemma SaveStores(s: Store, nv: Bytes, io: Io)
    requires WellKept(s) && IsNv(nv) && s.config.hasWrite
    ensures io.header ==> InStorage(Saved(s, nv, io).nv, s.nonce)
    ensures !io.header ==> Saved(s, nv, io).nv == nv
  {
    if io.header {
      SaveKeeps(s, nv, io, s.nonce);
    } else {
      SaveWithoutHeader(s, nv, io);
    }
  }

  /** A nonce at least `m` is known: in memory while there is one, in the storage otherwise. */
  predicate Knows(d: Device, m: Uint32)
    requires Sound(d)
  {
    if d.store.initialized then m <= d.store.nonce else InStorage(d.nv, m)
  }

  /** A call that does not forget keeps what is known. */
  lemma EventKnows(d: Device, ev: Event, m: Uint32)
    requires Sound(d) && Guarded(d) && Knows(d, m) && ProtectedEvent(ev) && !Forgets(d, ev)
    ensures Knows(Apply(d, ev), m)
  {
    match ev
    case Sync(p, io) =>
      if Installs(d, p) {
        InstallFacts(d, p);
      }
    case Shutdown(io) =>
      if d.store.initialized {
        SaveKeeps(d.store, d.nv, io, m);
      }
    case Init(config, io) => InitKnows(d.nv, config, io, m);
    case _ =>
  }

  lemma InitKnows(nv: Bytes, config: Config, io: Io, m: Uint32)
    requires IsNv(nv) && ProtectedInit(config, io) && InStorage(nv, m)
    ensures Knows(Device(Initialized(config, nv, io), nv), m)
  {
  }

  /** No call of the run forgets. */
  predicate NeverForgets(nv: Bytes, evs: seq<Event>)
    requires IsNv(nv)
  {
    forall k | 0 <= k < |evs| :: !Forgets(After(nv, evs[..k]), evs[k])
  }

  lemma FrontNeverForgets(nv: Bytes, evs: seq<Event>, n: nat)
    requires IsNv(nv) && n <= |evs| && NeverForgets(nv, evs) && Protected(evs)
    ensures NeverForgets(nv, evs[..n]) && Protected(evs[..n])
  {
    forall k | 0 <= k < n ensures !Forgets(After(nv, evs[..n][..k]), evs[..n][k]) {
      assert evs[..n][..k] == evs[..k];
    }
    forall k | 0 <= k < n ensures ProtectedEvent(evs[..n][k]) {
      assert ProtectedEvent(evs[k]);
    }
  }

  /** The installed nonces rise and the last is known. */
  predicate Rising(nv: Bytes, evs: seq<Event>)
    requires IsNv(nv)
  {
    && Increasing(Installed(nv, evs))
    && (Installed(nv, evs) != [] ==> Knows(After(nv, evs), Installed(nv, evs)[|Installed(nv, evs)| - 1]))
  }

  lemma RisingStep(d: Device, ev: Event, xs: seq<Uint32>)
    requires Sound(d) && Guarded(d) && ProtectedEvent(ev) && !Forgets(d, ev)
    requires Increasing(xs) && (xs != [] ==> Knows(d, xs[|xs| - 1]))
    ensures var ys := xs + NonceOf(d, ev); Increasing(ys) && (ys != [] ==> Knows(Apply(d, ev), ys[|ys| - 1]))
  {
    if ev.Sync? && Installs(d, ev.payload) {
      InstallFacts(d, ev.payload);
      Extended(xs, Nonce(ev.payload));
    } else {
      assert xs + NonceOf(d, ev) == xs;
      if xs != [] {
        EventKnows(d, ev, xs[|xs| - 1]);
      }
    }
  }

  lemma {:induction false} RunRises(nv: Bytes, evs: seq<Event>)
    requires IsNv(nv) && Protected(evs) && NeverForgets(nv, evs)
    ensures Rising(nv, evs)
  {
    if evs != [] {
      var n := |evs| - 1;
      FrontNeverForgets(nv, evs, n);
      RunRises(nv, evs[..n]);
      RunGuards(nv, evs[..n]);
      assert ProtectedEvent(evs[n]) && !Forgets(After(nv, evs[..n]), evs[n]);
      RisingStep(After(nv, evs[..n]), evs[n], Installed(nv, evs[..n]));
    }
  }

  /**
   * Replay protection across restarts, for every sync that replaces the users in memory: their nonces
   * strictly increase over any run in which no wipe of the memory comes before the next header write.
   */
  lemma InstalledIncrease(nv: Bytes, evs: seq<Event>)
    requires IsNv(nv) && Protected(evs) && NeverForgets(nv, evs)
    ensures Increasing(Installed(nv, evs))
  {
    RunRises(nv, evs);
  }

  /** Wiping the memory lets the next start take the payload in memory again if and only if the wipe forgets. */
  lemma TakenAgainIff(d: Device, p: Bytes, ev: Event, config: Config, io: Io)
    requires Sound(d) && Guarded(d) && d.store.initialized && Intact(p) && d.store.nonce == Nonce(p)
    requires Wipes(ev) && ProtectedEvent(ev) && ProtectedInit(config, io) && io.records
    ensures Installs(Apply(Apply(d, ev), Init(config, io)), p) <==> Forgets(d, ev)
  {
    var w := Apply(d, ev);
    if ev.Shutdown? {
      SaveStores(d.store, d.nv, ev.io);
    }
    StartNonce(w.nv, config, io);
    EventGuards(w, Init(config, io));
    InstallsIff(Apply(w, Init(config, io)), p);
  }

  lemma StartNonce(nv: Bytes, config: Config, io: Io)
    requires IsNv(nv) && ProtectedInit(config, io) && io.records
    ensures Initialized(config, nv, io).initialized
    ensures Initialized(config, nv, io).nonce == KeptNonce(nv)
  {
  }

  // --- the condition is exact over runs ---

  /** The nonce in memory is in the storage, or is that of the last sync installed. */
  predicate FromSync(d: Device, xs: seq<Uint32>)
    requires Sound(d)
  {
    d.store.initialized ==> Stored(d) || (xs != [] && xs[|xs| - 1] == d.store.nonce)
  }

  lemma FromSyncStep(d: Device, ev: Event, xs: seq<Uint32>)
    requires Sound(d) && Guarded(d) && ProtectedEvent(ev) && FromSync(d, xs)
    ensures FromSync(Apply(d, ev), xs + NonceOf(d, ev))
  {
    if ev.Sync? && Installs(d, ev.payload) {
      InstallFacts(d, ev.payload);
    } else {
      assert xs + NonceOf(d, ev) == xs;
      if ev.Clear? && d.store.initialized {
        SaveStores(d.store.(users := [], count := 0), d.nv, ev.io);
      }
    }
  }

  lemma {:induction false} RunFromSync(nv: Bytes, evs: seq<Event>)
    requires IsNv(nv) && Protected(evs)
    ensures FromSync(After(nv, evs), Installed(nv, evs))
  {
    if evs != [] {
      var n := |evs| - 1;
      ProtectedFront(evs);
      RunFromSync(nv, evs[..n]);
      RunGuards(nv, evs[..n]);
      FromSyncStep(After(nv, evs[..n]), evs[n], Installed(nv, evs[..n]));
    }
  }

  lemma InstalledNext(nv: Bytes, evs: seq<Event>, ev: Event)
    requires IsNv(nv)
    ensures Installed(nv, evs + [ev]) == Installed(nv, evs) + NonceOf(After(nv, evs), ev)
  {
    assert (evs + [ev])[..|evs|] == evs;
  }

  const START := Init(SAFE, ALL_WELL)

  /** The run, a start, and one more sync. */
  function Resumed(evs: seq<Event>, p: Bytes, io: Io): seq<Event> {
    evs + [START] + [Sync(p, io)]
  }

  lemma InstalledResumed(nv: Bytes, evs: seq<Event>, p: Bytes, io: Io)
    requires IsNv(nv)
    ensures Installed(nv, Resumed(evs, p, io)) == Installed(nv, evs) + NonceOf(Apply(After(nv, evs), START), Sync(p, io))
  {
    AfterNext(nv, evs, START);
    InstalledNext(nv, evs, START);
    InstalledNext(nv, evs + [START], Sync(p, io));
  }

  /** Resumed with this sync, the installed nonces still increase. */
  predicate StillRises(nv: Bytes, evs: seq<Event>, p: Bytes, io: Io)
    requires IsNv(nv)
    ensures StillRises(nv, evs, p, io) ==> Increasing(Installed(nv, Resumed(evs, p, io)))
  {
    Increasing(Installed(nv, Resumed(evs, p, io)))
  }

  /** Some sync after a start breaks their order. */
  ghost predicate Replayable(nv: Bytes, evs: seq<Event>)
    requires IsNv(nv)
  {
    exists p: Bytes, io: Io :: !StillRises(nv, evs, p, io)
  }

  /** Event `k` wipes the memory, and what comes after can repeat a nonce. */
  ghost predicate OpensReplay(nv: Bytes, evs: seq<Event>, k: nat)
    requires IsNv(nv) && k < |evs|
  {
    Wipes(evs[k]) && Replayable(nv, evs[..k + 1])
  }

  /** A payload without users and with any nonce. */
  function Blank(n: Uint32): Bytes {
    [0, 0, 0, 0, 2, 0, 0, 0, 0, 0, 0, 0] + Encode32(n) + [0xFF, 0xFF, 0, 0]
  }

  lemma BlankIsIntact(n: Uint32)
    ensures Intact(Blank(n)) && Nonce(Blank(n)) == n
  {
    var p := Blank(n);
    assert p[4] == 2 && p[6] == 0 && p[16] == 0xFF && p[17] == 0xFF;
    assert p[6] as nat == 0 && Records(p) == [];
    assert Checksum(p) == 0xFFFF;
    assert p[12..16] == Encode32(n);
    RoundTrip32(p, 12, n);
  }

  /** A call that forgets opens a replay: the last sync installed is taken again. */
  lemma ForgettingOpens(nv: Bytes, evs: seq<Event>, k: nat)
    requires IsNv(nv) && Protected(evs) && k < |evs| && Forgets(After(nv, evs[..k]), evs[k])
    ensures OpensReplay(nv, evs, k)
  {
    ProtectedPrefix(evs, k);
    OneMore(evs, k);
    ForgettingReplays(nv, evs[..k], evs[k], evs[..k + 1]);
  }

  lemma ForgettingReplays(nv: Bytes, evs: seq<Event>, ev: Event, all: seq<Event>)
    requires IsNv(nv) && Protected(evs) && ProtectedEvent(ev) && Forgets(After(nv, evs), ev) && all == evs + [ev]
    ensures Replayable(nv, all)
  {
    var d := After(nv, evs);
    var n, xs := d.store.nonce, Installed(nv, evs);
    RunFromSync(nv, evs);
    RunGuards(nv, evs);
    ForgottenIsTaken(d, ev);
    AfterNext(nv, evs, ev);
    InstalledNext(nv, evs, ev);
    assert Installed(nv, all) == xs;
    InstalledResumed(nv, all, Blank(n), ALL_WELL);
    SameTwice(xs, n);
    assert !StillRises(nv, all, Blank(n), ALL_WELL);
  }

  lemma ForgottenIsTaken(d: Device, ev: Event)
    requires Sound(d) && Guarded(d) && ProtectedEvent(ev) && Forgets(d, ev)
    ensures NonceOf(d, ev) == []
    ensures NonceOf(Apply(Apply(d, ev), START), Sync(Blank(d.store.nonce), ALL_WELL)) == [d.store.nonce]
  {
    BlankIsIntact(d.store.nonce);
    TakenAgainIff(d, Blank(d.store.nonce), ev, SAFE, ALL_WELL);
  }

  lemma SameTwice(xs: seq<Uint32>, n: Uint32)
    requires xs != [] && xs[|xs| - 1] == n
    ensures !Increasing(xs + [n])
  {
    var ys := xs + [n];
    assert ys[|xs| - 1] == ys[|xs|];
  }

  lemma ProtectedPrefix(evs: seq<Event>, k: nat)
    requires Protected(evs) && k <= |evs|
    ensures Protected(evs[..k]) && (k < |evs| ==> ProtectedEvent(evs[k]))
  {
    forall i | 0 <= i < k ensures ProtectedEvent(evs[..k][i]) {
      assert ProtectedEvent(evs[i]);
    }
  }

  /** After a wipe a start forgets nothing more. */
  lemma StartForgetsNothing(d: Device, ev: Event)
    requires Sound(d) && Wipes(ev) && ProtectedEvent(ev)
    ensures !Forgets(Apply(d, ev), START)
  {
  }

  lemma ResumedNeverForgets(nv: Bytes, evs: seq<Event>, p: Bytes, io: Io)
    requires IsNv(nv) && Protected(evs) && NeverForgets(nv, evs) && !Forgets(After(nv, evs), START)
    ensures Protected(Resumed(evs, p, io)) && NeverForgets(nv, Resumed(evs, p, io))
  {
    NeverForgetsNext(nv, evs, START);
    NeverForgetsNext(nv, evs + [START], Sync(p, io));
  }

  lemma NeverForgetsNext(nv: Bytes, evs: seq<Event>, ev: Event)
    requires IsNv(nv) && Protected(evs) && NeverForgets(nv, evs)
    requires ProtectedEvent(ev) && !Forgets(After(nv, evs), ev)
    ensures Protected(evs + [ev]) && NeverForgets(nv, evs + [ev])
  {
    var all, n := evs + [ev], |evs|;
    forall k | 0 <= k < |all| ensures !Forgets(After(nv, all[..k]), all[k]) {
      assert all[..k] == evs[..k];
      assert k == n ==> evs[..k] == evs;
    }
    forall k | 0 <= k < |all| ensures ProtectedEvent(all[k]) {
      assert k < n ==> ProtectedEvent(evs[k]);
    }
  }

  /** Exactly the runs in which no call forgets leave no replay open after any wipe of the memory. */
  lemma NoReplayIff(nv: Bytes, evs: seq<Event>)
    requires IsNv(nv) && Protected(evs)
    ensures NeverForgets(nv, evs) <==> forall k: nat | k < |evs| :: !OpensReplay(nv, evs, k)
  {
    if NeverForgets(nv, evs) {
      forall k: nat | k < |evs| ensures !OpensReplay(nv, evs, k) {
        NothingOpens(nv, evs, k);
      }
    } else {
      var k: nat :| k < |evs| && Forgets(After(nv, evs[..k]), evs[k]);
      ForgettingOpens(nv, evs, k);
    }
  }

  lemma NothingOpens(nv: Bytes, evs: seq<Event>, k: nat)
    requires IsNv(nv) && Protected(evs) && NeverForgets(nv, evs) && k < |evs|
    ensures !OpensReplay(nv, evs, k)
  {
    if Wipes(evs[k]) {
      ProtectedPrefix(evs, k);
      OneMore(evs, k);
      AfterNext(nv, evs[..k], evs[k]);
      StartForgetsNothing(After(nv, evs[..k]), evs[k]);
      FrontNeverForgets(nv, evs, k + 1);
      NotReplayable(nv, evs[..k + 1]);
    }
  }

  lemma NotReplayable(nv: Bytes, evs: seq<Event>)
    requires IsNv(nv) && Protected(evs) && NeverForgets(nv, evs) && !Forgets(After(nv, evs), START)
    ensures !Replayable(nv, evs)
  {
    forall p: Bytes, io: Io ensures StillRises(nv, evs, p, io) {
      ResumedNeverForgets(nv, evs, p, io);
      InstalledIncrease(nv, Resumed(evs, p, io));
    }
  }

  // --- a run that forgets ---

  /** The header write fails, the power goes, the unit starts again: it takes the same payload twice. */
  lemma ForgottenSync(d: Device, p: Bytes, io: Io, config: Config, start: Io)
    requires Sound(d) && Guarded(d) && d.store.initialized && Intact(p) && Nonce(p) > d.store.nonce
    requires !InStorage(d.nv, Nonce(p)) && !io.header && ProtectedInit(config, start) && start.records
    ensures Installs(d, p) && Installs(Later(d, [Sync(p, io), PowerLoss, Init(config, start)]), p)
  {
    InstallsIff(d, p);
    InstallFacts(d, p);
    var taken := Apply(d, Sync(p, io));
    SaveWithoutHeader(Synced(d.store, p), d.nv, io);
    EventGuards(d, Sync(p, io));
    TakenAgainIff(taken, p, PowerLoss, config, start);
    LaterThree(d, Sync(p, io), PowerLoss, Init(config, start));
  }

  lemma LaterNext(d: Device, evs: seq<Event>, ev: Event)
    requires Sound(d)
    ensures Later(d, evs + [ev]) == Apply(Later(d, evs), ev)
  {
    assert (evs + [ev])[..|evs|] == evs;
  }

  lemma LaterThree(d: Device, e0: Event, e1: Event, e2: Event)
    requires Sound(d)
    ensures Later(d, [e0, e1, e2]) == Apply(Apply(Apply(d, e0), e1), e2)
  {
    LaterNext(d, [], e0);
    LaterNext(d, [e0], e1);
    LaterNext(d, [e0, e1], e2);
    assert [] + [e0] == [e0] && [e0] + [e1] == [e0, e1] && [e0, e1] + [e2] == [e0, e1, e2];
  }

  const NO_USERS := Blank(1)
  const SAFE := Config(true, true, true)
  const ALL_WELL := Io(true, true)

  /** A unit with blank storage, started with protection on, takes it twice that way. */
  lemma TakenTwice(nv: Bytes)
    requires IsNv(nv) && nv[0] == 0
    ensures var d := Apply(Device(OFF, nv), Init(SAFE, ALL_WELL));
            && Installs(d, NO_USERS)
            && Installs(Later(d, [Sync(NO_USERS, Io(false, false)), PowerLoss, Init(SAFE, ALL_WELL)]), NO_USERS)
  {
    BlankIsIntact(1);
    BlankHeader(nv);
    StartNonce(nv, SAFE, ALL_WELL);
    ForgottenSync(Apply(Device(OFF, nv), Init(SAFE, ALL_WELL)), NO_USERS, Io(false, false), SAFE, ALL_WELL);
  }

  lemma BlankHeader(nv: Bytes)
    requires IsNv(nv) && nv[0] == 0
    ensures !HeaderValid(nv)
  {
    assert nv[..4][0] == nv[0];
  }

  // --- syncs that are answered with Ok ---

  /** Known in the storage, and in memory while there is one. */
  predicate Remembers(d: Device, n: Uint32)
    requires Sound(d)
  {
    InStorage(d.nv, n) && (d.store.initialized ==> n <= d.store.nonce)
  }

  /** Every event keeps that, whatever storage accesses fail. */
  lemma EventRemembers(d: Device, ev: Event, n: Uint32)
    requires Sound(d) && Guarded(d) && Remembers(d, n) && ProtectedEvent(ev)
    ensures Remembers(Apply(d, ev), n)
  {
    match ev
    case Shutdown(io) =>
      if d.store.initialized {
        SaveKeeps(d.store, d.nv, io, n);
      }
    case Sync(p, io) =>
      if Installs(d, p) {
        InstallFacts(d, p);
        SaveKeeps(Synced(d.store, p), d.nv, io, n);
      }
    case Clear(io) =>
      if d.store.initialized {
        SaveKeeps(d.store.(users := [], count := 0), d.nv, io, n);
      }
    case _ =>
  }

  /** A sync answered with Ok was installed and is remembered from then on. */
  lemma AcceptedIsRemembered(d: Device, p: Bytes, io: Io)
    requires Sound(d) && Guarded(d) && Received(d, p, io).result == Ok
    ensures Installs(d, p) && HasRecords(p) && Nonce(p) > d.store.nonce
    ensures Remembers(Apply(d, Sync(p, io)), Nonce(p))
  {
    AcceptedInstalls(d, p, io);
    InstallFacts(d, p);
    SaveKeeps(Synced(d.store, p), d.nv, io, Nonce(p));
  }

  lemma AcceptedInstalls(d: Device, p: Bytes, io: Io)
    requires Sound(d) && Guarded(d) && Received(d, p, io).result == Ok
    ensures Installs(d, p) && io.header
  {
    InstallOrRefusal(d, p, io);
  }

  lemma InstallOrRefusal(d: Device, p: Bytes, io: Io)
    requires Sound(d) && Guarded(d)
    ensures Installs(d, p) && !io.header ==> Received(d, p, io).result == StorageWrite
    ensures !Installs(d, p) ==> Received(d, p, io).result != Ok
  {
    if Installs(d, p) {
      InstallFacts(d, p);
    }
  }

  /** The nonces of the syncs answered with Ok, in order. */
  function Accepted(nv: Bytes, evs: seq<Event>): seq<Uint32>
    requires IsNv(nv)
  {
    if evs == [] then []
    else Accepted(nv, evs[..|evs| - 1]) + AcceptedNonce(After(nv, evs[..|evs| - 1]), evs[|evs| - 1])
  }

  function AcceptedNonce(d: Device, ev: Event): seq<Uint32>
    requires Sound(d)
  {
    if ev.Sync? && Received(d, ev.payload, ev.io).result == Ok && |ev.payload| >= HEADER_SIZE then [Nonce(ev.payload)] else []
  }

  lemma AcceptedStep(d: Device, ev: Event, xs: seq<Uint32>)
    requires Sound(d) && Guarded(d) && ProtectedEvent(ev)
    requires Increasing(xs) && (xs != [] ==> Remembers(d, xs[|xs| - 1]))
    ensures var ys := xs + AcceptedNonce(d, ev); Increasing(ys) && (ys != [] ==> Remembers(Apply(d, ev), ys[|ys| - 1]))
  {
    if ev.Sync? && Received(d, ev.payload, ev.io).result == Ok {
      AcceptedIsRemembered(d, ev.payload, ev.io);
      InstallFacts(d, ev.payload);
      Extended(xs, Nonce(ev.payload));
    } else {
      assert xs + AcceptedNonce(d, ev) == xs;
      if xs != [] {
        EventRemembers(d, ev, xs[|xs| - 1]);
      }
    }
  }

  lemma ProtectedFront(evs: seq<Event>)
    requires evs != [] && Protected(evs)
    ensures Protected(evs[..|evs| - 1]) && ProtectedEvent(evs[|evs| - 1])
  {
    var front := evs[..|evs| - 1];
    forall k | 0 <= k < |front| ensures ProtectedEvent(front[k]) {
      assert ProtectedEvent(evs[k]);
    }
  }

  predicate Fenced(nv: Bytes, evs: seq<Event>)
    requires IsNv(nv)
  {
    && Increasing(Accepted(nv, evs))
    && (Accepted(nv, evs) != [] ==> Remembers(After(nv, evs), Accepted(nv, evs)[|Accepted(nv, evs)| - 1]))
  }

  lemma {:induction false} RunFenced(nv: Bytes, evs: seq<Event>)
    requires IsNv(nv) && Protected(evs)
    ensures Fenced(nv, evs)
  {
    if evs != [] {
      var n := |evs| - 1;
      ProtectedFront(evs);
      RunFenced(nv, evs[..n]);
      RunGuards(nv, evs[..n]);
      AcceptedStep(After(nv, evs[..n]), evs[n], Accepted(nv, evs[..n]));
    }
  }

  /** Nonces of syncs answered with Ok strictly increase over any protected run, failing writes included. */
  lemma NoncesIncrease(nv: Bytes, evs: seq<Event>)
    requires IsNv(nv) && Protected(evs)
    ensures Increasing(Accepted(nv, evs))
  {
    RunFenced(nv, evs);
  }

  lemma RememberedIsRefused(d: Device, p: Bytes, io: Io)
    requires Sound(d) && Guarded(d) && |p| >= HEADER_SIZE && Remembers(d, Nonce(p))
    ensures Received(d, p, io).device == d && Received(d, p, io).result != Ok
  {
    if Installs(d, p) {
      InstallFacts(d, p);
    }
    NotInstalledIsRefused(d, p, io);
  }

  lemma {:induction false} StillRemembered(d: Device, later: seq<Event>, n: Uint32)
    requires Sound(d) && Guarded(d) && Protected(later) && Remembers(d, n)
    ensures Guarded(Later(d, later)) && Remembers(Later(d, later), n)
  {
    if later != [] {
      ProtectedFront(later);
      StillRemembered(d, later[..|later| - 1], n);
      EventGuards(Later(d, later[..|later| - 1]), later[|later| - 1]);
      EventRemembers(Later(d, later[..|later| - 1]), later[|later| - 1], n);
    }
  }

  /** The device after further events. */
  function Later(d: Device, evs: seq<Event>): (r: Device)
    requires Sound(d)
    ensures Sound(r)
  {
    if evs == [] then d else Apply(Later(d, evs[..|evs| - 1]), evs[|evs| - 1])
  }

  /** So a payload once answered with Ok is refused, and changes nothing, in every later state. */
  lemma AcceptedOnce(nv: Bytes, evs: seq<Event>, later: seq<Event>, p: Bytes, io: Io, again: Io)
    requires IsNv(nv) && Protected(evs) && Protected(later)
    requires Received(After(nv, evs), p, io).result == Ok
    ensures var d := Later(Apply(After(nv, evs), Sync(p, io)), later);
            Received(d, p, again).device == d && Received(d, p, again).result != Ok
  {
    var d := After(nv, evs);
    RunGuards(nv, evs);
    AcceptedIsRemembered(d, p, io);
    EventGuards(d, Sync(p, io));
    StillRemembered(Apply(d, Sync(p, io)), later, Nonce(p));
    RememberedIsRefused(Later(Apply(d, Sync(p, io)), later), p, again);
  }
}
