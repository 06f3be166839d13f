/** Millisecond clock readings are unsigned 64-bit counters in the source. */
module Clock {

  const WORD := 0x1_0000_0000_0000_0000

  /** The unsigned 64-bit difference `now - since`. */
  function Elapsed(now: nat, since: nat): nat {
    (now - since) % WORD
  }

  /** Under a clock that has not gone backwards it is the time that has passed. */
  lemma ElapsedForward(now: nat, since: nat)
    requires since <= now < WORD
    ensures Elapsed(now, since) == now - since
  {}
}
