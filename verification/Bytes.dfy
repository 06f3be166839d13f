/** Bytes as bit-vectors, and unsigned integers as bytes. */
module Bytes {

  type Bytes = seq<bv8>

  const WORD32 := 0x1_0000_0000

  type Uint32 = x: int | 0 <= x < WORD32

  /** Counting up with wrap-around. */
  function Next32(x: Uint32): Uint32 {
    if x + 1 == WORD32 then 0 else x + 1
  }

  function Sum32(x: Uint32, y: Uint32): Uint32 {
    if x + y < WORD32 then x + y else x + y - WORD32
  }

  /** The byte with a given value. */
  function Byte(n: nat): bv8
    requires n < 256
  {
    if n == 0 then 0 else Byte(n - 1) + 1
  }

  lemma NextByte(b: bv8)
    requires b as nat < 255
    ensures (b + 1) as nat == b as nat + 1
  {
  }

  lemma {:induction false} ByteValue(n: nat)
    requires n < 256
    ensures Byte(n) as nat == n
  {
    if n > 0 {
      ByteValue(n - 1);
      NextByte(Byte(n - 1));
    }
  }

  lemma ValueInjective(b: bv8, c: bv8)
    requires b as nat == c as nat
    ensures b == c
  {
  }

  lemma ValueByte(b: bv8)
    ensures Byte(b as nat) == b
  {
    ByteValue(b as nat);
    ValueInjective(Byte(b as nat), b);
  }

  lemma ByteInjective(m: nat, n: nat)
    requires m < 256 && n < 256 && Byte(m) == Byte(n)
    ensures m == n
  {
    ByteValue(m);
    ByteValue(n);
  }

  /** The little-endian bytes of a 32-bit integer. */
  function Encode32(x: Uint32): (d: Bytes)
    ensures |d| == 4
  {
    var y := x / 256;
    var z := y / 256;
    [Byte(x % 256), Byte(y % 256), Byte(z % 256), Byte(z / 256)]
  }

  function Join32(a: nat, b: nat, c: nat, d: nat): Uint32
    requires a < 256 && b < 256 && c < 256 && d < 256
  {
    a + 256 * (b + 256 * (c + 256 * d))
  }

  function Decode32(d: Bytes, at: nat): Uint32
    requires at + 4 <= |d|
  {
    Join32(d[at] as nat, d[at + 1] as nat, d[at + 2] as nat, d[at + 3] as nat)
  }

  lemma RoundTrip32(d: Bytes, at: nat, x: Uint32)
    requires at + 4 <= |d| && d[at..at + 4] == Encode32(x)
    ensures Decode32(d, at) == x
  {
    var e := d[at..at + 4];
    assert e[0] == d[at] && e[1] == d[at + 1] && e[2] == d[at + 2] && e[3] == d[at + 3];
    var y := x / 256;
    var z := y / 256;
    ByteValue(x % 256);
    ByteValue(y % 256);
    ByteValue(z % 256);
    ByteValue(z / 256);
  }
}
