/** The CRC16-CCITT that guards the user records of a sync payload.
    A corruption goes unnoticed exactly when its error pattern, fed into an empty register, leaves
    the register empty; from that follow the detection guarantees proved below. */
module CcittCrc {
  import opened ShiftRegister

  /** One left shift; a one shifted out folds in x^12 + x^5 + 1. */
  function Shift(crc: bv16): bv16 {
    if crc & 0x8000 == 0x8000 then (crc << 1) ^ 0x1021 else crc << 1
  }

  function Feed(crc: bv16, b: bv8): bv16 {
    Iter(Shift, 8, Xor(crc, (b as bv16) << 8))
  }

  function Crc(init: bv16, data: seq<bv8>): bv16 {
    Fold(Feed, init, data)
  }

  /** The inner loop: the eight shifts of one byte. */
  method ShiftEight(start: bv16) returns (crc: bv16)
    ensures crc == Iter(Shift, 8, start)
  {
    crc := start;
    for j := 0 to 8
      invariant crc == Iter(Shift, j, start)
    {
      crc := Shift(crc);
    }
  }

  method Crc16Ccitt(data: seq<bv8>) returns (crc: bv16)
    ensures crc == Crc(0xFFFF, data)
  {
    crc := 0xFFFF;
    for i := 0 to |data|
      invariant crc == Crc(0xFFFF, data[..i])
    {
      crc := ShiftEight(Xor(crc, (data[i] as bv16) << 8));
      assert data[..i + 1][..i] == data[..i];
    }
    assert data[..|data|] == data;
  }

  // ----- The register step is linear and loses nothing -----

  lemma TopBit(a: bv16, b: bv16)
    ensures (a ^ b) << 1 == (a << 1) ^ (b << 1)
    ensures (a ^ b) & 0x8000 == (a & 0x8000) ^ (b & 0x8000)
    ensures a & 0x8000 == 0 || a & 0x8000 == 0x8000
    ensures b & 0x8000 == 0 || b & 0x8000 == 0x8000
  {}

  lemma ShiftLinear(a: bv16, b: bv16)
    ensures Shift(a ^ b) == Shift(a) ^ Shift(b)
  {
    TopBit(a, b);
    if a & 0x8000 == 0x8000 {
      if b & 0x8000 == 0x8000 {} else {}
    } else {
      if b & 0x8000 == 0x8000 {} else {}
    }
  }

  lemma ShiftLossless(x: bv16)
    requires Shift(x) == 0
    ensures x == 0
  {
    if x & 0x8000 == 0x8000 {} else {}
  }

  lemma ShiftIsRegister()
    ensures Linear(Shift) && Lossless(Shift)
  {
    forall a, b ensures Shift(Xor(a, b)) == Xor(Shift(a), Shift(b)) {
      ShiftLinear(a, b);
    }
    forall x | Shift(x) == 0 ensures x == 0 {
      ShiftLossless(x);
    }
  }

  // ----- Error patterns -----

  /** Byte by byte exclusive or of two messages of the same length. */
  ghost function Difference(x: seq<bv8>, y: seq<bv8>): seq<bv8>
    requires |x| == |y|
  {
    seq(|x|, i requires 0 <= i < |x| => x[i] ^ y[i])
  }

  lemma XorBytes(r: bv16, s: bv16, a: bv8, b: bv8)
    ensures Xor(Xor(r, (a as bv16) << 8), Xor(s, (b as bv16) << 8)) == Xor(Xor(r, s), ((a ^ b) as bv16) << 8)
  {
    assert (r ^ ((a as bv16) << 8)) ^ (s ^ ((b as bv16) << 8)) == (r ^ s) ^ (((a ^ b) as bv16) << 8);
  }

  lemma FeedLinear(r: bv16, s: bv16, a: bv8, b: bv8)
    ensures Feed(Xor(r, s), a ^ b) == Xor(Feed(r, a), Feed(s, b))
  {
    ShiftIsRegister();
    XorBytes(r, s, a, b);
    IterLinear(Shift, 8, Xor(r, (a as bv16) << 8), Xor(s, (b as bv16) << 8));
  }

  lemma {:induction false} CrcLinear(r: bv16, s: bv16, x: seq<bv8>, y: seq<bv8>)
    requires |x| == |y|
    ensures Crc(Xor(r, s), Difference(x, y)) == Xor(Crc(r, x), Crc(s, y))
    decreases |x|
  {
    if x != [] {
      var n := |x| - 1;
      CrcLinear(r, s, x[..n], y[..n]);
      FeedLinear(Crc(r, x[..n]), Crc(s, y[..n]), x[n], y[n]);
      assert Difference(x, y)[..n] == Difference(x[..n], y[..n]);
    }
  }

  /** Two messages of one length share their CRC iff their difference has CRC 0 from an empty register. */
  lemma UndetectedIff(x: seq<bv8>, y: seq<bv8>)
    requires |x| == |y|
    ensures Crc(0xFFFF, x) == Crc(0xFFFF, y) <==> Crc(0, Difference(x, y)) == 0
  {
    CrcLinear(0xFFFF, 0xFFFF, x, y);
    XorZero(Crc(0xFFFF, x), Crc(0xFFFF, y));
    XorZero(0xFFFF, 0xFFFF);
  }

  // ----- Zero bytes around an error -----

  ghost function Zeros(n: nat): seq<bv8> {
    seq(n, _ => 0)
  }

  lemma {:induction false} CrcOfZeros(r: bv16, n: nat)
    ensures Crc(r, Zeros(n)) == Iter(Shift, 8 * n, r)
  {
    if n > 0 {
      CrcOfZeros(r, n - 1);
      assert Zeros(n)[..n - 1] == Zeros(n - 1);
      var before := Iter(Shift, 8 * (n - 1), r);
      assert Xor(before, 0) == before;
      IterAdd(Shift, 8, 8 * (n - 1), r);
    }
  }

  /** Leading zeros leave an empty register empty, trailing ones never empty a filled register. */
  lemma CrcOfPadded(p: nat, e: seq<bv8>, q: nat)
    ensures Crc(0, Zeros(p) + e + Zeros(q)) == 0 <==> Crc(0, e) == 0
  {
    ShiftIsRegister();
    FoldAppend(Feed, 0, Zeros(p), e);
    FoldAppend(Feed, 0, Zeros(p) + e, Zeros(q));
    CrcOfZeros(0, p);
    IterZero(Shift, 8 * p, 0);
    CrcOfZeros(Crc(0, e), q);
    IterZero(Shift, 8 * q, Crc(0, e));
  }

  // ----- Bursts -----

  lemma ShiftEightOfByte(b: bv8)
    ensures Iter(Shift, 8, b as bv16) == (b as bv16) << 8
  {
    IterEight(Shift, b as bv16);
    ShiftEightLow(b as bv16);
  }

  lemma ShiftEightLow(x: bv16)
    requires x & 0xFF00 == 0
    ensures Shift(Shift(Shift(Shift(Shift(Shift(Shift(Shift(x)))))))) == x << 8
  {}

  /** Feeding a byte to a register that already took eight shifts. */
  lemma FeedAfterEight(r: bv16, b: bv8)
    ensures Feed(Iter(Shift, 8, r), b) == Iter(Shift, 16, Xor(r, b as bv16))
  {
    ShiftIsRegister();
    ShiftEightOfByte(b);
    IterLinear(Shift, 8, r, b as bv16);
    IterAdd(Shift, 8, 8, Xor(r, b as bv16));
  }

  lemma CrcOfTwo(a: bv8, b: bv8)
    ensures Crc(0, [a, b]) == Iter(Shift, 16, Xor((a as bv16) << 8, b as bv16))
  {
    FoldTwo(Feed, 0, [], a, b);
    assert [] + [a, b] == [a, b];
    assert Xor(0, (a as bv16) << 8) == (a as bv16) << 8;
    FeedAfterEight((a as bv16) << 8, b);
  }

  lemma FeedAfterSixteen(u: bv16, b: bv8)
    ensures Feed(Iter(Shift, 16, u), b) == Iter(Shift, 16, Xor(Iter(Shift, 8, u), b as bv16))
  {
    IterAdd(Shift, 8, 8, u);
    FeedAfterEight(Iter(Shift, 8, u), b);
  }

  lemma CrcOfThree(a: bv8, b: bv8, c: bv8)
    ensures Crc(0, [a, b, c])
         == Iter(Shift, 16, Xor(Iter(Shift, 8, Xor((a as bv16) << 8, b as bv16)), c as bv16))
  {
    CrcOfTwo(a, b);
    var u := Xor((a as bv16) << 8, b as bv16);
    FoldLast(Feed, 0, [a, b], c);
    assert [a, b] + [c] == [a, b, c];
    FeedAfterSixteen(u, c);
  }

  /** The three bytes of a 24-bit pattern, first byte first. */
  function Bytes24(p: bv24): seq<bv8> {
    [(p >> 16) as bv8, ((p >> 8) & 0xFF) as bv8, (p & 0xFF) as bv8]
  }

  /** A 24-bit pattern as a polynomial, reduced to sixteen bits. */
  ghost function Reduce(p: bv24): bv16 {
    Xor(Iter(Shift, 8, (p >> 8) as bv16), (p & 0xFF) as bv16)
  }

  lemma JoinBytes(p: bv24)
    ensures Xor((((p >> 16) as bv8) as bv16) << 8, (((p >> 8) & 0xFF) as bv8) as bv16) == (p >> 8) as bv16
    ensures ((p & 0xFF) as bv8) as bv16 == (p & 0xFF) as bv16
  {}

  lemma CrcOfPattern(p: bv24)
    ensures Crc(0, Bytes24(p)) == Iter(Shift, 16, Reduce(p))
  {
    CrcOfThree((p >> 16) as bv8, ((p >> 8) & 0xFF) as bv8, (p & 0xFF) as bv8);
    JoinBytes(p);
  }

  /** Moving a pattern one place up multiplies it by x. */
  lemma ReduceUp(p: bv24)
    requires p & 0x800000 == 0
    ensures Reduce(p << 1) == Shift(Reduce(p))
  {
    ShiftIsRegister();
    var u, c := (p >> 8) as bv16, (p & 0xFF) as bv16;
    var carry: bv16 := c >> 7;
    MovedParts(p);
    IterLinear(Shift, 8, Shift(u), carry);
    IterAdd(Shift, 8, 1, u);
    IterAdd(Shift, 1, 8, u);
    ShiftEightOfByte((c >> 7) as bv8);
    XorAssoc(Iter(Shift, 8, Shift(u)), carry << 8, ((p << 1) & 0xFF) as bv16);
  }

  lemma XorAssoc(a: bv16, b: bv16, c: bv16)
    ensures Xor(Xor(a, b), c) == Xor(a, Xor(b, c))
  {
    assert (a ^ b) ^ c == a ^ (b ^ c);
  }

  lemma ShiftOfLow(x: bv16)
    requires x & 0x8000 == 0
    ensures Shift(x) == x << 1
  {}

  lemma MovedBits(p: bv24)
    requires p & 0x800000 == 0
    ensures ((p >> 8) as bv16) & 0x8000 == 0
    ensures ((p & 0xFF) as bv16) & 0x8000 == 0
    ensures ((p & 0xFF) as bv16) >> 7 < 2
    ensures ((p << 1) >> 8) as bv16 == (((p >> 8) as bv16) << 1) ^ (((p & 0xFF) as bv16) >> 7)
    ensures ((p & 0xFF) as bv16) << 1 == ((((p & 0xFF) as bv16) >> 7) << 8) ^ (((p << 1) & 0xFF) as bv16)
  {}

  lemma MovedParts(p: bv24)
    requires p & 0x800000 == 0
    ensures var u, c := (p >> 8) as bv16, (p & 0xFF) as bv16;
            && ((p << 1) >> 8) as bv16 == Xor(Shift(u), c >> 7)
            && Shift(c) == Xor((c >> 7) << 8, ((p << 1) & 0xFF) as bv16)
            && c >> 7 < 2
  {
    MovedBits(p);
    ShiftOfLow((p >> 8) as bv16);
    ShiftOfLow((p & 0xFF) as bv16);
  }

  /** A pattern moved `k` places up. */
  function Up(p: bv24, k: nat): bv24
    decreases k
  {
    if k == 0 then p else Up(p << 1, k - 1)
  }

  ghost predicate Room(p: bv24, k: nat)
    decreases k
  {
    k == 0 || (p & 0x800000 == 0 && Room(p << 1, k - 1))
  }

  lemma {:induction false} ReduceOfUp(p: bv24, k: nat)
    requires Room(p, k)
    ensures Reduce(Up(p, k)) == Iter(Shift, k, Reduce(p))
    decreases k
  {
    if k > 0 {
      ReduceOfUp(p << 1, k - 1);
      ReduceUp(p);
      IterAdd(Shift, k - 1, 1, Reduce(p));
    }
  }

  lemma WordFits(w: bv16)
    ensures var p := w as bv24;
            && p & 0x800000 == 0 && (p << 1) & 0x800000 == 0 && (p << 2) & 0x800000 == 0
            && (p << 3) & 0x800000 == 0 && (p << 4) & 0x800000 == 0 && (p << 5) & 0x800000 == 0
            && (p << 6) & 0x800000 == 0 && (p << 7) & 0x800000 == 0
            && (p << 1) << 1 == p << 2 && (p << 2) << 1 == p << 3 && (p << 3) << 1 == p << 4
            && (p << 4) << 1 == p << 5 && (p << 5) << 1 == p << 6 && (p << 6) << 1 == p << 7
  {}

  lemma RoomForWord(w: bv16)
    ensures Room(w as bv24, 8)
  {
    WordFits(w);
    var p := w as bv24;
    assert Room(p << 7, 1);
    assert Room(p << 6, 2);
    assert Room(p << 5, 3);
    assert Room(p << 4, 4);
    assert Room(p << 3, 5);
    assert Room(p << 2, 6);
    assert Room(p << 1, 7);
  }

  lemma {:induction false} RoomShrinks(p: bv24, n: nat, k: nat)
    requires Room(p, n) && k <= n
    ensures Room(p, k)
    decreases n
  {
    if k > 0 {
      RoomShrinks(p << 1, n - 1, k - 1);
    }
  }

  lemma WordParts(w: bv16)
    ensures ((w as bv24) >> 8) as bv16 < 256
    ensures ((((w as bv24) >> 8) as bv16) << 8) ^ (((w as bv24) & 0xFF) as bv16) == w
  {}

  lemma ReduceOfWord(w: bv16)
    ensures Reduce(w as bv24) == w
  {
    WordParts(w);
    var hi := ((w as bv24) >> 8) as bv16;
    ByteAgain(hi);
    ShiftEightOfByte(hi as bv8);
  }

  lemma ByteAgain(x: bv16)
    requires x < 256
    ensures (x as bv8) as bv16 == x
  {}

  /** Every burst of at most sixteen bits, anywhere in a message of any length, changes the CRC.
      A burst is a non-zero sixteen-bit word `w` at bit offset 8 - `k` of the byte at index `p`. */
  lemma BurstDetected(x: seq<bv8>, y: seq<bv8>, w: bv16, k: nat, p: nat, q: nat)
    requires |x| == |y| && w != 0 && k <= 8
    requires Difference(x, y) + Zeros(2) == Zeros(p) + Bytes24(Up(w as bv24, k)) + Zeros(q)
    ensures Crc(0xFFFF, x) != Crc(0xFFFF, y)
  {
    var e, b := Difference(x, y), Bytes24(Up(w as bv24, k));
    ShiftIsRegister();
    RoomForWord(w);
    RoomShrinks(w as bv24, 8, k);
    ReduceOfUp(w as bv24, k);
    ReduceOfWord(w);
    IterZero(Shift, k, w);
    CrcOfPattern(Up(w as bv24, k));
    IterZero(Shift, 16, Iter(Shift, k, w));
    CrcOfPadded(p, b, q);
    assert Zeros(0) + e + Zeros(2) == e + Zeros(2);
    CrcOfPadded(0, e, 2);
    UndetectedIff(x, y);
  }

  /** A corruption confined to one byte or to two adjacent bytes changes the CRC. */
  lemma AdjacentBytesDetected(x: seq<bv8>, y: seq<bv8>, i: nat)
    requires |x| == |y| && i < |x| && x != y
    requires forall j :: 0 <= j < |x| && j != i && j != i + 1 ==> x[j] == y[j]
    ensures Crc(0xFFFF, x) != Crc(0xFFFF, y)
  {
    var e := Difference(x, y);
    var b: bv8 := if i + 1 < |x| then e[i + 1] else 0;
    PairDiffers(x, y, i);
    PairPadded(x, y, i);
    var w, k := PairBurst(e + Zeros(2), e[i], b, Zeros(i), Zeros(|x| - 1 - i));
    BurstDetected(x, y, w, k, i, |x| - 1 - i);
  }

  lemma PairBurst(e: seq<bv8>, a: bv8, b: bv8, before: seq<bv8>, after: seq<bv8>) returns (w: bv16, k: nat)
    requires e == before + [a, b, 0] + after && (a != 0 || b != 0)
    ensures w != 0 && k <= 8 && e == before + Bytes24(Up(w as bv24, k)) + after
  {
    w, k := PairBytes(a, b);
  }

  lemma PairNotZero(a: bv8, b: bv8)
    requires a != 0 || b != 0
    ensures PairWord(a, b) != 0
  {}

  function PairWord(a: bv8, b: bv8): bv16 {
    ((a as bv16) << 8) | (b as bv16)
  }

  lemma XorByteZero(a: bv8, b: bv8)
    ensures a ^ b == 0 <==> a == b
  {}

  lemma PairDiffers(x: seq<bv8>, y: seq<bv8>, i: nat)
    requires |x| == |y| && i < |x| && x != y
    requires forall j :: 0 <= j < |x| && j != i && j != i + 1 ==> x[j] == y[j]
    ensures Difference(x, y)[i] != 0 || (i + 1 < |x| && Difference(x, y)[i + 1] != 0)
  {
    var j :| 0 <= j < |x| && x[j] != y[j];
    XorByteZero(x[j], y[j]);
  }

  lemma PairPadded(x: seq<bv8>, y: seq<bv8>, i: nat)
    requires |x| == |y| && i < |x|
    requires forall j :: 0 <= j < |x| && j != i && j != i + 1 ==> x[j] == y[j]
    ensures var e := Difference(x, y);
            e + Zeros(2) == Zeros(i) + [e[i], if i + 1 < |x| then e[i + 1] else 0, 0] + Zeros(|x| - 1 - i)
  {
    var e := Difference(x, y);
    forall j | 0 <= j < |x| && j != i && j != i + 1 ensures e[j] == 0 {
      XorByteZero(x[j], y[j]);
    }
    var b: bv8 := if i + 1 < |x| then e[i + 1] else 0;
    assert |Zeros(i) + [e[i], b, 0] + Zeros(|x| - 1 - i)| == |x| + 2;
  }

  lemma UpEightIs(p: bv24)
    ensures Up(p, 8) == p << 8
  {
    assert Up(p << 8, 0) == p << 8;
    assert (p << 7) << 1 == p << 8;
    assert Up(p << 7, 1) == p << 8;
    assert (p << 6) << 1 == p << 7;
    assert Up(p << 6, 2) == p << 8;
    assert (p << 5) << 1 == p << 6;
    assert Up(p << 5, 3) == p << 8;
    assert (p << 4) << 1 == p << 5;
    assert Up(p << 4, 4) == p << 8;
    assert (p << 3) << 1 == p << 4;
    assert Up(p << 3, 5) == p << 8;
    assert (p << 2) << 1 == p << 3;
    assert Up(p << 2, 6) == p << 8;
    assert (p << 1) << 1 == p << 2;
    assert Up(p << 1, 7) == p << 8;
  }

  /** Two bytes are a burst moved up by eight places. */
  lemma PairBytes(a: bv8, b: bv8) returns (w: bv16, k: nat)
    requires a != 0 || b != 0
    ensures w != 0 && k <= 8 && Bytes24(Up(w as bv24, k)) == [a, b, 0]
  {
    w, k := PairWord(a, b), 8;
    PairNotZero(a, b);
    UpEightIs(PairWord(a, b) as bv24);
    RawPairBytes(a, b);
  }

  lemma RawPairBytes(a: bv8, b: bv8)
    ensures Bytes24(((((a as bv16) << 8) | (b as bv16)) as bv24) << 8) == [a, b, 0]
  {}
}
