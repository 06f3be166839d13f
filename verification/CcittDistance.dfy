/** How far apart CRC16-CCITT keeps messages: any odd number of flipped bits is noticed at every
    length, and any one, two or three flipped bits in up to 4095 bytes. The second needs that the
    powers of x modulo the generator polynomial first repeat after 32767 steps. */
module CcittDistance {
  import opened ShiftRegister
  import opened CcittCrc
  import opened CcittOrder

  // ----- Counting bits -----

  function Low(x: bv16): nat {
    if x & 1 == 1 then 1 else 0
  }

  lemma DownIsLess(x: bv16)
    requires x != 0
    ensures Down(x) < x
  {}

  function Ones(x: bv16): nat {
    if x == 0 then 0 else
      DownIsLess(x);
      Low(x) + Ones(Down(x))
  }

  predicate Odd(x: bv16) {
    Ones(x) % 2 == 1
  }

  /** The number of ones in a message. */
  function BitCount(e: seq<bv8>): nat {
    if e == [] then 0 else BitCount(e[..|e| - 1]) + Ones(e[|e| - 1] as bv16)
  }

  lemma LowXor(a: bv16, b: bv16)
    ensures Low(Xor(a, b)) == if Low(a) == Low(b) then 0 else 1
  {
    LowBits(a, b);
    if a & 1 == 1 {
      if b & 1 == 1 {} else {}
    } else {
      if b & 1 == 1 {} else {}
    }
  }

  lemma SumParity(a: nat, b: nat)
    ensures (a + b) % 2 == 1 <==> (a % 2 == 1) != (b % 2 == 1)
  {}

  lemma OnesStep(x: bv16)
    ensures Ones(x) == Low(x) + Ones(Down(x))
  {
    assert Down(0) == 0;
  }

  lemma OddStep(x: bv16)
    ensures Odd(x) <==> (Low(x) == 1) != Odd(Down(x))
  {
    OnesStep(x);
    SumParity(Low(x), Ones(Down(x)));
  }

  lemma {:induction false} OddXor(a: bv16, b: bv16)
    ensures Odd(Xor(a, b)) <==> Odd(a) != Odd(b)
    decreases a
  {
    if a == 0 {
      assert Xor(0, b) == b;
    } else {
      DownIsLess(a);
      OddXor(Down(a), Down(b));
      DownXor(a, b);
      LowXor(a, b);
      OddStep(a);
      OddStep(b);
      OddStep(Xor(a, b));
    }
  }

  lemma UpAndDown(x: bv16)
    requires x & 0x8000 == 0
    ensures (x << 1) >> 1 == x && (x << 1) & 1 == 0
  {}

  lemma OnesUp(x: bv16)
    requires x & 0x8000 == 0
    ensures Ones(x << 1) == Ones(x)
  {
    UpAndDown(x);
    OnesStep(x << 1);
  }

  // ----- The register keeps the parity of what was fed -----

  lemma OnesOfPolynomials()
    ensures Odd(0x8000) && Odd(0x1021)
  {
    assert Ones(0x0008) == 1;
    assert Ones(0x0080) == 1;
    assert Ones(0x0800) == 1;
  }

  lemma TopSplit(x: bv16)
    ensures (x & 0x7FFF) & 0x8000 == 0
    ensures x & 0x8000 == 0x8000 ==> x == Xor(x & 0x7FFF, 0x8000) && Shift(x) == Xor((x & 0x7FFF) << 1, 0x1021)
    ensures x & 0x8000 != 0x8000 ==> x == x & 0x7FFF && Shift(x) == (x & 0x7FFF) << 1
  {
    if x & 0x8000 == 0x8000 {} else {}
  }

  lemma OddShift(x: bv16)
    ensures Odd(Shift(x)) == Odd(x)
  {
    TopSplit(x);
    OnesUp(x & 0x7FFF);
    OnesOfPolynomials();
    OddXor((x & 0x7FFF) << 1, 0x1021);
    OddXor(x & 0x7FFF, 0x8000);
  }

  lemma {:induction false} OddIter(x: bv16, n: nat)
    ensures Odd(Iter(Shift, n, x)) == Odd(x)
  {
    if n > 0 {
      OddIter(x, n - 1);
      OddShift(Iter(Shift, n - 1, x));
    }
  }

  lemma ByteUp(b: bv8)
    ensures var x := b as bv16;
            && x & 0x8000 == 0 && (x << 1) & 0x8000 == 0 && (x << 2) & 0x8000 == 0 && (x << 3) & 0x8000 == 0
            && (x << 4) & 0x8000 == 0 && (x << 5) & 0x8000 == 0 && (x << 6) & 0x8000 == 0 && (x << 7) & 0x8000 == 0
            && (x << 1) << 1 == x << 2 && (x << 2) << 1 == x << 3 && (x << 3) << 1 == x << 4 && (x << 4) << 1 == x << 5
            && (x << 5) << 1 == x << 6 && (x << 6) << 1 == x << 7 && (x << 7) << 1 == x << 8
  {}

  lemma OnesOfByteUp(b: bv8)
    ensures Ones((b as bv16) << 8) == Ones(b as bv16)
  {
    ByteUp(b);
    var x := b as bv16;
    OnesUp(x);
    OnesUp(x << 1);
    OnesUp(x << 2);
    OnesUp(x << 3);
    OnesUp(x << 4);
    OnesUp(x << 5);
    OnesUp(x << 6);
    OnesUp(x << 7);
  }

  lemma OddFeed(r: bv16, b: bv8)
    ensures Odd(Feed(r, b)) <==> Odd(r) != Odd(b as bv16)
  {
    OddIter(Xor(r, (b as bv16) << 8), 8);
    OddXor(r, (b as bv16) << 8);
    OnesOfByteUp(b);
  }

  lemma BitCountStep(e: seq<bv8>)
    requires e != []
    ensures BitCount(e) % 2 == 1 <==> (BitCount(e[..|e| - 1]) % 2 == 1) != Odd(e[|e| - 1] as bv16)
  {
    SumParity(BitCount(e[..|e| - 1]), Ones(e[|e| - 1] as bv16));
  }

  lemma {:induction false} CrcParity(r: bv16, e: seq<bv8>)
    ensures Odd(Crc(r, e)) <==> Odd(r) != (BitCount(e) % 2 == 1)
  {
    if e != [] {
      var n := |e| - 1;
      CrcParity(r, e[..n]);
      BitCountStep(e);
      OddFeed(Crc(r, e[..n]), e[n]);
    }
  }

  /** An odd number of flipped bits is noticed, wherever they are and however long the message. */
  lemma OddErrorsDetected(x: seq<bv8>, y: seq<bv8>)
    requires |x| == |y| && BitCount(Difference(x, y)) % 2 == 1
    ensures Crc(0xFFFF, x) != Crc(0xFFFF, y)
  {
    CrcParity(0, Difference(x, y));
    UndetectedIff(x, y);
  }

  // ----- Messages with one or two ones -----

  lemma {:induction false} NoOnes(x: bv16)
    requires Ones(x) == 0
    ensures x == 0
    decreases x
  {
    if x != 0 {
      DownIsLess(x);
      NoOnes(Down(x));
      LowAndRest(x);
    }
  }

  lemma {:induction false} OneOne(x: bv16, n: nat) returns (j: nat)
    requires Fits(x, n) && Ones(x) == 1
    ensures j < n && x == Pow(j)
    decreases n
  {
    DownIsLess(x);
    if Low(x) == 1 {
      NoOnes(Down(x));
      LowOnly(x);
      j := 0;
    } else {
      var i := OneOne(Down(x), n - 1);
      PowUp(x, i);
      j := i + 1;
    }
  }

  lemma LowOnly(x: bv16)
    requires Low(x) == 1 && Down(x) == 0
    ensures x == Pow(0)
  {
    LowAndRest(x);
  }

  lemma PowUp(x: bv16, i: nat)
    requires Low(x) == 0 && Down(x) == Pow(i)
    ensures x == Pow(i + 1)
  {
    LowAndRest(x);
    XorZeros(Shift(Down(x)));
  }

  lemma PowPairUp(m: nat, i: nat, j: nat)
    ensures Iter(Shift, m, Xor(Pow(i), Pow(j))) == Xor(Pow(m + i), Pow(m + j))
  {
    ShiftIsRegister();
    IterLinear(Shift, m, Pow(i), Pow(j));
    PowAdd(m, i);
    PowAdd(m, j);
  }

  lemma {:induction false} TwoOnes(x: bv16, n: nat) returns (i: nat, j: nat)
    requires Fits(x, n) && Ones(x) == 2
    ensures i < j < n && x == Xor(Pow(i), Pow(j))
    decreases n
  {
    DownIsLess(x);
    if Low(x) == 1 {
      var k := OneOne(Down(x), n - 1);
      LowAndPow(x, k);
      i, j := 0, k + 1;
    } else {
      var a, b := TwoOnes(Down(x), n - 1);
      PairUp(x, a, b);
      i, j := a + 1, b + 1;
    }
  }

  lemma LowAndPow(x: bv16, k: nat)
    requires Low(x) == 1 && Down(x) == Pow(k)
    ensures x == Xor(Pow(0), Pow(k + 1))
  {
    LowAndRest(x);
  }

  lemma PairUp(x: bv16, a: nat, b: nat)
    requires Low(x) == 0 && Down(x) == Xor(Pow(a), Pow(b))
    ensures x == Xor(Pow(a + 1), Pow(b + 1))
  {
    LowAndRest(x);
    XorZeros(Shift(Down(x)));
    PairUpOnce(a, b);
  }

  lemma PairUpOnce(a: nat, b: nat)
    ensures Shift(Xor(Pow(a), Pow(b))) == Xor(Pow(a + 1), Pow(b + 1))
  {
    PowPairUp(1, a, b);
    assert Iter(Shift, 0, Xor(Pow(a), Pow(b))) == Xor(Pow(a), Pow(b));
  }

  lemma ByteFits(b: bv8)
    ensures Fits(b as bv16, 8)
  {
    var x := b as bv16;
    assert (x >> 4) >> 4 == 0;
    FitsFour(Down4(x), 0);
    FitsFour(x, 4);
  }

  /** Feeding a byte, split into what the register held and what the byte adds. */
  lemma FeedSplit(r: bv16, b: bv8)
    ensures Feed(r, b) == Xor(Iter(Shift, 8, r), Iter(Shift, 16, b as bv16))
  {
    ShiftIsRegister();
    ShiftEightOfByte(b);
    IterAdd(Shift, 8, 8, b as bv16);
    IterLinear(Shift, 8, r, (b as bv16) << 8);
  }

  lemma FeedZero(r: bv16, b: bv8)
    requires Ones(b as bv16) == 0
    ensures Feed(r, b) == Iter(Shift, 8, r)
  {
    NoOnes(b as bv16);
    FeedSplit(r, b);
    ShiftIsRegister();
    IterZero(Shift, 16, 0);
    XorZeros(Iter(Shift, 8, r));
  }

  lemma FeedFirst(b: bv8)
    ensures Feed(0, b) == Iter(Shift, 16, b as bv16)
  {
    FeedSplit(0, b);
    ShiftIsRegister();
    IterZero(Shift, 8, 0);
    XorZeros(Iter(Shift, 16, b as bv16));
  }

  lemma XorZeros(x: bv16)
    ensures Xor(x, 0) == x && Xor(0, x) == x
  {}

  lemma {:induction false} CrcOfNone(e: seq<bv8>)
    requires BitCount(e) == 0
    ensures Crc(0, e) == 0
  {
    if e != [] {
      var n := |e| - 1;
      CrcOfNone(e[..n]);
      FeedZero(0, e[n]);
      ShiftIsRegister();
      IterZero(Shift, 8, 0);
    }
  }

  lemma {:induction false} CrcOfOne(e: seq<bv8>) returns (d: nat)
    requires BitCount(e) == 1
    ensures d < 8 * |e| && Crc(0, e) == Pow(16 + d)
  {
    var n := |e| - 1;
    var (f, b) := (e[..n], e[n]);
    if BitCount(f) == 1 {
      var c := CrcOfOne(f);
      d := c + 8;
      FeedZero(Crc(0, f), b);
      PowAdd(8, 16 + c);
    } else {
      CrcOfNone(f);
      FeedFirst(b);
      ByteFits(b);
      d := OneOne(b as bv16, 8);
      PowAdd(16, d);
    }
  }

  lemma {:induction false} CrcOfPair(e: seq<bv8>) returns (c: nat, d: nat)
    requires BitCount(e) == 2
    ensures c < d < 8 * |e| && Crc(0, e) == Xor(Pow(16 + c), Pow(16 + d))
  {
    var n := |e| - 1;
    var (f, b) := (e[..n], e[n]);
    ByteFits(b);
    if BitCount(f) == 2 {
      var i, j := CrcOfPair(f);
      c, d := i + 8, j + 8;
      FeedPairAndNone(Crc(0, f), b, i, j);
    } else if BitCount(f) == 1 {
      var j := CrcOfOne(f);
      var i := OneOne(b as bv16, 8);
      c, d := i, j + 8;
      FeedOneAndOne(Crc(0, f), b, i, j);
    } else {
      CrcOfNone(f);
      c, d := FeedNoneAndPair(b);
    }
  }

  lemma FeedPairAndNone(r: bv16, b: bv8, i: nat, j: nat)
    requires r == Xor(Pow(16 + i), Pow(16 + j)) && Ones(b as bv16) == 0
    ensures Feed(r, b) == Xor(Pow(16 + (i + 8)), Pow(16 + (j + 8)))
  {
    FeedZero(r, b);
    PowPairUp(8, 16 + i, 16 + j);
  }

  lemma FeedNoneAndPair(b: bv8) returns (c: nat, d: nat)
    requires Ones(b as bv16) == 2
    ensures c < d < 8 && Feed(0, b) == Xor(Pow(16 + c), Pow(16 + d))
  {
    ByteFits(b);
    FeedFirst(b);
    c, d := TwoOnes(b as bv16, 8);
    PowPairUp(16, c, d);
  }

  lemma FeedOneAndOne(r: bv16, b: bv8, i: nat, j: nat)
    requires r == Pow(16 + j) && b as bv16 == Pow(i)
    ensures Feed(r, b) == Xor(Pow(16 + i), Pow(16 + (j + 8)))
  {
    FeedSplit(r, b);
    PowAdd(16, i);
    PowAdd(8, 16 + j);
    XorComm(Pow(16 + i), Pow(16 + (j + 8)));
  }

  /** Two flipped bits fewer than 32767 places apart leave the register filled. */
  lemma PowsDiffer(c: nat, d: nat)
    requires c < d < c + 32767
    ensures Xor(Pow(c), Pow(d)) != 0
  {
    ShiftIsRegister();
    XorZero(Pow(c), Pow(d));
    if Pow(c) == Pow(d) {
      PowAdd(c, d - c);
      IterInjective(Shift, c, 1, Pow(d - c));
      PowNotOne(d - c);
    }
  }

  /** One, two or three flipped bits, anywhere in a message of up to 4095 bytes, change the CRC. */
  lemma FewErrorsDetected(x: seq<bv8>, y: seq<bv8>)
    requires |x| == |y| <= 4095
    requires 1 <= BitCount(Difference(x, y)) <= 3
    ensures Crc(0xFFFF, x) != Crc(0xFFFF, y)
  {
    var e := Difference(x, y);
    if BitCount(e) == 2 {
      var c, d := CrcOfPair(e);
      PowsDiffer(16 + c, 16 + d);
      UndetectedIff(x, y);
    } else {
      OddErrorsDetected(x, y);
    }
  }

  // ----- Two flipped bits at any length -----

  /** A byte with one bit set, counted from the low end. */
  function OneBit(j: nat): bv8
    requires j < 8
  {
    if j == 0 then 1 else if j == 1 then 2 else if j == 2 then 4 else if j == 3 then 8
    else if j == 4 then 16 else if j == 5 then 32 else if j == 6 then 64 else 128
  }

  /** A message of `n` bytes with only bit `k` set, counted from the end of the message. */
  ghost function Flip(n: nat, k: nat): (e: seq<bv8>)
    requires k < 8 * n
    ensures |e| == n
  {
    Zeros(n - 1 - k / 8) + [OneBit(k % 8)] + Zeros(k / 8)
  }

  lemma OneBitIsPow(j: nat)
    requires j < 8
    ensures OneBit(j) as bv16 == Pow(j)
  {
    PowSmall();
  }

  lemma CrcOfLast(b: bv8)
    ensures Crc(0, [b]) == Feed(0, b)
  {
    assert [] + [b] == [b];
    FoldLast(Feed, 0, [], b);
  }

  /** The CRC of a single bit is a power of x. */
  lemma CrcOfFlip(n: nat, k: nat)
    requires k < 8 * n
    ensures Crc(0, Flip(n, k)) == Pow(16 + k)
  {
    var p, j, q := n - 1 - k / 8, k % 8, k / 8;
    CrcOfLead(p, j);
    FoldAppend(Feed, 0, Zeros(p) + [OneBit(j)], Zeros(q));
    CrcOfZeros(Pow(16 + j), q);
    PowAdd(8 * q, 16 + j);
    assert 8 * q + (16 + j) == 16 + k;
  }

  lemma CrcOfLead(p: nat, j: nat)
    requires j < 8
    ensures Crc(0, Zeros(p) + [OneBit(j)]) == Pow(16 + j)
  {
    CrcOfZeros(0, p);
    ShiftIsRegister();
    IterZero(Shift, 8 * p, 0);
    FoldAppend(Feed, 0, Zeros(p), [OneBit(j)]);
    CrcOfLast(OneBit(j));
    FeedFirst(OneBit(j));
    OneBitIsPow(j);
    PowAdd(16, j);
  }

  /** Powers of x agree exactly when their exponents are a multiple of 32767 apart. */
  lemma PowOneIff(m: nat)
    ensures Pow(m) == 1 <==> m % 32767 == 0
  {
    var q, r := m / 32767, m % 32767;
    PowFullOrder(r);
    PowMultiple(32767, q);
    PowAdd(r, 32767 * q);
    assert m == r + 32767 * q;
    assert Pow(0) == 1;
  }

  lemma PowsEqualIff(c: nat, d: nat)
    requires c <= d
    ensures Pow(c) == Pow(d) <==> (d - c) % 32767 == 0
  {
    ShiftIsRegister();
    PowAdd(c, d - c);
    PowAdd(c, 0);
    assert Pow(0) == 1;
    if Pow(c) == Pow(d) {
      IterInjective(Shift, c, 1, Pow(d - c));
    }
    PowOneIff(d - c);
  }

  /** At any length, two flipped bits go unnoticed if and only if they are a multiple of 32767 places apart. */
  lemma TwoBitsUndetectedIff(x: seq<bv8>, y: seq<bv8>, c: nat, d: nat)
    requires |x| == |y| && c <= d < 8 * |x|
    requires Difference(x, y) == Difference(Flip(|x|, c), Flip(|x|, d))
    ensures Crc(0xFFFF, x) == Crc(0xFFFF, y) <==> (d - c) % 32767 == 0
  {
    var n := |x|;
    UndetectedIff(x, y);
    CrcLinear(0, 0, Flip(n, c), Flip(n, d));
    XorZero(0, 0);
    CrcOfFlip(n, c);
    CrcOfFlip(n, d);
    XorZero(Pow(16 + c), Pow(16 + d));
    PowsEqualIff(16 + c, 16 + d);
  }
}
