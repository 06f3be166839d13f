/** The order of x modulo the CCITT generator polynomial: its powers first return to 1 after
    32767 = 7 * 31 * 151 steps of the register. */
module CcittOrder {
  import opened ShiftRegister
  import opened CcittCrc

  /** The `n`-th power of x, reduced: `n` register steps from 1. */
  ghost function Pow(n: nat): bv16 {
    Iter(Shift, n, 1)
  }

  lemma PowAdd(m: nat, n: nat)
    ensures Pow(m + n) == Iter(Shift, m, Pow(n))
  {
    IterAdd(Shift, m, n, 1);
  }

  // ----- Squaring -----

  function Down(a: bv16): bv16 {
    a >> 1
  }

  function Down4(a: bv16): bv16 {
    a >> 4
  }

  function Pick(a: bv16, p: bv16): bv16 {
    if a & 1 == 1 then p else 0
  }

  function Quad(a: bv16, p0: bv16, p1: bv16, p2: bv16, p3: bv16): bv16 {
    Xor(Xor(Pick(a, p0), Pick(Down(a), p1)), Xor(Pick(Down(Down(a)), p2), Pick(Down(Down(Down(a))), p3)))
  }

  /** The square of a polynomial: the even powers of x at the places of its ones. */
  function Square(a: bv16): bv16 {
    Xor(Xor(Quad(a, 0x0001, 0x0004, 0x0010, 0x0040), Quad(Down4(a), 0x0100, 0x0400, 0x1000, 0x4000)),
        Xor(Quad(Down4(Down4(a)), 0x1021, 0x4084, 0x1231, 0x48C4), Quad(Down4(Down4(Down4(a))), 0x3331, 0xCCC4, 0x0373, 0x0DCC)))
  }

  lemma PickXor(a: bv16, b: bv16, p: bv16)
    ensures Pick(Xor(a, b), p) == Xor(Pick(a, p), Pick(b, p))
  {
    LowBits(a, b);
    XorUnits(p);
    if a & 1 == 1 {
      if b & 1 == 1 {} else {}
    } else {
      if b & 1 == 1 {} else {}
    }
  }

  lemma XorUnits(p: bv16)
    ensures p ^ p == 0 && p ^ 0 == p && 0 ^ p == p
  {}

  /** Regrouping under any operation, from the instances of its laws it takes. */
  lemma Regrouped(x: (bv16, bv16) -> bv16, a: bv16, b: bv16, c: bv16, d: bv16)
    requires x(x(a, b), x(c, d)) == x(a, x(b, x(c, d)))
    requires x(x(b, c), d) == x(b, x(c, d)) && x(x(c, b), d) == x(c, x(b, d)) && x(b, c) == x(c, b)
    requires x(x(a, c), x(b, d)) == x(a, x(c, x(b, d)))
    ensures x(x(a, b), x(c, d)) == x(x(a, c), x(b, d))
  {}

  lemma XorPairs(a: bv16, b: bv16, c: bv16, d: bv16)
    ensures Xor(Xor(a, b), Xor(c, d)) == Xor(Xor(a, c), Xor(b, d))
  {
    XorAssoc(a, b, Xor(c, d));
    XorAssoc(b, c, d);
    XorAssoc(c, b, d);
    XorAssoc(a, c, Xor(b, d));
    XorComm(b, c);
    Regrouped(Xor, a, b, c, d);
  }

  lemma DownXor(a: bv16, b: bv16)
    ensures Down(Xor(a, b)) == Xor(Down(a), Down(b))
  {
    assert (a ^ b) >> 1 == (a >> 1) ^ (b >> 1);
  }

  lemma Down4Xor(a: bv16, b: bv16)
    ensures Down4(Xor(a, b)) == Xor(Down4(a), Down4(b))
  {
    assert (a ^ b) >> 4 == (a >> 4) ^ (b >> 4);
  }

  lemma QuadXor(a: bv16, b: bv16, p0: bv16, p1: bv16, p2: bv16, p3: bv16)
    ensures Quad(Xor(a, b), p0, p1, p2, p3) == Xor(Quad(a, p0, p1, p2, p3), Quad(b, p0, p1, p2, p3))
  {
    var (a1, b1) := (Down(a), Down(b));
    var (a2, b2) := (Down(a1), Down(b1));
    var (a3, b3) := (Down(a2), Down(b2));
    DownXor(a, b);
    DownXor(a1, b1);
    DownXor(a2, b2);
    PickXor(a, b, p0);
    PickXor(a1, b1, p1);
    PickXor(a2, b2, p2);
    PickXor(a3, b3, p3);
    XorPairs(Pick(a, p0), Pick(b, p0), Pick(a1, p1), Pick(b1, p1));
    XorPairs(Pick(a2, p2), Pick(b2, p2), Pick(a3, p3), Pick(b3, p3));
    XorPairs(Xor(Pick(a, p0), Pick(a1, p1)), Xor(Pick(b, p0), Pick(b1, p1)),
             Xor(Pick(a2, p2), Pick(a3, p3)), Xor(Pick(b2, p2), Pick(b3, p3)));
  }

  lemma SquareXor(a: bv16, b: bv16)
    ensures Square(Xor(a, b)) == Xor(Square(a), Square(b))
  {
    var (a1, b1) := (Down4(a), Down4(b));
    var (a2, b2) := (Down4(a1), Down4(b1));
    var (a3, b3) := (Down4(a2), Down4(b2));
    Down4Xor(a, b);
    Down4Xor(a1, b1);
    Down4Xor(a2, b2);
    QuadXor(a, b, 0x0001, 0x0004, 0x0010, 0x0040);
    QuadXor(a1, b1, 0x0100, 0x0400, 0x1000, 0x4000);
    QuadXor(a2, b2, 0x1021, 0x4084, 0x1231, 0x48C4);
    QuadXor(a3, b3, 0x3331, 0xCCC4, 0x0373, 0x0DCC);
    var (q0, r0) := (Quad(a, 0x0001, 0x0004, 0x0010, 0x0040), Quad(b, 0x0001, 0x0004, 0x0010, 0x0040));
    var (q1, r1) := (Quad(a1, 0x0100, 0x0400, 0x1000, 0x4000), Quad(b1, 0x0100, 0x0400, 0x1000, 0x4000));
    var (q2, r2) := (Quad(a2, 0x1021, 0x4084, 0x1231, 0x48C4), Quad(b2, 0x1021, 0x4084, 0x1231, 0x48C4));
    var (q3, r3) := (Quad(a3, 0x3331, 0xCCC4, 0x0373, 0x0DCC), Quad(b3, 0x3331, 0xCCC4, 0x0373, 0x0DCC));
    XorPairs(q0, r0, q1, r1);
    XorPairs(q2, r2, q3, r3);
    XorPairs(Xor(q0, q1), Xor(r0, r1), Xor(q2, q3), Xor(r2, r3));
  }

  // ----- Linear maps that agree on the powers of x agree -----

  ghost predicate Fits(x: bv16, n: nat)
    decreases n
  {
    if n == 0 then x == 0 else Fits(Down(x), n - 1)
  }

  lemma FitsFour(x: bv16, n: nat)
    requires Fits(Down4(x), n)
    ensures Fits(x, n + 4)
  {
    assert (((x >> 1) >> 1) >> 1) >> 1 == x >> 4;
    assert Fits(Down(Down(Down(x))), n + 1);
    assert Fits(Down(Down(x)), n + 2);
  }

  lemma AllFit(x: bv16)
    ensures Fits(x, 16)
  {
    assert (((x >> 4) >> 4) >> 4) >> 4 == 0;
    FitsFour(Down4(Down4(Down4(x))), 0);
    FitsFour(Down4(Down4(x)), 4);
    FitsFour(Down4(x), 8);
    FitsFour(x, 12);
  }

  lemma LowAndRest(x: bv16)
    ensures x == Xor(Pick(x, 1), Shift(Down(x)))
  {
    if x & 1 == 1 {
      assert x == 1 ^ ((x >> 1) << 1);
    } else {
      assert x == (x >> 1) << 1;
    }
  }

  lemma IterSum(f: bv16 -> bv16, j: nat, b: bv16, y: bv16)
    requires Linear(f)
    ensures Iter(f, j, Xor(b, f(y))) == Xor(Iter(f, j, b), Iter(f, j + 1, y))
  {
    IterLinear(f, j, b, f(y));
    IterAdd(f, j, 1, y);
    assert Iter(f, 0, y) == y;
  }

  lemma IterLowAndRest(j: nat, x: bv16)
    ensures Iter(Shift, j, x) == Xor(Iter(Shift, j, Pick(x, 1)), Iter(Shift, j + 1, Down(x)))
  {
    ShiftIsRegister();
    LowAndRest(x);
    IterSum(Shift, j, Pick(x, 1), Down(x));
  }

  lemma AgreeOnBit(f: bv16 -> bv16, g: bv16 -> bv16, j: nat, x: bv16)
    requires Linear(f) && Linear(g) && f(Pow(j)) == g(Pow(j))
    ensures f(Iter(Shift, j, Pick(x, 1))) == g(Iter(Shift, j, Pick(x, 1)))
  {
    ShiftIsRegister();
    LinearAtZero(f);
    LinearAtZero(g);
    IterZero(Shift, j, 0);
  }

  lemma AgreeOnXor(f: bv16 -> bv16, g: bv16 -> bv16, u: bv16, v: bv16)
    requires Linear(f) && Linear(g) && f(u) == g(u) && f(v) == g(v)
    ensures f(Xor(u, v)) == g(Xor(u, v))
  {}

  ghost predicate AgreeAt(f: bv16 -> bv16, g: bv16 -> bv16, i: nat) {
    f(Pow(i)) == g(Pow(i))
  }

  lemma AgreeAtZero(f: bv16 -> bv16, g: bv16 -> bv16, j: nat)
    requires Linear(f) && Linear(g)
    ensures f(Iter(Shift, j, 0)) == g(Iter(Shift, j, 0))
  {
    ShiftIsRegister();
    LinearAtZero(f);
    LinearAtZero(g);
    IterZero(Shift, j, 0);
  }

  lemma {:induction false} AgreeOnPowers(f: bv16 -> bv16, g: bv16 -> bv16, j: nat, n: nat, x: bv16)
    requires Linear(f) && Linear(g)
    requires forall i :: j <= i < j + n ==> AgreeAt(f, g, i)
    requires Fits(x, n)
    ensures f(Iter(Shift, j, x)) == g(Iter(Shift, j, x))
    decreases n
  {
    if n == 0 {
      AgreeAtZero(f, g, j);
    } else {
      assert AgreeAt(f, g, j);
      AgreeOnPowers(f, g, j + 1, n - 1, Down(x));
      AgreeOnBit(f, g, j, x);
      IterLowAndRest(j, x);
      AgreeOnXor(f, g, Iter(Shift, j, Pick(x, 1)), Iter(Shift, j + 1, Down(x)));
    }
  }

  lemma PowSmall()
    ensures Pow(0) == 0x0001 && Pow(1) == 0x0002 && Pow(2) == 0x0004 && Pow(3) == 0x0008 
         && Pow(4) == 0x0010 && Pow(5) == 0x0020 && Pow(6) == 0x0040 && Pow(7) == 0x0080 
         && Pow(8) == 0x0100 && Pow(9) == 0x0200 && Pow(10) == 0x0400 && Pow(11) == 0x0800 
         && Pow(12) == 0x1000 && Pow(13) == 0x2000 && Pow(14) == 0x4000 && Pow(15) == 0x8000
  {
    assert Pow(0) == 0x0001;
    assert Pow(1) == 0x0002;
    assert Pow(2) == 0x0004;
    assert Pow(3) == 0x0008;
    assert Pow(4) == 0x0010;
    assert Pow(5) == 0x0020;
    assert Pow(6) == 0x0040;
    assert Pow(7) == 0x0080;
    assert Pow(8) == 0x0100;
    assert Pow(9) == 0x0200;
    assert Pow(10) == 0x0400;
    assert Pow(11) == 0x0800;
    assert Pow(12) == 0x1000;
    assert Pow(13) == 0x2000;
    assert Pow(14) == 0x4000;
    assert Pow(15) == 0x8000;
  }

  ghost predicate Same(f: bv16 -> bv16, g: bv16 -> bv16, v: bv16)
    ensures Same(f, g, v) ==> f(v) == g(v)
  {
    f(v) == g(v)
  }

  /** Two maps agree on the powers of x below the degree. */
  ghost predicate AgreeOnBasis(f: bv16 -> bv16, g: bv16 -> bv16)
    ensures AgreeOnBasis(f, g) ==> Same(f, g, 0x0001)
  {
    && Same(f, g, 0x0001) && Same(f, g, 0x0002) && Same(f, g, 0x0004) && Same(f, g, 0x0008)
    && Same(f, g, 0x0010) && Same(f, g, 0x0020) && Same(f, g, 0x0040) && Same(f, g, 0x0080)
    && Same(f, g, 0x0100) && Same(f, g, 0x0200) && Same(f, g, 0x0400) && Same(f, g, 0x0800)
    && Same(f, g, 0x1000) && Same(f, g, 0x2000) && Same(f, g, 0x4000) && Same(f, g, 0x8000)
  }

  lemma AgreeOnSmall(f: bv16 -> bv16, g: bv16 -> bv16)
    requires AgreeOnBasis(f, g)
    ensures forall i :: 0 <= i < 16 ==> AgreeAt(f, g, i)
  {
    PowSmall();
    assert AgreeAt(f, g, 0) && AgreeAt(f, g, 1) && AgreeAt(f, g, 2) && AgreeAt(f, g, 3);
    assert AgreeAt(f, g, 4) && AgreeAt(f, g, 5) && AgreeAt(f, g, 6) && AgreeAt(f, g, 7);
    assert AgreeAt(f, g, 8) && AgreeAt(f, g, 9) && AgreeAt(f, g, 10) && AgreeAt(f, g, 11);
    assert AgreeAt(f, g, 12) && AgreeAt(f, g, 13) && AgreeAt(f, g, 14) && AgreeAt(f, g, 15);
  }

  lemma AgreeEverywhere(f: bv16 -> bv16, g: bv16 -> bv16, x: bv16)
    requires Linear(f) && Linear(g)
    requires AgreeOnBasis(f, g)
    ensures f(x) == g(x)
  {
    AllFit(x);
    AgreeOnSmall(f, g);
    AgreeOnPowers(f, g, 0, 16, x);
  }

  // ----- Squaring a product with x -----

  /** A value of a map, under a name that keeps the map closed. */
  ghost predicate At(f: bv16 -> bv16, v: bv16, w: bv16)
    ensures At(f, v, w) ==> f(v) == w
  {
    f(v) == w
  }

  function Twice(x: bv16): bv16 {
    Shift(Shift(x))
  }

  lemma SquareIs(v: bv16, v1: bv16, v2: bv16, v3: bv16, q0: bv16, q1: bv16, q2: bv16, q3: bv16, w: bv16)
    requires v1 == Down4(v) && v2 == Down4(v1) && v3 == Down4(v2)
    requires Quad(v, 0x0001, 0x0004, 0x0010, 0x0040) == q0 && Quad(v1, 0x0100, 0x0400, 0x1000, 0x4000) == q1
    requires Quad(v2, 0x1021, 0x4084, 0x1231, 0x48C4) == q2 && Quad(v3, 0x3331, 0xCCC4, 0x0373, 0x0DCC) == q3
    requires Xor(Xor(q0, q1), Xor(q2, q3)) == w
    ensures At(Square, v, w)
  {}

  lemma Squared0() ensures At(Square, 0x0001, 0x0001) { SquareIs(0x0001, 0x0000, 0x0000, 0x0000, 0x0001, 0x0000, 0x0000, 0x0000, 0x0001); }
  lemma Squared1() ensures At(Square, 0x0002, 0x0004) { SquareIs(0x0002, 0x0000, 0x0000, 0x0000, 0x0004, 0x0000, 0x0000, 0x0000, 0x0004); }
  lemma Squared2() ensures At(Square, 0x0004, 0x0010) { SquareIs(0x0004, 0x0000, 0x0000, 0x0000, 0x0010, 0x0000, 0x0000, 0x0000, 0x0010); }
  lemma Squared3() ensures At(Square, 0x0008, 0x0040) { SquareIs(0x0008, 0x0000, 0x0000, 0x0000, 0x0040, 0x0000, 0x0000, 0x0000, 0x0040); }
  lemma Squared4() ensures At(Square, 0x0010, 0x0100) { SquareIs(0x0010, 0x0001, 0x0000, 0x0000, 0x0000, 0x0100, 0x0000, 0x0000, 0x0100); }
  lemma Squared5() ensures At(Square, 0x0020, 0x0400) { SquareIs(0x0020, 0x0002, 0x0000, 0x0000, 0x0000, 0x0400, 0x0000, 0x0000, 0x0400); }
  lemma Squared6() ensures At(Square, 0x0040, 0x1000) { SquareIs(0x0040, 0x0004, 0x0000, 0x0000, 0x0000, 0x1000, 0x0000, 0x0000, 0x1000); }
  lemma Squared7() ensures At(Square, 0x0080, 0x4000) { SquareIs(0x0080, 0x0008, 0x0000, 0x0000, 0x0000, 0x4000, 0x0000, 0x0000, 0x4000); }
  lemma Squared8() ensures At(Square, 0x0100, 0x1021) { SquareIs(0x0100, 0x0010, 0x0001, 0x0000, 0x0000, 0x0000, 0x1021, 0x0000, 0x1021); }
  lemma Squared9() ensures At(Square, 0x0200, 0x4084) { SquareIs(0x0200, 0x0020, 0x0002, 0x0000, 0x0000, 0x0000, 0x4084, 0x0000, 0x4084); }
  lemma Squared10() ensures At(Square, 0x0400, 0x1231) { SquareIs(0x0400, 0x0040, 0x0004, 0x0000, 0x0000, 0x0000, 0x1231, 0x0000, 0x1231); }
  lemma Squared11() ensures At(Square, 0x0800, 0x48C4) { SquareIs(0x0800, 0x0080, 0x0008, 0x0000, 0x0000, 0x0000, 0x48C4, 0x0000, 0x48C4); }
  lemma Squared12() ensures At(Square, 0x1000, 0x3331) { SquareIs(0x1000, 0x0100, 0x0010, 0x0001, 0x0000, 0x0000, 0x0000, 0x3331, 0x3331); }
  lemma Squared13() ensures At(Square, 0x2000, 0xCCC4) { SquareIs(0x2000, 0x0200, 0x0020, 0x0002, 0x0000, 0x0000, 0x0000, 0xCCC4, 0xCCC4); }
  lemma Squared14() ensures At(Square, 0x4000, 0x0373) { SquareIs(0x4000, 0x0400, 0x0040, 0x0004, 0x0000, 0x0000, 0x0000, 0x0373, 0x0373); }
  lemma Squared15() ensures At(Square, 0x8000, 0x0DCC) { SquareIs(0x8000, 0x0800, 0x0080, 0x0008, 0x0000, 0x0000, 0x0000, 0x0DCC, 0x0DCC); }
  lemma Squared16() ensures At(Square, 0x1021, 0x3730) { SquareIs(0x1021, 0x0102, 0x0010, 0x0001, 0x0001, 0x0400, 0x0000, 0x3331, 0x3730); }

  ghost predicate SquareTable(sq: bv16 -> bv16)
    ensures SquareTable(sq) ==> At(sq, 0x0001, 0x0001)
  {
    && At(sq, 0x0001, 0x0001) && At(sq, 0x0002, 0x0004) && At(sq, 0x0004, 0x0010) && At(sq, 0x0008, 0x0040)
    && At(sq, 0x0010, 0x0100) && At(sq, 0x0020, 0x0400) && At(sq, 0x0040, 0x1000) && At(sq, 0x0080, 0x4000)
    && At(sq, 0x0100, 0x1021) && At(sq, 0x0200, 0x4084) && At(sq, 0x0400, 0x1231) && At(sq, 0x0800, 0x48C4)
    && At(sq, 0x1000, 0x3331) && At(sq, 0x2000, 0xCCC4) && At(sq, 0x4000, 0x0373) && At(sq, 0x8000, 0x0DCC)
    && At(sq, 0x1021, 0x3730)
  }

  ghost predicate ShiftTable(up: bv16 -> bv16)
    ensures ShiftTable(up) ==> At(up, 0x0001, 0x0002)
  {
    && At(up, 0x0001, 0x0002) && At(up, 0x0002, 0x0004) && At(up, 0x0004, 0x0008) && At(up, 0x0008, 0x0010)
    && At(up, 0x0010, 0x0020) && At(up, 0x0020, 0x0040) && At(up, 0x0040, 0x0080) && At(up, 0x0080, 0x0100)
    && At(up, 0x0100, 0x0200) && At(up, 0x0200, 0x0400) && At(up, 0x0400, 0x0800) && At(up, 0x0800, 0x1000)
    && At(up, 0x1000, 0x2000) && At(up, 0x2000, 0x4000) && At(up, 0x4000, 0x8000) && At(up, 0x8000, 0x1021)
  }

  ghost predicate TwiceTable(up2: bv16 -> bv16)
    ensures TwiceTable(up2) ==> At(up2, 0x0001, 0x0004)
  {
    && At(up2, 0x0001, 0x0004) && At(up2, 0x0004, 0x0010) && At(up2, 0x0010, 0x0040) && At(up2, 0x0040, 0x0100)
    && At(up2, 0x0100, 0x0400) && At(up2, 0x0400, 0x1000) && At(up2, 0x1000, 0x4000) && At(up2, 0x4000, 0x1021)
    && At(up2, 0x1021, 0x4084) && At(up2, 0x4084, 0x1231) && At(up2, 0x1231, 0x48C4) && At(up2, 0x48C4, 0x3331)
    && At(up2, 0x3331, 0xCCC4) && At(up2, 0xCCC4, 0x0373) && At(up2, 0x0373, 0x0DCC) && At(up2, 0x0DCC, 0x3730)
  }

  lemma SquareValues()
    ensures SquareTable(Square)
  {
    Squared0(); Squared1(); Squared2(); Squared3(); Squared4(); Squared5(); Squared6(); Squared7(); Squared8();
    Squared9(); Squared10(); Squared11(); Squared12(); Squared13(); Squared14(); Squared15(); Squared16();
  }

  lemma ShiftValues()
    ensures ShiftTable(Shift)
  {}

  lemma TwiceValues()
    ensures TwiceTable(Twice)
  {}

  /** One map after another. */
  ghost function Then(g: bv16 -> bv16, f: bv16 -> bv16): bv16 -> bv16 {
    x => f(g(x))
  }

  lemma ThenLinear(g: bv16 -> bv16, f: bv16 -> bv16)
    requires Linear(g) && Linear(f)
    ensures Linear(Then(g, f))
  {
    forall a, b ensures Then(g, f)(Xor(a, b)) == Xor(Then(g, f)(a), Then(g, f)(b)) {
      assert g(Xor(a, b)) == Xor(g(a), g(b));
    }
  }

  lemma FitAt(sq: bv16 -> bv16, up: bv16 -> bv16, up2: bv16 -> bv16, v: bv16, w: bv16, v': bv16, w': bv16)
    requires At(sq, v, w) && At(up, v, v') && At(sq, v', w') && At(up2, w, w')
    ensures Same(Then(up, sq), Then(sq, up2), v)
  {}

  lemma FitOnBasis(sq: bv16 -> bv16, up: bv16 -> bv16, up2: bv16 -> bv16)
    requires SquareTable(sq) && ShiftTable(up) && TwiceTable(up2)
    ensures AgreeOnBasis(Then(up, sq), Then(sq, up2))
  {
    FitAt(sq, up, up2, 0x0001, 0x0001, 0x0002, 0x0004);
    FitAt(sq, up, up2, 0x0002, 0x0004, 0x0004, 0x0010);
    FitAt(sq, up, up2, 0x0004, 0x0010, 0x0008, 0x0040);
    FitAt(sq, up, up2, 0x0008, 0x0040, 0x0010, 0x0100);
    FitAt(sq, up, up2, 0x0010, 0x0100, 0x0020, 0x0400);
    FitAt(sq, up, up2, 0x0020, 0x0400, 0x0040, 0x1000);
    FitAt(sq, up, up2, 0x0040, 0x1000, 0x0080, 0x4000);
    FitAt(sq, up, up2, 0x0080, 0x4000, 0x0100, 0x1021);
    FitAt(sq, up, up2, 0x0100, 0x1021, 0x0200, 0x4084);
    FitAt(sq, up, up2, 0x0200, 0x4084, 0x0400, 0x1231);
    FitAt(sq, up, up2, 0x0400, 0x1231, 0x0800, 0x48C4);
    FitAt(sq, up, up2, 0x0800, 0x48C4, 0x1000, 0x3331);
    FitAt(sq, up, up2, 0x1000, 0x3331, 0x2000, 0xCCC4);
    FitAt(sq, up, up2, 0x2000, 0xCCC4, 0x4000, 0x0373);
    FitAt(sq, up, up2, 0x4000, 0x0373, 0x8000, 0x0DCC);
    FitAt(sq, up, up2, 0x8000, 0x0DCC, 0x1021, 0x3730);
  }

  /** Three linear maps that fit together on the powers of x fit together everywhere. */
  lemma FitTogether(sq: bv16 -> bv16, up: bv16 -> bv16, up2: bv16 -> bv16, x: bv16)
    requires Linear(sq) && Linear(up) && Linear(up2) && SquareTable(sq) && ShiftTable(up) && TwiceTable(up2)
    ensures sq(up(x)) == up2(sq(x))
  {
    ThenLinear(up, sq);
    ThenLinear(sq, up2);
    FitOnBasis(sq, up, up2);
    AgreeEverywhere(Then(up, sq), Then(sq, up2), x);
  }

  lemma SquareMapsLinear()
    ensures Linear(Square) && Linear(Shift) && Linear(Twice)
  {
    ShiftIsRegister();
    forall a, b ensures Square(Xor(a, b)) == Xor(Square(a), Square(b)) {
      SquareXor(a, b);
    }
    forall a, b ensures Twice(Xor(a, b)) == Xor(Twice(a), Twice(b)) {
    }
  }

  /** Multiplying by x and squaring is squaring and multiplying by x twice. */
  lemma SquareOfShift(x: bv16)
    ensures Square(Shift(x)) == Shift(Shift(Square(x)))
  {
    SquareMapsLinear();
    SquareValues();
    ShiftValues();
    TwiceValues();
    FitTogether(Square, Shift, Twice, x);
  }

  lemma {:induction false} PowDouble(m: nat)
    ensures Pow(2 * m) == Square(Pow(m))
  {
    if m == 0 {
      assert Square(1) == 1;
    } else {
      PowDouble(m - 1);
      SquareOfShift(Pow(m - 1));
      assert Pow(2 * m - 1) == Shift(Pow(2 * (m - 1)));
    }
  }

  lemma Double(m: nat, v: bv16)
    requires Pow(m) == v
    ensures Pow(2 * m) == Square(v) && Pow(2 * m + 1) == Shift(Square(v))
  {
    PowDouble(m);
  }

  lemma PowOne()
    ensures Pow(1) == 2
  {
    assert Pow(0) == 1;
  }

  lemma PowFull()
    ensures Pow(32767) == 1
  {
    PowOne();
    Double(1, 0x0002); assert Pow(3) == 0x0008;
    Double(3, 0x0008); assert Pow(7) == 0x0080;
    Double(7, 0x0080); assert Pow(15) == 0x8000;
    Double(15, 0x8000); assert Pow(31) == 0x1B98;
    Double(31, 0x1B98); assert Pow(63) == 0xD420;
    Double(63, 0xD420); assert Pow(127) == 0x577E;
    Double(127, 0x577E); assert Pow(255) == 0xCF04;
    Double(255, 0xCF04); assert Pow(511) == 0x09FE;
    Double(511, 0x09FE); assert Pow(1023) == 0x1B62;
    Double(1023, 0x1B62); assert Pow(2047) == 0x7EA8;
    Double(2047, 0x7EA8); assert Pow(4095) == 0x554F;
    Double(4095, 0x554F); assert Pow(8191) == 0x440E;
    Double(8191, 0x440E); assert Pow(16383) == 0x222C;
    Double(16383, 0x222C); assert Pow(32767) == 0x0001;
  }

  lemma Pow217()
    ensures Pow(217) != 1
  {
    PowOne();
    Double(1, 0x0002); assert Pow(3) == 0x0008;
    Double(3, 0x0008); assert Pow(6) == 0x0040;
    Double(6, 0x0040); assert Pow(13) == 0x2000;
    Double(13, 0x2000); assert Pow(27) == 0x89A9;
    Double(27, 0x89A9); assert Pow(54) == 0x1168;
    Double(54, 0x1168); assert Pow(108) == 0x3750;
    Double(108, 0x3750); assert Pow(217) == 0x48E3;
  }

  lemma Pow1057()
    ensures Pow(1057) != 1
  {
    PowOne();
    Double(1, 0x0002); assert Pow(2) == 0x0004;
    Double(2, 0x0004); assert Pow(4) == 0x0010;
    Double(4, 0x0010); assert Pow(8) == 0x0100;
    Double(8, 0x0100); assert Pow(16) == 0x1021;
    Double(16, 0x1021); assert Pow(33) == 0x6E60;
    Double(33, 0x6E60); assert Pow(66) == 0xC1C6;
    Double(66, 0xC1C6); assert Pow(132) == 0x4E8A;
    Double(132, 0x4E8A); assert Pow(264) == 0x5946;
    Double(264, 0x5946); assert Pow(528) == 0x78B3;
    Double(528, 0x78B3); assert Pow(1057) == 0xF2AF;
  }

  lemma Pow4681()
    ensures Pow(4681) != 1
  {
    PowOne();
    Double(1, 0x0002); assert Pow(2) == 0x0004;
    Double(2, 0x0004); assert Pow(4) == 0x0010;
    Double(4, 0x0010); assert Pow(9) == 0x0200;
    Double(9, 0x0200); assert Pow(18) == 0x4084;
    Double(18, 0x4084); assert Pow(36) == 0x4363;
    Double(36, 0x4363); assert Pow(73) == 0x8FA6;
    Double(73, 0x8FA6); assert Pow(146) == 0x4388;
    Double(146, 0x4388); assert Pow(292) == 0x1396;
    Double(292, 0x1396); assert Pow(585) == 0x4500;
    Double(585, 0x4500); assert Pow(1170) == 0x0163;
    Double(1170, 0x0163); assert Pow(2340) == 0x0424;
    Double(2340, 0x0424); assert Pow(4681) == 0x2C42;
  }

  // ----- The order -----

  lemma {:induction false} PowMultiple(a: nat, k: nat)
    requires Pow(a) == 1
    ensures Pow(a * k) == 1
  {
    if k > 0 {
      PowMultiple(a, k - 1);
      assert a * k == a * (k - 1) + a;
      PowAdd(a * (k - 1), a);
    } else {
      assert a * k == 0;
    }
  }

  lemma PowRemainder(a: nat, b: nat)
    requires Pow(a + b) == 1 && Pow(b) == 1
    ensures Pow(a) == 1
  {
    PowAdd(a, b);
  }

  ghost predicate Product(t: nat, s: nat, p: nat) {
    t * s == p
  }

  ghost predicate Prime(p: nat) {
    forall t: nat, s: nat :: Product(t, s, p) ==> t == 1 || t == p
  }

  /** Euclid's algorithm on exponents: a multiple of `k` not divisible by the prime brings `k` itself. */
  lemma Spread(k: nat, p: nat, r: nat, q: nat, t: nat)
    requires p == r * q + t
    ensures k * p == k * t + k * r * q
  {
    assert k * (r * q + t) == k * r * q + k * t;
  }

  lemma {:induction false} PowReach(k: nat, p: nat, r: nat)
    requires 0 < r < p && Prime(p)
    requires Pow(k * p) == 1 && Pow(k * r) == 1
    ensures Pow(k) == 1
    decreases r
  {
    var t, q := p % r, p / r;
    if t == 0 {
      assert Product(r, q, p);
      assert k * r == k;
    } else {
      PowMultiple(k * r, q);
      Spread(k, p, r, q, t);
      PowRemainder(k * t, k * r * q);
      PowReach(k, p, t);
    }
  }

  lemma Parted(d: nat, p: nat)
    requires p > 0
    ensures d == p * (d / p) + d % p
  {}

  lemma SpreadMultiple(k: nat, p: nat, d: nat, q: nat, r: nat)
    requires d == p * q + r && k * p == 32767
    ensures d * k == k * r + 32767 * q
  {
    Spread(k, d, p, q, r);
    assert k * p * q == 32767 * q;
  }

  lemma Divides(k: nat, p: nat, d: nat)
    requires Prime(p) && p > 0 && k * p == 32767
    requires Pow(d) == 1 && Pow(k) != 1 && Pow(32767) == 1
    ensures d % p == 0
  {
    var r, q := d % p, d / p;
    if r != 0 {
      PowMultiple(d, k);
      PowMultiple(32767, q);
      Parted(d, p);
      SpreadMultiple(k, p, d, q, r);
      PowRemainder(k * r, 32767 * q);
      PowReach(k, p, r);
    }
  }

  lemma ProductGrows(t: nat, s: nat, m: nat)
    requires t >= m && s >= m
    ensures t * s >= m * m
  {
    assert t * s >= m * s >= m * m;
  }

  lemma NoSmallFactor(t: nat, s: nat)
    requires 1 < t <= 12
    ensures t * s != 151
  {
    if t == 2 {} else if t == 3 {} else if t == 4 {} else if t == 5 {} else if t == 6 {} else if t == 7 {}
    else if t == 8 {} else if t == 9 {} else if t == 10 {} else if t == 11 {} else {}
  }

  lemma Prime151()
    ensures Prime(151)
  {
    forall t: nat, s: nat | Product(t, s, 151) ensures t == 1 || t == 151 {
      if 1 < t <= 12 {
        NoSmallFactor(t, s);
      } else if 1 < s <= 12 {
        assert s * t == t * s;
        NoSmallFactor(s, t);
      } else if t > 12 && s > 12 {
        ProductGrows(t, s, 13);
      }
    }
  }

  lemma Prime31()
    ensures Prime(31)
  {
    forall t: nat, s: nat | Product(t, s, 31) ensures t == 1 || t == 31 {
      if t <= 5 {
        if t == 0 {} else if t == 1 {} else if t == 2 {} else if t == 3 {} else if t == 4 {} else {}
      } else if s <= 5 {
        if s == 0 {} else if s == 1 {} else if s == 2 {} else if s == 3 {} else if s == 4 {} else {}
      } else {
        ProductGrows(t, s, 6);
      }
    }
  }

  lemma Prime7()
    ensures Prime(7)
  {
    forall t: nat, s: nat | Product(t, s, 7) ensures t == 1 || t == 7 {
      if t <= 2 {
        if t == 0 {} else if t == 1 {} else {}
      } else if s <= 2 {
        if s == 0 {} else if s == 1 {} else {}
      } else {
        ProductGrows(t, s, 3);
      }
    }
  }

  lemma CommonMultiple(d: nat)
    requires d % 7 == 0 && d % 31 == 0 && d % 151 == 0
    ensures d == 0 || d >= 32767
  {
    var a, b, e := d / 7, d / 31, d / 151;
    var c := 9 * b - 2 * a;
    assert a == 31 * c;
    assert c == 151 * (7 * c - 16 * (e - c));
  }

  /** No smaller power of x is 1. */
  lemma PowNotOne(d: nat)
    requires 0 < d < 32767
    ensures Pow(d) != 1
  {
    if Pow(d) == 1 {
      PowFull();
      Divides(4681, 7, d) by { Prime7(); Pow4681(); }
      Divides(1057, 31, d) by { Prime31(); Pow1057(); }
      Divides(217, 151, d) by { Prime151(); Pow217(); }
      CommonMultiple(d);
    }
  }

  lemma PowFullOrder(d: nat)
    ensures Pow(32767) == 1
    ensures 0 < d < 32767 ==> Pow(d) != 1
  {
    PowFull();
    if 0 < d < 32767 {
      PowNotOne(d);
    }
  }
}
