/** Sixteen-bit linear shift registers: what the two CRCs of the system share.
    A register step is a function `f` that is linear over exclusive or and loses nothing. */
module ShiftRegister {

  /** Exclusive or under a name of its own: proofs by congruence then stay above the bits. */
  function Xor(a: bv16, b: bv16): bv16 {
    a ^ b
  }

  lemma RawXorZero(a: bv16, b: bv16)
    ensures a ^ b == 0 <==> a == b
  {}

  lemma XorZero(a: bv16, b: bv16)
    ensures Xor(a, b) == 0 <==> a == b
  {
    RawXorZero(a, b);
  }

  lemma XorComm(a: bv16, b: bv16)
    ensures Xor(a, b) == Xor(b, a)
  {}

  /** The low bit of an exclusive or. */
  lemma LowBits(a: bv16, b: bv16)
    ensures (a ^ b) & 1 == (a & 1) ^ (b & 1)
    ensures a & 1 == 0 || a & 1 == 1
    ensures b & 1 == 0 || b & 1 == 1
  {}

  ghost predicate Linear(f: bv16 -> bv16) {
    forall a, b {:trigger f(Xor(a, b))} :: f(Xor(a, b)) == Xor(f(a), f(b))
  }

  ghost predicate Lossless(f: bv16 -> bv16) {
    forall x :: f(x) == 0 ==> x == 0
  }

  /** `n` register steps. */
  function Iter(f: bv16 -> bv16, n: nat, x: bv16): bv16 {
    if n == 0 then x else f(Iter(f, n - 1, x))
  }

  lemma {:induction false} IterLinear(f: bv16 -> bv16, n: nat, a: bv16, b: bv16)
    requires Linear(f)
    ensures Iter(f, n, Xor(a, b)) == Xor(Iter(f, n, a), Iter(f, n, b))
  {
    if n > 0 {
      IterLinear(f, n - 1, a, b);
    }
  }

  lemma {:induction false} IterAdd(f: bv16 -> bv16, m: nat, n: nat, x: bv16)
    ensures Iter(f, m + n, x) == Iter(f, m, Iter(f, n, x))
  {
    if m > 0 {
      IterAdd(f, m - 1, n, x);
    }
  }

  lemma LinearAtZero(f: bv16 -> bv16)
    requires Linear(f)
    ensures f(0) == 0
  {
    assert f(Xor(0, 0)) == Xor(f(0), f(0));
  }

  lemma {:induction false} IterZero(f: bv16 -> bv16, n: nat, x: bv16)
    requires Linear(f) && Lossless(f)
    ensures Iter(f, n, x) == 0 <==> x == 0
  {
    LinearAtZero(f);
    if n > 0 {
      IterZero(f, n - 1, x);
    }
  }

  lemma IterInjective(f: bv16 -> bv16, n: nat, x: bv16, y: bv16)
    requires Linear(f) && Lossless(f)
    requires Iter(f, n, x) == Iter(f, n, y)
    ensures x == y
  {
    IterLinear(f, n, x, y);
    IterZero(f, n, Xor(x, y));
  }

  lemma IterEight(f: bv16 -> bv16, x: bv16)
    ensures Iter(f, 8, x) == f(f(f(f(f(f(f(f(x))))))))
  {
    assert Iter(f, 0, x) == x;
    assert Iter(f, 1, x) == f(x);
    assert Iter(f, 2, x) == f(f(x));
    assert Iter(f, 3, x) == f(f(f(x)));
    assert Iter(f, 4, x) == f(f(f(f(x))));
    assert Iter(f, 5, x) == f(f(f(f(f(x)))));
    assert Iter(f, 6, x) == f(f(f(f(f(f(x))))));
    assert Iter(f, 7, x) == f(f(f(f(f(f(f(x)))))));
  }

  /** A register fed with a message, one byte at a time. */
  function Fold(feed: (bv16, bv8) -> bv16, init: bv16, data: seq<bv8>): bv16 {
    if data == [] then init else feed(Fold(feed, init, data[..|data| - 1]), data[|data| - 1])
  }

  lemma {:induction false} FoldAppend(feed: (bv16, bv8) -> bv16, init: bv16, x: seq<bv8>, y: seq<bv8>)
    ensures Fold(feed, init, x + y) == Fold(feed, Fold(feed, init, x), y)
  {
    if y == [] {
      assert x + y == x;
    } else {
      FoldAppend(feed, init, x, y[..|y| - 1]);
      assert (x + y)[..|x + y| - 1] == x + y[..|y| - 1];
    }
  }

  lemma FoldLast(feed: (bv16, bv8) -> bv16, init: bv16, x: seq<bv8>, b: bv8)
    ensures Fold(feed, init, x + [b]) == feed(Fold(feed, init, x), b)
  {
    assert (x + [b])[..|x|] == x;
  }

  lemma FoldTwo(feed: (bv16, bv8) -> bv16, init: bv16, x: seq<bv8>, a: bv8, b: bv8)
    ensures Fold(feed, init, x + [a, b]) == feed(feed(Fold(feed, init, x), a), b)
  {
    FoldLast(feed, init, x, a);
    FoldLast(feed, init, x + [a], b);
    assert x + [a] + [b] == x + [a, b];
  }
}
