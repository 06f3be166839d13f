/** Positions in a circular buffer of `c` slots: entry number `k` of a log lives in slot `k % c`. */
module Ring {

  lemma {:induction false} ModShift(a: int, c: int, k: nat)
    requires c > 0
    ensures (a + c * k) % c == a % c
  {
    if k > 0 {
      ModShift(a, c, k - 1);
      assert a + c * k == (a + c * (k - 1)) + c;
      ModOnce(a + c * (k - 1), c);
    } else {
      assert c * k == 0;
    }
  }

  lemma ModOnce(a: int, c: int)
    requires c > 0
    ensures (a + c) % c == a % c
  {
    var q, r := a / c, a % c;
    assert a + c == c * (q + 1) + r;
    ModUnique(a + c, c, q + 1, r);
  }

  lemma AtLeastOnce(c: int, d: int)
    requires c > 0 && d >= 1
    ensures c * d >= c
  {}

  lemma ModUnique(a: int, c: int, q: int, r: int)
    requires c > 0 && 0 <= r < c && a == c * q + r
    ensures a % c == r
  {
    var q', r' := a / c, a % c;
    assert a == c * q' + r' && 0 <= r' < c;
    assert c * (q - q') == c * q - c * q';
    if q > q' {
      AtLeastOnce(c, q - q');
    } else if q < q' {
      assert c * (q' - q) == c * q' - c * q;
      AtLeastOnce(c, q' - q);
    }
  }

  /** The slot after entry `n - 1` is the slot of entry `n`. */
  lemma NextSlot(n: nat, c: nat)
    requires c > 0
    ensures (n % c + 1) % c == (n + 1) % c
  {
    var q, r := n / c, n % c;
    assert n + 1 == (r + 1) + c * q;
    ModShift(r + 1, c, q);
  }

  /** Entries fewer than `c` apart live in different slots. */
  lemma DifferentSlots(k: nat, n: nat, c: nat)
    requires c > 0 && k < n < k + c
    ensures k % c != n % c
  {
    var q, r := k / c, k % c;
    if r + (n - k) < c {
      ModUnique(n, c, q, r + (n - k));
    } else {
      assert n == c * (q + 1) + (r + (n - k) - c);
      ModUnique(n, c, q + 1, r + (n - k) - c);
    }
  }

  lemma OneLess(c: int, q: int)
    ensures c * (q - 1) == c * q - c
  {}

  lemma Divided(n: nat, c: nat)
    requires c > 0
    ensures n == c * (n / c) + n % c
  {}

  lemma ReaderShift(q: nat, r: int, back: nat, c: nat)
    requires c > 0 && q > 0
    ensures (r - back + c) % c == (c * q + r - back) % c
  {
    OneLess(c, q);
    ModShift(r - back + c, c, q - 1);
  }

  /** The reader's index: counting `back` places back from the write position of entry `n`. */
  lemma ReaderSlot(n: nat, back: nat, c: nat)
    requires c > 0 && back <= n && back <= c
    ensures (n % c - back + c) % c == (n - back) % c
  {
    Divided(n, c);
    if n / c > 0 {
      ReaderShift(n / c, n % c, back, c);
    } else {
      assert c * (n / c) == 0;
      ModOnce(n - back, c);
    }
  }
}
