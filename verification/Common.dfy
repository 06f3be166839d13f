/** Small notions that several components share. */
module Common {

  datatype Option<T> = None | Some(value: T)

  function Abs(x: real): real {
    if x >= 0.0 then x else -x
  }

  /** `y` lies on the way from `x` to `z`. */
  predicate Between(x: real, y: real, z: real) {
    x <= y <= z || z <= y <= x
  }

  lemma Portion(r: real, x: real)
    requires 0.0 <= r <= 1.0
    ensures x >= 0.0 ==> 0.0 <= r * x <= x
    ensures x <= 0.0 ==> x <= r * x <= 0.0
  {
  }

  lemma Regroup<T>(a: seq<T>, b: seq<T>, c: seq<T>)
    ensures (a + b) + c == a + (b + c)
  {}

  lemma OneMore<T>(xs: seq<T>, k: nat)
    requires k < |xs|
    ensures xs[..k + 1] == xs[..k] + [xs[k]]
  {
  }
}
