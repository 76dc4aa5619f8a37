/** `Math.random()` is injected: a draw is the fraction num/den in [0, 1). */
module Random {
  import opened Wrappers

  datatype Roll = Roll(num: nat, den: nat)

  /** A draw `Math.random()` can return: 0 <= num/den < 1. */
  predicate IsDraw(r: Roll) {
    r.num < r.den
  }

  /** `Math.floor(Math.random() * n)`: a uniform index below n. */
  function Scale(r: Roll, n: nat): (i: nat)
    requires IsDraw(r) && n > 0
    ensures i < n
  {
    ScaleBelow(r.num, r.den, n);
    r.num * n / r.den
  }

  /**
   * `pickTarget`, in the page and on the server alike: `list[floor(random * length)]`,
   * which is `undefined` for an empty list.
   */
  function Pick<T>(list: seq<T>, r: Roll): (t: Option<T>)
    requires IsDraw(r)
    ensures t.Some? <==> |list| > 0
    ensures t.Some? ==> t.value in list
  {
    if |list| == 0 then None else Some(list[Scale(r, |list|)])
  }

  /** `Math.random() < 0.5`. */
  predicate BelowHalf(r: Roll) {
    2 * r.num < r.den
  }

  lemma ScaleBelow(num: nat, den: nat, n: nat)
    requires num < den && n > 0
    ensures num * n / den < n
  {
    assert num * n < den * n by {
      assert (den - num) * n > 0;
    }
    var q := num * n / den;
    assert q * den <= num * n;
    assert (n - q) * den == n * den - q * den;
    assert (n - q) * den > 0;
  }
}
