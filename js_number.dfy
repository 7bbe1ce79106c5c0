/**
 * The part of JavaScript's value semantics the chart code relies on. A year
 * or a count is a mathematical integer, the not-a-number marker that
 * `parseInt` produces for unparsable text, or `null`, which is what a NaN
 * becomes once it has been sent as JSON and read back. Addition absorbs NaN
 * and counts `null` as 0, strict equality (`===`) never holds for NaN but
 * does for `null` and `null`, and `reduce((sum, x) => sum + x, 0)` is a
 * left fold.
 */
module JsNumber {

  /** A year or a count as the code sees it: an integer, NaN, or `null`. */
  datatype Num = NaN | Null | Val(v: int)

  /** The numeric value JavaScript's arithmetic uses: `null` converts to 0. */
  function Numeric(a: Num): int
    requires !a.NaN?
  {
    if a.Null? then 0 else a.v
  }

  /** `a + b`: NaN if either side is NaN, otherwise the sum with `null` read as 0. */
  function Add(a: Num, b: Num): (r: Num)
    ensures !r.Null?
    ensures r.NaN? <==> a.NaN? || b.NaN?
  {
    if a.NaN? || b.NaN? then NaN else Val(Numeric(a) + Numeric(b))
  }

  /**
   * `a === b`: NaN is equal to nothing, not even to itself; `null` is equal
   * to `null` only; integers are equal when they are the same integer.
   */
  predicate StrictEquals(a: Num, b: Num)
    ensures StrictEquals(a, b) <==> !a.NaN? && a == b
  {
    (a.Null? && b.Null?) || (a.Val? && b.Val? && a.v == b.v)
  }

  /**
   * `JSON.parse(JSON.stringify(x))` for a number: JSON has no NaN, so NaN is
   * written as `null`; integers and `null` come back unchanged.
   */
  function JsonRoundTrip(a: Num): (r: Num)
    ensures !r.NaN?
    ensures r == a <==> !a.NaN?
  {
    if a.NaN? then Null else a
  }

  /** `ns.reduce((sum, n) => sum + n, 0)`: a left fold of Add starting at 0. */
  function SumNums(ns: seq<Num>): (r: Num)
    ensures !r.Null?
    ensures r.NaN? <==> NaN in ns
  {
    if ns == [] then Val(0) else Add(SumNums(ns[..|ns| - 1]), ns[|ns| - 1])
  }

  /** Two sums of two can be regrouped: (p + q) + (x + y) is (p + x) + (q + y). */
  lemma AddInterchange(p: Num, q: Num, x: Num, y: Num)
    ensures Add(Add(p, q), Add(x, y)) == Add(Add(p, x), Add(q, y))
  {
  }

  /** The summing fold distributes over pointwise addition of equally long sequences. */
  lemma {:induction false} SumPointwise(a: seq<Num>, b: seq<Num>, c: seq<Num>)
    requires |a| == |b| == |c|
    requires forall j :: 0 <= j < |c| ==> c[j] == Add(a[j], b[j])
    ensures SumNums(c) == Add(SumNums(a), SumNums(b))
  {
    if c != [] {
      var n := |c| - 1;
      SumPointwise(a[..n], b[..n], c[..n]);
      AddInterchange(SumNums(a[..n]), SumNums(b[..n]), a[n], b[n]);
    }
  }

  /** Adding `0 + b` to a number is adding b: the `null` in b counts as 0 either way. */
  lemma AddZeroThen(a: Num, b: Num)
    requires !a.Null?
    ensures Add(a, Add(Val(0), b)) == Add(a, b)
  {
  }

  /** A sequence of zeros sums to zero. */
  lemma {:induction false} SumZeros(b: seq<Num>)
    requires forall j :: 0 <= j < |b| ==> b[j] == Val(0)
    ensures SumNums(b) == Val(0)
  {
    if b != [] {
      SumZeros(b[..|b| - 1]);
    }
  }

  /** The sequence of length n that holds v at index i and 0 everywhere else. */
  function Hit(n: nat, i: nat, v: Num): (r: seq<Num>)
    ensures |r| == n
    ensures forall j :: 0 <= j < n ==> r[j] == if j == i then v else Val(0)
  {
    seq(n, j requires 0 <= j < n => if j == i then v else Val(0))
  }

  /** A sequence that is zero everywhere except at index i sums to its entry at i, `null` read as 0. */
  lemma {:induction false} SumHit(n: nat, i: nat, v: Num)
    requires i < n
    ensures SumNums(Hit(n, i, v)) == Add(Val(0), v)
  {
    var b := Hit(n, i, v);
    var p := b[..n - 1];
    if i == n - 1 {
      SumZeros(p);
      assert SumNums(b) == Add(SumNums(p), v);
    } else {
      assert p == Hit(n - 1, i, v);
      SumHit(n - 1, i, v);
      assert SumNums(b) == Add(SumNums(p), Val(0));
    }
  }
}
