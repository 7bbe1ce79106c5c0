/**
 * The JavaScript array idioms the chart code builds on:
 * `Array.from(new Set(xs))` (the distinct values in order of first
 * occurrence), `Array.prototype.filter` (an order-preserving subsequence) and
 * `Array.prototype.sort((a, b) => a - b)` on numbers.
 */
module Collections {
  import opened JsNumber

  /** No value occurs twice. */
  predicate NoDup<T(==)>(s: seq<T>)
  {
    forall i, j :: 0 <= i < j < |s| ==> s[i] != s[j]
  }

  /** xs can be obtained from ys by deleting elements, keeping the order of the rest. */
  predicate IsSubseq<T(==)>(xs: seq<T>, ys: seq<T>)
    decreases |ys|
  {
    if ys == [] then xs == []
    else
      (xs != [] && xs[|xs| - 1] == ys[|ys| - 1] && IsSubseq(xs[..|xs| - 1], ys[..|ys| - 1]))
      || IsSubseq(xs, ys[..|ys| - 1])
  }

  /** A subsequence is never longer than the sequence it comes from. */
  lemma {:induction false} SubseqNoLonger<T>(xs: seq<T>, ys: seq<T>)
    requires IsSubseq(xs, ys)
    ensures |xs| <= |ys|
  {
    if ys != [] {
      var n := |ys| - 1;
      if xs != [] && xs[|xs| - 1] == ys[n] && IsSubseq(xs[..|xs| - 1], ys[..n]) {
        SubseqNoLonger(xs[..|xs| - 1], ys[..n]);
      } else {
        SubseqNoLonger(xs, ys[..n]);
      }
    }
  }

  /** The position of the first occurrence of x in xs. */
  function FirstIndex<T(==)>(xs: seq<T>, x: T): (k: nat)
    requires x in xs
    ensures k < |xs| && xs[k] == x && x !in xs[..k]
  {
    var n := |xs| - 1;
    if x in xs[..n] then FirstIndex(xs[..n], x) else n
  }

  /**
   * `Array.from(new Set(xs))`: a Set keeps its values in insertion order and
   * ignores a value it already holds, so the result lists every value of xs
   * once, where it first occurs.
   */
  function Distinct<T(==,!new)>(xs: seq<T>): (r: seq<T>)
    ensures forall x :: x in r <==> x in xs
    ensures NoDup(r)
  {
    if xs == [] then []
    else
      var d := Distinct(xs[..|xs| - 1]);
      if xs[|xs| - 1] in d then d else d + [xs[|xs| - 1]]
  }

  /** `new Set` ignores a value it already holds. */
  lemma DistinctSnocSeen<T(!new)>(xs: seq<T>, x: T)
    requires x in xs
    ensures Distinct(xs + [x]) == Distinct(xs)
  {
    assert (xs + [x])[..|xs|] == xs;
  }

  /** `new Set` appends a value it does not hold yet. */
  lemma DistinctSnocNew<T(!new)>(xs: seq<T>, x: T)
    requires x !in xs
    ensures Distinct(xs + [x]) == Distinct(xs) + [x]
  {
    assert (xs + [x])[..|xs|] == xs;
  }

  /** The first occurrence of x in a longer sequence is the one in its prefix. */
  lemma FirstIndexOfPrefix<T>(xs: seq<T>, n: nat, x: T)
    requires n <= |xs| && x in xs[..n]
    ensures FirstIndex(xs, x) == FirstIndex(xs[..n], x)
  {
    var k := FirstIndex(xs[..n], x);
    var k' := FirstIndex(xs, x);
    assert xs[..n][..k] == xs[..k];
    assert forall m :: 0 <= m < k ==> xs[..k][m] == xs[m];
    assert forall m :: 0 <= m < k' ==> xs[..k'][m] == xs[m];
    assert xs[k] == x && xs[k'] == x;
  }

  /** The values of `Array.from(new Set(xs))` appear in the order of their first occurrence in xs. */
  lemma {:induction false} DistinctInFirstOccurrenceOrder<T(!new)>(xs: seq<T>, i: nat, j: nat)
    requires i < j < |Distinct(xs)|
    ensures FirstIndex(xs, Distinct(xs)[i]) < FirstIndex(xs, Distinct(xs)[j])
  {
    var n := |xs| - 1;
    var p := xs[..n];
    var d := Distinct(p);
    var r := Distinct(xs);
    assert r[i] in p by {
      assert i < |d| && r[i] == d[i];
    }
    FirstIndexOfPrefix(xs, n, r[i]);
    if j < |d| {
      FirstIndexOfPrefix(xs, n, r[j]);
      assert r[i] == d[i] && r[j] == d[j];
      DistinctInFirstOccurrenceOrder(p, i, j);
    } else {
      assert r[j] == xs[n] && xs[n] !in p;
    }
  }

  /**
   * The comparator `(a, b) => a - b` is negative: a sorts strictly before b.
   * `null` takes part as 0; NaN makes the difference NaN, which compares as equal.
   */
  predicate Before(a: Num, b: Num)
  {
    !a.NaN? && !b.NaN? && Numeric(a) < Numeric(b)
  }

  /** Every entry is a number and each is smaller than the next. */
  predicate StrictlyAscending(s: seq<Num>)
  {
    && (forall i :: 0 <= i < |s| ==> s[i].Val?)
    && (forall i, j :: 0 <= i < j < |s| ==> Before(s[i], s[j]))
  }

  /** Inserts x after every entry it does not sort before, keeping the sort stable. */
  function Insert(x: Num, s: seq<Num>): (r: seq<Num>)
    ensures multiset(r) == multiset(s) + multiset{x}
  {
    if s == [] then [x]
    else if Before(x, s[0]) then [x] + s
    else
      assert s == [s[0]] + s[1..];
      [s[0]] + Insert(x, s[1..])
  }

  /**
   * `ys.sort((a, b) => a - b)`, as a stable insertion sort. For NaN-free
   * input every correct sort gives this result; with NaN present the order
   * JavaScript produces is left to the engine.
   */
  function SortNumbers(ys: seq<Num>): (r: seq<Num>)
    ensures multiset(r) == multiset(ys)
  {
    if ys == [] then []
    else
      assert ys == ys[..|ys| - 1] + [ys[|ys| - 1]];
      Insert(ys[|ys| - 1], SortNumbers(ys[..|ys| - 1]))
  }

  /** Dropping the first entry keeps a sequence strictly ascending. */
  lemma StrictlyAscendingTail(s: seq<Num>)
    requires s != [] && StrictlyAscending(s)
    ensures StrictlyAscending(s[1..])
  {
    forall i, j | 0 <= i < j < |s[1..]| ensures Before(s[1..][i], s[1..][j]) {
      assert s[1..][i] == s[i + 1] && s[1..][j] == s[j + 1];
    }
  }

  /** A number before every entry of a strictly ascending sequence can be put in front of it. */
  lemma StrictlyAscendingCons(a: Num, t: seq<Num>)
    requires a.Val? && StrictlyAscending(t)
    requires forall k :: 0 <= k < |t| ==> Before(a, t[k])
    ensures StrictlyAscending([a] + t)
  {
    var r := [a] + t;
    forall i, j | 0 <= i < j < |r| ensures Before(r[i], r[j]) {
      if i > 0 {
        assert r[i] == t[i - 1] && r[j] == t[j - 1];
      }
    }
  }

  /** Sorting neither adds nor drops a value. */
  lemma SortNumbersSameValues(ys: seq<Num>)
    ensures forall x :: x in SortNumbers(ys) <==> x in ys
  {
    var r := SortNumbers(ys);
    forall x ensures x in r <==> x in ys {
      assert x in r <==> x in multiset(r);
      assert x in ys <==> x in multiset(ys);
    }
  }

  /** Inserting a number not yet present keeps a strictly ascending sequence strictly ascending. */
  lemma {:induction false} InsertStrictlyAscending(x: Num, s: seq<Num>)
    requires x.Val? && x !in s && StrictlyAscending(s)
    ensures StrictlyAscending(Insert(x, s))
  {
    if s != [] && !Before(x, s[0]) {
      var t := Insert(x, s[1..]);
      StrictlyAscendingTail(s);
      InsertStrictlyAscending(x, s[1..]);
      assert x.v > s[0].v by { assert x != s[0]; }
      forall k | 0 <= k < |t| ensures Before(s[0], t[k]) {
        assert t[k] in multiset(t);
        assert t[k] == x || t[k] in s[1..];
      }
      StrictlyAscendingCons(s[0], t);
    } else if s != [] {
      StrictlyAscendingCons(x, s);
    }
  }

  /** A value not in a repeat-free sequence can be put in front of it. */
  lemma NoDupCons<T>(a: T, t: seq<T>)
    requires a !in t && NoDup(t)
    ensures NoDup([a] + t)
  {
    var r := [a] + t;
    forall i, j | 0 <= i < j < |r| ensures r[i] != r[j] {
      assert r[j] == t[j - 1];
      if i > 0 {
        assert r[i] == t[i - 1];
      }
    }
  }

  /** Inserting a value not yet present keeps a sequence free of repeats. */
  lemma {:induction false} InsertNoDup(x: Num, s: seq<Num>)
    requires x !in s && NoDup(s)
    ensures NoDup(Insert(x, s))
  {
    if s == [] || Before(x, s[0]) {
      NoDupCons(x, s);
    } else {
      var t := Insert(x, s[1..]);
      assert NoDup(s[1..]) by {
        forall i, j | 0 <= i < j < |s[1..]| ensures s[1..][i] != s[1..][j] {
          assert s[1..][i] == s[i + 1] && s[1..][j] == s[j + 1];
        }
      }
      InsertNoDup(x, s[1..]);
      assert s[0] !in t by {
        assert s[0] != x;
        assert forall k :: 1 <= k < |s| ==> s[k] != s[0];
        assert s[0] !in multiset(s[1..]);
        assert s[0] !in multiset(t);
      }
      NoDupCons(s[0], t);
    }
  }

  /** Sorting values that are all distinct leaves them distinct: a Set's values stay a Set's values. */
  lemma {:induction false} SortNumbersNoDup(ys: seq<Num>)
    requires NoDup(ys)
    ensures NoDup(SortNumbers(ys))
  {
    if ys != [] {
      var n := |ys| - 1;
      var p := ys[..n];
      SortNumbersNoDup(p);
      assert ys[n] !in SortNumbers(p) by {
        assert forall k :: 0 <= k < n ==> p[k] == ys[k] != ys[n];
        assert ys[n] !in multiset(p);
      }
      InsertNoDup(ys[n], SortNumbers(p));
    }
  }

  /** Sorting numbers that are all distinct and none NaN gives a strictly ascending sequence. */
  lemma {:induction false} SortNumbersStrictlyAscending(ys: seq<Num>)
    requires forall i :: 0 <= i < |ys| ==> ys[i].Val?
    requires NoDup(ys)
    ensures StrictlyAscending(SortNumbers(ys))
  {
    if ys != [] {
      var n := |ys| - 1;
      var p := ys[..n];
      SortNumbersStrictlyAscending(p);
      assert ys[n] !in SortNumbers(p) by {
        assert forall k :: 0 <= k < n ==> p[k] == ys[k] != ys[n];
        assert ys[n] !in multiset(p);
      }
      InsertStrictlyAscending(ys[n], SortNumbers(p));
    }
  }
}
