/** Vocabulary shared by every component: optional values and sums over sequences. */
module Common {

  datatype Option<+T> = None | Some(value: T)

  function Min(a: int, b: int): int { if a < b then a else b }

  function Max(a: int, b: int): int { if a < b then b else a }

  /** The sum of `f` over a sequence, taken in order. */
  function Sum<T>(s: seq<T>, f: T -> int): int
  {
    if s == [] then 0 else Sum(s[..|s| - 1], f) + f(s[|s| - 1])
  }

  lemma SumAppend<T>(s: seq<T>, x: T, f: T -> int)
    ensures Sum(s + [x], f) == Sum(s, f) + f(x)
  {
    assert (s + [x])[..|s|] == s;
  }

  lemma {:induction false} SumConcat<T>(s: seq<T>, t: seq<T>, f: T -> int)
    ensures Sum(s + t, f) == Sum(s, f) + Sum(t, f)
  {
    if t == [] {
      assert s + t == s;
    } else {
      var n := |t| - 1;
      assert (s + t)[..|s + t| - 1] == s + t[..n];
      SumConcat(s, t[..n], f);
    }
  }

  /** Changing one element changes the sum by the difference of the two values. */
  lemma {:induction false} SumUpdate<T>(s: seq<T>, i: nat, x: T, f: T -> int)
    requires i < |s|
    ensures Sum(s[i := x], f) == Sum(s, f) - f(s[i]) + f(x)
  {
    var n := |s| - 1;
    if i == n {
      assert s[i := x][..n] == s[..n];
    } else {
      assert s[i := x][..n] == s[..n][i := x];
      SumUpdate(s[..n], i, x, f);
    }
  }

  lemma {:induction false} SumNonNegative<T>(s: seq<T>, f: T -> int)
    requires forall x | x in s :: f(x) >= 0
    ensures Sum(s, f) >= 0
  {
    if s != [] {
      SumNonNegative(s[..|s| - 1], f);
    }
  }

  /** A sum of non-negative terms is at least any one of them. */
  lemma {:induction false} SumAtLeast<T>(s: seq<T>, i: nat, f: T -> int)
    requires i < |s| && forall x | x in s :: f(x) >= 0
    ensures Sum(s, f) >= f(s[i])
  {
    var n := |s| - 1;
    if i == n {
      SumNonNegative(s[..n], f);
    } else {
      SumAtLeast(s[..n], i, f);
    }
  }

  /** Sums of two functions that agree on every element are equal. */
  lemma {:induction false} SumCongruent<T>(s: seq<T>, f: T -> int, g: T -> int)
    requires forall x | x in s :: f(x) == g(x)
    ensures Sum(s, f) == Sum(s, g)
  {
    if s != [] {
      SumCongruent(s[..|s| - 1], f, g);
    }
  }

  /** The sum of a pointwise difference is the difference of the sums. */
  lemma {:induction false} SumDifference<T>(s: seq<T>, f: T -> int, g: T -> int, h: T -> int)
    requires forall x | x in s :: h(x) == f(x) - g(x)
    ensures Sum(s, h) == Sum(s, f) - Sum(s, g)
  {
    if s != [] {
      SumDifference(s[..|s| - 1], f, g, h);
    }
  }
}
