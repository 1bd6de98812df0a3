/** Small stock types, and sums over sequences with the few laws the proofs need. */
module Basics {

  datatype Option<+T> = None | Some(value: T)

  datatype Result<+T, +E> = Ok(value: T) | Err(error: E)

  function Max(a: int, b: int): int { if a < b then b else a }

  function Min(a: int, b: int): int { if a < b then a else b }

  /** The sum of `f` over the elements of `s`. */
  function Total<T>(s: seq<T>, f: T -> nat): nat {
    if s == [] then 0 else Total(s[..|s| - 1], f) + f(s[|s| - 1])
  }

  lemma TotalSnoc<T>(s: seq<T>, x: T, f: T -> nat)
    ensures Total(s + [x], f) == Total(s, f) + f(x)
  {
    assert (s + [x])[..|s|] == s;
  }

  /** Two sums that agree everywhere are equal. */
  lemma {:induction false} TotalSame<T>(s: seq<T>, t: seq<T>, f: T -> nat, g: T -> nat)
    requires |s| == |t|
    requires forall j :: 0 <= j < |s| ==> f(s[j]) == g(t[j])
    ensures Total(s, f) == Total(t, g)
  {
    if s != [] {
      TotalSame(s[..|s| - 1], t[..|t| - 1], f, g);
    }
  }

  /** Two sums that agree everywhere but at `i` differ by what they hold at `i`. */
  lemma {:induction false} TotalChange<T>(s: seq<T>, t: seq<T>, i: nat, f: T -> nat, g: T -> nat)
    requires |s| == |t| && i < |s|
    requires forall j :: 0 <= j < |s| && j != i ==> f(s[j]) == g(t[j])
    ensures Total(t, g) + f(s[i]) == Total(s, f) + g(t[i])
  {
    var n := |s| - 1;
    if i == n {
      TotalSame(s[..n], t[..n], f, g);
    } else {
      TotalChange(s[..n], t[..n], i, f, g);
    }
  }

  lemma TotalUpdate<T>(s: seq<T>, i: nat, x: T, f: T -> nat)
    requires i < |s|
    ensures Total(s[i := x], f) + f(s[i]) == Total(s, f) + f(x)
  {
    TotalChange(s, s[i := x], i, f, f);
  }

  lemma {:induction false} TotalBound<T>(s: seq<T>, f: T -> nat, g: T -> nat)
    requires forall j :: 0 <= j < |s| ==> f(s[j]) <= g(s[j])
    ensures Total(s, f) <= Total(s, g)
  {
    if s != [] {
      TotalBound(s[..|s| - 1], f, g);
    }
  }

  lemma {:induction false} TotalZero<T>(s: seq<T>, f: T -> nat)
    requires forall i | 0 <= i < |s| :: f(s[i]) == 0
    ensures Total(s, f) == 0
  {
    if s != [] { TotalZero(s[..|s| - 1], f); }
  }

  predicate Distinct<T(==)>(s: seq<T>) {
    forall a, b | 0 <= a < b < |s| :: s[a] != s[b]
  }

  function Members<T>(s: seq<T>): set<T> { set x | x in s }

  lemma {:induction false} DistinctSize<T>(s: seq<T>)
    requires Distinct(s)
    ensures |Members(s)| == |s|
  {
    if s != [] {
      var n := |s| - 1;
      DistinctSize(s[..n]);
      assert s == s[..n] + [s[n]];
      assert s[n] !in Members(s[..n]);
      assert Members(s) == Members(s[..n]) + {s[n]};
    }
  }

  lemma SubsetSize<T>(a: set<T>, b: set<T>)
    requires a <= b
    ensures |a| <= |b|
    ensures |a| == |b| ==> a == b
  {
    assert b == a + (b - a);
    assert |b| == |a| + |b - a|;
  }

  /** The elements of `s` whose flag is set, in order. */
  function Chosen<T>(s: seq<T>, flags: seq<bool>): seq<T>
    requires |flags| <= |s|
  {
    if flags == [] then [] else
      var n := |flags| - 1;
      Chosen(s, flags[..n]) + if flags[n] then [s[n]] else []
  }
}
