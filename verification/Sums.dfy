/** Sums over sequences of integers. */
module Sums {

  function Sum(s: seq<int>): int {
    if s == [] then 0 else Sum(s[..|s| - 1]) + s[|s| - 1]
  }

  lemma {:induction false} SumUpdate(s: seq<int>, i: nat, x: int)
    requires i < |s|
    ensures Sum(s[i := x]) == Sum(s) - s[i] + x
  {
    var n := |s| - 1;
    if i < n {
      SumUpdate(s[..n], i, x);
      assert s[i := x][..n] == s[..n][i := x];
    } else {
      assert s[i := x][..n] == s[..n];
    }
  }

  /** Two sequences that agree everywhere except at `i`. */
  lemma SumChange(s: seq<int>, t: seq<int>, i: nat)
    requires i < |s| == |t| && forall k :: 0 <= k < |s| && k != i ==> s[k] == t[k]
    ensures Sum(t) == Sum(s) - s[i] + t[i]
  {
    SumUpdate(s, i, t[i]);
    assert t == s[i := t[i]];
  }

  lemma {:induction false} SumMonotone(s: seq<int>, t: seq<int>)
    requires |s| == |t| && forall k :: 0 <= k < |s| ==> s[k] <= t[k]
    ensures Sum(s) <= Sum(t)
  {
    if s != [] {
      SumMonotone(s[..|s| - 1], t[..|s| - 1]);
    }
  }

  lemma {:induction false} SumNonNegative(s: seq<int>)
    requires forall k :: 0 <= k < |s| ==> s[k] >= 0
    ensures Sum(s) >= 0
    ensures forall k :: 0 <= k < |s| ==> s[k] <= Sum(s)
  {
    if s != [] {
      SumNonNegative(s[..|s| - 1]);
      forall k | 0 <= k < |s| ensures s[k] <= Sum(s) {
        if k < |s| - 1 { assert s[k] == s[..|s| - 1][k]; }
      }
    }
  }

  /** A pointwise smaller sequence with the same sum is the same sequence. */
  lemma {:induction false} SumTight(s: seq<int>, t: seq<int>)
    requires |s| == |t| && (forall k :: 0 <= k < |s| ==> s[k] <= t[k]) && Sum(s) == Sum(t)
    ensures s == t
  {
    if s != [] {
      SumMonotone(s[..|s| - 1], t[..|s| - 1]);
      SumTight(s[..|s| - 1], t[..|s| - 1]);
      assert s == s[..|s| - 1] + [s[|s| - 1]] && t == t[..|s| - 1] + [t[|s| - 1]];
    }
  }

  lemma {:induction false} SumConstant(s: seq<int>, x: int)
    requires forall k :: 0 <= k < |s| ==> s[k] == x
    ensures Sum(s) == |s| * x
  {
    if s != [] {
      SumConstant(s[..|s| - 1], x);
    }
  }
}
