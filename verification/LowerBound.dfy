/** Searching sorted ranges of version ids: util/lowerbound.h and the
    std::lower_bound it stands in for. */
module LowerBound {

  predicate Sorted(s: seq<nat>) {
    forall i, j :: 0 <= i < j < |s| ==> s[i] <= s[j]
  }

  /** `r` splits `s` into the entries below `value` and the rest (std::lower_bound). */
  predicate IsLowerBound(s: seq<nat>, value: nat, r: nat) {
    && r <= |s|
    && (forall i :: 0 <= i < r ==> s[i] < value)
    && (forall i :: r <= i < |s| ==> value <= s[i])
  }

  /** `r` splits `s` into the entries at or below `value` and the rest (std::upper_bound). */
  predicate IsUpperBound(s: seq<nat>, value: nat, r: nat) {
    && r <= |s|
    && (forall i :: 0 <= i < r ==> s[i] <= value)
    && (forall i :: r <= i < |s| ==> value < s[i])
  }

  function Pow2(x: nat): (p: nat)
    ensures p >= 1
  {
    if x == 0 then 1 else 2 * Pow2(x - 1)
  }

  /** 31 - clz(n): the exponent of the largest power of two not above `n`. */
  function TopBit(n: nat): (e: nat)
    requires n > 0
    ensures Pow2(e) <= n < 2 * Pow2(e)
  {
    if n == 1 then 0 else 1 + TopBit(n / 2)
  }

  lemma {:induction false} Pow2Monotone(a: nat, b: nat)
    ensures a < b ==> 2 * Pow2(a) <= Pow2(b)
    ensures a < b <==> Pow2(a) < Pow2(b)
    decreases a + b, a
  {
    if a < b {
      Pow2Monotone(a, b - 1);
    } else if b < a {
      Pow2Monotone(b, a);
    }
  }

  function Min(a: nat, b: nat): nat { if a <= b then a else b }

  /** The probe rounds of FastLowerBound, from step 2^(x-1) down to step 1, where
      2^e is the first step taken. */
  function Rounds(s: seq<nat>, value: nat, e: nat, x: nat, ret: nat): (r: nat)
    requires ret + Pow2(Min(x, e)) <= |s|
    ensures ret <= r < ret + Pow2(x) && r < |s|
  {
    if x == 0 then ret
    else if x - 1 < e && s[ret + Pow2(x - 1)] <= value then
      Rounds(s, value, e, x - 1, ret + Pow2(x - 1))
    else
      assert x - 1 < e ==> Pow2(x) == 2 * Pow2(x - 1);
      Rounds(s, value, e, x - 1, ret)
  }

  lemma RoundsStep(s: seq<nat>, value: nat, e: nat, x: nat, ret: nat)
    requires 0 < x && ret + Pow2(Min(x, e)) <= |s|
    ensures ret + Pow2(Min(x - 1, e)) <= |s|
    ensures x - 1 < e ==> ret + Pow2(x - 1) + Pow2(Min(x - 1, e)) <= |s|
    ensures Rounds(s, value, e, x, ret)
         == if x - 1 < e && s[ret + Pow2(x - 1)] <= value then Rounds(s, value, e, x - 1, ret + Pow2(x - 1))
            else Rounds(s, value, e, x - 1, ret)
  {}

  lemma RoundsDone(s: seq<nat>, value: nat, e: nat, ret: nat)
    requires ret + Pow2(Min(0, e)) <= |s|
    ensures Rounds(s, value, e, 0, ret) == ret
  {}

  /** The offset found in a non-empty range by a search of the given number of rounds. */
  function SearchOffset(s: seq<nat>, value: nat, rounds: nat): (p: nat)
    requires |s| > 0
    ensures p <= |s|
  {
    var e := TopBit(|s|);
    var first := if Pow2(e) < |s| && s[Pow2(e)] <= value then |s| - Pow2(e) else 0;
    Pow2Monotone(rounds, e);
    var ret := Rounds(s, value, e, rounds, first);
    if s[ret] <= value then ret + 1 else ret
  }

  /** The offset FastLowerBound returns: its loop makes twelve rounds, from 2^11 down to 2^0. */
  function FastOffset(s: seq<nat>, value: nat): nat
    requires |s| > 0
  {
    SearchOffset(s, value, 12)
  }

  lemma UpperBoundAt(s: seq<nat>, value: nat, ub: nat, k: nat)
    requires IsUpperBound(s, value, ub) && k < |s|
    ensures s[k] <= value <==> k < ub
  {}

  /** Each round halves the window that holds the upper bound `ub`. */
  lemma {:induction false} RoundsNarrow(s: seq<nat>, value: nat, e: nat, x: nat, ret: nat, ub: nat)
    requires IsUpperBound(s, value, ub)
    requires ret <= ub <= ret + Pow2(Min(x, e)) <= |s|
    ensures Rounds(s, value, e, x, ret) <= ub <= Rounds(s, value, e, x, ret) + 1
    decreases x
  {
    hide IsUpperBound, Rounds;
    if x == 0 {
      RoundsDone(s, value, e, ret);
    } else {
      RoundsStep(s, value, e, x, ret);
      var half := Pow2(x - 1);
      if x - 1 < e {
        UpperBoundAt(s, value, ub, ret + half);
        RoundsNarrow(s, value, e, x - 1, if s[ret + half] <= value then ret + half else ret, ub);
      } else {
        RoundsNarrow(s, value, e, x - 1, ret, ub);
      }
    }
  }

  lemma {:induction false} UpperBoundExists(s: seq<nat>, value: nat) returns (ub: nat)
    requires Sorted(s)
    ensures IsUpperBound(s, value, ub)
  {
    if s == [] {
      ub := 0;
    } else if s[|s| - 1] <= value {
      ub := |s|;
    } else {
      ub := UpperBoundExists(s[..|s| - 1], value);
    }
  }

  /** Twelve rounds suffice below 8192 entries: the answer is the upper bound. */
  lemma FastOffsetIsUpperBound(s: seq<nat>, value: nat)
    requires 0 < |s| < 8192 && Sorted(s)
    ensures IsUpperBound(s, value, FastOffset(s, value))
  {
    hide Rounds, Sorted;
    var ub := UpperBoundExists(s, value);
    var e := TopBit(|s|);
    assert Pow2(13) == 8192;
    Pow2Monotone(12, e);
    Pow2Monotone(13, e);
    var first := if Pow2(e) < |s| && s[Pow2(e)] <= value then |s| - Pow2(e) else 0;
    RoundsNarrow(s, value, e, 12, first, ub);
  }

  /** From 8192 entries on, every length has a sorted range on which the answer is wrong. */
  lemma FastOffsetFailsFrom8192(n: nat) returns (s: seq<nat>, value: nat)
    requires n >= 8192
    ensures |s| == n && Sorted(s)
    ensures !IsUpperBound(s, value, FastOffset(s, value))
  {
    s := seq(n, i => if i < 5000 then 0 else 1);
    value := 0;
    var e := TopBit(n);
    assert Pow2(12) == 4096;
    Pow2Monotone(12, e);
    assert FastOffset(s, value) <= Rounds(s, value, e, 12, 0) + 1 <= 4096;
    assert s[4999] == 0;
  }

  /** Twelve rounds are enough exactly for the ranges shorter than 8192. */
  lemma FastLowerBoundExactRange(n: nat)
    requires n > 0
    ensures (forall s: seq<nat>, value: nat :: |s| == n && Sorted(s) ==> IsUpperBound(s, value, FastOffset(s, value)))
            <==> n < 8192
  {
    if n < 8192 {
      forall s: seq<nat>, value: nat | |s| == n && Sorted(s)
        ensures IsUpperBound(s, value, FastOffset(s, value))
      {
        FastOffsetIsUpperBound(s, value);
      }
    } else {
      var s, value := FastOffsetFailsFrom8192(n);
    }
  }

  /** The probe loop of util::FastLowerBound over the range [start, end) of `a`: steps
      2^(rounds-1) down to 1, skipping those not below `maxstep`. */
  method Probe(a: array<nat>, start: nat, end: nat, value: nat, maxstep: nat, ghost e: nat, rounds: nat, first: nat)
      returns (ret: nat)
    requires start <= end <= a.Length && maxstep == Pow2(e)
    requires first + Pow2(Min(rounds, e)) <= end - start
    ensures ret == Rounds(a[start..end], value, e, rounds, first)
  {
    hide Rounds;
    ghost var s := a[start..end];
    ret := first;
    var x := rounds - 1;
    while x >= 0
      invariant -1 <= x < rounds
      invariant ret + Pow2(Min(x + 1, e)) <= |s|
      invariant Rounds(s, value, e, x + 1, ret) == Rounds(s, value, e, rounds, first)
    {
      var stepping := Pow2(x);
      Pow2Monotone(x, e);
      RoundsStep(s, value, e, x + 1, ret);
      if stepping < maxstep {
        assert a[start + ret + stepping] == s[ret + stepping];
        if a[start + ret + stepping] <= value { ret := ret + stepping; }
      }
      x := x - 1;
    }
    RoundsDone(s, value, e, ret);
  }

  /** The body of util::FastLowerBound with the number of probe rounds left open. */
  method Search(a: array<nat>, start: nat, end: nat, value: nat, rounds: nat) returns (p: nat)
    requires start <= end <= a.Length
    ensures start == end ==> p == start
    ensures start < end ==> p == start + SearchOffset(a[start..end], value, rounds)
  {
    hide Rounds, Pow2, TopBit;
    var len := end - start;
    if len == 0 { return start; }
    ghost var s := a[start..end];
    var maxstep := Pow2(TopBit(len));
    var first := if maxstep < len && a[start + maxstep] <= value then len - maxstep else 0;
    Pow2Monotone(rounds, TopBit(len));
    var ret := Probe(a, start, end, value, maxstep, TopBit(len), rounds, first);
    p := if a[start + ret] <= value then start + ret + 1 else start + ret;
  }

  /** util::FastLowerBound on the range [start, end) of `a`. */
  method FastLowerBound(a: array<nat>, start: nat, end: nat, value: nat) returns (p: nat)
    requires start <= end <= a.Length
    requires end - start < 0x8000_0000
    ensures start == end ==> p == start
    ensures start < end ==> p == start + FastOffset(a[start..end], value)
    ensures start < end < start + 8192 && Sorted(a[start..end]) ==> IsUpperBound(a[start..end], value, p - start)
  {
    p := Search(a, start, end, value, 12);
    if start < end < start + 8192 && Sorted(a[start..end]) {
      FastOffsetIsUpperBound(a[start..end], value);
    }
  }

  /** std::lower_bound over all of `s`: binary search by halving. */
  method StdLowerBound(s: seq<nat>, value: nat) returns (p: nat)
    requires Sorted(s)
    ensures IsLowerBound(s, value, p)
  {
    p := 0;
    var len := |s|;
    while len > 0
      invariant 0 <= len && p + len <= |s|
      invariant forall i :: 0 <= i < p ==> s[i] < value
      invariant forall i :: p + len <= i < |s| ==> value <= s[i]
    {
      var half := len / 2;
      if s[p + half] < value {
        p, len := p + half + 1, len - half - 1;
      } else {
        len := half;
      }
    }
  }
}
