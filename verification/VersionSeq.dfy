/** Sorted sequences of version ids: insertion, merging and lookup by serial id. */
module VersionSeq {
  import opened LowerBound

  /** `s` with `x` placed after every entry not above it. */
  function Insert(s: seq<nat>, x: nat): (r: seq<nat>)
    ensures |r| == |s| + 1
  {
    if s == [] || x < s[|s| - 1] then
      if s == [] then [x] else Insert(s[..|s| - 1], x) + [s[|s| - 1]]
    else
      s + [x]
  }

  /** The entries of `xs` inserted into `s` one at a time. */
  function InsertAll(s: seq<nat>, xs: seq<nat>): (r: seq<nat>)
    ensures |r| == |s| + |xs|
    decreases xs
  {
    if xs == [] then s else InsertAll(Insert(s, xs[0]), xs[1..])
  }

  /** std::lower_bound as an offset: how many leading entries are below `sid`. */
  function Below(s: seq<nat>, sid: nat): (r: nat)
    ensures r <= |s|
  {
    if s == [] || s[0] >= sid then 0 else 1 + Below(s[1..], sid)
  }

  lemma {:induction false} BelowIsLowerBound(s: seq<nat>, sid: nat)
    requires Sorted(s)
    ensures IsLowerBound(s, sid, Below(s, sid))
  {
    if s != [] && s[0] < sid {
      BelowIsLowerBound(s[1..], sid);
      forall i | 0 <= i < |s|
        ensures i < Below(s, sid) ==> s[i] < sid
        ensures i >= Below(s, sid) ==> s[i] >= sid
      {
        assert i > 0 ==> s[i] == s[1..][i - 1];
      }
    }
  }

  lemma LowerBoundIsBelow(s: seq<nat>, sid: nat, r: nat)
    requires Sorted(s) && IsLowerBound(s, sid, r)
    ensures r == Below(s, sid)
  {
    BelowIsLowerBound(s, sid);
    var b := Below(s, sid);
    assert r < |s| ==> sid <= s[r];
    assert b < |s| ==> sid <= s[b];
  }

  lemma SortedSnoc(r: seq<nat>, last: nat, front: seq<nat>, x: nat)
    requires Sorted(r) && multiset(r) == multiset(front) + multiset{x}
    requires x <= last && forall i :: 0 <= i < |front| ==> front[i] <= last
    ensures Sorted(r + [last])
  {
    forall i | 0 <= i < |r| ensures r[i] <= last {
      assert r[i] in multiset(r);
    }
  }

  lemma {:induction false} InsertSorted(s: seq<nat>, x: nat)
    requires Sorted(s)
    ensures Sorted(Insert(s, x)) && multiset(Insert(s, x)) == multiset(s) + multiset{x}
  {
    if s != [] && x < s[|s| - 1] {
      var front := s[..|s| - 1];
      assert s == front + [s[|s| - 1]];
      InsertSorted(front, x);
      SortedSnoc(Insert(front, x), s[|s| - 1], front, x);
    } else {
      assert s + [x] == Insert(s, x);
    }
  }

  /** Where the new id goes. */
  lemma {:induction false} InsertAt(s: seq<nat>, x: nat) returns (i: nat)
    ensures i <= |s| && Insert(s, x) == s[..i] + [x] + s[i..]
    ensures (i > 0 ==> s[i - 1] <= x) && (i < |s| ==> x < s[i])
  {
    if s != [] && x < s[|s| - 1] {
      var front := s[..|s| - 1];
      i := InsertAt(front, x);
      assert front[..i] == s[..i] && front[i..] + [s[|s| - 1]] == s[i..];
    } else {
      i := |s|;
      assert s[..i] == s && s[i..] == [];
    }
  }

  lemma {:induction false} InsertAllSorted(s: seq<nat>, xs: seq<nat>)
    requires Sorted(s)
    ensures Sorted(InsertAll(s, xs)) && multiset(InsertAll(s, xs)) == multiset(s) + multiset(xs)
    decreases xs
  {
    if xs != [] {
      InsertSorted(s, xs[0]);
      InsertAllSorted(Insert(s, xs[0]), xs[1..]);
      assert xs == [xs[0]] + xs[1..];
    }
  }

  /** The last entry of a sorted sequence bounds its multiset. */
  lemma SortedLast(a: seq<nat>, x: nat)
    requires Sorted(a) && a != [] && x in multiset(a)
    ensures x <= a[|a| - 1]
  {
    var i :| 0 <= i < |a| && a[i] == x;
  }

  lemma DropLast(a: seq<nat>)
    requires a != [] && Sorted(a)
    ensures Sorted(a[..|a| - 1])
    ensures multiset(a) == multiset(a[..|a| - 1]) + multiset{a[|a| - 1]}
    ensures a[|a| - 1] in multiset(a)
  {
    assert a == a[..|a| - 1] + [a[|a| - 1]];
  }

  lemma MultisetCancel(a: multiset<nat>, b: multiset<nat>, x: nat)
    requires a + multiset{x} == b + multiset{x}
    ensures a == b
  {
    assert a == (a + multiset{x}) - multiset{x};
    assert b == (b + multiset{x}) - multiset{x};
  }

  /** A sorted sequence is determined by its multiset. */
  lemma {:induction false} SortedUnique(a: seq<nat>, b: seq<nat>)
    requires Sorted(a) && Sorted(b) && multiset(a) == multiset(b)
    ensures a == b
  {
    hide Sorted;
    assert |a| == |multiset(a)| == |multiset(b)| == |b|;
    if a != [] {
      var n := |a| - 1;
      DropLast(a);
      DropLast(b);
      SortedLast(a, b[n]);
      SortedLast(b, a[n]);
      MultisetCancel(multiset(a[..n]), multiset(b[..n]), a[n]);
      SortedUnique(a[..n], b[..n]);
      assert a == a[..n] + [a[n]] && b == b[..n] + [b[n]];
    }
  }

  /** Appending a batch one id at a time gives the same array in every order. */
  lemma InsertAllAnyOrder(s: seq<nat>, xs: seq<nat>, ys: seq<nat>)
    requires Sorted(s) && multiset(xs) == multiset(ys)
    ensures InsertAll(s, xs) == InsertAll(s, ys)
  {
    InsertAllSorted(s, xs);
    InsertAllSorted(s, ys);
    SortedUnique(InsertAll(s, xs), InsertAll(s, ys));
  }

  /** Any sorted permutation of `s` plus `xs` is what one-at-a-time insertion builds. */
  lemma MergeIsInsertAll(s: seq<nat>, xs: seq<nat>, r: seq<nat>)
    requires Sorted(s) && Sorted(r) && multiset(r) == multiset(s) + multiset(xs)
    ensures r == InsertAll(s, xs)
  {
    InsertAllSorted(s, xs);
    SortedUnique(r, InsertAll(s, xs));
  }

  /** Ids above everything in `s[..k]` leave that prefix in place. */
  lemma {:induction false} InsertKeepsPrefix(s: seq<nat>, x: nat, k: nat)
    requires k <= |s| && forall i :: 0 <= i < k ==> s[i] <= x
    ensures Insert(s, x)[..k] == s[..k]
  {
    if s != [] && x < s[|s| - 1] {
      InsertKeepsPrefix(s[..|s| - 1], x, k);
      assert s[..|s| - 1][..k] == s[..k];
    }
  }

  lemma {:induction false} InsertAllKeepsPrefix(s: seq<nat>, xs: seq<nat>, k: nat)
    requires k <= |s| && forall i, j :: 0 <= i < k && 0 <= j < |xs| ==> s[i] <= xs[j]
    ensures InsertAll(s, xs)[..k] == s[..k]
    decreases xs
  {
    if xs != [] {
      InsertKeepsPrefix(s, xs[0], k);
      var t := Insert(s, xs[0]);
      forall i, j | 0 <= i < k && 0 <= j < |xs[1..]| ensures t[i] <= xs[1..][j] {
        assert t[i] == t[..k][i] == s[i];
      }
      InsertAllKeepsPrefix(t, xs[1..], k);
    }
  }

  lemma {:induction false} InsertAllSnoc(s: seq<nat>, xs: seq<nat>, x: nat)
    ensures InsertAll(s, xs + [x]) == Insert(InsertAll(s, xs), x)
    decreases xs
  {
    if xs == [] {
      assert xs + [x] == [x] && [x][1..] == [];
    } else {
      InsertAllSnoc(Insert(s, xs[0]), xs[1..], x);
      assert (xs + [x])[1..] == xs[1..] + [x];
    }
  }

  lemma {:induction false} InsertDrop(s: seq<nat>, x: nat, m: nat)
    requires m <= |s| && forall i :: 0 <= i < m ==> s[i] <= x
    ensures Insert(s, x)[m..] == Insert(s[m..], x)
  {
    if s != [] && x < s[|s| - 1] {
      var front := s[..|s| - 1];
      InsertDrop(front, x, m);
      assert s[m..][..|s[m..]| - 1] == front[m..];
    }
  }

  /** Dropping ids below all new ones commutes with inserting. */
  lemma {:induction false} InsertAllDrop(s: seq<nat>, xs: seq<nat>, m: nat)
    requires m <= |s| && forall i, j :: 0 <= i < m && 0 <= j < |xs| ==> s[i] <= xs[j]
    ensures InsertAll(s, xs)[m..] == InsertAll(s[m..], xs)
    decreases xs
  {
    if xs != [] {
      InsertDrop(s, xs[0], m);
      InsertKeepsPrefix(s, xs[0], m);
      var t := Insert(s, xs[0]);
      forall i, j | 0 <= i < m && 0 <= j < |xs[1..]| ensures t[i] <= xs[1..][j] {
        assert t[i] == t[..m][i] == s[i];
      }
      InsertAllDrop(t, xs[1..], m);
    }
  }
}
