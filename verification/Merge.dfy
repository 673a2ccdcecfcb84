/** The in-place batch merge: AbsorbNewVersionNoLock of vhandle.cc and FlushIntoNoLock of
    contention_manager.cc, on the row's array of version ids. */
module Merge {
  import opened LowerBound
  import opened VersionSeq

  /** std::move(a + from, a + to, a + dest), with memmove semantics. */
  method Move(a: array<nat>, from: nat, to: nat, dest: nat)
    requires from <= to <= a.Length && dest + (to - from) <= a.Length
    modifies a
    ensures a[..] == old(a[..dest] + a[from..to] + a[dest + (to - from)..])
  {
    forall k | dest <= k < dest + (to - from) { a[k] := a[k - dest + from]; }
  }

  /** std::sort(a, a + n). */
  method Sort(a: array<nat>, n: nat)
    requires n <= a.Length
    modifies a
    ensures Sorted(a[..n]) && multiset(a[..n]) == multiset(old(a[..n]))
    ensures a[n..] == old(a[n..])
  {
    var s := InsertAll([], a[..n]);
    InsertAllSorted([], a[..n]);
    forall k | 0 <= k < n { a[k] := s[k]; }
    assert a[..n] == s;
  }

  /** `x` may stand between the first `i` entries of `s` and the others. */
  predicate Splits(s: seq<nat>, x: nat, i: nat) {
    && i <= |s|
    && (forall k :: 0 <= k < i ==> s[k] <= x)
    && (forall k :: i <= k < |s| ==> x <= s[k])
  }

  lemma SplitsInBlock(s: seq<nat>, mark: nat, x: nat, i: nat)
    requires Sorted(s) && mark < i && mark <= |s| && IsUpperBound(s[mark..], x, i - mark)
    ensures Splits(s, x, i)
  {
    assert s[mark..][0] == s[mark];
    assert forall k :: mark <= k < |s| ==> s[k] == s[mark..][k - mark];
  }

  lemma SplitsBeforeBlock(s: seq<nat>, mark: nat, x: nat, i: nat)
    requires mark <= |s| && IsUpperBound(s[mark..], x, 0) && IsLowerBound(s[..mark], x, i)
    ensures Splits(s, x, i)
  {
    assert forall k :: mark <= k < |s| ==> s[k] == s[mark..][k - mark];
  }

  /** The search of AbsorbNewVersionNoLock: the last 1024-aligned block first, by
      FastLowerBound, and the blocks before it only if everything there is larger. */
  method FindSlot(versions: array<nat>, end: nat, last: nat) returns (i: nat)
    requires 0 < end <= versions.Length
    requires Sorted(versions[..end])
    ensures Splits(versions[..end], last, i)
  {
    hide FastOffset, IsUpperBound, IsLowerBound, Splits;
    var mark := (end - 1) / 1024 * 1024;
    ghost var s := versions[..end];
    assert versions[mark..end] == s[mark..] && versions[..mark] == s[..mark];
    i := FastLowerBound(versions, mark, end, last);
    FastInRange(s[mark..], last);
    if i == mark {
      i := StdLowerBound(versions[..mark], last);
      SplitsBeforeBlock(s, mark, last, i);
    } else {
      SplitsInBlock(s, mark, last, i);
    }
  }

  lemma FastInRange(s: seq<nat>, x: nat)
    requires |s| > 0
    ensures FastOffset(s, x) <= |s|
  {}

  /** What AbsorbNewVersionNoLock does to the array `w` when it places the id at offset `i`. */
  ghost predicate Absorbed(w: seq<nat>, w': seq<nat>, end: nat, extraShift: nat, i: nat) {
    && i <= end && end + extraShift < |w| == |w'|
    && w'[..i] == w[..i]
    && w'[i + extraShift..end + 1 + extraShift] == [w[end]] + w[i..end]
    && w'[end + 1 + extraShift..] == w[end + 1 + extraShift..]
  }

  /** AbsorbNewVersionNoLock: the id booked at `end` goes to its place among the ids before
      it, and everything after that place moves up by `extraShift` more than one slot. */
  method Absorb(versions: array<nat>, end: nat, extraShift: nat) returns (i: nat)
    requires end + extraShift < versions.Length
    requires Sorted(versions[..end])
    modifies versions
    ensures Splits(old(versions[..end]), old(versions[end]), i)
    ensures Absorbed(old(versions[..]), versions[..], end, extraShift, i)
  {
    if end == 0 {
      versions[extraShift] := versions[0];
      return 0;
    }
    var last := versions[end];
    i := FindSlot(versions, end, last);
    Move(versions, i, end, i + 1 + extraShift);
    ghost var moved := versions[..];
    versions[i + extraShift] := last;
    assert versions[..] == moved[i + extraShift := last];
  }

  /** Where the merge stands: of the row's ids `s` the first `cur` are untouched, of the
      batch `xs` the first `i` are still to come, and `tail` holds all the others in order. */
  ghost predicate Merging(s: seq<nat>, xs: seq<nat>, cur: nat, i: nat, tail: seq<nat>) {
    && cur <= |s| && i <= |xs|
    && Sorted(tail)
    && (forall k, j :: 0 <= k < cur && 0 <= j < |tail| ==> s[k] <= tail[j])
    && (0 < i ==> forall j :: 0 <= j < |tail| ==> xs[i - 1] <= tail[j])
    && multiset(s[..cur]) + multiset(tail) == multiset(s) + multiset(xs[i..])
  }

  lemma MergeStarts(s: seq<nat>, xs: seq<nat>)
    ensures Merging(s, xs, |s|, |xs|, [])
  {
    assert s[..|s|] == s && xs[|xs|..] == [];
  }

  lemma StepElements(s: seq<nat>, xs: seq<nat>, cur: nat, i: nat, tail: seq<nat>, j: nat)
    requires j <= cur <= |s| && i < |xs|
    requires multiset(s[..cur]) + multiset(tail) == multiset(s) + multiset(xs[i + 1..])
    ensures multiset(s[..j]) + multiset([xs[i]] + s[j..cur] + tail) == multiset(s) + multiset(xs[i..])
  {
    assert s[..cur] == s[..j] + s[j..cur];
    assert multiset(s[..cur]) == multiset(s[..j]) + multiset(s[j..cur]);
    assert xs[i..] == [xs[i]] + xs[i + 1..];
    assert multiset(xs[i..]) == multiset{xs[i]} + multiset(xs[i + 1..]);
    assert multiset([xs[i]] + s[j..cur] + tail) == multiset{xs[i]} + multiset(s[j..cur]) + multiset(tail);
    Regroup(multiset(s[..j]), multiset(s[j..cur]), multiset(tail), multiset(s), multiset(xs[i + 1..]), multiset{xs[i]});
  }

  lemma Regroup(a: multiset<nat>, b: multiset<nat>, t: multiset<nat>, s: multiset<nat>, r: multiset<nat>,
                x: multiset<nat>)
    requires a + b + t == s + r
    ensures a + (x + b + t) == s + (x + r)
  {
    assert a + (x + b + t) == (a + b + t) + x;
    assert s + (x + r) == (s + r) + x;
  }

  /** One step of the merge: the next id joins the tail together with the ids above it. */
  lemma MergeStep(s: seq<nat>, xs: seq<nat>, cur: nat, i: nat, tail: seq<nat>, j: nat)
    requires Sorted(s) && Sorted(xs) && Merging(s, xs, cur, i + 1, tail) && Splits(s[..cur], xs[i], j)
    ensures j <= cur && Merging(s, xs, j, i, [xs[i]] + s[j..cur] + tail)
  {
    StepElements(s, xs, cur, i, tail, j);
    var t := [xs[i]] + s[j..cur] + tail;
    assert forall k :: 0 <= k < cur ==> s[k] == s[..cur][k];
    forall k | 0 <= k < |t| ensures xs[i] <= t[k] {
      if 0 < k <= cur - j { assert t[k] == s[j + k - 1]; }
    }
  }

  lemma MergeEnds(s: seq<nat>, xs: seq<nat>, cur: nat, tail: seq<nat>)
    requires Sorted(s) && Merging(s, xs, cur, 0, tail)
    ensures Sorted(s[..cur] + tail) && multiset(s[..cur] + tail) == multiset(s) + multiset(xs)
  {
    assert xs[0..] == xs;
  }

  /** FlushIntoNoLock: the ids in `buf[..cnt]` are merged into the first `end` versions from
      the back, through a gap that shrinks by one slot per id. */
  method FlushInto(versions: array<nat>, end: nat, buf: array<nat>, cnt: nat)
    requires versions != buf
    requires cnt <= buf.Length && end + cnt <= versions.Length
    requires Sorted(versions[..end])
    modifies versions, buf
    ensures versions[..end + cnt] == InsertAll(old(versions[..end]), old(buf[..cnt]))
    ensures Sorted(versions[..end + cnt])
    ensures versions[end + cnt..] == old(versions[end + cnt..])
  {
    ghost var s := versions[..end];
    Sort(buf, cnt);
    MergeLoop(versions, end, buf, cnt);
    MergeIsInsertAll(s, old(buf[..cnt]), versions[..end + cnt]);
  }

  /** The loop of FlushIntoNoLock over the sorted buffer. */
  method MergeLoop(versions: array<nat>, end: nat, buf: array<nat>, cnt: nat)
    requires versions != buf
    requires cnt <= buf.Length && end + cnt <= versions.Length
    requires Sorted(versions[..end]) && Sorted(buf[..cnt])
    modifies versions
    ensures Sorted(versions[..end + cnt])
    ensures multiset(versions[..end + cnt]) == multiset(old(versions[..end])) + multiset(buf[..cnt])
    ensures versions[end + cnt..] == old(versions[end + cnt..])
  {
    hide MergingIn, Sorted, Splits, Absorbed;
    ghost var w0, xs := versions[..], buf[..cnt];
    ghost var w := w0;
    var cur: nat := end;
    ghost var tail := LoopStarts(w, xs, end);
    var i: nat := cnt;
    while i > 0
      invariant i <= cnt && cur <= end
      invariant xs == buf[..cnt] && w == versions[..]
      invariant MergingIn(w0, w, end, xs, cur, i, tail)
    {
      i := i - 1;
      LoopSorted(w0, w, end, xs, cur, i, tail);
      versions[cur] := buf[i];
      ghost var booked, j := w[cur := xs[i]], cur;
      assert versions[..] == booked;
      assert versions[..cur] == booked[..cur];
      cur := Absorb(versions, cur, i);
      tail := LoopStep(w0, w, end, xs, j, i, tail, versions[..], cur);
      w := versions[..];
    }
    LoopEnds(w0, w, end, xs, cur, tail);
  }

  /** The merge as seen in the array `w`, which was `w0` at the start: untouched ids, a gap
      of `i` slots, the merged tail, and whatever lies above. */
  ghost predicate MergingIn(w0: seq<nat>, w: seq<nat>, end: nat, xs: seq<nat>, cur: nat, i: nat, tail: seq<nat>) {
    && cur <= end && i <= |xs| && end + |xs| <= |w| == |w0|
    && Sorted(w0[..end]) && Sorted(xs)
    && w[..cur] == w0[..end][..cur]
    && w[cur + i..end + |xs|] == tail
    && w[end + |xs|..] == w0[end + |xs|..]
    && Merging(w0[..end], xs, cur, i, tail)
  }

  lemma LoopStarts(w0: seq<nat>, xs: seq<nat>, end: nat) returns (tail: seq<nat>)
    requires end + |xs| <= |w0| && Sorted(w0[..end]) && Sorted(xs)
    ensures MergingIn(w0, w0, end, xs, end, |xs|, tail)
  {
    tail := [];
    MergeStarts(w0[..end], xs);
  }

  lemma LoopSorted(w0: seq<nat>, w: seq<nat>, end: nat, xs: seq<nat>, cur: nat, i: nat, tail: seq<nat>)
    requires i < |xs| && MergingIn(w0, w, end, xs, cur, i + 1, tail)
    ensures cur + i < |w| && Sorted(w[cur := xs[i]][..cur])
  {
    assert w[cur := xs[i]][..cur] == w[..cur];
  }

  lemma LoopStep(w0: seq<nat>, w: seq<nat>, end: nat, xs: seq<nat>, cur: nat, i: nat, tail: seq<nat>,
                 w': seq<nat>, k: nat) returns (tail': seq<nat>)
    requires i < |xs| && MergingIn(w0, w, end, xs, cur, i + 1, tail)
    requires cur < |w| && Splits(w[cur := xs[i]][..cur], xs[i], k) && Absorbed(w[cur := xs[i]], w', cur, i, k)
    ensures k <= cur && MergingIn(w0, w', end, xs, k, i, tail')
  {
    var s, booked := w0[..end], w[cur := xs[i]];
    assert booked[..cur] == s[..cur];
    MergeStep(s, xs, cur, i, tail, k);
    assert booked[cur + 1 + i..end + |xs|] == tail;
    Regions(s, booked, w', cur, k, i, end + |xs|, xs[i], tail);
    tail' := [xs[i]] + s[k..cur] + tail;
  }

  lemma LoopEnds(w0: seq<nat>, w: seq<nat>, end: nat, xs: seq<nat>, cur: nat, tail: seq<nat>)
    requires MergingIn(w0, w, end, xs, cur, 0, tail)
    ensures |w| == |w0| && end + |xs| <= |w|
    ensures Sorted(w[..end + |xs|]) && multiset(w[..end + |xs|]) == multiset(w0[..end]) + multiset(xs)
    ensures w[end + |xs|..] == w0[end + |xs|..]
  {
    assert w[..end + |xs|] == w0[..end][..cur] + tail;
    MergeEnds(w0[..end], xs, cur, tail);
  }

  /** What one Absorb leaves in the three regions of the array, from what it found there. */
  lemma Regions(s: seq<nat>, w: seq<nat>, w': seq<nat>, j: nat, k: nat, i: nat, hi: nat, x: nat, tail: seq<nat>)
    requires j <= |s| && j + 1 + i <= hi <= |w|
    requires w[..j] == s[..j] && w[j] == x && w[j + 1 + i..hi] == tail
    requires Absorbed(w, w', j, i, k)
    ensures w'[..k] == s[..k] && w'[k + i..hi] == [x] + s[k..j] + tail && |w'| == |w| && w'[hi..] == w[hi..]
  {
    assert s[..k] == s[..j][..k] && w[..k] == w[..j][..k];
    assert s[k..j] == s[..j][k..] && w[k..j] == w[..j][k..];
    assert w'[j + 1 + i..hi] == w'[j + 1 + i..][..hi - (j + 1 + i)] == w[j + 1 + i..][..hi - (j + 1 + i)] == tail;
    assert w'[hi..] == w'[j + 1 + i..][hi - (j + 1 + i)..] == w[j + 1 + i..][hi - (j + 1 + i)..];
    assert w'[k + i..hi] == w'[k + i..j + 1 + i] + w'[j + 1 + i..hi];
  }
}
