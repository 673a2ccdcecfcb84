/** How far GC::Collect of gc.cc cuts a row, and why no later read notices. */
module RowGc {
  import opened Basics
  import opened LowerBound
  import opened VersionSeq
  import opened RowLookup

  /** How many leading versions GC::Collect drops: it stops before the last version, at
      `limit`, and before a version whose successor belongs to `epoch` or later. */
  function CollectLen(ids: seq<nat>, epoch: nat, limit: nat): (n: nat)
    ensures n <= limit && n <= |ids|
  {
    if |ids| >= 2 && limit > 0 && Epoch(ids[1]) < epoch then
      1 + CollectLen(ids[1..], epoch, limit - 1)
    else 0
  }

  lemma {:induction false} CollectLenBounds(ids: seq<nat>, epoch: nat, limit: nat)
    ensures var n := CollectLen(ids, epoch, limit);
            && (ids != [] ==> n < |ids|)
            && (forall k :: 0 < k <= n < |ids| ==> Epoch(ids[k]) < epoch)
            && (n == limit || n + 1 >= |ids| || Epoch(ids[n + 1]) >= epoch)
  {
    if |ids| >= 2 && limit > 0 && Epoch(ids[1]) < epoch {
      CollectLenBounds(ids[1..], epoch, limit - 1);
      forall k | 1 < k <= CollectLen(ids, epoch, limit) < |ids| ensures Epoch(ids[k]) < epoch {
        assert ids[k] == ids[1..][k - 1];
      }
    }
  }

  /** The versions dropped before a row of at least 512_K slots has to grow. */
  function OverflowDrop(ids: seq<nat>, capacity: nat, delta: nat, epoch: nat): nat {
    if |ids| + delta > capacity >= GC_CAPACITY then CollectLen(ids, epoch, GC_BATCH) else 0
  }

  /** The versions dropped on the first append of an epoch to a row registered for GC. */
  function RefreshDrop(ids: seq<nat>, latest: int, curStart: int, registered: bool, epoch: nat): nat {
    if curStart != latest + 1 && registered && latest > 0
    then CollectLen(ids, epoch, Min(GC_BATCH, latest)) else 0
  }

  /** Unsigned 32-bit subtraction. */
  function WrapSub(a: nat, b: nat): int {
    if b <= a then a - b else a - b + 0x1_0000_0000
  }

  /** All versions IncreaseSize drops, by either route. */
  function DropCount(ids: seq<nat>, latest: int, capacity: nat, curStart: nat, registered: bool, delta: nat,
                     epoch: nat): nat
  {
    var n := OverflowDrop(ids, capacity, delta, epoch);
    if n <= |ids| then
      n + RefreshDrop(ids[n..], latest - n, WrapSub(curStart, n), registered, epoch)
    else n
  }

  /** Every version of an epoch before `epoch` lies at or below `latest`. */
  ghost predicate EarlierWritten(ids: seq<nat>, latest: int, epoch: nat) {
    forall k :: 0 <= k < |ids| && Epoch(ids[k]) < epoch ==> k <= latest
  }

  ghost predicate PendingAbove(objs: seq<nat>, latest: int) {
    forall k :: 0 <= k < |objs| && latest < k ==> IsPendingVal(objs[k])
  }

  /** The value that a read at `sid` is entitled to. */
  function VisibleAt(ids: seq<nat>, objs: seq<nat>, sid: nat): Option<nat>
    requires |ids| == |objs|
  {
    var b := Below(ids, sid);
    if b == 0 then None else Some(objs[b - 1])
  }

  /** Dropping leading versions up to one of an earlier epoch changes no read in `epoch` or later. */
  lemma DropPreservesReads(ids: seq<nat>, objs: seq<nat>, n: nat, epoch: nat, sid: nat)
    requires |ids| == |objs| && Sorted(ids) && n <= |ids|
    requires 0 < n ==> n < |ids| && Epoch(ids[n]) < epoch
    requires Epoch(sid) >= epoch
    ensures VisibleAt(ids[n..], objs[n..], sid) == VisibleAt(ids, objs, sid)
  {
    if n > 0 {
      EpochOrder(ids[n], sid);
      BelowInPart(ids, n, |ids|, sid);
      assert ids[n..] == ids[n..|ids|];
      BelowIsLowerBound(ids, sid);
    }
  }

  lemma EpochOrder(a: nat, b: nat)
    requires Epoch(a) < Epoch(b)
    ensures a < b
  {}

  lemma EpochMonotone(a: nat, b: nat)
    requires a <= b
    ensures Epoch(a) <= Epoch(b)
  {}

  /** GC::Collect changes no read in the current or a later epoch. */
  lemma CollectPreservesReads(ids: seq<nat>, objs: seq<nat>, epoch: nat, limit: nat, sid: nat)
    requires |ids| == |objs| > 0 && Sorted(ids) && Epoch(sid) >= epoch
    ensures var n := CollectLen(ids, epoch, limit);
            VisibleAt(ids[n..], objs[n..], sid) == VisibleAt(ids, objs, sid)
  {
    CollectLenBounds(ids, epoch, limit);
    DropPreservesReads(ids, objs, CollectLen(ids, epoch, limit), epoch, sid);
  }

  /** Collecting one version further than GC::Collect would, without its limit, loses a read. */
  lemma CollectIsMaximal(ids: seq<nat>, objs: seq<nat>, epoch: nat, limit: nat)
    requires |ids| == |objs| > 0 && Sorted(ids) && 0 < epoch && Epoch(ids[0]) < epoch
    requires CollectLen(ids, epoch, limit) < limit
    requires forall i, j :: 0 <= i < j < |ids| ==> ids[i] < ids[j]
    requires forall i, j :: 0 <= i < j < |ids| ==> objs[i] != objs[j]
    ensures var n := CollectLen(ids, epoch, limit) + 1;
            n <= |ids| && exists sid ::
                           Epoch(sid) >= epoch && VisibleAt(ids[n..], objs[n..], sid) != VisibleAt(ids, objs, sid)
  {
    CollectLenBounds(ids, epoch, limit);
    var m := CollectLen(ids, epoch, limit);
    assert Epoch(ids[m]) < epoch;
    var sid := if m + 1 < |ids| then ids[m + 1] else epoch * 0x1_0000_0000;
    assert Epoch(sid) >= epoch;
    EpochOrder(ids[m], sid);
    LowerBoundIsBelow(ids, sid, m + 1);
    var rest := ids[m + 1..];
    assert rest != [] ==> rest[0] == ids[m + 1];
    assert VisibleAt(rest, objs[m + 1..], sid) == None;
    assert VisibleAt(ids, objs, sid) == Some(objs[m]);
  }

  lemma {:induction false} CollectLenPrefix(ids: seq<nat>, booked: nat, epoch: nat, limit: nat)
    requires limit < booked <= |ids|
    ensures CollectLen(ids[..booked], epoch, limit) == CollectLen(ids, epoch, limit)
    decreases limit
  {
    if limit > 0 && Epoch(ids[1]) < epoch {
      CollectLenPrefix(ids[1..], booked - 1, epoch, limit - 1);
      assert ids[..booked][1..] == ids[1..][..booked - 1];
    }
  }

  /** Every read of `epoch` or later sees the same in both rows. */
  ghost predicate SameReads(ids: seq<nat>, objs: seq<nat>, ids': seq<nat>, objs': seq<nat>, epoch: nat) {
    && |ids| == |objs| && |ids'| == |objs'|
    && forall sid :: Epoch(sid) >= epoch ==> VisibleAt(ids', objs', sid) == VisibleAt(ids, objs, sid)
  }

  lemma DropSameReads(ids: seq<nat>, objs: seq<nat>, n: nat, epoch: nat)
    requires |ids| == |objs| && Sorted(ids) && n <= |ids| && (0 < n ==> n < |ids| && Epoch(ids[n]) < epoch)
    ensures SameReads(ids, objs, ids[n..], objs[n..], epoch)
  {
    hide Epoch, VisibleAt, Sorted;
    forall sid: nat | Epoch(sid) >= epoch ensures VisibleAt(ids[n..], objs[n..], sid) == VisibleAt(ids, objs, sid) {
      DropPreservesReads(ids, objs, n, epoch, sid);
    }
  }

  // ---------- appending ids

  /** Reads of `epoch` or later: one above a new id waits for a pending version, any other sees
      what it saw before. */
  ghost predicate ReadsKept(ids: seq<nat>, objs: seq<nat>, ids': seq<nat>, objs': seq<nat>, xs: seq<nat>, epoch: nat) {
    && |ids| == |objs| && |ids'| == |objs'|
    && forall sid :: Epoch(sid) >= epoch ==> ReadKept(ids, objs, ids', objs', xs, sid)
  }

  ghost predicate ReadKept(ids: seq<nat>, objs: seq<nat>, ids': seq<nat>, objs': seq<nat>, xs: seq<nat>, sid: nat)
    requires |ids| == |objs| && |ids'| == |objs'|
  {
    if exists j :: 0 <= j < |xs| && xs[j] < sid
    then VisibleAt(ids', objs', sid).Some? && IsPendingVal(VisibleAt(ids', objs', sid).value)
    else VisibleAt(ids', objs', sid) == VisibleAt(ids, objs, sid)
  }

  lemma BelowInsert(ids: seq<nat>, x: nat, sid: nat)
    requires Sorted(ids) && sid <= x
    ensures Below(Insert(ids, x), sid) == Below(ids, sid)
  {
    var b, r := Below(ids, sid), Insert(ids, x);
    BelowIsLowerBound(ids, sid);
    InsertSorted(ids, x);
    var i := InsertAt(ids, x);
    hide Insert, Below, Sorted;
    assert i < |ids| ==> sid <= ids[i];
    assert b <= i;
    forall k | 0 <= k < |r| ensures (k < b ==> r[k] < sid) && (b <= k ==> sid <= r[k]) {
      assert r[k] == if k < i then ids[k] else if k == i then x else ids[k - 1];
    }
    LowerBoundIsBelow(r, sid, b);
  }

  /** New ids at or above `sid` do not move the place of `sid`. */
  lemma {:induction false} BelowInserted(ids: seq<nat>, xs: seq<nat>, sid: nat)
    requires Sorted(ids) && forall j :: 0 <= j < |xs| ==> sid <= xs[j]
    ensures Below(InsertAll(ids, xs), sid) == Below(ids, sid)
    decreases xs
  {
    hide Below, Sorted, Insert;
    if xs != [] {
      BelowInsert(ids, xs[0], sid);
      InsertSorted(ids, xs[0]);
      BelowInserted(Insert(ids, xs[0]), xs[1..], sid);
    }
  }

  /** The new ids are above the latest written one. */
  ghost predicate NewAbove(ids: seq<nat>, latest: int, xs: seq<nat>) {
    0 <= latest < |ids| ==> forall i :: 0 <= i < |xs| ==> ids[latest] < xs[i]
  }

  lemma NewAboveDrop(ids: seq<nat>, latest: int, n: nat, xs: seq<nat>)
    requires NewAbove(ids, latest, xs) && n <= |ids|
    ensures NewAbove(ids[n..], latest - n, xs)
  {}

  /** A new id below `sid` makes the read meet a pending version. */
  lemma PendingBelow(ids: seq<nat>, objs: seq<nat>, latest: int, xs: seq<nat>, j: nat, sid: nat)
    requires Sorted(ids) && |objs| == |ids| + |xs| && -1 <= latest < |ids| && PendingAbove(objs, latest)
    requires NewAbove(ids, latest, xs)
    requires j < |xs| && xs[j] < sid
    ensures var v := VisibleAt(InsertAll(ids, xs), objs, sid); v.Some? && IsPendingVal(v.value)
  {
    hide InsertAll, Below, Sorted, PendingAbove, IsPendingVal;
    var r := InsertAll(ids, xs);
    var k := NewIdAt(ids, latest, xs, j);
    InsertAllSorted(ids, xs);
    BelowIsLowerBound(r, sid);
    PendingAt(objs, latest, Below(r, sid) - 1);
  }

  lemma PendingAt(objs: seq<nat>, latest: int, k: nat)
    requires PendingAbove(objs, latest) && latest < k < |objs|
    ensures IsPendingVal(objs[k])
  {}

  /** A new id ends up above the latest written one. */
  lemma NewIdAt(ids: seq<nat>, latest: int, xs: seq<nat>, j: nat) returns (k: nat)
    requires Sorted(ids) && -1 <= latest < |ids| && NewAbove(ids, latest, xs) && j < |xs|
    ensures latest < k < |ids| + |xs| && InsertAll(ids, xs)[k] == xs[j]
  {
    var r := InsertAll(ids, xs);
    InsertAllSorted(ids, xs);
    hide InsertAll;
    assert xs[j] in multiset(xs) && xs[j] in multiset(r);
    k :| 0 <= k < |r| && r[k] == xs[j];
    forall m: nat | m <= latest ensures r[m] < xs[j] { PrefixBelow(ids, latest, xs, j, m); }
  }

  lemma PrefixBelow(ids: seq<nat>, latest: int, xs: seq<nat>, j: nat, m: nat)
    requires Sorted(ids) && -1 <= latest < |ids| && NewAbove(ids, latest, xs) && j < |xs| && m <= latest
    ensures InsertAll(ids, xs)[m] < xs[j]
  {
    InsertAllKeepsPrefix(ids, xs, latest + 1);
    hide InsertAll;
    assert InsertAll(ids, xs)[m] == InsertAll(ids, xs)[..latest + 1][m] == ids[..latest + 1][m] == ids[m];
  }

  /** Appending after a collection keeps reads, or makes them wait for a new version. */
  lemma AppendKeepsReads(ids: seq<nat>, objs: seq<nat>, latest: int, n: nat, xs: seq<nat>, epoch: nat)
    requires |ids| == |objs| && Sorted(ids) && -1 <= latest < |ids| && PendingAbove(objs, latest)
    requires n <= |ids| && (0 < n ==> n <= latest && Epoch(ids[n]) < epoch)
    requires NewAbove(ids, latest, xs)
    ensures ReadsKept(ids, objs, InsertAll(ids[n..], xs), objs[n..] + Pendings(|xs|), xs, epoch)
  {
    hide Epoch, InsertAll, ReadKept;
    forall sid: nat | Epoch(sid) >= epoch
      ensures ReadKept(ids, objs, InsertAll(ids[n..], xs), objs[n..] + Pendings(|xs|), xs, sid)
    {
      AppendKeepsRead(ids, objs, latest, n, xs, epoch, sid);
    }
  }

  lemma AppendKeepsRead(ids: seq<nat>, objs: seq<nat>, latest: int, n: nat, xs: seq<nat>, epoch: nat, sid: nat)
    requires |ids| == |objs| && Sorted(ids) && -1 <= latest < |ids| && PendingAbove(objs, latest) && Epoch(sid) >= epoch
    requires n <= |ids| && (0 < n ==> n <= latest && Epoch(ids[n]) < epoch)
    requires NewAbove(ids, latest, xs)
    ensures ReadKept(ids, objs, InsertAll(ids[n..], xs), objs[n..] + Pendings(|xs|), xs, sid)
  {
    hide Epoch, InsertAll, Below, IsPendingVal, VisibleAt, Sorted, PendingAbove, NewAbove;
    if j: nat :| j < |xs| && xs[j] < sid {
      ReadWaits(ids, objs, latest, n, xs, j, sid);
    } else {
      ReadStays(ids, objs, n, xs, epoch, sid);
    }
  }

  lemma ReadWaits(ids: seq<nat>, objs: seq<nat>, latest: int, n: nat, xs: seq<nat>, j: nat, sid: nat)
    requires |ids| == |objs| && Sorted(ids) && -1 <= latest < |ids| && PendingAbove(objs, latest)
    requires n <= |ids| && (0 < n ==> n <= latest) && NewAbove(ids, latest, xs) && j < |xs| && xs[j] < sid
    ensures var v := VisibleAt(InsertAll(ids[n..], xs), objs[n..] + Pendings(|xs|), sid);
            v.Some? && IsPendingVal(v.value)
  {
    hide InsertAll, Below, IsPendingVal, VisibleAt, Sorted, PendingAbove, NewAbove;
    TailSorted(ids, n);
    NewAboveDrop(ids, latest, n, xs);
    PendingAppended(objs, latest, n, |xs|);
    PendingBelow(ids[n..], objs[n..] + Pendings(|xs|), latest - n, xs, j, sid);
  }

  lemma ReadStays(ids: seq<nat>, objs: seq<nat>, n: nat, xs: seq<nat>, epoch: nat, sid: nat)
    requires |ids| == |objs| && Sorted(ids) && n <= |ids| && (0 < n ==> n < |ids| && Epoch(ids[n]) < epoch)
    requires Epoch(sid) >= epoch && forall j :: 0 <= j < |xs| ==> sid <= xs[j]
    ensures VisibleAt(InsertAll(ids[n..], xs), objs[n..] + Pendings(|xs|), sid) == VisibleAt(ids, objs, sid)
  {
    hide Epoch, InsertAll, VisibleAt, Sorted;
    TailSorted(ids, n);
    DropPreservesReads(ids, objs, n, epoch, sid);
    SameRead(ids[n..], objs[n..], Pendings(|xs|), xs, sid);
  }

  lemma TailSorted(ids: seq<nat>, n: nat)
    requires Sorted(ids) && n <= |ids|
    ensures Sorted(ids[n..])
  {}

  lemma PendingAppended(objs: seq<nat>, latest: int, n: nat, delta: nat)
    requires PendingAbove(objs, latest) && n <= |objs|
    ensures PendingAbove(objs[n..] + Pendings(delta), latest - n)
  {}

  lemma SameRead(ids: seq<nat>, objs: seq<nat>, more: seq<nat>, xs: seq<nat>, sid: nat)
    requires |ids| == |objs| && Sorted(ids) && |more| == |xs| && forall j :: 0 <= j < |xs| ==> sid <= xs[j]
    ensures VisibleAt(InsertAll(ids, xs), objs + more, sid) == VisibleAt(ids, objs, sid)
  {
    BelowInserted(ids, xs, sid);
    hide InsertAll, Below;
  }

  // ---------- appending one id after the other

  /** A row that was appended `xs`, after dropping `n` old versions. */
  ghost predicate Appended(ids: seq<nat>, objs: seq<nat>, latest: int, n: nat, xs: seq<nat>, ids': seq<nat>,
                           objs': seq<nat>, latest': int) {
    && n <= |ids| == |objs| && latest' == latest - n
    && ids' == InsertAll(ids[n..], xs) && objs' == objs[n..] + Pendings(|xs|)
  }

  /** Droppable: up to an earlier-epoch version, and not past the latest written one. */
  ghost predicate MayDrop(ids: seq<nat>, latest: int, n: nat, epoch: nat) {
    0 < n ==> n <= latest < |ids| && Epoch(ids[n]) < epoch
  }

  lemma OldIdAt(ids: seq<nat>, latest: int, n: nat, xs: seq<nat>, k: nat)
    requires Sorted(ids) && n <= |ids| && latest < |ids| && NewAbove(ids, latest, xs) && n + k <= latest
    ensures k < |InsertAll(ids[n..], xs)| && InsertAll(ids[n..], xs)[k] == ids[n + k]
  {
    hide InsertAll;
    var kept, w := ids[n..], latest + 1 - n;
    forall i, j | 0 <= i < w && 0 <= j < |xs| ensures kept[i] <= xs[j] {
      assert kept[i] == ids[n + i] <= ids[latest];
    }
    hide Sorted;
    InsertAllKeepsPrefix(kept, xs, w);
    assert InsertAll(kept, xs)[k] == InsertAll(kept, xs)[..w][k];
  }

  /** One more id, after dropping `m` more versions. */
  lemma AppendedMore(ids: seq<nat>, objs: seq<nat>, latest: int, n: nat, xs: seq<nat>, ids': seq<nat>,
                     objs': seq<nat>, latest': int, m: nat, x: nat, epoch: nat)
    requires Appended(ids, objs, latest, n, xs, ids', objs', latest') && Sorted(ids) && -1 <= latest < |ids|
    requires NewAbove(ids, latest, xs) && MayDrop(ids, latest, n, epoch) && MayDrop(ids', latest', m, epoch)
    ensures n + m <= |ids| && MayDrop(ids, latest, n + m, epoch) && m <= |ids'|
    ensures Appended(ids, objs, latest, n + m, xs + [x], Insert(ids'[m..], x), objs'[m..] + Pendings(1), latest' - m)
  {
    hide InsertAll, Insert;
    if m > 0 {
      OldIdAt(ids, latest, n, xs, m);
    }
    var kept := ids[n..];
    TailSorted(ids, n);
    forall i, j | 0 <= i < m && 0 <= j < |xs| ensures kept[i] <= xs[j] {
      assert kept[i] == ids[n + i] <= ids[latest];
    }
    InsertAllDrop(kept, xs, m);
    assert kept[m..] == ids[n + m..];
    InsertAllSnoc(ids[n + m..], xs, x);
    assert objs'[m..] + Pendings(1) == objs[n + m..] + Pendings(|xs + [x]|);
  }

  /** New ids belong to `epoch` or later, so earlier versions stay below the latest one. */
  lemma EarlierAfter(ids: seq<nat>, latest: int, m: nat, x: nat, epoch: nat)
    requires EarlierWritten(ids, latest, epoch) && Sorted(ids) && m <= |ids| && Epoch(x) >= epoch
    ensures EarlierWritten(Insert(ids[m..], x), latest - m, epoch)
  {
    var s := ids[m..];
    var i := InsertAt(s, x);
    TailSorted(ids, m);
    var r := Insert(s, x);
    hide Insert;
    hide Epoch;
    forall k | i < k < |r| ensures Epoch(r[k]) >= epoch {
      assert r[k] == s[k - 1] && x < s[i] <= s[k - 1];
      EpochMonotone(x, r[k]);
    }
    forall k | 0 <= k < |r| && Epoch(r[k]) < epoch ensures k <= latest - m {
      assert k < i && r[k] == s[k] == ids[m + k];
    }
  }
}
