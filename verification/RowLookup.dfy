/** Finding a version in a row, with the search hints of WithVersion and WriteWithVersion
    in vhandle.cc. */
module RowLookup {
  import opened Basics
  import opened LowerBound
  import opened VersionSeq

  const PENDING_VALUE: nat := 0xFE1F_E190_FFFF_FFFF
  const GC_BATCH: nat := 0x4000       // 16_K
  const GC_CAPACITY: nat := 0x8_0000  // 512_K

  predicate IsPendingVal(word: nat) {
    word / 0x1_0000_0000 == PENDING_VALUE / 0x1_0000_0000
  }

  /** The epoch number is the upper half of a serial id. */
  function Epoch(sid: nat): nat {
    sid / 0x1_0000_0000
  }

  function Pendings(n: nat): (r: seq<nat>)
    ensures |r| == n && forall i :: 0 <= i < n ==> r[i] == PENDING_VALUE
  {
    seq(n, i => PENDING_VALUE)
  }

  /** What freshly allocated memory happens to hold. */
  type Memory = nat -> nat

  function Words(n: nat, memory: Memory): (r: seq<nat>)
    ensures |r| == n
  {
    seq(n, i requires 0 <= i => memory(i))
  }

  /** Where a lookup ends: at a version, at none, or on a word that is not one of the ids. */
  datatype Lookup = At(pos: nat) | Missing | Stray(index: int)

  /** The part of a row that lookups use: its memory and the two search hints. */
  datatype Row = Row(versions: seq<nat>, objects: seq<nat>, size: nat, curStart: nat, latest: int) {
    ghost predicate Valid() {
      && |versions| == |objects|
      && 0 < size <= |versions|
      && -1 <= latest < size
      && Sorted(versions[..size])
    }

    /** The hints are usable for `sid`: everything below `curStart` precedes it. */
    ghost predicate HintsFit(sid: nat) {
      && curStart <= size
      && forall k :: 0 <= k < curStart && k < |versions| ==> versions[k] < sid
    }

    /** WithVersion: the slot holding the version that a read at `sid` must see. */
    function ReadSlot(sid: nat): Lookup
      requires 0 < size <= |versions| && -1 <= latest < size && curStart <= size
    {
      if latest >= 0 && sid > versions[latest] then
        if latest + 1 >= size || sid <= versions[latest + 1] then At(latest)
        else Before(latest + 1 + Below(versions[latest + 1..size], sid))
      else if latest == 0 then Stray(-1)
      else if latest > 0 then
        if versions[latest - 1] < sid then At(latest - 1)
        else if curStart <= latest then Before(curStart + Below(versions[curStart..latest], sid))
        else Missing
      else Before(curStart + Below(versions[curStart..size], sid))
    }

    static function Before(p: nat): Lookup {
      if p == 0 then Missing else At(p - 1)
    }

    /** The word one past the latest version, which may be the first object. */
    function NextWord(): nat
      requires |versions| == |objects| && 0 < size <= |versions| && -1 <= latest < size
    {
      if latest + 1 < |versions| then versions[latest + 1] else objects[0]
    }

    /** WriteWithVersion: the slot that a write at `sid` goes to. */
    function WriteSlot(sid: nat): Lookup
      requires |versions| == |objects| && 0 < size <= |versions| && -1 <= latest < size && curStart <= size
    {
      if NextWord() == sid then
        if latest + 1 < size then At(latest + 1) else Stray(latest + 1)
      else
        var k := curStart + Below(versions[curStart..size], sid);
        if k < size && versions[k] == sid then At(k) else Missing
    }
  }

  /** Searching part of a sorted row finds the same place as searching all of it. */
  lemma BelowInPart(ids: seq<nat>, from: nat, to: nat, sid: nat)
    requires from <= to <= |ids| && Sorted(ids)
    requires forall k :: 0 <= k < from ==> ids[k] < sid
    requires to < |ids| ==> sid <= ids[to]
    ensures from + Below(ids[from..to], sid) == Below(ids, sid)
  {
    var part := ids[from..to];
    BelowIsLowerBound(part, sid);
    var r := from + Below(part, sid);
    forall k | 0 <= k < |ids| ensures k < r ==> ids[k] < sid ensures r <= k ==> sid <= ids[k] {
      if from <= k < to { assert ids[k] == part[k - from]; }
    }
    LowerBoundIsBelow(ids, sid, r);
  }

  /** Whatever the hints say, a read finds the greatest version below `sid`, or none; the one
      exception is a row whose only written version is its first and not below `sid`, where
      the word before the array is consulted. */
  lemma ReadSlotCorrect(row: Row, sid: nat)
    requires row.Valid() && row.HintsFit(sid)
    ensures row.ReadSlot(sid) == Row.Before(Below(row.versions[..row.size], sid))
            <==> !(row.latest == 0 && sid <= row.versions[0])
  {
    hide Below, Sorted;
    var ids := row.versions[..row.size];
    if row.latest >= 0 && sid > row.versions[row.latest] {
      BelowAfter(ids, row.latest, sid);
      if row.latest + 1 < row.size {
        BelowInPart(ids, row.latest + 1, row.size, sid);
        SliceOfPrefix(row.versions, row.size, row.latest + 1, row.size);
      }
    } else if row.latest > 0 {
      BelowUpTo(ids, row.latest, sid);
      if row.versions[row.latest - 1] >= sid {
        HintBelow(row, sid, row.latest);
        BelowInPart(ids, row.curStart, row.latest, sid);
        SliceOfPrefix(row.versions, row.size, row.curStart, row.latest);
      }
    } else if row.latest < 0 {
      BelowInPart(ids, row.curStart, row.size, sid);
      SliceOfPrefix(row.versions, row.size, row.curStart, row.size);
    } else {
      BelowUpTo(ids, 0, sid);
    }
  }

  lemma BelowAfter(ids: seq<nat>, k: nat, sid: nat)
    requires Sorted(ids) && k < |ids| && ids[k] < sid
    ensures forall j :: 0 <= j <= k ==> ids[j] < sid
    ensures k + 1 == |ids| || sid <= ids[k + 1] ==> Below(ids, sid) == k + 1
  {
    if k + 1 == |ids| || sid <= ids[k + 1] {
      LowerBoundIsBelow(ids, sid, k + 1);
    }
  }

  lemma BelowUpTo(ids: seq<nat>, k: nat, sid: nat)
    requires Sorted(ids) && k < |ids| && sid <= ids[k]
    ensures k == 0 || ids[k - 1] < sid ==> Below(ids, sid) == k
  {
    if k == 0 || ids[k - 1] < sid {
      LowerBoundIsBelow(ids, sid, k);
    }
  }

  /** The slot of a version that occurs once. */
  ghost predicate OnlyAt(ids: seq<nat>, sid: nat, k: nat) {
    k < |ids| && ids[k] == sid && forall j :: 0 <= j < |ids| && ids[j] == sid ==> j == k
  }

  /** Whatever the hints say, a write goes to its own slot, except when the last version is
      already written and the word after it happens to equal `sid`. */
  lemma WriteSlotCorrect(row: Row, sid: nat, k: nat)
    requires row.Valid() && row.HintsFit(sid) && OnlyAt(row.versions[..row.size], sid, k)
    ensures row.WriteSlot(sid) == At(k) <==> !(row.latest + 1 == row.size && row.NextWord() == sid)
  {
    var ids := row.versions[..row.size];
    if row.NextWord() == sid && row.latest + 1 < row.size {
      assert ids[row.latest + 1] == sid;
    } else if row.NextWord() != sid {
      BelowInPart(ids, row.curStart, row.size, sid);
      SliceOfPrefix(row.versions, row.size, row.curStart, row.size);
      BelowIsLowerBound(ids, sid);
      LowerBoundIsBelow(ids, sid, k) by {
        assert forall j :: 0 <= j < k ==> ids[j] < sid by {
          assert forall j :: 0 <= j < k ==> ids[j] <= ids[k] && ids[j] != sid;
        }
      }
      assert row.versions[k] == sid;
    }
  }

  /** A write for a version the row does not hold is reported, under the same proviso. */
  lemma WriteSlotMissing(row: Row, sid: nat)
    requires row.Valid() && row.HintsFit(sid) && sid !in row.versions[..row.size]
    ensures row.WriteSlot(sid) == Missing <==> !(row.latest + 1 == row.size && row.NextWord() == sid)
  {
    var ids := row.versions[..row.size];
    assert forall j :: 0 <= j < row.size ==> row.versions[j] == ids[j];
  }

  /** Such a stray write exists. Versions 1, 2 and 3 are from epoch 0, `e` and `f` from epoch 1.
      Collecting two versions moves the ids down and leaves `e` and `f` behind above the size;
      once `f` has been written, the word after it is the stale `e`. */
  lemma StrayWriteExample()
    ensures var e, f := TWO_32 + 7, TWO_32 + 8;
            var row := Row([3, e, f, e, f], [10, PENDING_VALUE, 12, PENDING_VALUE, PENDING_VALUE], 3, 1, 2);
            && row.Valid() && row.HintsFit(e) && OnlyAt(row.versions[..3], e, 1) && Epoch(e) == 1 && Epoch(3) == 0
            && row.WriteSlot(e) == Stray(3)
  {
    var e, f := TWO_32 + 7, TWO_32 + 8;
    var row := Row([3, e, f, e, f], [10, PENDING_VALUE, 12, PENDING_VALUE, PENDING_VALUE], 3, 1, 2);
    assert row.versions[..3] == [3, e, f];
  }

  /** A stray read exists: only the first version is written and the id is not above it. The right
      answer would be that there is no version to read. */
  lemma StrayReadExample()
    ensures var row := Row([5, 9], [10, PENDING_VALUE], 2, 0, 0);
            && row.Valid() && row.HintsFit(4)
            && row.ReadSlot(4) == Stray(-1) && Row.Before(Below(row.versions[..2], 4)) == Missing
  {
    var row := Row([5, 9], [10, PENDING_VALUE], 2, 0, 0);
    assert row.versions[..2] == [5, 9];
  }

  lemma PartSorted(s: seq<nat>, from: nat, to: nat)
    requires Sorted(s) && from <= to <= |s|
    ensures Sorted(s[from..to])
  {}

  lemma SliceOfPrefix(s: seq<nat>, n: nat, from: nat, to: nat)
    requires from <= to <= n <= |s|
    ensures s[from..to] == s[..n][from..to]
  {}

  lemma HintStart(row: Row, sid: nat)
    requires row.HintsFit(sid)
    ensures row.curStart <= row.size
  {}

  lemma HintBelow(row: Row, sid: nat, end: nat)
    requires row.HintsFit(sid) && end < row.size <= |row.versions| && sid <= row.versions[end]
    ensures row.curStart <= end
  {}
}
