/** The append phase leaves the rows that the execution phase starts from. */
module EpochStart {
  import opened LowerBound
  import opened VersionSeq
  import opened RowLookup
  import opened RowGc
  import opened Serializability
  import opened VHandle
  import opened Basics
  import B = VersionBuffers
  import F = FinalizeFlush

  /** The ids appended to row `k` are those of the transactions that will write it, each once. */
  ghost predicate WritersOf(batch: seq<Txn>, k: nat, xs: seq<nat>) {
    && (forall i, j :: 0 <= i < j < |xs| ==> xs[i] != xs[j])
    && (forall x :: x in xs ==> IsWriter(batch, k, x))
    && (forall t :: 0 <= t < |batch| && Writes(batch[t].ops, k) ==> batch[t].sid in xs)
  }

  ghost predicate IsWriter(batch: seq<Txn>, k: nat, x: nat) {
    exists t :: 0 <= t < |batch| && batch[t].sid == x && Writes(batch[t].ops, k)
  }

  /** A row whose versions were all written before the epoch, after `n` of them were dropped and the
      ids `xs` appended, as FlushBatch, one append after the other and finalized version buffers leave it. */
  ghost predicate AppendedRow(row: Row, ids: seq<nat>, objs: seq<nat>, n: nat, xs: seq<nat>) {
    && |ids| == |objs| && Sorted(ids) && n <= |ids|
    && |row.versions| == |row.objects| && 0 < row.size == |ids| - n + |xs| <= |row.versions|
    && row.versions[..row.size] == InsertAll(ids[n..], xs)
    && row.objects[..row.size] == objs[n..] + Pendings(|xs|)
    && row.latest == |ids| - n - 1 && row.curStart == row.latest + 1
  }

  /** The ids of the row: first what is left of the old ones, then the new ones in order. */
  lemma SplitRow(ids: seq<nat>, n: nat, xs: seq<nat>)
    requires Sorted(ids) && n <= |ids| && forall i, j :: 0 <= i < |ids| && 0 <= j < |xs| ==> ids[i] < xs[j]
    ensures InsertAll(ids[n..], xs) == ids[n..] + InsertAll([], xs)
    ensures Sorted(ids[n..] + InsertAll([], xs)) && Sorted(InsertAll([], xs))
            && multiset(InsertAll([], xs)) == multiset(xs)
  {
    hide InsertAll, Sorted;
    TailSorted(ids, n);
    InsertAllSorted(ids[n..], xs);
    assert Sorted([]) by { EmptySorted(); }
    InsertAllSorted([], xs);
    InsertAbove(ids[n..], xs);
  }

  lemma EmptySorted()
    ensures Sorted([])
  {}

  lemma InsertAbove(s: seq<nat>, xs: seq<nat>)
    requires forall i, j :: 0 <= i < |s| && 0 <= j < |xs| ==> s[i] <= xs[j]
    ensures InsertAll(s, xs) == s + InsertAll([], xs)
  {
    hide InsertAll;
    var r := InsertAll(s, xs);
    assert r[..|s|] == s by {
      InsertAllKeepsPrefix(s, xs, |s|);
      assert s[..|s|] == s;
    }
    assert r[|s|..] == InsertAll([], xs) by {
      InsertAllDrop(s, xs, |s|);
      assert s[|s|..] == [];
    }
    assert r == r[..|s|] + r[|s|..];
  }

  lemma {:induction false} DistinctCounts(xs: seq<nat>, x: nat)
    requires forall i, j :: 0 <= i < j < |xs| ==> xs[i] != xs[j]
    ensures multiset(xs)[x] <= 1
  {
    if xs != [] {
      var front := xs[..|xs| - 1];
      DistinctCounts(front, x);
      assert xs == front + [xs[|xs| - 1]];
      assert xs[|xs| - 1] !in front;
    }
  }

  lemma TwiceCounts(r: seq<nat>, i: nat, j: nat)
    requires i < j < |r| && r[i] == r[j]
    ensures multiset(r)[r[i]] >= 2
  {
    assert r == r[..j] + r[j..];
    assert r[..j][i] in multiset(r[..j]) && r[j..][0] in multiset(r[j..]);
  }

  lemma DistinctSorted(r: seq<nat>, xs: seq<nat>, i: nat, j: nat)
    requires Sorted(r) && multiset(r) == multiset(xs) && i < j < |r|
    requires forall a, b :: 0 <= a < b < |xs| ==> xs[a] != xs[b]
    ensures r[i] < r[j]
  {
    if r[i] == r[j] { TwiceCounts(r, i, j); }
    DistinctCounts(xs, r[j]);
  }

  lemma AppendedAt(versions: seq<nat>, size: nat, ids: seq<nat>, n: nat, new_: seq<nat>)
    requires n <= |ids| && size == |ids| - n + |new_| <= |versions| && versions[..size] == ids[n..] + new_
    ensures forall j :: 0 <= j < |ids| - n ==> versions[j] == ids[n + j]
    ensures forall j :: |ids| - n <= j < size ==> versions[j] == new_[j - (|ids| - n)]
  {
    var all := versions[..size];
    forall j | 0 <= j < size ensures versions[j] == all[j] {}
  }

  /** The slots of such a row. */
  lemma AppendedIds(row: Row, ids: seq<nat>, objs: seq<nat>, n: nat, xs: seq<nat>)
    requires AppendedRow(row, ids, objs, n, xs) && forall i, j :: 0 <= i < |ids| && 0 <= j < |xs| ==> ids[i] < xs[j]
    requires forall i, j :: 0 <= i < j < |xs| ==> xs[i] != xs[j]
    ensures Sorted(row.versions[..row.size])
    ensures forall j :: 0 <= j < |ids| - n ==> row.versions[j] == ids[n + j]
    ensures forall j :: |ids| - n <= j < row.size ==> row.versions[j] in xs
    ensures forall i, j :: |ids| - n <= i < j < row.size ==> row.versions[i] < row.versions[j]
    ensures forall x :: x in xs ==> exists j :: |ids| - n <= j < row.size && row.versions[j] == x
  {
    hide InsertAll, Sorted;
    SplitRow(ids, n, xs);
    var base, new_ := |ids| - n, InsertAll([], xs);
    AppendedAt(row.versions, row.size, ids, n, new_);
    forall j | base <= j < row.size ensures row.versions[j] in xs { assert new_[j - base] in multiset(new_); }
    forall i: nat, j: nat | base <= i < j < row.size ensures row.versions[i] < row.versions[j] {
      DistinctSorted(new_, xs, i - base, j - base);
    }
    forall x | x in xs ensures exists j :: base <= j < row.size && row.versions[j] == x {
      assert x in multiset(new_);
      var j :| 0 <= j < |new_| && new_[j] == x;
      assert row.versions[base + j] == x;
    }
  }

  /** Such a row is what serializability asks of the start of an execution phase, if no object word
      and no word above the size happens to equal a serial id of the batch. */
  lemma AppendedRowOk(p: Plan, k: nat, ids: seq<nat>, objs: seq<nat>, n: nat, xs: seq<nat>)
    requires k < |p.rows| == |p.base| == |p.init| && AppendedRow(p.rows[k], ids, objs, n, xs)
             && WritersOf(p.batch, k, xs)
    requires forall i, t :: 0 <= i < |ids| && 0 <= t < |p.batch| ==> ids[i] < p.batch[t].sid
    requires p.base[k] == |ids| - n && (p.base[k] > 0 ==> objs[|ids| - 1] == p.init[k] && !IsPendingVal(p.init[k]))
    requires !IsSid(p.batch, p.rows[k].objects[0])
    requires p.rows[k].size < |p.rows[k].versions| ==> !IsSid(p.batch, p.rows[k].versions[p.rows[k].size])
    ensures RowOk(p, k)
  {
    hide Writes, IsSid, IsPendingVal, InsertAll, Sorted;
    var row, base := p.rows[k], p.base[k];
    forall i, j | 0 <= i < |ids| && 0 <= j < |xs| ensures ids[i] < xs[j] {
      assert xs[j] in xs && IsWriter(p.batch, k, xs[j]);
    }
    AppendedIds(row, ids, objs, n, xs);
    AppendedObjects(row, ids, objs, n, xs);
    forall j: nat | base <= j < row.size ensures Owned(p, k, j) {
      assert IsWriter(p.batch, k, row.versions[j]);
      var t :| 0 <= t < |p.batch| && p.batch[t].sid == row.versions[j] && Writes(p.batch[t].ops, k);
      assert SlotOf(p, k, j, t);
    }
    forall t: nat | t < |p.batch| && Writes(p.batch[t].ops, k) ensures HasSlot(p, k, t) {
      assert p.batch[t].sid in xs;
      var j :| |ids| - n <= j < row.size && row.versions[j] == p.batch[t].sid;
      assert SlotOf(p, k, j, t);
    }
  }

  lemma AppendedObjects(row: Row, ids: seq<nat>, objs: seq<nat>, n: nat, xs: seq<nat>)
    requires AppendedRow(row, ids, objs, n, xs)
    ensures forall j :: |ids| - n <= j < row.size ==> IsPendingVal(row.objects[j])
    ensures |ids| > n ==> row.objects[|ids| - n - 1] == objs[|ids| - 1]
  {
    hide InsertAll;
    var all := row.objects[..row.size];
    forall j | |ids| - n <= j < row.size ensures row.objects[j] == PENDING_VALUE {
      assert row.objects[j] == all[j] == Pendings(|xs|)[j - (|ids| - n)];
    }
    assert |ids| > n ==> row.objects[|ids| - n - 1] == all[|ids| - n - 1];
  }

  /** Flushing a batch into a row of the class leaves such a row. */
  method FlushStart(h: SortedArrayVHandle, buf: array<nat>, cnt: nat, epoch: nat, memory: Memory) returns (ghost n: nat)
    requires h.Valid() && 0 < cnt <= MAX_BATCH && cnt <= buf.Length && h.size + cnt < 0x8000_0000
    requires h.latest_version == h.size - 1 && EarlierWritten(h.Ids(), h.latest_version, epoch)
    requires h.latest_version >= 0 ==> forall k :: 0 <= k < cnt ==> h.Ids()[h.latest_version] < buf[k]
    modifies h, buf
    ensures h.Valid() && n <= |old(h.Ids())|
    ensures AppendedRow(h.State(), old(h.Ids()), old(h.Objs()), n, old(buf[..cnt]))
  {
    hide InsertAll, ReadsKept, DropCount, EarlierWritten, Sorted;
    n := h.FlushBatch(buf, cnt, epoch, memory);
  }

  /** So does appending one id after the other. */
  method AppendStart(h: SortedArrayVHandle, sids: seq<nat>, epoch: nat, memory: Memory) returns (ghost n: nat)
    requires h.Valid() && 0 < |sids| && h.size + |sids| < 0x8000_0000
    requires h.latest_version == h.size - 1 && EarlierWritten(h.Ids(), h.latest_version, epoch)
    requires NewAbove(h.Ids(), h.latest_version, sids) && forall j :: 0 <= j < |sids| ==> Epoch(sids[j]) >= epoch
    modifies h
    ensures h.Valid() && n <= |old(h.Ids())|
    ensures AppendedRow(h.State(), old(h.Ids()), old(h.Objs()), n, sids)
  {
    hide InsertAll, DropCount, EarlierWritten, Sorted, Was.CollectsTwice;
    n := h.AppendAll(sids, epoch, memory);
  }

  /** So do the version buffers, when every core's last scan has met no position that was just being
      installed. Objects are where every append leaves them. */
  lemma FinalizedStart(cfg: B.Config, run: seq<B.State>, i: nat, b: seq<nat>, e: seq<nat>, appended: seq<seq<nat>>,
                       r: nat, row: Row, objs: seq<nat>)
    requires B.IsRun(cfg, run) && i < |run| && |b| == |e| == |cfg.zone|
    requires |appended| == |cfg.init| == |run[i].begun| == |run[i].rows| == |run[i].cut| && r < |cfg.init|
    requires forall c :: 0 <= c < |cfg.zone| ==> F.IsLastScan(run, c, b[c], e[c], i)
    requires forall q :: 0 <= q < |cfg.init| ==> multiset(appended[q]) == run[i].begun[q]
    requires forall c, k :: 0 <= c < |cfg.zone| && b[c] < k < e[c] ==> !F.SkipsAt(run, c, k)
    requires |row.versions| == |row.objects| && row.size <= |row.versions|
    requires row.versions[..row.size] == run[i].rows[r] && run[i].rows[r] != [] && |objs| == |cfg.init[r]|
    requires var n := run[i].cut[r];
             && n <= |objs| && row.objects[..row.size] == objs[n..] + Pendings(|appended[r]|)
             && row.latest == |objs| - n - 1 && row.curStart == row.latest + 1
    ensures AppendedRow(row, cfg.init[r], objs, run[i].cut[r], appended[r])
  {
    F.FinalizedRows(cfg, run, i, b, e, appended);
    assert B.ConfigOk(cfg);
    hide B.IsRun, F.IsLastScan, F.SkipsAt, InsertAll;
  }
}
