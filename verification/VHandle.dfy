/** The multi-version row of vhandle.cc: sorted version ids and a parallel array of objects,
    the two halves of one allocation of 2 * capacity words, together with GC::Collect of gc.cc. */
module VHandle {
  import opened Basics
  import opened LowerBound
  import opened VersionSeq
  import opened RowLookup
  import opened RowGc
  import opened RowDrops
  import Merge

  class SortedArrayVHandle {
    const addr: nat               // address of the row itself, where inlined data lives
    var capacity: nat
    var size: nat
    var cur_start: nat
    var latest_version: int       // offset of the latest written version, -1 for none
    var gc_handle: bool           // registered with the garbage collector
    var versions: seq<nat>        // the first half of the row's memory: version ids
    var objects: seq<nat>         // the second half, `versions + capacity` in the source

    ghost predicate Layout()
      reads this
    {
      && |versions| == capacity && |objects| == capacity
      && 1 <= capacity < TWO_32 && PowerOfTwo(capacity)
      && size <= capacity
      && cur_start < TWO_32
    }

    ghost function Ids(): (s: seq<nat>)
      requires Layout()
      reads this
      ensures |s| == size
    {
      versions[..size]
    }

    ghost function Objs(): (s: seq<nat>)
      requires Layout()
      reads this
      ensures |s| == size
    {
      objects[..size]
    }

    /** The row invariant. Objects never move when ids are merged in, so it is essential
        that everything above `latest_version` is still pending. */
    ghost predicate Valid()
      reads this
    {
      && Layout()
      && -1 <= latest_version < size
      && Sorted(Ids())
      && PendingAbove(Objs(), latest_version)
    }

    constructor (addr: nat, memory: Memory)
      ensures Valid() && this.addr == addr && size == 0 && capacity == 4
      ensures latest_version == -1 && cur_start == 0 && !gc_handle
    {
      this.addr := addr;
      capacity := 4;
      assert Pow2(2) == 2 * Pow2(1) == 4;
      size := 0;
      cur_start := 0;
      gc_handle := false;
      latest_version := -1;
      versions := Words(4, memory);
      objects := Words(4, memory);
    }

    /** GC::IsDataGarbage: data living inside the row is not garbage. */
    predicate IsDataGarbage(data: nat)
    {
      data != 0 && !(addr < data < addr + 256)
    }

    /** The counting loop of GC::Collect. */
    method CountCollectable(epoch: nat, limit: nat) returns (i: nat)
      requires Layout() && 1 <= size
      ensures i == CollectLen(Ids(), epoch, limit) && i < size
    {
      i := 0;
      ghost var ids := Ids();
      while i < size - 1 && i < limit && Epoch(versions[i + 1]) < epoch
        invariant i < size && i <= limit
        invariant CollectLen(ids, epoch, limit) == i + CollectLen(ids[i..], epoch, limit - i)
      {
        assert ids[i..][1] == versions[i + 1];
        assert ids[i..][1..] == ids[i + 1..];
        i := i + 1;
      }
      assert i + 1 < size ==> ids[i..][1] == versions[i + 1];
    }

    /** GC::Collect. `size` may already cover slots that are not booked yet. */
    method Collect(epoch: nat, limit: nat) returns (i: nat)
      requires Layout() && 1 <= size
      modifies this`size, this`cur_start, this`latest_version, this`versions, this`objects
      ensures Layout()
      ensures i == CollectLen(old(Ids()), epoch, limit) && i < old(size)
      ensures size == old(size) - i && Ids() == old(Ids())[i..] && Objs() == old(Objs())[i..]
      ensures latest_version == old(latest_version) - i
      ensures cur_start == WrapSub(old(cur_start), i)
    {
      i := CountCollectable(epoch, limit);
      if i == 0 { return; }
      objects := objects[i..size] + objects[size - i..];
      versions := versions[i..size] + versions[size - i..];
      size := size - i;
      cur_start := WrapSub(cur_start, i);
      latest_version := latest_version - i;
    }

    /** EnlargePair64Array: both halves are copied to the halves of a larger array, whose
        other words are whatever `memory` holds. */
    method Enlarge(newCap: nat, memory: Memory)
      requires Layout() && capacity < newCap < TWO_32 && PowerOfTwo(newCap)
      modifies this`versions, this`objects, this`capacity
      ensures Layout() && capacity == newCap && Ids() == old(Ids()) && Objs() == old(Objs())
    {
      var rest := Words(newCap - capacity, memory);
      versions := versions + rest;
      objects := objects + rest;
      capacity := newCap;
    }

    /** IncreaseSize: make room for `delta` more versions, dropping `n` old ones on the way.
        The new slots hold pending objects; their ids are booked by the caller. */
    method IncreaseSize(delta: nat, epoch: nat, memory: Memory) returns (ghost n: nat)
      requires Layout() && -1 <= latest_version < size && 0 < delta <= MAX_BATCH
      requires size + delta < 0x8000_0000
      requires EarlierWritten(Ids(), latest_version, epoch)
      modifies this
      ensures Layout()
      ensures n == DropCount(old(Ids()), old(latest_version), old(capacity), old(cur_start), old(gc_handle), delta,
                             epoch)
      ensures 0 < n ==> n <= old(latest_version) && Epoch(old(Ids())[n]) < epoch
      ensures n <= old(size) && size == old(size) - n + delta
      ensures Ids()[..size - delta] == old(Ids())[n..]
      ensures Objs() == old(Objs())[n..] + Pendings(delta)
      ensures latest_version == old(latest_version) - n && cur_start == latest_version + 1
      ensures capacity == RoomFor(old(Ids()), old(capacity), delta, epoch)
      ensures gc_handle == old(Before()).RegisteredAfter(delta, epoch, addr, latest_version, Objs())
      ensures old(Sorted(Ids())) ==>
              SameReads(old(Ids()), old(Objs()), Ids()[..size - delta], Objs()[..size - delta], epoch)
    {
      hide Was.RegisteredAfter;
      hide Layout, Ids, Objs, EarlierWritten, SameReads, Sorted, Epoch, DropCount, RoomFor;
      n := MakeRoom(delta, epoch, memory);
      assert Objs()[..size - delta] == old(Objs())[n..];
      if Sorted(old(Ids())) { DropSameReads(old(Ids()), old(Objs()), n, epoch); }
    }

    /** The three parts of IncreaseSize. */
    method MakeRoom(delta: nat, epoch: nat, memory: Memory) returns (ghost n: nat)
      requires Layout() && -1 <= latest_version < size && 0 < delta <= MAX_BATCH
      requires size + delta < 0x8000_0000
      requires EarlierWritten(Ids(), latest_version, epoch)
      modifies this
      ensures Layout()
      ensures n == DropCount(old(Ids()), old(latest_version), old(capacity), old(cur_start), old(gc_handle), delta,
                             epoch)
      ensures 0 < n ==> n <= old(latest_version) && Epoch(old(Ids())[n]) < epoch
      ensures n <= old(size) && size == old(size) - n + delta
      ensures Ids()[..size - delta] == old(Ids())[n..]
      ensures Objs() == old(Objs())[n..] + Pendings(delta)
      ensures latest_version == old(latest_version) - n && cur_start == latest_version + 1
      ensures capacity == RoomFor(old(Ids()), old(capacity), delta, epoch)
      ensures gc_handle == old(Before()).RegisteredAfter(delta, epoch, addr, latest_version, Objs())
    {
      hide StaysRegistered, Was.RegisteredAfter, DropCount;
      hide PowerOfTwo, Room, RoomFor, Layout, Ids, Objs, EarlierWritten, IsPendingVal;
      hide OverflowDrop, RefreshDrop, Epoch, WrapSub;
      ghost var was := Before();
      ghost var o := CollectAndGrow(delta, epoch, memory);
      ghost var kept := was.ids[o..];
      assert Ids()[..|kept|] == kept;
      ghost var m := Refresh(epoch, |kept|);
      SliceTwice(was.ids, o, m);
      SliceAppend(was.objs, Pendings(delta), o, m);
      DropParts(was, delta, epoch, addr, latest_version, Objs());
      n := o + m;
    }

    /** The first two parts of IncreaseSize. */
    method CollectAndGrow(delta: nat, epoch: nat, memory: Memory) returns (ghost n: nat)
      requires Layout() && -1 <= latest_version < size && 0 < delta <= MAX_BATCH && size + delta < 0x8000_0000
      requires EarlierWritten(Ids(), latest_version, epoch)
      modifies this`size, this`cur_start, this`latest_version, this`versions, this`objects, this`capacity
      ensures Layout() && capacity == RoomFor(old(Ids()), old(capacity), delta, epoch)
      ensures n == OverflowDrop(old(Ids()), old(capacity), delta, epoch)
      ensures 0 < n ==> n <= old(latest_version) && Epoch(old(Ids())[n]) < epoch
      ensures n <= old(size) && size == old(size) - n + delta
      ensures Ids()[..size - delta] == old(Ids())[n..] && Objs() == old(Objs())[n..] + Pendings(delta)
      ensures latest_version == old(latest_version) - n && cur_start == WrapSub(old(cur_start), n)
    {
      hide Layout, Ids, Objs, EarlierWritten, IsPendingVal, OverflowDrop, Epoch, WrapSub, Room;
      n := CollectOnOverflow(delta, epoch);
      GrowAndFill(delta, memory);
    }

    /** The opening of IncreaseSize: a row of at least 512_K slots collects before growing. */
    method CollectOnOverflow(delta: nat, epoch: nat) returns (n: nat)
      requires Layout() && -1 <= latest_version < size && delta <= MAX_BATCH
      requires EarlierWritten(Ids(), latest_version, epoch)
      modifies this`size, this`cur_start, this`latest_version, this`versions, this`objects
      ensures Layout()
      ensures n == OverflowDrop(old(Ids()), old(capacity), delta, epoch)
      ensures 0 < n ==> n <= old(latest_version) && Epoch(old(Ids())[n]) < epoch
      ensures n <= old(size) && size == old(size) - n
      ensures Ids() == old(Ids())[n..] && Objs() == old(Objs())[n..]
      ensures latest_version == old(latest_version) - n && cur_start == WrapSub(old(cur_start), n)
    {
      n := 0;
      if size + delta > capacity && capacity >= GC_CAPACITY {
        CollectLenBounds(Ids(), epoch, GC_BATCH);
        n := Collect(epoch, GC_BATCH);
        assert n > 0 ==> Epoch(old(Ids())[n]) < epoch;
      }
    }

    /** The middle of IncreaseSize: grow the array if needed and mark the new slots pending. */
    method GrowAndFill(delta: nat, memory: Memory)
      requires Layout() && 0 < delta && size + delta < 0x8000_0000
      modifies this`size, this`versions, this`objects, this`capacity
      ensures Layout() && size == old(size) + delta
      ensures capacity == Room(old(capacity), size)
      ensures Ids()[..old(size)] == old(Ids())
      ensures Objs() == old(Objs()) + Pendings(delta)
    {
      hide PowerOfTwo, Room;
      Grow(size + delta, memory);
      Fill(delta);
    }

    method Grow(needed: nat, memory: Memory)
      requires Layout() && 0 < needed < 0x8000_0000
      modifies this`versions, this`objects, this`capacity
      ensures Layout() && capacity == Room(old(capacity), needed) && Ids() == old(Ids()) && Objs() == old(Objs())
    {
      hide PowerOfTwo;
      if needed > capacity {
        RoomIsPower(capacity, needed);
        Enlarge(GrownCapacity(needed), memory);
      }
    }

    method Fill(delta: nat)
      requires Layout() && size + delta <= capacity
      modifies this`size, this`objects
      ensures Layout() && size == old(size) + delta
      ensures Ids()[..old(size)] == old(Ids()) && Objs() == old(Objs()) + Pendings(delta)
    {
      hide PowerOfTwo;
      objects := objects[..size] + Pendings(delta) + objects[size + delta..];
      size := size + delta;
    }

    /** The closing part of IncreaseSize, run when the row was written since its last append:
        move `cur_start`, collect if registered, and register again if garbage is left. */
    method Refresh(epoch: nat, ghost booked: nat) returns (ghost m: nat)
      requires Layout() && -1 <= latest_version < booked <= size
      modifies this`size, this`cur_start, this`latest_version, this`gc_handle, this`versions, this`objects
      ensures Layout()
      ensures m == RefreshDrop(old(Ids())[..booked], old(latest_version), old(cur_start), old(gc_handle), epoch)
      ensures 0 < m ==> m <= old(latest_version) && Epoch(old(Ids())[m]) < epoch
      ensures m <= booked && size == old(size) - m
      ensures Ids()[..booked - m] == old(Ids())[..booked][m..] && Objs() == old(Objs())[m..]
      ensures latest_version == old(latest_version) - m && cur_start == latest_version + 1
      ensures gc_handle == StaysRegistered(old(gc_handle), old(cur_start), old(latest_version), latest_version, Objs(),
                                           addr)
    {
      hide PowerOfTwo;
      m := 0;
      var latest := latest_version;
      if cur_start != latest + 1 {
        cur_start := latest + 1;
        var garbageLeft := latest >= GC_BATCH;
        m := CollectRegistered(epoch, booked);
        latest := latest_version;
        if !garbageLeft && latest >= 0 && IsDataGarbage(objects[latest]) {
          garbageLeft := true;
        }
        if garbageLeft { gc_handle := true; }
      }
    }

    /** A row registered for GC is collected up to its latest version and removed from the register. */
    method CollectRegistered(epoch: nat, ghost booked: nat) returns (ghost m: nat)
      requires Layout() && -1 <= latest_version < booked <= size && cur_start == latest_version + 1
      modifies this`size, this`cur_start, this`latest_version, this`gc_handle, this`versions, this`objects
      ensures Layout()
      ensures m == if old(gc_handle) && old(latest_version) > 0
                   then CollectLen(old(Ids())[..booked], epoch, Min(GC_BATCH, old(latest_version))) else 0
      ensures 0 < m ==> m <= old(latest_version) && Epoch(old(Ids())[m]) < epoch
      ensures m <= booked && size == old(size) - m
      ensures Ids()[..booked - m] == old(Ids())[..booked][m..] && Objs() == old(Objs())[m..]
      ensures latest_version == old(latest_version) - m && cur_start == latest_version + 1 && !gc_handle
    {
      hide CollectLen, Epoch, PowerOfTwo;
      m := 0;
      var latest := latest_version;
      if gc_handle {
        if latest > 0 {
          CollectLenBounds(Ids(), epoch, Min(GC_BATCH, latest));
          CollectLenPrefix(Ids(), booked, epoch, Min(GC_BATCH, latest));
          m := Collect(epoch, Min(GC_BATCH, latest));
        }
        gc_handle := false;
      }
    }

    /** AppendNewVersionNoLock: a single version, booked at the end and absorbed. */
    method AppendNewVersion(sid: nat, epoch: nat, memory: Memory) returns (ghost n: nat)
      requires Valid() && size + 1 < 0x8000_0000
      requires EarlierWritten(Ids(), latest_version, epoch)
      requires latest_version >= 0 ==> Ids()[latest_version] < sid
      modifies this
      ensures Valid()
      ensures n == DropCount(old(Ids()), old(latest_version), old(capacity), old(cur_start), old(gc_handle), 1, epoch)
      ensures 0 < n ==> n <= old(latest_version) && Epoch(old(Ids())[n]) < epoch
      ensures n <= old(size) && Ids() == Insert(old(Ids())[n..], sid)
      ensures Objs() == old(Objs())[n..] + Pendings(1)
      ensures latest_version == old(latest_version) - n && cur_start == latest_version + 1
      ensures capacity == RoomFor(old(Ids()), old(capacity), 1, epoch)
      ensures gc_handle == old(Before()).RegisteredAfter(1, epoch, addr, latest_version, Objs())
      ensures ReadsKept(old(Ids()), old(Objs()), Ids(), Objs(), [sid], epoch)
    {
      hide Was.RegisteredAfter;
      hide Layout, Ids, Objs, Sorted, PendingAbove, EarlierWritten, DropCount, Epoch, SameReads, ReadsKept,
        RoomFor;
      assert NewAbove(Ids(), latest_version, [sid]);
      n := IncreaseSize(1, epoch, memory);
      TailSorted(old(Ids()), n);
      AbsorbBooked(sid);
      PendingAppended(old(Objs()), old(latest_version), n, 1);
      AppendKeepsReads(old(Ids()), old(Objs()), old(latest_version), n, [sid], epoch);
      InsertOne(old(Ids())[n..], sid);
    }

    ghost function Before(): Was
      requires Layout()
      reads this
    {
      Was(Ids(), Objs(), latest_version, capacity, cur_start, gc_handle)
    }

    /** The same versions one append at a time. Exactly as many old versions go as when the batch is
        flushed, unless the flush collects twice. */
    method AppendAll(sids: seq<nat>, epoch: nat, memory: Memory) returns (ghost n: nat)
      requires Valid() && 0 < |sids| && size + |sids| < 0x8000_0000
      requires EarlierWritten(Ids(), latest_version, epoch) && NewAbove(Ids(), latest_version, sids)
      requires forall j :: 0 <= j < |sids| ==> Epoch(sids[j]) >= epoch
      modifies this
      ensures Valid() && MayDrop(old(Ids()), old(latest_version), n, epoch)
      ensures Appended(old(Ids()), old(Objs()), old(latest_version), n, sids, Ids(), Objs(), latest_version)
      ensures latest_version == old(latest_version) - n && cur_start == latest_version + 1
      ensures |sids| <= MAX_BATCH ==>
                (n == old(Before()).FlushDrop(|sids|, epoch) <==> !old(Before()).CollectsTwice(|sids|, epoch))
      ensures |sids| <= MAX_BATCH && old(Before()).CollectsTwice(|sids|, epoch) ==> n == GC_BATCH
    {
      hide Was.RegisteredAfter;
      hide Layout, Ids, Objs, Sorted, PendingAbove, EarlierWritten, DropCount, Epoch, ReadsKept, RoomFor;
      hide NewAbove, Going, MayDrop, Appended, Drops, PowerOfTwo, Was.CollectsTwice;
      ghost var was := Before();
      LayoutPower();
      GoingStarts(was, sids, epoch);
      DropsFirst(was, |sids|, sids[0], epoch);
      GoingNext(was, sids, 0, epoch, 0, was.ids, was.objs, was.latest);
      n := AppendNewVersion(sids[0], epoch, memory);
      MayDropThese(was.ids, was.latest, n, epoch);
      GoingStep(was, sids, 0, epoch, 0, was.ids, was.objs, was.latest, n);
      n := AppendRest(was, sids, epoch, memory, n);
      GoingEnds(was, sids, epoch, n, Ids(), Objs(), latest_version);
      if |sids| <= MAX_BATCH { DropsEnd(was, |sids|, epoch, n, Ids(), capacity); }
    }

    /** All but the first. */
    method AppendRest(ghost was: Was, sids: seq<nat>, epoch: nat, memory: Memory, ghost n0: nat) returns (ghost n: nat)
      requires Valid() && 0 < |sids| && |was.ids| + |sids| < 0x8000_0000 && cur_start == latest_version + 1
      requires forall j :: 0 <= j < |sids| ==> Epoch(sids[j]) >= epoch
      requires Going(was, sids, 1, epoch, n0, Ids(), Objs(), latest_version)
      requires |sids| <= MAX_BATCH ==> Drops(was, |sids|, epoch, n0, Ids(), capacity, |sids| - 1)
      modifies this
      ensures Valid() && cur_start == latest_version + 1
      ensures Going(was, sids, |sids|, epoch, n, Ids(), Objs(), latest_version)
      ensures |sids| <= MAX_BATCH ==> Drops(was, |sids|, epoch, n, Ids(), capacity, 0)
    {
      hide Was.RegisteredAfter;
      hide Layout, Ids, Objs, Sorted, PendingAbove, EarlierWritten, DropCount, Epoch, ReadsKept, RoomFor;
      hide NewAbove, Going, MayDrop, Appended, Drops, PowerOfTwo;
      n := n0;
      var i := 1;
      while i < |sids|
        invariant 1 <= i <= |sids| && Valid() && cur_start == latest_version + 1
        invariant Going(was, sids, i, epoch, n, Ids(), Objs(), latest_version)
        invariant |sids| <= MAX_BATCH ==> Drops(was, |sids|, epoch, n, Ids(), capacity, |sids| - i)
      {
        ghost var ids, objs, latest, cap := Ids(), Objs(), latest_version, capacity;
        GoingNext(was, sids, i, epoch, n, ids, objs, latest);
        LayoutPower();
        if |sids| <= MAX_BATCH {
          DropsStep(was, |sids|, epoch, n, ids, latest, cap, gc_handle, |sids| - i, sids[i]);
        }
        ghost var m := AppendNewVersion(sids[i], epoch, memory);
        MayDropThese(ids, latest, m, epoch);
        GoingStep(was, sids, i, epoch, n, ids, objs, latest, m);
        n := n + m;
        i := i + 1;
      }
    }

    lemma LayoutPower()
      requires Layout()
      ensures PowerOfTwo(capacity) && size <= capacity && cur_start < TWO_32
    {}

    /** Book `sid` in the last slot and absorb it. */
    method AbsorbBooked(sid: nat)
      requires Layout() && 0 < size && Sorted(Ids()[..size - 1])
      modifies this`versions
      ensures Layout() && Ids() == Insert(old(Ids())[..size - 1], sid) && Sorted(Ids()) && Objs() == old(Objs())
    {
      hide Sorted, Insert, Merge.Splits;
      ghost var s := Ids()[..size - 1];
      var a := VersionArray();
      a[size - 1] := sid;
      assert a[..size - 1] == s;
      var i := Merge.Absorb(a, size - 1, 0);
      assert a[..size] == a[..i] + a[i..size];
      assert s[i..] == versions[i..size - 1];
      AbsorbedIsInsert(s, sid, i, a[..size]);
      versions := a[..];
    }

    /** The flush of a batch: IncreaseSize for all of it, then FlushIntoNoLock. */
    method FlushBatch(buf: array<nat>, cnt: nat, epoch: nat, memory: Memory) returns (ghost n: nat)
      requires Valid() && 0 < cnt <= MAX_BATCH && cnt <= buf.Length && size + cnt < 0x8000_0000
      requires EarlierWritten(Ids(), latest_version, epoch)
      requires latest_version >= 0 ==> forall k :: 0 <= k < cnt ==> Ids()[latest_version] < buf[k]
      modifies this, buf
      ensures Valid()
      ensures n == DropCount(old(Ids()), old(latest_version), old(capacity), old(cur_start), old(gc_handle), cnt, epoch)
      ensures 0 < n ==> n <= old(latest_version) && Epoch(old(Ids())[n]) < epoch
      ensures n <= old(size) && Ids() == InsertAll(old(Ids())[n..], old(buf[..cnt]))
      ensures Objs() == old(Objs())[n..] + Pendings(cnt)
      ensures latest_version == old(latest_version) - n && cur_start == latest_version + 1
      ensures gc_handle == old(Before()).RegisteredAfter(cnt, epoch, addr, latest_version, Objs())
      ensures ReadsKept(old(Ids()), old(Objs()), Ids(), Objs(), old(buf[..cnt]), epoch)
    {
      hide Was.RegisteredAfter;
      hide Layout, Ids, Objs, Sorted, PendingAbove, EarlierWritten, DropCount, Epoch, InsertAll, SameReads, ReadsKept;
      assert NewAbove(Ids(), latest_version, buf[..cnt]);
      n := IncreaseSize(cnt, epoch, memory);
      TailSorted(old(Ids()), n);
      FlushBooked(buf, cnt);
      PendingAppended(old(Objs()), old(latest_version), n, cnt);
      AppendKeepsReads(old(Ids()), old(Objs()), old(latest_version), n, old(buf[..cnt]), epoch);
    }

    /** FlushIntoNoLock, given room for the batch above the booked ids. */
    method FlushBooked(buf: array<nat>, cnt: nat)
      requires Layout() && cnt <= buf.Length && cnt <= size && Sorted(Ids()[..size - cnt])
      modifies this`versions, buf
      ensures Layout() && Ids() == InsertAll(old(Ids())[..size - cnt], old(buf[..cnt]))
      ensures Sorted(Ids()) && Objs() == old(Objs())
    {
      hide Sorted, InsertAll;
      var a := VersionArray();
      assert a[..size - cnt] == Ids()[..size - cnt];
      Merge.FlushInto(a, size - cnt, buf, cnt);
      versions := a[..];
    }

    ghost function State(): Row
      reads this
    {
      Row(versions, objects, size, cur_start, latest_version)
    }

    /** std::lower_bound(versions + start, versions + end, sid). */
    method SearchIds(start: nat, end: nat, sid: nat) returns (p: nat)
      requires Layout() && start <= end <= size && Sorted(Ids())
      ensures p == Below(versions[start..end], sid)
    {
      SliceOfPrefix(versions, size, start, end);
      PartSorted(Ids(), start, end);
      p := StdLowerBound(versions[start..end], sid);
      LowerBoundIsBelow(versions[start..end], sid, p);
    }

    /** WithVersion, with `std::lower_bound` on the part of the ids that the hints leave. */
    method WithVersion(sid: nat) returns (r: Lookup)
      requires Valid() && 0 < size && State().HintsFit(sid)
      ensures r == State().ReadSlot(sid)
      ensures !(latest_version == 0 && sid <= versions[0]) ==> r == Row.Before(Below(Ids(), sid))
    {
      hide Below, Sorted, PendingAbove, Row.HintsFit;
      HintStart(State(), sid);
      ReadSlotCorrect(State(), sid);
      var latest := latest_version;
      var start, end := cur_start, size;
      if latest >= 0 && sid > versions[latest] {
        start := latest + 1;
        if start >= size || sid <= versions[start] { return At(start - 1); }
      } else if latest >= 0 {
        end := latest;
        if end == 0 { return Stray(-1); }
        if versions[end - 1] < sid { return At(end - 1); }
        HintBelow(State(), sid, end);
      }
      var p := SearchIds(start, end, sid);
      if start + p == 0 { return Missing; }
      r := At(start + p - 1);
    }

    /** WriteWithVersion: find the slot, store the object, raise `latest_version`, and register the
        row for collection when a later version makes the object garbage. A version that is not there
        aborts; what a stray write does to the row is not modelled. */
    method WriteWithVersion(sid: nat, obj: nat) returns (r: Lookup)
      requires Valid() && 0 < size && State().HintsFit(sid) && !IsPendingVal(obj)
      modifies this`objects, this`latest_version, this`gc_handle
      ensures r == old(State()).WriteSlot(sid)
      ensures !r.At? ==> objects == old(objects) && latest_version == old(latest_version)
      ensures gc_handle <==> old(gc_handle) || (r.At? && r.pos != size - 1 && obj != 0 && !(addr < obj < addr + 256))
      ensures r.At? ==> r.pos < size && objects == old(objects)[r.pos := obj]
      ensures r.At? ==> latest_version == if r.pos > old(latest_version) then r.pos else old(latest_version)
      ensures Valid()
    {
      hide Below, Sorted, PendingAbove, IsPendingVal;
      var it := latest_version + 1;
      var word := if it < capacity then versions[it] else objects[0];
      if word == sid {
        if it >= size { return Stray(it); }
      } else {
        var p := SearchIds(cur_start, size, sid);
        it := cur_start + p;
        if it == size || versions[it] != sid { return Missing; }
      }
      WrittenPending(Objs(), latest_version, it, obj);
      assert objects[it := obj][..size] == objects[..size][it := obj];
      objects := objects[it := obj];
      if it > latest_version { latest_version := it; }
      if it != size - 1 && IsDataGarbage(obj) { gc_handle := true; }
      r := At(it);
    }

    /** The ids half of the row's memory, as the array that is merged in place. */
    method VersionArray() returns (a: array<nat>)
      requires Layout()
      ensures fresh(a) && a.Length == capacity && a[..] == versions
    {
      a := new nat[capacity];
      forall k | 0 <= k < capacity { a[k] := versions[k]; }
    }
  }

  lemma InsertOne(s: seq<nat>, x: nat)
    ensures InsertAll(s, [x]) == Insert(s, x)
  {
    assert [x][1..] == [];
  }

  /** What is dropped to make room, and the registration, part by part. */
  lemma DropParts(was: Was, cnt: nat, epoch: nat, addr: nat, latest': int, objs': seq<nat>)
    ensures var o := OverflowDrop(was.ids, was.capacity, cnt, epoch);
            && o <= |was.ids|
            && DropCount(was.ids, was.latest, was.capacity, was.curStart, was.registered, cnt, epoch)
               == o + RefreshDrop(was.ids[o..], was.latest - o, WrapSub(was.curStart, o), was.registered, epoch)
            && was.RegisteredAfter(cnt, epoch, addr, latest', objs')
               == StaysRegistered(was.registered, WrapSub(was.curStart, o), was.latest - o, latest', objs', addr)
  {}

  lemma SliceTwice(s: seq<nat>, n: nat, m: nat)
    requires n + m <= |s|
    ensures s[n..][m..] == s[n + m..]
  {}

  lemma SliceAppend(s: seq<nat>, t: seq<nat>, n: nat, m: nat)
    requires n + m <= |s|
    ensures (s[n..] + t)[m..] == s[n + m..] + t
  {}

  lemma WrittenPending(objs: seq<nat>, latest: int, it: nat, obj: nat)
    requires PendingAbove(objs, latest) && it < |objs|
    ensures PendingAbove(objs[it := obj], if it > latest then it else latest)
  {}

  lemma AbsorbedIsInsert(s: seq<nat>, sid: nat, i: nat, r: seq<nat>)
    requires Sorted(s) && Merge.Splits(s, sid, i) && r == s[..i] + [sid] + s[i..]
    ensures Sorted(r) && r == Insert(s, sid)
  {
    assert s == s[..i] + s[i..];
    InsertSorted(s, sid);
    SortedUnique(r, Insert(s, sid));
  }

  /** A flush keeps every written (id, object) pair, in order, and leaves every new id pending. */
  lemma FlushKeepsPairs(ids: seq<nat>, objs: seq<nat>, latest: int, n: nat, xs: seq<nat>)
    requires Sorted(ids) && |ids| == |objs| && -1 <= latest < |ids| && n <= latest + 1
    requires PendingAbove(objs, latest)
    requires latest >= 0 ==> forall j :: 0 <= j < |xs| ==> ids[latest] < xs[j]
    ensures var ids', objs' := InsertAll(ids[n..], xs), objs[n..] + Pendings(|xs|);
            && Sorted(ids') && multiset(ids') == multiset(ids[n..]) + multiset(xs)
            && (forall k :: n <= k <= latest ==> ids'[k - n] == ids[k] && objs'[k - n] == objs[k])
            && (forall k :: 0 <= k < |ids'| && ids'[k] in xs ==> IsPendingVal(objs'[k]))
  {
    TailSorted(ids, n);
    InsertAllSorted(ids[n..], xs);
    PendingAppended(objs, latest, n, |xs|);
    hide InsertAll, IsPendingVal, Sorted;
    forall k: nat | n <= k <= latest
      ensures InsertAll(ids[n..], xs)[k - n] == ids[k] && InsertAll(ids[n..], xs)[k - n] !in xs
    {
      WrittenStays(ids, latest, n, xs, k);
    }
    var ids' := InsertAll(ids[n..], xs);
    forall k: nat | k <= latest - n ensures ids'[k] !in xs {
      assert ids'[k] == ids'[(k + n) - n];
    }
  }

  /** A written id keeps its place counted from the first one kept, and is none of the new ones. */
  lemma WrittenStays(ids: seq<nat>, latest: int, n: nat, xs: seq<nat>, k: nat)
    requires Sorted(ids) && -1 <= latest < |ids| && n <= k <= latest
    requires NewAbove(ids, latest, xs)
    ensures InsertAll(ids[n..], xs)[k - n] == ids[k] && InsertAll(ids[n..], xs)[k - n] !in xs
  {
    OldIdAt(ids, latest, n, xs, k - n);
    assert ids[k] <= ids[latest];
  }

  /** A batch flushed into a row and the same ids appended one at a time, in any order, leave the same
      ids, objects and latest version, if as many old versions were dropped. */
  lemma FlushIsAppends(ids: seq<nat>, objs: seq<nat>, latest: int, n: nat, xs: seq<nat>, ys: seq<nat>, ids': seq<nat>,
                       objs': seq<nat>, latest': int)
    requires Sorted(ids) && multiset(xs) == multiset(ys) && Appended(ids, objs, latest, n, ys, ids', objs', latest')
    ensures ids' == InsertAll(ids[n..], xs) && objs' == objs[n..] + Pendings(|xs|) && latest' == latest - n
  {
    TailSorted(ids, n);
    InsertAllAnyOrder(ids[n..], xs, ys);
    assert |xs| == |multiset(xs)| == |multiset(ys)| == |ys|;
  }

  /** A row that was written since its last append is registered if more was written than one collection
      takes, or its latest object lives outside the row; any other row is as before. */
  predicate StaysRegistered(registered: bool, curStart: int, latest: int, latest': int, objs: seq<nat>, addr: nat) {
    if curStart == latest + 1 then registered
    else
      || latest >= GC_BATCH
      || (0 <= latest' < |objs| && objs[latest'] != 0 && !(addr < objs[latest'] < addr + 256))
  }

  /** A row before a batch is added. */
  datatype Was = Was(ids: seq<nat>, objs: seq<nat>, latest: int, capacity: nat, curStart: nat, registered: bool) {
    /** How many versions a flush of `cnt` drops. */
    function FlushDrop(cnt: nat, epoch: nat): nat {
      DropCount(ids, latest, capacity, curStart, registered, cnt, epoch)
    }

    /** The row is large, has room for the first version but not for all, is due for collection, and has
        more to collect than one collection takes. */
    predicate CollectsTwice(cnt: nat, epoch: nat) {
      && capacity >= GC_CAPACITY && |ids| + 1 <= capacity < |ids| + cnt
      && registered && curStart != latest + 1 && CollectLen(ids, epoch, GC_BATCH + 1) > GC_BATCH
    }

    /** Whether the row is registered after room was made for `cnt`, with the new latest version and objects. */
    predicate RegisteredAfter(cnt: nat, epoch: nat, addr: nat, latest': int, objs': seq<nat>) {
      var o := OverflowDrop(ids, capacity, cnt, epoch);
      StaysRegistered(registered, WrapSub(curStart, o), latest - o, latest', objs', addr)
    }

    ghost predicate Ok(epoch: nat) {
      && |ids| == |objs| && Sorted(ids) && EarlierWritten(ids, latest, epoch) && -1 <= latest < |ids| <= capacity
      && |ids| < TWO_32 && curStart < TWO_32 && PowerOfTwo(capacity)
    }
  }

  /** The first `i` ids have been appended. */
  ghost predicate Going(was: Was, sids: seq<nat>, i: nat, epoch: nat, n: nat, ids: seq<nat>, objs: seq<nat>,
                        latest: int) {
    && i <= |sids| && 0 < |sids| && was.Ok(epoch) && NewAbove(was.ids, was.latest, sids)
    && Appended(was.ids, was.objs, was.latest, n, sids[..i], ids, objs, latest)
    && MayDrop(was.ids, was.latest, n, epoch)
    && Sorted(ids) && EarlierWritten(ids, latest, epoch) && |ids| <= |was.ids| + i
  }

  lemma GoingStarts(was: Was, sids: seq<nat>, epoch: nat)
    requires was.Ok(epoch) && 0 < |sids| && NewAbove(was.ids, was.latest, sids)
    ensures Going(was, sids, 0, epoch, 0, was.ids, was.objs, was.latest)
  {
    assert sids[..0] == [] && was.ids[0..] == was.ids && was.objs[0..] == was.objs;
  }

  lemma MayDropThese(ids: seq<nat>, latest: int, m: nat, epoch: nat)
    requires latest < |ids| && (0 < m ==> m <= latest && Epoch(ids[m]) < epoch)
    ensures MayDrop(ids, latest, m, epoch)
  {}

  /** What the next append needs. */
  lemma GoingNext(was: Was, sids: seq<nat>, i: nat, epoch: nat, n: nat, ids: seq<nat>, objs: seq<nat>, latest: int)
    requires Going(was, sids, i, epoch, n, ids, objs, latest) && i < |sids|
    ensures EarlierWritten(ids, latest, epoch)
    ensures |ids| + 1 <= |was.ids| + |sids| && (0 <= latest < |ids| ==> ids[latest] < sids[i])
  {
    hide Appended, MayDrop, Sorted, EarlierWritten, PowerOfTwo;
    if 0 <= latest {
      NewAbovePart(was.ids, was.latest, sids, i);
      AppendedLatest(was.ids, was.objs, was.latest, n, sids[..i], ids, objs, latest, sids[i]);
    }
  }

  lemma NewAbovePart(ids: seq<nat>, latest: int, sids: seq<nat>, i: nat)
    requires NewAbove(ids, latest, sids) && i < |sids|
    ensures NewAbove(ids, latest, sids[..i]) && NewAbove(ids, latest, [sids[i]])
  {}

  lemma GoingStep(was: Was, sids: seq<nat>, i: nat, epoch: nat, n: nat, ids: seq<nat>, objs: seq<nat>, latest: int,
                  m: nat)
    requires Going(was, sids, i, epoch, n, ids, objs, latest) && i < |sids|
    requires m <= |ids| == |objs| && MayDrop(ids, latest, m, epoch) && Epoch(sids[i]) >= epoch
    ensures Going(was, sids, i + 1, epoch, n + m, Insert(ids[m..], sids[i]), objs[m..] + Pendings(1), latest - m)
  {
    hide Appended, MayDrop, EarlierWritten, Insert, NewAbove, Epoch, Sorted, PowerOfTwo;
    NewAbovePart(was.ids, was.latest, sids, i);
    AppendedMore(was.ids, was.objs, was.latest, n, sids[..i], ids, objs, latest, m, sids[i], epoch);
    assert sids[..i + 1] == sids[..i] + [sids[i]];
    EarlierAfter(ids, latest, m, sids[i], epoch);
    TailSorted(ids, m);
    InsertSorted(ids[m..], sids[i]);
  }

  lemma GoingEnds(was: Was, sids: seq<nat>, epoch: nat, n: nat, ids: seq<nat>, objs: seq<nat>, latest: int)
    requires Going(was, sids, |sids|, epoch, n, ids, objs, latest)
    ensures Appended(was.ids, was.objs, was.latest, n, sids, ids, objs, latest)
    ensures MayDrop(was.ids, was.latest, n, epoch) && was.Ok(epoch) && latest == was.latest - n
  {
    assert sids[..|sids|] == sids;
  }

  lemma AppendedLatest(ids: seq<nat>, objs: seq<nat>, latest: int, n: nat, xs: seq<nat>, ids': seq<nat>,
                       objs': seq<nat>, latest': int, x: nat)
    requires Appended(ids, objs, latest, n, xs, ids', objs', latest') && Sorted(ids) && -1 <= latest < |ids|
             && 0 <= latest'
    requires NewAbove(ids, latest, xs) && NewAbove(ids, latest, [x])
    ensures latest' < |ids'| && ids'[latest'] < x
  {
    OldIdAt(ids, latest, n, xs, latest');
    assert [x][0] == x;
  }

  // ---------- how much the appends drop

  /** The capacity after room was made for `delta` more versions. */
  function RoomFor(ids: seq<nat>, capacity: nat, delta: nat, epoch: nat): nat {
    var n := OverflowDrop(ids, capacity, delta, epoch);
    if n <= |ids| then Room(capacity, |ids| - n + delta) else capacity
  }

  /** `n` versions have gone, and what the `rest` appends to come will drop makes the total. */
  ghost predicate Drops(was: Was, cnt: nat, epoch: nat, n: nat, ids: seq<nat>, cap: nat, rest: nat) {
    var k0 := Collectable(was.ids, epoch);
    && k0 <= |was.ids| && rest < cnt <= MAX_BATCH && Sorted(ids) && Collectable(ids, epoch) <= |ids| <= cap
    && n + Later(Collectable(ids, epoch), |ids|, cap, rest)
       == AppendsDrop(k0, |was.ids|, was.capacity, IsDue(was.latest, was.curStart, was.registered), cnt)
  }

  /** The first append. */
  lemma DropsFirst(was: Was, cnt: nat, x: nat, epoch: nat)
    requires was.Ok(epoch) && 0 < cnt && Epoch(x) >= epoch
    ensures var n := was.FlushDrop(1, epoch);
            && n <= |was.ids|
            && (cnt <= MAX_BATCH ==>
                  Drops(was, cnt, epoch, n, Insert(was.ids[n..], x), RoomFor(was.ids, was.capacity, 1, epoch), cnt - 1))
  {
    hide Room, GrownCapacity, OverflowOf, Later, Was.RegisteredAfter, Below;
    hide Collectable, Sorted, EarlierWritten, Epoch, Insert, DropCount, OverflowDrop, PowerOfTwo;
    DropCountIs(was.ids, was.latest, was.capacity, was.curStart, was.registered, 1, epoch);
    var n := was.FlushDrop(1, epoch);
    CollectableAppend(was.ids, n, x, epoch);
    TailSorted(was.ids, n);
    InsertSorted(was.ids[n..], x);
    CollectableInside(was.ids, epoch);
    CollectableInside(Insert(was.ids[n..], x), epoch);
  }

  lemma CollectableInside(ids: seq<nat>, epoch: nat)
    ensures Collectable(ids, epoch) <= |ids|
  {}

  /** A later append. */
  lemma DropsStep(was: Was, cnt: nat, epoch: nat, n: nat, ids: seq<nat>, latest: int, cap: nat, reg: bool, rest: nat,
                  x: nat)
    requires Drops(was, cnt, epoch, n, ids, cap, rest) && 0 < rest && PowerOfTwo(cap)
    requires EarlierWritten(ids, latest, epoch) && -1 <= latest < |ids| < TWO_32 - 1 && Epoch(x) >= epoch
    ensures var m := DropCount(ids, latest, cap, latest + 1, reg, 1, epoch);
            && m <= |ids|
            && Drops(was, cnt, epoch, n + m, Insert(ids[m..], x), RoomFor(ids, cap, 1, epoch), rest - 1)
  {
    hide Collectable, Sorted, EarlierWritten, Epoch, Insert, DropCount, OverflowDrop, PowerOfTwo, AppendsDrop;
    DropCountIs(ids, latest, cap, latest + 1, reg, 1, epoch);
    var m := DropCount(ids, latest, cap, latest + 1, reg, 1, epoch);
    CollectableAppend(ids, m, x, epoch);
    TailSorted(ids, m);
    InsertSorted(ids[m..], x);
    CollectableInside(Insert(ids[m..], x), epoch);
    LaterStep(Collectable(ids, epoch), |ids|, cap, rest);
    hide Later, Room, OverflowOf;
  }

  lemma DropsEnd(was: Was, cnt: nat, epoch: nat, n: nat, ids: seq<nat>, cap: nat)
    requires Drops(was, cnt, epoch, n, ids, cap, 0) && was.Ok(epoch)
    ensures n == was.FlushDrop(cnt, epoch) <==> !was.CollectsTwice(cnt, epoch)
    ensures was.CollectsTwice(cnt, epoch) ==> n == GC_BATCH
  {
    hide Collectable, Sorted, EarlierWritten, DropCount, OverflowDrop, PowerOfTwo, AppendsDrop, DropOf;
    DropCountIs(was.ids, was.latest, was.capacity, was.curStart, was.registered, cnt, epoch);
    CollectLenIs(was.ids, epoch, GC_BATCH + 1);
    AppendsDropExactly(Collectable(was.ids, epoch), |was.ids|, was.capacity,
                       IsDue(was.latest, was.curStart, was.registered), cnt);
  }

  lemma CollectsToLimit(ids: seq<nat>, epoch: nat, limit: nat)
    requires limit + 1 < |ids| && forall k :: 0 <= k < |ids| ==> Epoch(ids[k]) < epoch
    ensures CollectLen(ids, epoch, limit) == limit
  {
    CollectLenBounds(ids, epoch, limit);
  }

  /** A large row that is registered for collection and almost full. Flushing two ids collects twice,
      once for room and once for the new epoch; appending them collects for the new epoch with the
      first, and then there is room for the second. */
  lemma OverflowDropsMore(x: nat, reg: bool)
    ensures var ids := seq(GC_CAPACITY - 1, i requires i >= 0 => i);
            var was := Was(ids, ids, |ids| - 1, GC_CAPACITY, 0, true);
            var row := Insert(ids[GC_BATCH..], x);
            && was.CollectsTwice(2, 1) && was.FlushDrop(2, 1) == 2 * GC_BATCH && was.FlushDrop(1, 1) == GC_BATCH
            && DropCount(row, |ids| - 1 - GC_BATCH, RoomFor(ids, GC_CAPACITY, 1, 1), |ids| - GC_BATCH, reg, 1, 1) == 0
  {
    var ids := seq(GC_CAPACITY - 1, i requires i >= 0 => i);
    assert forall k :: 0 <= k < |ids| ==> Epoch(ids[k]) < 1;
    hide CollectLen, Epoch, Insert;
    CollectsToLimit(ids, 1, GC_BATCH);
    CollectsToLimit(ids, 1, GC_BATCH + 1);
    CollectsToLimit(ids[GC_BATCH..], 1, GC_BATCH);
    assert ids[0..] == ids;
    var row := Insert(ids[GC_BATCH..], x);
    assert row[0..] == row;
  }

  // ---------- from one epoch to the next

  lemma InsertLast(s: seq<nat>, x: nat)
    requires forall i :: 0 <= i < |s| ==> s[i] <= x
    ensures Insert(s, x) == s + [x]
  {}

  /** Being due is not changed by a collection for room. */
  lemma StaysDue(curStart: nat, latest: int, o: nat)
    requires curStart < TWO_32 && o <= latest < TWO_32 - 1 && curStart != latest + 1
    ensures WrapSub(curStart, o) != latest - o + 1
  {}

  /** A row whose versions are all written, the latest with an object outside the row, is registered by
      the first append of an epoch. */
  lemma RegistersAgain(was: Was, epoch: nat, addr: nat, latest': int, objs': seq<nat>)
    requires was.Ok(epoch) && 0 <= was.latest && was.curStart != was.latest + 1
    requires 0 <= latest' < |objs'| && objs'[latest'] != 0 && !(addr < objs'[latest'] < addr + 256)
    ensures was.RegisteredAfter(1, epoch, addr, latest', objs')
  {
    hide Sorted, EarlierWritten, DropCount, Collectable;
    DropCountIs(was.ids, was.latest, was.capacity, was.curStart, was.registered, 1, epoch);
    CollectableWritten(was.ids, was.latest, epoch);
    hide OverflowDrop;
    StaysDue(was.curStart, was.latest, OverflowDrop(was.ids, was.capacity, 1, epoch));
  }

  /** The first append of an epoch, and the write of the new version. */
  method AppendAndWrite(h: SortedArrayVHandle, sid: nat, obj: nat, epoch: nat, memory: Memory)
    requires h.Valid() && h.size + 1 < 0x8000_0000 && 0 <= h.latest_version == h.size - 1 && h.cur_start != h.size
    requires h.Ids()[h.latest_version] < sid && !IsPendingVal(obj)
    requires var data := h.Objs()[h.latest_version]; data != 0 && !(h.addr < data < h.addr + 256)
    modifies h
    ensures h.Valid() && h.gc_handle && 0 < h.size <= old(h.size) + 1 && h.latest_version == h.size - 1
    ensures h.cur_start != h.size && h.Ids()[h.size - 1] == sid
  {
    hide Sorted, PendingAbove, EarlierWritten, DropCount, Epoch, ReadsKept, RoomFor, PowerOfTwo, IsPendingVal, Insert;
    hide Was.RegisteredAfter;
    ghost var was := h.Before();
    AllWritten(was.ids, was.latest, epoch);
    ghost var n := h.AppendNewVersion(sid, epoch, memory);
    RegistersAgain(was, epoch, h.addr, h.latest_version, h.Objs());
    IdsBelow(was.ids, n, sid);
    InsertLast(was.ids[n..], sid);
    assert h.Ids()[h.latest_version + 1] == sid;
    var r := h.WriteWithVersion(sid, obj);
  }

  /** One version appended in epoch `e1` and written, the next appended in epoch `e2`: if the latest object
      was garbage before, the second append collects as much as one collection takes of what there is. */
  method AppendWriteAppend(h: SortedArrayVHandle, sid1: nat, obj: nat, sid2: nat, e1: nat, e2: nat, memory: Memory)
    returns (ghost mid: Was, ghost n: nat)
    requires h.Valid() && h.size + 2 < 0x8000_0000 && 0 <= h.latest_version == h.size - 1 && h.cur_start != h.size
    requires h.Ids()[h.latest_version] < sid1 < sid2 && !IsPendingVal(obj)
    requires var data := h.Objs()[h.latest_version]; data != 0 && !(h.addr < data < h.addr + 256)
    modifies h
    ensures h.Valid() && mid.registered && mid.ids != [] && mid.ids[|mid.ids| - 1] == sid1
    ensures n == DropOf(Collectable(mid.ids, e2), |mid.ids|, mid.capacity, true, 1)
    ensures Min(GC_BATCH, Collectable(mid.ids, e2)) <= n <= |mid.ids|
    ensures !Overflows(|mid.ids|, mid.capacity, 1) ==> n == Min(GC_BATCH, Collectable(mid.ids, e2))
    ensures h.Ids() == Insert(mid.ids[n..], sid2)
  {
    hide Sorted, PendingAbove, EarlierWritten, DropCount, Epoch, ReadsKept, RoomFor, PowerOfTwo, IsPendingVal, Insert;
    hide Collectable, Was.RegisteredAfter;
    AppendAndWrite(h, sid1, obj, e1, memory);
    mid := h.Before();
    AllWritten(mid.ids, mid.latest, e2);
    DropCountIs(mid.ids, mid.latest, mid.capacity, mid.curStart, mid.registered, 1, e2);
    n := h.AppendNewVersion(sid2, e2, memory);
  }

  lemma AllWritten(ids: seq<nat>, latest: int, epoch: nat)
    requires latest == |ids| - 1
    ensures EarlierWritten(ids, latest, epoch)
  {}

  lemma IdsBelow(ids: seq<nat>, n: nat, x: nat)
    requires Sorted(ids) && n <= |ids| && (ids != [] ==> ids[|ids| - 1] < x)
    ensures forall i :: 0 <= i < |ids[n..]| ==> ids[n..][i] < x
  {}
}
