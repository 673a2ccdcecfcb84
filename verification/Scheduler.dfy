/** The scheduling queue of one core in routine_sched.cc: adding pieces, moving pending ones into the
    hash table and heap, and taking the next one. */
module Scheduler {
  import opened Basics
  import opened KeyHeap
  import opened PieceQueue

  /** Where `id` is in its chain; the list node is unlinked there. */
  function IndexOf(chain: seq<nat>, id: nat): (at: nat)
    requires id in chain
    ensures at < |chain| && chain[at] == id
  {
    if chain[0] == id then 0 else 1 + IndexOf(chain[1..], id)
  }

  /** All pieces taken or still waiting somewhere. */
  ghost function Waiting(taken: multiset<Piece>, zero: seq<Piece>, pending: seq<Piece>,
                         contents: seq<Piece>): multiset<Piece> {
    taken + multiset(zero) + multiset(pending) + multiset(contents)
  }

  class DispatchQueue {
    const cap: nat
    var zq: seq<Piece>
    var zstart: nat
    var zend: nat
    var ring: seq<Piece>
    var start: nat
    var end: nat
    var entries: seq<Entry>
    var ht: seq<seq<nat>>
    var heap: seq<HeapEntry>
    /** Pieces in the hash table in order of arrival; all pieces ever added and ever taken. */
    ghost var contents: seq<Piece>
    ghost var added: multiset<Piece>
    ghost var taken: multiset<Piece>

    ghost predicate Valid()
      reads this
    {
      && 0 < cap == |zq| == |ring|
      && zstart <= zend <= cap && start <= end <= start + cap && end < TWO_32
      && IsHeap(heap) && Refines(multiset(heap), entries, ht, contents)
    }

    /** Every piece added is waiting in exactly one place or was taken, once. */
    ghost predicate Balanced()
      requires Valid()
      reads this
    {
      added == Waiting(taken, Zero(), Pending(), contents)
    }

    function Zero(): seq<Piece>
      requires zstart <= zend <= |zq|
      reads this
    {
      zq[zstart..zend]
    }

    function Pending(): seq<Piece>
      requires |ring| > 0 && start <= end
      reads this
    {
      RingView(ring, start, end - start)
    }

    constructor (cap: nat)
      requires cap > 0
      ensures Valid() && Balanced() && Zero() == [] && Pending() == [] && contents == [] && added == multiset{}
    {
      this.cap := cap;
      zq, ring := seq(cap, _ => Piece(0, 0)), seq(cap, _ => Piece(0, 0));
      zstart, zend, start, end := 0, 0, 0, 0;
      entries, heap := [], [];
      ht := seq(BUCKETS, _ => []);
      contents, added, taken := [], multiset{}, multiset{};
    }

    /** Add a batch: unkeyed pieces to the zero queue, keyed ones to the ring; published at the end.
        On a full ring it waits: `moved[k]` says how many pending pieces the consumer has taken over when
        the ring is looked at for the time after the k-th. */
    method Add(routines: seq<Piece>, moved: seq<nat>) returns (done: bool)
      requires Valid() && zend + |Unkeyed(routines)| <= cap && end + |Keyed(routines)| < TWO_32
      modifies this
      ensures Valid() && taken == old(taken)
      ensures var r := AddRun(routines, Readings(cap - (old(end) - old(start)), cap, moved), Batch([], []));
              && done == r.Some?
              && Zero() == old(Zero()) + (if done then r.value.zero else [])
              && contents + Pending() == old(contents + Pending()) + (if done then r.value.keyed else [])
      ensures added == old(added) + (if done then multiset(routines) else multiset{})
      ensures old(Balanced()) && Fits(routines, Readings(cap - (old(end) - old(start)), cap, moved))
              ==> done && Balanced()
      ensures old(Balanced()) && !done ==> Balanced()
    {
      hide Refines, RingView, AddRun, Slot, Keyed, Unkeyed, IsHeap, Waiting, Fits, Readings;
      ghost var zero0, pending0, contents0, rooms := Zero(), Pending(), contents,
        Readings(cap - (end - start), cap, moved);
      var zdelta, pdelta;
      done, zdelta, pdelta := WriteBatch(routines, moved);
      WaitBalances(taken, zero0, pending0, contents0, Pending(), contents);
      if done {
        Publish(zdelta, pdelta);
        added := added + multiset(routines);
      }
      if Fits(routines, rooms) {
        AddBalances(zero0, pending0, taken, contents0, routines, rooms);
        assert contents0 + (pending0 + Keyed(routines)) == contents0 + pending0 + Keyed(routines);
        if done { WaitBalances(taken, Zero(), pending0 + Keyed(routines), contents0, Pending(), contents); }
      }
    }

    /** The stores to the ends at the end of Add. */
    method Publish(zdelta: nat, pdelta: nat)
      requires Valid() && zend + zdelta <= cap && end + pdelta <= start + cap && end + pdelta < TWO_32
      modifies this`zend, this`end
      ensures Valid() && zend == old(zend) + zdelta && end == old(end) + pdelta
      ensures Zero() == old(Zero()) + zq[old(zend)..zend]
      ensures Pending() == old(Pending()) + RingView(ring, old(end), pdelta)
    {
      hide Refines, RingView, IsHeap;
      RingSplit(ring, start, end - start, pdelta);
      zend, end := zend + zdelta, end + pdelta;
    }

    /** The loop of Add; on a full ring it starts over from the counters. */
    method WriteBatch(routines: seq<Piece>, moved: seq<nat>) returns (done: bool, zdelta: nat, pdelta: nat)
      requires Valid() && zend + |Unkeyed(routines)| <= cap
      modifies this`zq, this`ring, this`start, this`entries, this`ht, this`heap, this`contents
      ensures Valid() && zend + zdelta <= cap && pdelta <= |Keyed(routines)| && end + pdelta <= start + cap
      ensures zq[..zend] == old(zq)[..zend] && contents + Pending() == old(contents + Pending())
      ensures AddRun(routines, Readings(cap - (end - old(start)), cap, moved), Batch([], [])) ==
              if done then Some(Batch(zq[zend..zend + zdelta], RingView(ring, end, pdelta))) else None
    {
      hide RingView, AddRun, Slot, Keyed, Unkeyed, Refines, IsHeap, Readings;
      var i, k := 0, 0;
      ghost var rooms := Readings(cap - (end - start), cap, moved);
      ghost var first := rooms;
      assert routines[0..] == routines && moved[0..] == moved;
      while true
        invariant 0 <= i <= |routines| && k <= |moved| && Valid()
        invariant rooms == Readings(cap - (end - start), cap, moved[k..])
        invariant zend + |Unkeyed(routines[i..])| <= cap && |Keyed(routines[i..])| <= |Keyed(routines)|
        invariant zq[..zend] == old(zq)[..zend] && contents + Pending() == old(contents + Pending())
        invariant AddRun(routines, first, Batch([], [])) == AddRun(routines[i..], rooms, Batch([], []))
        decreases |moved| - k
      {
        i, zdelta, pdelta := WriteRound(routines, i, rooms);
        ghost var b := Batch(zq[zend..zend + zdelta], RingView(ring, end, pdelta));
        if i == |routines| {
          assert routines[i..] == [];
          AddEnds(rooms, b);
          return true, zdelta, pdelta;
        }
        AddRound(routines[i..], rooms, b);
        NextReading(cap - (end - start), cap, moved, k);
        if k == |moved| { return false, 0, 0; }
        Wait(moved[k]);
        k, rooms := k + 1, rooms[1..];
      }
    }

    /** Until the ring is looked at again the consumer may have moved pending pieces away: all of them,
        or those published when it looked. */
    method Wait(plen: nat)
      requires Valid()
      modifies this`start, this`entries, this`ht, this`heap, this`contents
      ensures Valid() && contents + Pending() == old(contents + Pending())
      ensures var room := cap - (end - old(start));
              cap - (end - start) == if room + plen < cap then room + plen else cap
    {
      hide RingView, Refines, IsHeap;
      ghost var pending := Pending();
      MovePending(if plen < end - start then plen else end - start);
      assert pending == pending[..start - old(start)] + pending[start - old(start)..];
    }

    /** From place `i0` write behind the published ends, up to the end of the batch or a full ring. */
    method WriteRound(routines: seq<Piece>, i0: nat, ghost rooms: seq<nat>) returns (i: nat, zdelta: nat, pdelta: nat)
      requires 0 < cap == |zq| == |ring| && start <= end <= start + cap && i0 <= |routines|
      requires zend + |Unkeyed(routines[i0..])| <= cap && rooms != [] && rooms[0] == cap - (end - start)
      modifies this`zq, this`ring
      ensures |zq| == |ring| == cap && i0 <= i <= |routines| && zend + zdelta <= cap && pdelta <= rooms[0]
      ensures pdelta + |Keyed(routines[i..])| <= |Keyed(routines[i0..])|
      ensures zend + |Unkeyed(routines[i..])| <= cap
      ensures i < |routines| ==> routines[i].key != 0 && pdelta == rooms[0]
      ensures zq[..zend] == old(zq)[..zend]
      ensures RingView(ring, start, end - start) == old(RingView(ring, start, end - start))
      ensures AddRun(routines[i0..], rooms, Batch([], [])) ==
              AddRun(routines[i..], rooms, Batch(zq[zend..zend + zdelta], RingView(ring, end, pdelta)))
    {
      hide RingView, AddRun, Slot, Keyed, Unkeyed;
      i, zdelta, pdelta := i0, 0, 0;
      ghost var b := Batch([], []);
      EmptyView(ring, end);
      while i < |routines|
        invariant i0 <= i <= |routines| && |zq| == |ring| == cap && pdelta == |b.keyed| <= rooms[0]
        invariant zend + zdelta + |Unkeyed(routines[i..])| <= cap
        invariant pdelta + |Keyed(routines[i..])| <= |Keyed(routines[i0..])|
        invariant zq[..zend] == old(zq)[..zend]
        invariant RingView(ring, start, end - start) == old(RingView(ring, start, end - start))
        invariant zq[zend..zend + zdelta] == b.zero && RingView(ring, end, pdelta) == b.keyed
        invariant AddRun(routines[i0..], rooms, Batch([], [])) == AddRun(routines[i..], rooms, b)
      {
        assert routines[i..][1..] == routines[i + 1..];
        AddRound(routines[i..], rooms, b);
        var r := routines[i];
        if r.key == 0 {
          zq := zq[zend + zdelta := r];
          zdelta := zdelta + 1;
          b := b.(zero := b.zero + [r]);
        } else if pdelta >= cap - (end - start) {
          return;
        } else {
          RingUnpublished(ring, start, end - start, pdelta, r);
          ring := ring[Slot(end + pdelta, cap) := r];
          pdelta := pdelta + 1;
          b := b.(keyed := b.keyed + [r]);
        }
        i := i + 1;
      }
    }

    /** Walk the chain of the key's bucket. */
    method FindEntry(key: nat) returns (found: Option<nat>)
      requires Refines(multiset(heap), entries, ht, contents)
      ensures found.None? ==> forall id :: id in ht[Bucket(key)] ==> id < |entries| && entries[id].key != key
      ensures found.Some? ==> found.value < |entries| && HeapEntry(key, found.value) in multiset(heap)
    {
      hide Bucket, ListOk, InHeapOk;
      var chain := ht[Bucket(key)];
      assert ChainOk(multiset(heap), entries, chain, Bucket(key));
      forall k | 0 <= k < |chain|
        ensures chain[k] < |entries| && HeapEntry(entries[chain[k]].key, chain[k]) in multiset(heap)
      {
        assert chain[k] in chain;
      }
      var i := 0;
      while i < |chain|
        invariant 0 <= i <= |chain| && forall k :: 0 <= k < i ==> entries[chain[k]].key != key
      {
        if entries[chain[i]].key == key { return Some(chain[i]); }
        i := i + 1;
      }
      return None;
    }

    /** AddToPriorityQueue and IngestPending: find or make the entry, put its key on the heap if its
        list was empty, append the piece. */
    method AddToPriorityQueue(p: Piece)
      requires IsHeap(heap) && Refines(multiset(heap), entries, ht, contents)
      modifies this`entries, this`ht, this`heap, this`contents
      ensures IsHeap(heap) && Refines(multiset(heap), entries, ht, contents)
      ensures contents == old(contents) + [p]
    {
      hide Refines, IsHeap, Bucket;
      ghost var all, entries0 := multiset(heap), entries;
      var found := FindEntry(p.key);
      TableSize(multiset(heap), entries, ht, contents);
      var id;
      if found.Some? {
        id := found.value;
        JoinList(multiset(heap), entries, ht, contents, id, p);
        TopIsListed(multiset(heap), entries, ht, contents, HeapEntry(p.key, id));
      } else {
        NewList(multiset(heap), entries, ht, contents, p);
        id := |entries|;
        var b := Bucket(p.key);
        entries := entries + [Entry(p.key, [])];
        ht := ht[b := ht[b] + [id]];
      }
      if entries[id].values == [] {
        var q := heap + [HeapEntry(p.key, id)];
        assert q[..|q| - 1] == heap;
        heap := PushHeap(q);
        assert multiset(heap) == all + multiset{HeapEntry(p.key, id)};
      }
      var values := entries[id].values + [p];
      assert found.None? ==> values == [p];
      entries := entries[id := Entry(p.key, values)];
      assert found.None? ==> entries == entries0 + [Entry(p.key, [p])];
      contents := contents + [p];
    }

    /** ProcessPending: everything published on the ring moves into the table, in order. */
    method ProcessPending()
      requires Valid()
      modifies this`start, this`entries, this`ht, this`heap, this`contents
      ensures Valid() && Pending() == []
      ensures contents == old(contents) + old(Pending())
      ensures old(Balanced()) ==> Balanced()
    {
      hide Refines, IsHeap, RingView, Waiting;
      ghost var pending, before := Pending(), contents;
      MovePending(end - start);
      assert pending[..|pending|] == pending && pending[|pending|..] == [];
      MoveBalances(taken, Zero(), pending, before);
    }

    /** Its loop, for the `plen` pieces published when it looked at the ring. */
    method MovePending(plen: nat)
      requires Valid() && plen <= end - start
      modifies this`start, this`entries, this`ht, this`heap, this`contents
      ensures Valid() && start == old(start) + plen
      ensures contents == old(contents) + old(Pending())[..plen] && Pending() == old(Pending())[plen..]
    {
      hide Refines, IsHeap, RingView;
      ghost var pending, before := Pending(), contents;
      var i := 0;
      while i < plen
        invariant 0 <= i <= plen && start == old(start)
        invariant IsHeap(heap) && Refines(multiset(heap), entries, ht, contents)
        invariant contents == before + pending[..i]
      {
        PendingAt(ring, start, end - start, i);
        AddToPriorityQueue(ring[Slot(start + i, cap)]);
        assert pending[..i + 1] == pending[..i] + [pending[i]];
        i := i + 1;
      }
      RingSplit(ring, start, plen, end - start - plen);
      start := start + plen;
    }

    /** Pick: the piece at the head of the list on top of the heap is the front of the queue. */
    method Pick() returns (p: Piece, ghost i: nat)
      requires IsHeap(heap) && Refines(multiset(heap), entries, ht, contents) && heap != []
      ensures IsFront(contents, i) && contents[i] == p
    {
      i := TopIsFront(heap, entries, ht, contents);
      p := entries[heap[0].ent].values[0];
    }

    /** Consume the picked piece; an empty list leaves the heap and the table. */
    method Consume(ghost i: nat)
      requires IsHeap(heap) && Refines(multiset(heap), entries, ht, contents) && IsFront(contents, i)
      modifies this`entries, this`ht, this`heap, this`contents
      ensures IsHeap(heap) && Refines(multiset(heap), entries, ht, contents)
      ensures contents == Without(old(contents), i)
    {
      hide Refines, IsHeap, Bucket, Without;
      HeapNotEmpty(heap, entries, ht, contents, i);
      ghost var j := TopIsFront(heap, entries, ht, contents);
      FrontUnique(contents, i, j);
      var top := heap[0];
      ghost var all, entries0 := multiset(heap), entries;
      assert top in all;
      TopIsListed(all, entries, ht, contents, top);
      entries := entries[top.ent := Entry(top.key, entries[top.ent].values[1..])];
      if entries[top.ent].values == [] {
        heap := PopHeap(heap);
        var b := Bucket(top.key);
        var at := IndexOf(ht[b], top.ent);
        TakeLast(all, entries0, ht, contents, top, i, multiset(heap), at);
        ht := ht[b := ht[b][..at] + ht[b][at + 1..]];
      } else {
        TakeHead(all, entries0, ht, contents, top, i);
      }
      contents := Without(contents, i);
    }

    /** Peek with nobody waiting. It shows the listener the first piece without a key or, if there is
        none, the first of the smallest key; the piece goes exactly if the listener accepts it. */
    method Peek(accept: bool) returns (shown: Option<Piece>)
      requires Valid()
      modifies this
      ensures Valid() && added == old(added)
      ensures old(Zero()) != [] ==> shown == Some(old(Zero())[0]) && Zero() == old(Zero())[if accept then 1 else 0..]
                                    && Pending() == old(Pending()) && contents == old(contents)
      ensures old(Zero()) == [] ==> Zero() == [] && Pending() == []
      ensures old(Zero()) == [] && old(contents + Pending()) == [] ==> shown == None && contents == []
      ensures old(Zero()) == [] && old(contents + Pending()) != []
              ==> shown.Some? && ShowsFront(old(contents + Pending()), shown.value, accept, contents)
      ensures taken == old(taken) + (if accept && shown.Some? then multiset{shown.value} else multiset{})
      ensures old(Balanced()) ==> Balanced()
    {
      hide Refines, IsHeap, RingView, Waiting, ShowsFront;
      if zstart < zend {
        shown := Some(zq[zstart]);
        ghost var zero := Zero();
        assert zero[0..] == zero;
        if accept {
          TakeZeroBalances(taken, zero, Pending(), contents);
          zstart := zstart + 1;
          taken := taken + multiset{shown.value};
          assert Zero() == zero[1..];
        }
        return;
      }
      shown := PeekKeyed(accept);
    }

    /** The part of Peek after the zero queue. */
    method PeekKeyed(accept: bool) returns (shown: Option<Piece>)
      requires Valid()
      modifies this`start, this`entries, this`ht, this`heap, this`contents, this`taken
      ensures Valid() && Pending() == []
      ensures old(contents + Pending()) == [] ==> shown == None && contents == []
      ensures old(contents + Pending()) != []
              ==> shown.Some? && ShowsFront(old(contents + Pending()), shown.value, accept, contents)
      ensures taken == old(taken) + (if accept && shown.Some? then multiset{shown.value} else multiset{})
      ensures old(Balanced()) ==> Balanced()
    {
      hide Refines, IsHeap, RingView, Waiting, Without, IsFront;
      ProcessPending();
      if heap == [] {
        NothingLeft(heap, entries, ht, contents);
        return None;
      }
      var p, i := Pick();
      shown := Some(p);
      assert i < |contents| by { FrontInside(contents, i); }
      if accept {
        TakeFrontBalances(taken, Zero(), Pending(), contents, i);
        Consume(i);
        taken := taken + multiset{p};
      }
    }

    /** A worker that peeks until nothing is left: first the pieces without a key, in order; then the
        others sorted by key, and in order of arrival where the key is the same. */
    method RunAll() returns (out: seq<Piece>)
      requires Valid()
      modifies this
      ensures Valid() && Zero() == [] && Pending() == [] && contents == [] && added == old(added)
      ensures |out| >= |old(Zero())| && out[..|old(Zero())|] == old(Zero())
      ensures StableSort(old(contents + Pending()), out[|old(Zero())|..])
      ensures taken == old(taken) + multiset(out)
      ensures old(Balanced()) ==> Balanced()
    {
      hide Refines, IsHeap, RingView, Waiting, ShowsFront, StableSort, Ran;
      ghost var zero0, all0 := Zero(), contents + Pending();
      out := [];
      RunStarts(zero0, all0);
      while true
        invariant Valid() && added == old(added) && taken == old(taken) + multiset(out)
        invariant Ran(zero0, all0, out, Zero(), contents + Pending())
        invariant old(Balanced()) ==> Balanced()
        decreases |Zero()| + |contents + Pending()|
      {
        ghost var z, all := Zero(), contents + Pending();
        var next := Peek(true);
        if next.None? {
          RunEnds(zero0, all0, out);
          return;
        }
        assert z == [] ==> contents + Pending() == contents;
        RunStep(zero0, all0, out, z, all, next.value, Zero(), contents + Pending());
        out := out + [next.value];
      }
    }
  }

  /** `out` has been taken from the queues `zero0` and `all0`; `z` and `all` are left. */
  ghost predicate Ran(zero0: seq<Piece>, all0: seq<Piece>, out: seq<Piece>, z: seq<Piece>, all: seq<Piece>) {
    exists zero, keyed :: out == zero + keyed && zero + z == zero0 && (keyed != [] ==> z == [])
      && LeadsTo(all0, keyed, all)
  }

  lemma RunStarts(zero0: seq<Piece>, all0: seq<Piece>)
    ensures Ran(zero0, all0, [], zero0, all0)
  {
    LeadsStart(all0);
    hide LeadsTo;
    var none: seq<Piece> := [];
    assert none == none + none && none + zero0 == zero0;
  }

  lemma RunStep(zero0: seq<Piece>, all0: seq<Piece>, out: seq<Piece>, z: seq<Piece>, all: seq<Piece>, p: Piece,
                z': seq<Piece>, all': seq<Piece>)
    requires Ran(zero0, all0, out, z, all)
    requires if z != [] then p == z[0] && z' == z[1..] && all' == all else z' == [] && ShowsFront(all, p, true, all')
    ensures Ran(zero0, all0, out + [p], z', all') && |z'| + |all'| < |z| + |all|
  {
    hide LeadsTo, ShowsFront;
    var zero, keyed :| out == zero + keyed && zero + z == zero0 && (keyed != [] ==> z == [])
      && LeadsTo(all0, keyed, all);
    if z != [] {
      assert out + [p] == (zero + [p]) + keyed && (zero + [p]) + z' == zero0;
    } else {
      LeadsStep(all0, keyed, all, p, all');
      assert out + [p] == zero + (keyed + [p]);
    }
  }

  lemma RunEnds(zero0: seq<Piece>, all0: seq<Piece>, out: seq<Piece>)
    requires Ran(zero0, all0, out, [], [])
    ensures |out| >= |zero0| && out[..|zero0|] == zero0 && StableSort(all0, out[|zero0|..])
  {
    hide LeadsTo, StableSort;
    var zero, keyed :| out == zero + keyed && zero + [] == zero0 && LeadsTo(all0, keyed, []);
    LeadsEnd(all0, keyed);
    assert zero == zero0 && out[|zero0|..] == keyed;
  }

  /** `out` is `c` sorted by key, with the order of `c` kept within each key. */
  ghost predicate StableSort(c: seq<Piece>, out: seq<Piece>) {
    && (forall i, j :: 0 <= i < j < |out| ==> out[i].key <= out[j].key)
    && (forall k: nat :: OfKey(out, k) == OfKey(c, k))
  }

  /** Taking `out` off `c0` front by front leaves `c`. */
  ghost predicate LeadsTo(c0: seq<Piece>, out: seq<Piece>, c: seq<Piece>) {
    forall rest :: Drains(c, rest) ==> Drains(c0, out + rest)
  }

  lemma LeadsStart(c: seq<Piece>)
    ensures LeadsTo(c, [], c)
  {
    hide Drains;
    assert forall rest: seq<Piece> :: [] + rest == rest;
  }

  lemma LeadsStep(c0: seq<Piece>, out: seq<Piece>, c: seq<Piece>, p: Piece, after: seq<Piece>)
    requires LeadsTo(c0, out, c) && ShowsFront(c, p, true, after)
    ensures LeadsTo(c0, out + [p], after) && |after| < |c|
  {
    forall rest | Drains(after, rest) ensures Drains(c0, out + [p] + rest) {
      assert ([p] + rest)[1..] == rest;
      assert Drains(c, [p] + rest);
      assert out + [p] + rest == out + ([p] + rest);
    }
  }

  lemma LeadsEnd(c0: seq<Piece>, out: seq<Piece>)
    requires LeadsTo(c0, out, [])
    ensures StableSort(c0, out)
  {
    assert Drains([], []) && out + [] == out;
    DrainIsStableSort(c0, out);
  }

  /** `p` is the front of `before`; `after` is the rest if it was taken. */
  ghost predicate ShowsFront(before: seq<Piece>, p: Piece, take: bool, after: seq<Piece>) {
    exists i: nat :: IsFront(before, i) && p == before[i] && after == if take then Without(before, i) else before
  }

  lemma FrontInside(c: seq<Piece>, i: nat)
    requires IsFront(c, i)
    ensures i < |c|
  {}

  lemma TableSize(heap: multiset<HeapEntry>, entries: seq<Entry>, ht: seq<seq<nat>>, contents: seq<Piece>)
    requires Refines(heap, entries, ht, contents)
    ensures |ht| == BUCKETS
  {}

  lemma TopIsListed(heap: multiset<HeapEntry>, entries: seq<Entry>, ht: seq<seq<nat>>, contents: seq<Piece>,
                    e: HeapEntry)
    requires Refines(heap, entries, ht, contents) && e in heap
    ensures |ht| == BUCKETS && e.ent < |entries| && entries[e.ent].values != [] && e.key == entries[e.ent].key
            && e.ent in ht[Bucket(e.key)]
  {
    AtHeap(heap, entries, ht, contents, e);
  }

  lemma HeapNotEmpty(heap: seq<HeapEntry>, entries: seq<Entry>, ht: seq<seq<nat>>, contents: seq<Piece>, i: nat)
    requires Refines(multiset(heap), entries, ht, contents) && i < |contents|
    ensures heap != []
  {
    assert HasKey(multiset(heap), contents[i].key);
  }

  lemma NothingLeft(heap: seq<HeapEntry>, entries: seq<Entry>, ht: seq<seq<nat>>, contents: seq<Piece>)
    requires Refines(multiset(heap), entries, ht, contents) && heap == []
    ensures contents == []
  {
    if contents != [] { HeapNotEmpty(heap, entries, ht, contents, 0); }
  }

  lemma PendingAt(ring: seq<Piece>, from: nat, n: nat, i: nat)
    requires |ring| > 0 && i < n
    ensures RingView(ring, from, n)[i] == ring[Slot(from + i, |ring|)]
  {}

  lemma MoveBalances(taken: multiset<Piece>, zero: seq<Piece>, pending: seq<Piece>, contents: seq<Piece>)
    ensures Waiting(taken, zero, [], contents + pending) == Waiting(taken, zero, pending, contents)
  {}

  lemma TakeZeroBalances(taken: multiset<Piece>, zero: seq<Piece>, pending: seq<Piece>, contents: seq<Piece>)
    requires zero != []
    ensures Waiting(taken + multiset{zero[0]}, zero[1..], pending, contents) == Waiting(taken, zero, pending, contents)
  {
    assert zero == [zero[0]] + zero[1..];
  }

  lemma TakeFrontBalances(taken: multiset<Piece>, zero: seq<Piece>, pending: seq<Piece>, contents: seq<Piece>, i: nat)
    requires i < |contents|
    ensures Waiting(taken + multiset{contents[i]}, zero, pending, Without(contents, i))
            == Waiting(taken, zero, pending, contents)
  {
    assert contents == contents[..i] + [contents[i]] + contents[i + 1..];
  }

  /** What a batch that fits adds to the queues is the batch. */
  lemma AddBalances(zero: seq<Piece>, pending: seq<Piece>, taken: multiset<Piece>, contents: seq<Piece>,
                    rs: seq<Piece>, rooms: seq<nat>)
    requires rooms != [] && Fits(rs, rooms)
    ensures AddRun(rs, rooms, Batch([], [])) == Some(Batch(Unkeyed(rs), Keyed(rs)))
    ensures Waiting(taken, zero + Unkeyed(rs), pending + Keyed(rs), contents) ==
            Waiting(taken, zero, pending, contents) + multiset(rs)
  {
    hide AddRun, Fits;
    AddPublishesAll(rs, rooms);
    SplitCounts(rs);
  }

  /** Moving pieces from the ring to the table changes nothing. */
  lemma WaitBalances(taken: multiset<Piece>, zero: seq<Piece>, pending: seq<Piece>, contents: seq<Piece>,
                     pending': seq<Piece>, contents': seq<Piece>)
    requires contents + pending == contents' + pending'
    ensures Waiting(taken, zero, pending, contents) == Waiting(taken, zero, pending', contents')
  {
    PutTogether(taken, zero, pending, contents);
    PutTogether(taken, zero, pending', contents');
  }

  lemma PutTogether(taken: multiset<Piece>, zero: seq<Piece>, pending: seq<Piece>, contents: seq<Piece>)
    ensures Waiting(taken, zero, pending, contents) == taken + multiset(zero) + multiset(contents + pending)
  {}

  lemma EmptyView(ring: seq<Piece>, from: nat)
    requires |ring| > 0
    ensures RingView(ring, from, 0) == []
  {}

  lemma NextReading(room: nat, cap: nat, moved: seq<nat>, k: nat)
    requires k <= |moved| && room <= cap
    ensures |Readings(room, cap, moved[k..])| > 1 <==> k < |moved|
    ensures k < |moved| ==> Readings(room, cap, moved[k..])[1..] ==
                            Readings(if room + moved[k] < cap then room + moved[k] else cap, cap, moved[k + 1..])
  {
    if k < |moved| {
      assert moved[k..][1..] == moved[k + 1..];
    }
  }

  /** A write beyond the published part of the ring changes nothing published. */
  lemma RingUnpublished(ring: seq<Piece>, start: nat, n: nat, pdelta: nat, r: Piece)
    requires n + pdelta < |ring|
    ensures RingView(ring[Slot(start + n + pdelta, |ring|) := r], start, n) == RingView(ring, start, n)
    ensures RingView(ring[Slot(start + n + pdelta, |ring|) := r], start + n, pdelta + 1)
            == RingView(ring, start + n, pdelta) + [r]
  {
    hide Slot;
    RingWrite(ring, start + n, pdelta, r);
    var now, was := RingView(ring[Slot(start + n + pdelta, |ring|) := r], start, n), RingView(ring, start, n);
    forall i | 0 <= i < n ensures now[i] == was[i] {
      SlotsDiffer(|ring|, start + i, start + n + pdelta);
    }
  }

  lemma {:induction false} SplitCounts(rs: seq<Piece>)
    ensures multiset(rs) == multiset(Unkeyed(rs)) + multiset(Keyed(rs))
  {
    if rs != [] {
      SplitCounts(rs[1..]);
      assert rs == [rs[0]] + rs[1..];
    }
  }
}
