/** How many versions a row drops when a batch is flushed into it, and when the ids of the batch are
    appended one at a time. */
module RowDrops {
  import opened Basics
  import opened LowerBound
  import opened VersionSeq
  import opened RowLookup
  import opened RowGc

  // ---------- capacities

  /** The capacity IncreaseSize allocates for `size` versions. */
  function GrownCapacity(size: nat): (c: nat)
    requires size > 0
    ensures size < c && (c <= 2 * size || c == 8)
  {
    if 2 * Pow2(TopBit(size)) < 8 then 8 else 2 * Pow2(TopBit(size))
  }

  /** The capacity of a row that has had to hold `held` versions. */
  function Room(capacity: nat, held: nat): (c: nat)
    ensures held <= c && capacity <= c
  {
    if held > capacity then GrownCapacity(held) else capacity
  }

  ghost predicate PowerOfTwo(c: nat) {
    exists k: nat :: c == Pow2(k)
  }

  lemma RoomIsPower(capacity: nat, held: nat)
    requires PowerOfTwo(capacity)
    ensures PowerOfTwo(Room(capacity, held))
  {
    if held > capacity {
      assert Pow2(TopBit(held) + 1) == 2 * Pow2(TopBit(held));
      assert Pow2(3) == 2 * Pow2(2) == 4 * Pow2(1) == 8;
    }
  }

  /** A full row doubles. */
  lemma FullDoubles(c: nat)
    requires PowerOfTwo(c)
    ensures GrownCapacity(c + 1) == if 2 * c < 8 then 8 else 2 * c
  {
    var k: nat :| c == Pow2(k);
    var e := TopBit(c + 1);
    if k == 0 {
      assert e == 1;
    } else {
      assert Pow2(k) == 2 * Pow2(k - 1);
      Pow2Monotone(e, k);
      Pow2Monotone(k, e);
    }
  }

  // ---------- what can be collected

  /** How many leading versions a collection without limit would drop. */
  function Collectable(ids: seq<nat>, epoch: nat): nat {
    var b := Below(ids, epoch * TWO_32);
    if b == 0 then 0 else b - 1
  }

  lemma EpochBelow(sid: nat, epoch: nat)
    ensures Epoch(sid) < epoch <==> sid < epoch * TWO_32
  {}

  lemma {:induction false} CollectLenIs(ids: seq<nat>, epoch: nat, limit: nat)
    requires Sorted(ids)
    ensures CollectLen(ids, epoch, limit) == Min(limit, Collectable(ids, epoch))
    decreases limit
  {
    if |ids| >= 2 {
      EpochBelow(ids[0], epoch);
      EpochBelow(ids[1], epoch);
      assert ids[1..][0] == ids[1];
      if limit > 0 && Epoch(ids[1]) < epoch {
        CollectLenIs(ids[1..], epoch, limit - 1);
      }
    }
  }

  lemma CollectableDrop(ids: seq<nat>, n: nat, epoch: nat)
    requires Sorted(ids) && n <= Collectable(ids, epoch)
    ensures n <= |ids| && Collectable(ids[n..], epoch) == Collectable(ids, epoch) - n
  {
    BelowIsLowerBound(ids, epoch * TWO_32);
    BelowInPart(ids, n, |ids|, epoch * TWO_32);
    assert ids[n..] == ids[n..|ids|];
  }

  lemma CollectableInsert(ids: seq<nat>, x: nat, epoch: nat)
    requires Sorted(ids) && Epoch(x) >= epoch
    ensures Collectable(Insert(ids, x), epoch) == Collectable(ids, epoch)
  {
    EpochBelow(x, epoch);
    BelowInsert(ids, x, epoch * TWO_32);
  }

  /** What an append drops and adds. */
  lemma CollectableAppend(ids: seq<nat>, n: nat, x: nat, epoch: nat)
    requires Sorted(ids) && n <= Collectable(ids, epoch) && Epoch(x) >= epoch
    ensures n <= |ids| && Collectable(Insert(ids[n..], x), epoch) == Collectable(ids, epoch) - n
  {
    hide Collectable, Insert, Epoch;
    CollectableDrop(ids, n, epoch);
    TailSorted(ids, n);
    CollectableInsert(ids[n..], x, epoch);
  }

  lemma CollectableWritten(ids: seq<nat>, latest: int, epoch: nat)
    requires Sorted(ids) && EarlierWritten(ids, latest, epoch) && -1 <= latest
    ensures Collectable(ids, epoch) <= latest || Collectable(ids, epoch) == 0
  {
    BelowIsLowerBound(ids, epoch * TWO_32);
    var b := Below(ids, epoch * TWO_32);
    if b > 1 { EpochBelow(ids[b - 1], epoch); }
  }

  // ---------- in numbers

  /** A row is collected on its way to `size + delta` because it is large and full. */
  predicate Overflows(size: nat, capacity: nat, delta: nat) {
    size + delta > capacity >= GC_CAPACITY
  }

  function OverflowOf(k: nat, size: nat, capacity: nat, delta: nat): (n: nat)
    ensures n <= k
  {
    if Overflows(size, capacity, delta) then Min(GC_BATCH, k) else 0
  }

  /** `k` versions are collectable; the row is `due` if it is registered and was written since its last
      append. */
  function DropOf(k: nat, size: nat, capacity: nat, due: bool, delta: nat): (n: nat)
    ensures n <= k
  {
    var o := OverflowOf(k, size, capacity, delta);
    o + if due then Min(GC_BATCH, k - o) else 0
  }

  predicate IsDue(latest: int, curStart: nat, registered: bool) {
    registered && curStart != latest + 1
  }

  lemma DropCountIs(ids: seq<nat>, latest: int, capacity: nat, curStart: nat, registered: bool, delta: nat, epoch: nat)
    requires Sorted(ids) && EarlierWritten(ids, latest, epoch) && -1 <= latest < |ids| < TWO_32 && curStart < TWO_32
    ensures DropCount(ids, latest, capacity, curStart, registered, delta, epoch)
         == DropOf(Collectable(ids, epoch), |ids|, capacity, IsDue(latest, curStart, registered), delta)
    ensures OverflowDrop(ids, capacity, delta, epoch) == OverflowOf(Collectable(ids, epoch), |ids|, capacity, delta)
  {
    hide Collectable, CollectLen, Sorted, EarlierWritten;
    var k := Collectable(ids, epoch);
    CollectLenIs(ids, epoch, GC_BATCH);
    CollectableWritten(ids, latest, epoch);
    var o := OverflowDrop(ids, capacity, delta, epoch);
    CollectableDrop(ids, o, epoch);
    TailSorted(ids, o);
    if latest - o > 0 { CollectLenIs(ids[o..], epoch, Min(GC_BATCH, latest - o)); }
  }

  /** What the `rest` appends after the first one still drop. */
  function Later(k: nat, size: nat, capacity: nat, rest: nat): nat {
    if rest > 0 then OverflowOf(k, size, capacity, rest) else 0
  }

  /** One append of several, when the row is not due any more. */
  lemma LaterStep(k: nat, size: nat, capacity: nat, rest: nat)
    requires PowerOfTwo(capacity) && k <= size <= capacity && 0 < rest <= MAX_BATCH
    ensures var m := OverflowOf(k, size, capacity, 1);
            m + Later(k - m, size - m + 1, Room(capacity, size - m + 1), rest - 1) == Later(k, size, capacity, rest)
  {
    if size == capacity { FullDoubles(capacity); }
  }

  /** A flush of `cnt` versions collects for room and for the new epoch, where the appends collect
      for the new epoch only and then have room. */
  predicate Twice(k: nat, size: nat, capacity: nat, due: bool, cnt: nat) {
    capacity >= GC_CAPACITY && size + 1 <= capacity < size + cnt && due && k > GC_BATCH
  }

  /** What `cnt` appends drop together. */
  function AppendsDrop(k: nat, size: nat, capacity: nat, due: bool, cnt: nat): nat
    requires k <= size && 0 < cnt
  {
    var m := DropOf(k, size, capacity, due, 1);
    m + Later(k - m, size - m + 1, Room(capacity, size - OverflowOf(k, size, capacity, 1) + 1), cnt - 1)
  }

  /** Appends drop as much as a flush if and only if it does not collect twice. */
  lemma AppendsDropExactly(k: nat, size: nat, capacity: nat, due: bool, cnt: nat)
    requires PowerOfTwo(capacity) && k <= size <= capacity && 0 < cnt <= MAX_BATCH
    ensures AppendsDrop(k, size, capacity, due, cnt) == DropOf(k, size, capacity, due, cnt)
            <==> !Twice(k, size, capacity, due, cnt)
    ensures Twice(k, size, capacity, due, cnt) ==> AppendsDrop(k, size, capacity, due, cnt) == GC_BATCH
  {
    if size == capacity { FullDoubles(capacity); }
  }
}
