/** The cross-core chunk allocator of mem.h: chunks go back to their home core through per-core lists
    that a quiescent home core takes over. */
module Allocator {
  import opened ChunkLists

  /** The bits that the int `1 << i` has once widened to 64 bits: shifting into the sign bit sets all
      higher ones too. */
  function IntMask(i: nat): (m: set<nat>)
    requires i < 32
  {
    if i < 31 then {i} else BitsFrom(31)
  }

  function BitsFrom(i: nat): (m: set<nat>)
    requires i <= 64
    decreases 64 - i
  {
    if i == 64 then {} else {i} + BitsFrom(i + 1)
  }

  lemma {:induction false} BitsFromHolds(i: nat, b: nat)
    requires i <= 64
    ensures b in BitsFrom(i) <==> i <= b < 64
    decreases 64 - i
  {
    if i < 64 { BitsFromHolds(i + 1, b); }
  }

  /** The mask names one core exactly below 31. */
  lemma MaskIsOneBit(i: nat)
    requires i < 32
    ensures IntMask(i) == {i} <==> i < 31
  {
    assert i == 31 ==> 32 in IntMask(i);
  }

  /** The mask holds the core's own bit, and for core 31 the bits no core uses. */
  lemma MaskHolds(i: nat, b: nat)
    requires i < 32
    ensures b in IntMask(i) <==> b == i || (i == 31 && 32 <= b < 64)
  {
    if i == 31 { BitsFromHolds(31, b); }
  }

  /** The core after `dice`, in turn, whose bit is set. */
  predicate NextBit(bits: set<nat>, dice: nat, d: nat) {
    && d in bits
    && (if exists b :: b in bits && b >= dice then d >= dice && forall b :: b in bits && b >= dice ==> d <= b
        else forall b :: b in bits ==> d <= b)
  }

  /** Bits of cores, and with 32 cores the spare bits that come and go with bit 31. */
  predicate CoreBits(bits: set<nat>, n: nat) {
    forall b :: b in bits ==> b < n || (n == 32 && b < 64 && 31 in bits)
  }

  /** The spare bits are never drawn. */
  lemma DrawsCore(bits: set<nat>, n: nat, dice: nat, d: nat)
    requires CoreBits(bits, n) && dice < n && NextBit(bits, dice, d)
    ensures d < n
  {}

  /** The two count-trailing-zeros cases of Alloc. */
  method RollDice(bits: set<nat>, dice: nat) returns (d: nat)
    requires bits != {} && (forall b :: b in bits ==> b < 64) && dice <= 64
    ensures NextBit(bits, dice, d)
  {
    d := dice;
    while d < 64 && d !in bits
      invariant dice <= d <= 64 && forall b :: b in bits && b >= dice ==> d <= b
    {
      d := d + 1;
    }
    if d == 64 {
      ghost var b0 :| b0 in bits;
      d := 0;
      while d !in bits
        invariant d <= b0 && forall b :: b in bits ==> d <= b
        decreases b0 - d
      {
        d := d + 1;
      }
    }
  }

  function HomeOf(p: Place): nat
    requires !p.Used?
  {
    match p
    case Home(c) => c
    case Freed(_, home) => home
    case Ready(home, _) => home
  }

  /** Lists of a core hold only chunks of that core. */
  ghost predicate Owned(owner: seq<nat>, place: seq<Place>) {
    |owner| == |place| && forall x :: 0 < x < |place| && place[x] != Used ==> owner[x] == HomeOf(place[x])
  }

  function LastOf(list: seq<nat>): nat {
    if list == [] then 0 else list[|list| - 1]
  }

  function SetTail(tails: seq<seq<nat>>, i: nat, c: nat, x: nat): (r: seq<seq<nat>>)
    requires i < |tails| && c < |tails[i]|
  {
    var row: seq<nat> := tails[i][c := x];
    tails[i := row]
  }

  /** Tail pointers are the last chunks. */
  ghost predicate TailsOk(tails: seq<seq<nat>>, lists: Cells<seq<nat>>, n: nat)
    requires CellsOk(lists, n)
  {
    && |tails| == n && (forall i :: 0 <= i < n ==> |tails[i]| == n)
    && forall i, c :: 0 <= i < n && 0 <= c < n ==> tails[i][c] == LastOf(lists.freed[i][c])
  }

  /** A bit is set exactly when the consolidated list is not empty. */
  ghost predicate BitsOk(bitmap: seq<set<nat>>, lists: Cells<seq<nat>>, n: nat)
    requires CellsOk(lists, n)
  {
    && |bitmap| == n
    && (forall c :: 0 <= c < n ==> CoreBits(bitmap[c], n))
    && (forall c, i :: 0 <= c < n && 0 <= i < n ==> (i in bitmap[c] <==> lists.ready[c][i] != []))
  }

  /** All tables of the allocator, with the owner and the place of every chunk. */
  datatype Tables = Tables(owner: seq<nat>, next: seq<nat>, heads: Cells<nat>, lists: Cells<seq<nat>>,
                           place: seq<Place>,
                           tails: seq<seq<nat>>, bitmap: seq<set<nat>>)

  ghost predicate AllOk(n: nat, t: Tables) {
    && Consistent(n, t.next, t.heads, t.lists, t.place) && Owned(t.owner, t.place)
    && TailsOk(t.tails, t.lists, n) && BitsOk(t.bitmap, t.lists, n)
  }

  /** Quiescence has taken over the lists of cores 0..i-1. */
  ghost predicate TakenOver(lists0: Cells<seq<nat>>, lists: Cells<seq<nat>>, n: nat, cur: nat, i: nat)
    requires CellsOk(lists0, n) && CellsOk(lists, n)
  {
    && cur < n && i <= n
    && (forall p :: InRange(p, n) ==> At(lists, n, p) == ListAfter(lists0, n, cur, i, p))
  }

  function ListAfter(lists0: Cells<seq<nat>>, n: nat, cur: nat, i: nat, p: Place): seq<nat>
    requires CellsOk(lists0, n) && cur < n && i <= n && InRange(p, n)
  {
    if p.Ready? && p.home == cur && p.from < i then At(lists0, n, Freed(p.from, cur)) + At(lists0, n, p)
    else if p.Freed? && p.home == cur && p.from < i then []
    else At(lists0, n, p)
  }

  function PlaceAfter(p: Place, cur: nat): Place {
    if p.Freed? && p.home == cur then Ready(cur, p.from) else p
  }

  /** Chunk `x` was the head of list `p` and only that has changed. */
  predicate IsHeadOf(lists0: Cells<seq<nat>>, lists: Cells<seq<nat>>, n: nat, p: Place, x: nat)
    requires CellsOk(lists0, n) && InRange(p, n)
  {
    && At(lists0, n, p) != [] && x == At(lists0, n, p)[0]
    && lists == Put(lists0, n, p, At(lists0, n, p)[1..])
  }

  class ParallelAllocator {
    const n: nat
    var next: seq<nat>
    var heads: Cells<nat>
    var tails: seq<seq<nat>>
    var bitmap: seq<set<nat>>
    var dice: seq<nat>
    ghost var owner: seq<nat>
    ghost var lists: Cells<seq<nat>>
    ghost var place: seq<Place>

    /** Every core starts with `cap` chunks of its own in its pool. */
    constructor (n: nat, cap: nat)
      requires 0 < n <= 32
      ensures Valid() && this.n == n && |place| == 1 + n * cap
      ensures forall x :: 0 < x < |place| ==> place[x].Home?
      ensures forall c :: 0 <= c < n ==> |lists.pool[c]| == cap
    {
      this.n := n;
      next, place, owner := [0], [Used], [0];
      heads := Cells(seq(n, _ => 0), seq(n, _ => seq(n, _ => 0)), seq(n, _ => seq(n, _ => 0)));
      lists := Cells(seq(n, _ => []), seq(n, _ => seq(n, _ => [])), seq(n, _ => seq(n, _ => [])));
      tails, bitmap, dice := seq(n, _ => seq(n, _ => 0)), seq(n, _ => {}), seq(n, _ => 0);
      new;
      NoChunks(n, heads, lists);
      hide AllOk;
      var c := 0;
      while c < n
        invariant 0 <= c <= n && Valid() && |place| == 1 + c * cap
        invariant CellsOk(lists, n) && forall d :: 0 <= d < n ==> |lists.pool[d]| == if d < c then cap else 0
        invariant forall x :: 0 < x < |place| ==> place[x].Home?
      {
        FillPool(c, cap);
        assert (c + 1) * cap == c * cap + cap;
        c := c + 1;
      }
    }

    method FillPool(c: nat, cap: nat)
      requires Valid() && c < n && CellsOk(lists, n)
      requires forall x :: 0 < x < |place| ==> place[x].Home?
      modifies this`next, this`heads, this`lists, this`place, this`owner
      ensures Valid() && |place| == |old(place)| + cap && CellsOk(lists, n)
      ensures forall x :: 0 < x < |place| ==> place[x].Home?
      ensures forall d :: 0 <= d < n ==> |lists.pool[d]| == |old(lists.pool[d])| + if d == c then cap else 0
    {
      hide AllOk;
      var k := 0;
      while k < cap
        invariant 0 <= k <= cap && Valid() && |place| == |old(place)| + k && CellsOk(lists, n)
        invariant forall x :: 0 < x < |place| ==> place[x].Home?
        invariant forall d :: 0 <= d < n ==> |lists.pool[d]| == |old(lists.pool[d])| + if d == c then k else 0
      {
        AddChunk(c);
        k := k + 1;
      }
    }

    /** One more chunk for the pool of core `c`. */
    method AddChunk(c: nat)
      requires Valid() && c < n && CellsOk(lists, n)
      modifies this`next, this`heads, this`lists, this`place, this`owner
      ensures Valid() && place == old(place) + [Home(c)]
      ensures lists == Put(old(lists), n, Home(c), [|old(place)|] + old(lists.pool[c]))
    {
      hide Consistent, Put;
      Sizes(n, Now(), c);
      ghost var x := |place|;
      NewChunk(n, Now(), c);
      next := next + [heads.pool[c]];
      heads := Put(heads, n, Home(c), |next| - 1);
      lists := Put(lists, n, Home(c), [x] + lists.pool[c]);
      place, owner := place + [Home(c)], owner + [c];
    }

    ghost predicate Valid()
      reads this
    {
      && 0 < n <= 32 && |dice| == n && (forall c :: 0 <= c < n ==> dice[c] < n)
      && AllOk(n, Now())
    }

    ghost function Now(): Tables
      reads this
    {
      Tables(owner, next, heads, lists, place, tails, bitmap)
    }

    /** Alloc on core `cur`: a chunk of its own that nobody uses, consolidated ones first. */
    method Alloc(cur: nat) returns (r: nat)
      requires Valid() && cur < n
      modifies this`heads, this`bitmap, this`dice, this`lists, this`place
      ensures Valid()
      ensures r == 0 <==> old(lists.pool[cur]) == [] && forall i :: 0 <= i < n ==> old(lists.ready[cur][i]) == []
      ensures r == 0 ==> lists == old(lists) && place == old(place)
      ensures r != 0 ==> r < |place| && old(place[r]) != Used && owner[r] == cur && place == old(place)[r := Used]
      ensures r != 0 ==> InRange(old(place[r]), n) && IsHeadOf(old(lists), lists, n, old(place[r]), r)
      ensures r != 0 ==> (old(place[r]) == Home(cur) <==> forall i :: 0 <= i < n ==> old(lists.ready[cur][i]) == [])
    {
      hide Consistent, Owned, TailsOk, BitsOk, Put;
      Sizes(n, Now(), cur);
      if bitmap[cur] != {} {
        var d := RollDice(bitmap[cur], dice[cur]);
        DrawsCore(bitmap[cur], n, dice[cur], d);
        dice := dice[cur := d];
        var p := Ready(cur, d);
        HeadOf(n, next, heads, lists, place, p);
        TakeReady(n, Now(), cur, d);
        r := heads.ready[cur][d];
        var rest := next[r];
        if rest == 0 { bitmap := bitmap[cur := bitmap[cur] - IntMask(d)]; }
        heads := Put(heads, n, p, rest);
        place := place[r := Used];
        lists := Put(lists, n, p, At(lists, n, p)[1..]);
        return;
      }
      r := heads.pool[cur];
      HeadOf(n, next, heads, lists, place, Home(cur));
      if r != 0 {
        TakeHome(n, Now(), cur);
        heads := Put(heads, n, Home(cur), next[r]);
        place := place[r := Used];
        lists := Put(lists, n, Home(cur), At(lists, n, Home(cur))[1..]);
      }
    }

    /** Free on core `cur`: home chunks to the pool, others in front of the list for their home core. */
    method Free(cur: nat, x: nat, allocCore: nat)
      requires Valid() && cur < n && allocCore < n
      requires 0 < x < |place| && place[x] == Used && owner[x] == allocCore
      modifies this`next, this`heads, this`tails, this`lists, this`place
      ensures Valid()
      ensures var p := if cur == allocCore then Home(cur) else Freed(cur, allocCore);
              place == old(place)[x := p] && lists == Put(old(lists), n, p, [x] + old(At(lists, n, p)))
    {
      hide Consistent, Owned, TailsOk, BitsOk, Put;
      Sizes(n, Now(), cur);
      Sizes(n, Now(), allocCore);
      if cur == allocCore {
        GiveHome(n, Now(), cur, x);
        next := next[x := heads.pool[cur]];
        heads := Put(heads, n, Home(cur), x);
        lists := Put(lists, n, Home(cur), [x] + At(lists, n, Home(cur)));
        place := place[x := Home(cur)];
      } else {
        var p := Freed(cur, allocCore);
        GiveAway(n, Now(), cur, allocCore, x);
        HeadOf(n, next, heads, lists, place, p);
        if heads.freed[cur][allocCore] == 0 {
          tails := SetTail(tails, cur, allocCore, x);
        }
        next := next[x := heads.freed[cur][allocCore]];
        heads := Put(heads, n, p, x);
        lists := Put(lists, n, p, [x] + At(lists, n, p));
        place := place[x := p];
      }
    }

    /** Quiescence on core `cur`: every list freed to it moves in front of its consolidated one. */
    method Quiescence(cur: nat)
      requires Valid() && cur < n
      modifies this`next, this`heads, this`tails, this`bitmap, this`lists, this`place
      ensures Valid()
      ensures TakenOver(old(lists), lists, n, cur, n)
      ensures |place| == |old(place)| && forall x :: 0 < x < |place| ==> place[x] == PlaceAfter(old(place[x]), cur)
    {
      hide Consistent, Owned, TailsOk, BitsOk, Put, TakenOver, At;
      ghost var lists0, place0 := lists, place;
      NoneTaken(n, next, heads, lists, place, cur);
      var i := 0;
      while i < n
        invariant 0 <= i <= n && Valid() && CellsOk(lists, n) && TakenOver(lists0, lists, n, cur, i)
        invariant PlacesAfter(place0, place, cur, i)
      {
        Sizes(n, Now(), cur);
        Sizes(n, Now(), i);
        TakeOver(n, Now(), cur, i);
        TakenOverStep(lists0, lists, n, cur, i);
        PlacesStep(place0, place, cur, i);
        var tail := tails[i][cur];
        if tail != 0 {
          next := next[tail := heads.ready[cur][i]];
          heads := Put(Put(heads, n, Ready(cur, i), heads.freed[i][cur]), n, Freed(i, cur), 0);
          tails := SetTail(tails, i, cur, 0);
          bitmap := bitmap[cur := bitmap[cur] + IntMask(i)];
        }
        place := Moved(place, Freed(i, cur), Ready(cur, i));
        lists := Put(Put(lists, n, Ready(cur, i), lists.freed[i][cur] + lists.ready[cur][i]), n, Freed(i, cur), []);
        i := i + 1;
      }
      PlacesEnd(n, place0, place, cur);
    }
  }

  // ---------- what the methods rely on

  lemma Sizes(n: nat, t: Tables, c: nat)
    requires AllOk(n, t) && c < n
    ensures CellsOk(t.heads, n) && CellsOk(t.lists, n) && |t.owner| == |t.place| == |t.next|
    ensures |t.bitmap| == |t.tails| == n && |t.tails[c]| == n && CoreBits(t.bitmap[c], n)
    ensures forall i :: 0 <= i < n ==> (i in t.bitmap[c] <==> t.lists.ready[c][i] != [])
    ensures forall i :: 0 <= i < n ==> t.tails[c][i] == LastOf(t.lists.freed[c][i])
  {}

  lemma HeadOf(n: nat, next: seq<nat>, heads: Cells<nat>, lists: Cells<seq<nat>>, place: seq<Place>, p: Place)
    requires Consistent(n, next, heads, lists, place) && InRange(p, n)
    ensures var list := At(lists, n, p);
            && At(heads, n, p) == (if list == [] then 0 else list[0])
            && (list != [] ==> 0 < list[0] < |next| && place[list[0]] == p && (next[list[0]] == 0 <==> |list| == 1))
            && (list != [] ==> 0 < LastOf(list) < |next|)
  {
    AtList(n, next, heads, lists, place, p);
    var list := At(lists, n, p);
    if list != [] {
      assert list[0] in list && LastOf(list) in list;
      LastIsChunk(next, list[0], list);
      assert IsList(next, next[list[0]], list[1..]);
    }
  }

  lemma {:induction false} LastIsChunk(next: seq<nat>, head: nat, list: seq<nat>)
    requires list != [] && IsList(next, head, list)
    ensures 0 < LastOf(list) < |next|
    decreases |list|
  {
    if |list| > 1 { LastIsChunk(next, next[head], list[1..]); }
  }

  lemma OwnedPlace(owner: seq<nat>, place: seq<Place>, x: nat, p: Place)
    requires Owned(owner, place) && x < |place| && (p == Used || owner[x] == HomeOf(p))
    ensures Owned(owner, place[x := p])
  {}

  lemma BitsReady(bitmap: seq<set<nat>>, lists: Cells<seq<nat>>, n: nat, c: nat, d: nat, list: seq<nat>, bits: set<nat>)
    requires CellsOk(lists, n) && BitsOk(bitmap, lists, n) && c < n && d < n
    requires CoreBits(bits, n) && forall i ::
                                   0 <= i < n ==> (i in bits <==> if i == d then list != [] else i in bitmap[c])
    ensures BitsOk(bitmap[c := bits], Put(lists, n, Ready(c, d), list), n)
  {}

  lemma TailsFreed(tails: seq<seq<nat>>, lists: Cells<seq<nat>>, n: nat, i: nat, c: nat, list: seq<nat>)
    requires CellsOk(lists, n) && TailsOk(tails, lists, n) && c < n && i < n
    ensures TailsOk(SetTail(tails, i, c, LastOf(list)), Put(lists, n, Freed(i, c), list), n)
  {}

  /** Changing a list of one kind leaves the tables about the others alone. */
  lemma OtherTables(tails: seq<seq<nat>>, bitmap: seq<set<nat>>, lists: Cells<seq<nat>>, n: nat, p: Place,
                    list: seq<nat>)
    requires CellsOk(lists, n) && InRange(p, n)
    ensures !p.Freed? && TailsOk(tails, lists, n) ==> TailsOk(tails, Put(lists, n, p, list), n)
    ensures !p.Ready? && BitsOk(bitmap, lists, n) ==> BitsOk(bitmap, Put(lists, n, p, list), n)
  {}

  lemma TakeReady(n: nat, t: Tables, cur: nat, d: nat)
    requires AllOk(n, t) && n <= 32 && cur < n && d < n && d in t.bitmap[cur]
    ensures d < n && t.lists.ready[cur][d] != [] && t.heads.ready[cur][d] == t.lists.ready[cur][d][0] < |t.next|
    ensures var p, list := Ready(cur, d), t.lists.ready[cur][d];
            var r := list[0];
            && t.place[r] == p && t.owner[r] == cur && r > 0
            && AllOk(n, t.(heads := Put(t.heads, n, p, t.next[r]), lists := Put(t.lists, n, p, list[1..]),
                           place := t.place[r := Used],
                           bitmap := if t.next[r] == 0 then t.bitmap[cur := t.bitmap[cur] - IntMask(d)] else t.bitmap))
  {
    Sizes(n, t, cur);
    var p, list := Ready(cur, d), t.lists.ready[cur][d];
    HeadOf(n, t.next, t.heads, t.lists, t.place, p);
    PopKeeps(n, t.next, t.heads, t.lists, t.place, p);
    assert t.owner[list[0]] == cur;
    hide Consistent, Put;
    OwnedPlace(t.owner, t.place, list[0], Used);
    OtherTables(t.tails, t.bitmap, t.lists, n, p, list[1..]);
    if t.next[list[0]] == 0 {
      forall b: nat ensures b in IntMask(d) <==> b == d || (d == 31 && 32 <= b < 64) { MaskHolds(d, b); }
      BitsReady(t.bitmap, t.lists, n, cur, d, list[1..], t.bitmap[cur] - IntMask(d));
    } else {
      BitsReady(t.bitmap, t.lists, n, cur, d, list[1..], t.bitmap[cur]);
      assert t.bitmap[cur := t.bitmap[cur]] == t.bitmap;
    }
  }

  lemma TakeHome(n: nat, t: Tables, cur: nat)
    requires AllOk(n, t) && cur < n && t.lists.pool[cur] != []
    ensures t.heads.pool[cur] == t.lists.pool[cur][0] < |t.next|
    ensures var p, list := Home(cur), t.lists.pool[cur];
            var r := list[0];
            && t.place[r] == p && t.owner[r] == cur && r > 0
            && AllOk(n, t.(heads := Put(t.heads, n, p, t.next[r]), lists := Put(t.lists, n, p, list[1..]),
                           place := t.place[r := Used]))
  {
    var p, list := Home(cur), t.lists.pool[cur];
    HeadOf(n, t.next, t.heads, t.lists, t.place, p);
    PopKeeps(n, t.next, t.heads, t.lists, t.place, p);
    assert t.owner[list[0]] == cur;
    hide Consistent, Put;
    OwnedPlace(t.owner, t.place, list[0], Used);
    OtherTables(t.tails, t.bitmap, t.lists, n, p, list[1..]);
  }

  lemma GiveHome(n: nat, t: Tables, cur: nat, x: nat)
    requires AllOk(n, t) && cur < n && 0 < x < |t.place| && t.place[x] == Used && t.owner[x] == cur
    ensures var p := Home(cur);
            AllOk(n, t.(next := t.next[x := t.heads.pool[cur]], heads := Put(t.heads, n, p, x),
                        lists := Put(t.lists, n, p, [x] + t.lists.pool[cur]), place := t.place[x := p]))
  {
    var p := Home(cur);
    PushKeeps(n, t.next, t.heads, t.lists, t.place, p, x);
    hide Consistent, Put;
    OwnedPlace(t.owner, t.place, x, p);
    OtherTables(t.tails, t.bitmap, t.lists, n, p, [x] + t.lists.pool[cur]);
  }

  lemma GiveAway(n: nat, t: Tables, cur: nat, home: nat, x: nat)
    requires AllOk(n, t) && cur < n && home < n && 0 < x < |t.place| && t.place[x] == Used && t.owner[x] == home
    ensures var p, list := Freed(cur, home), t.lists.freed[cur][home];
            AllOk(n, t.(next := t.next[x := t.heads.freed[cur][home]], heads := Put(t.heads, n, p, x),
                        lists := Put(t.lists, n, p, [x] + list), place := t.place[x := p],
                        tails := if list == [] then SetTail(t.tails, cur, home, x) else t.tails))
  {
    var p, list := Freed(cur, home), t.lists.freed[cur][home];
    PushKeeps(n, t.next, t.heads, t.lists, t.place, p, x);
    hide Consistent, Put;
    OwnedPlace(t.owner, t.place, x, p);
    OtherTables(t.tails, t.bitmap, t.lists, n, p, [x] + list);
    TailsFreed(t.tails, t.lists, n, cur, home, [x] + list);
    assert LastOf([x] + list) == if list == [] then x else t.tails[cur][home];
    if list != [] {
      assert SetTail(t.tails, cur, home, t.tails[cur][home])[cur] == t.tails[cur];
      assert SetTail(t.tails, cur, home, t.tails[cur][home]) == t.tails;
    }
  }

  lemma NewChunk(n: nat, t: Tables, c: nat)
    requires AllOk(n, t) && c < n
    ensures AllOk(n, t.(owner := t.owner + [c], next := t.next + [t.heads.pool[c]],
                        heads := Put(t.heads, n, Home(c), |t.next|),
                        lists := Put(t.lists, n, Home(c), [|t.next|] + t.lists.pool[c]), place := t.place + [Home(c)]))
  {
    var x := |t.next|;
    ExtendKeeps(n, t.next, t.heads, t.lists, t.place);
    PushKeeps(n, t.next + [0], t.heads, t.lists, t.place + [Used], Home(c), x);
    assert (t.next + [0])[x := t.heads.pool[c]] == t.next + [t.heads.pool[c]];
    assert (t.place + [Used])[x := Home(c)] == t.place + [Home(c)];
    hide Consistent, Put;
    OtherTables(t.tails, t.bitmap, t.lists, n, Home(c), [x] + t.lists.pool[c]);
  }

  // ---------- quiescence

  lemma TakeOver(n: nat, t: Tables, cur: nat, i: nat)
    requires AllOk(n, t) && cur < n <= 32 && i < n
    ensures t.tails[i][cur] < |t.next|
    ensures var p, q := Freed(i, cur), Ready(cur, i);
            var lists' := Put(Put(t.lists, n, q, t.lists.freed[i][cur] + t.lists.ready[cur][i]), n, p, []);
            var moved := t.(lists := lists', place := Moved(t.place, p, q));
            if t.tails[i][cur] == 0 then AllOk(n, moved)
            else AllOk(n, moved.(next := t.next[t.tails[i][cur] := t.heads.ready[cur][i]],
                                 heads := Put(Put(t.heads, n, q, t.heads.freed[i][cur]), n, p, 0),
                                 tails := SetTail(t.tails, i, cur, 0),
                                   bitmap := t.bitmap[cur := t.bitmap[cur] + IntMask(i)]))
  {
    var p, q := Freed(i, cur), Ready(cur, i);
    var list, list2 := t.lists.freed[i][cur], t.lists.ready[cur][i];
    Sizes(n, t, i);
    Sizes(n, t, cur);
    HeadOf(n, t.next, t.heads, t.lists, t.place, p);
    if t.tails[i][cur] == 0 {
      assert list == [] && list + list2 == list2;
      NothingToMove(n, t.next, t.heads, t.lists, t.place, p, q);
      PutSame(t.lists, n, p, q);
    } else {
      JoinKeeps(n, t.next, t.heads, t.lists, t.place, p, q);
      hide Consistent, Put;
      OwnedMoved(t.owner, t.place, p, q);
      var lists1 := Put(t.lists, n, q, list + list2);
      OtherTables(t.tails, t.bitmap, t.lists, n, q, list + list2);
      forall b: nat ensures b in IntMask(i) <==> b == i || (i == 31 && 32 <= b < 64) { MaskHolds(i, b); }
      BitsReady(t.bitmap, t.lists, n, cur, i, list + list2, t.bitmap[cur] + IntMask(i));
      OtherTables(t.tails, t.bitmap[cur := t.bitmap[cur] + IntMask(i)], lists1, n, p, []);
      TailsFreed(t.tails, lists1, n, i, cur, []);
    }
  }

  lemma OwnedMoved(owner: seq<nat>, place: seq<Place>, p: Place, q: Place)
    requires Owned(owner, place) && !p.Used? && !q.Used? && HomeOf(p) == HomeOf(q)
    ensures Owned(owner, Moved(place, p, q))
  {}

  lemma NothingToMove(n: nat, next: seq<nat>, heads: Cells<nat>, lists: Cells<seq<nat>>, place: seq<Place>, p: Place,
                      q: Place)
    requires Consistent(n, next, heads, lists, place) && InRange(p, n) && At(lists, n, p) == []
    ensures Moved(place, p, q) == place
  {
    AtList(n, next, heads, lists, place, p);
  }

  lemma PutSame(lists: Cells<seq<nat>>, n: nat, p: Place, q: Place)
    requires CellsOk(lists, n) && InRange(p, n) && InRange(q, n) && p.Freed? && q.Ready? && At(lists, n, p) == []
    ensures Put(Put(lists, n, q, At(lists, n, q)), n, p, []) == lists
  {
    assert lists.ready[q.home][q.from := At(lists, n, q)] == lists.ready[q.home];
    assert lists.freed[p.from][p.home := []] == lists.freed[p.from];
  }

  lemma NoneTaken(n: nat, next: seq<nat>, heads: Cells<nat>, lists: Cells<seq<nat>>, place: seq<Place>, cur: nat)
    requires Consistent(n, next, heads, lists, place) && cur < n
    ensures CellsOk(lists, n) && TakenOver(lists, lists, n, cur, 0) && PlacesAfter(place, place, cur, 0)
    ensures forall x :: 0 < x < |place| ==> place[x] == Used || InRange(place[x], n)
  {}

  lemma TakenOverStep(lists0: Cells<seq<nat>>, lists: Cells<seq<nat>>, n: nat, cur: nat, i: nat)
    requires CellsOk(lists0, n) && CellsOk(lists, n) && TakenOver(lists0, lists, n, cur, i) && i < n
    ensures TakenOver(lists0, Put(Put(lists, n, Ready(cur, i), lists.freed[i][cur] + lists.ready[cur][i]), n,
                                  Freed(i, cur), []), n, cur, i + 1)
  {
    assert At(lists, n, Ready(cur, i)) == At(lists0, n, Ready(cur, i))
      && At(lists, n, Freed(i, cur)) == At(lists0, n, Freed(i, cur));
    hide Put;
  }

  /** Chunks freed to `cur` by cores 0..i-1 are consolidated. */
  ghost predicate PlacesAfter(place0: seq<Place>, place: seq<Place>, cur: nat, i: nat) {
    && |place| == |place0|
    && forall x ::
        0 < x < |place| ==> place[x] == if place0[x].Freed?
          && place0[x].from >= i then place0[x] else PlaceAfter(place0[x], cur)
  }

  lemma PlacesStep(place0: seq<Place>, place: seq<Place>, cur: nat, i: nat)
    requires PlacesAfter(place0, place, cur, i)
    ensures PlacesAfter(place0, Moved(place, Freed(i, cur), Ready(cur, i)), cur, i + 1)
  {}

  lemma PlacesEnd(n: nat, place0: seq<Place>, place: seq<Place>, cur: nat)
    requires PlacesAfter(place0, place, cur, n) && forall x ::
                                                    0 < x < |place0| ==> place0[x] == Used || InRange(place0[x], n)
    ensures forall x :: 0 < x < |place| ==> place[x] == PlaceAfter(place0[x], cur)
  {}
}
