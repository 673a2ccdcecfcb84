/** Buffer plans of node_config.cc: how many items go from which node to which, per level of the
    piece tree. Nodes are numbered from 1. */
module BufferPlan {
  import opened Basics

  const LEVELS: nat := 16
  const DYNAMIC: nat := 255

  /** `nodeId` 0 means the node of the parent, 255 any node; `futureSource` 0 means this node. */
  datatype Piece = Piece(nodeId: nat, fvSignals: nat, futureSource: nat, children: seq<Piece>)

  /** Column `b` of row `a` in a table `n` wide. */
  function Cell(a: nat, b: nat, n: nat): (r: nat) {
    a * n + b
  }

  /** BatchBufferIndex. */
  function Index(n: nat, level: nat, src: nat, dst: nat): (r: nat)
    requires 1 <= src <= n && 1 <= dst <= n
  {
    Cell(Cell(level, src - 1, n), dst - 1, n)
  }

  lemma CellLess(a: nat, b: nat, c: nat, d: nat, n: nat)
    requires b < n && a < c
    ensures Cell(a, b, n) < Cell(a + 1, 0, n) <= Cell(c, d, n)
  {
    MulLe(a + 1, c, n);
    assert (a + 1) * n == a * n + n;
  }

  lemma MulLe(a: nat, b: nat, n: nat)
    requires a <= b
    ensures a * n <= b * n
  {}

  lemma CellUnique(a: nat, b: nat, c: nat, d: nat, n: nat)
    requires b < n && d < n
    ensures Cell(a, b, n) == Cell(c, d, n) <==> a == c && b == d
  {
    if a < c {
      CellLess(a, b, c, d, n);
      hide Cell;
    } else if c < a {
      CellLess(c, d, a, b, n);
      hide Cell;
    }
  }

  /** Different counters have different places. */
  lemma IndexInjective(n: nat, level: nat, src: nat, dst: nat, level': nat, src': nat, dst': nat)
    requires 1 <= src <= n && 1 <= dst <= n && 1 <= src' <= n && 1 <= dst' <= n
    ensures Index(n, level, src, dst) == Index(n, level', src', dst') <==> level == level' && src == src' && dst == dst'
  {
    hide Cell;
    CellUnique(level, src - 1, level', src' - 1, n);
    CellUnique(Cell(level, src - 1, n), dst - 1, Cell(level', src' - 1, n), dst' - 1, n);
  }

  /** All places are inside the table, in the column of their destination. */
  lemma IndexInside(n: nat, level: nat, src: nat, dst: nat)
    requires 1 <= src <= n && 1 <= dst <= n && level < LEVELS
    ensures Index(n, level, src, dst) < LEVELS * n * n
    ensures Index(n, level, src, dst) % n == dst - 1
  {
    var row := Cell(level, src - 1, n);
    CellLess(level, src - 1, LEVELS, 0, n);
    CellLess(row, dst - 1, LEVELS * n, 0, n);
    ModOf(row, dst - 1, n);
  }

  lemma ModOf(q: nat, r: nat, n: nat)
    requires r < n
    ensures Cell(q, r, n) % n == r
  {
    var x := Cell(q, r, n);
    assert Cell(x / n, x % n, n) == x;
    CellUnique(q, r, x / n, x % n, n);
  }

  // ---------- what a tree adds to a counter

  function Dest(p: Piece, src: nat): nat {
    if p.nodeId == 0 then src else p.nodeId
  }

  function FutureNode(p: Piece, me: nat): nat {
    if p.futureSource == 0 then me else p.futureSource
  }

  /** The tree fits the table: known nodes, at most 16 levels, no children below a dynamic piece. */
  predicate PieceOk(n: nat, p: Piece, level: nat) {
    && level < LEVELS && (p.nodeId <= n || (p.nodeId == DYNAMIC && p.children == []))
    && forall i :: 0 <= i < |p.children| ==> PieceOk(n, p.children[i], level + 1)
  }

  /** Items the piece itself adds to counter (l, s, d): one for the piece, one for every future value
      it waits for, from the node that computes them. */
  function Own(p: Piece, level: nat, src: nat, future: nat, l: nat, s: nat, d: nat): nat {
    var dst := Dest(p, src);
    if l != level then 0
    else if dst < DYNAMIC then
      if d != dst then 0 else (if s == src then 1 else 0) + (if s == future then p.fvSignals else 0)
    else if s == src then 1 else 0
  }

  function Adds(p: Piece, level: nat, src: nat, future: nat, l: nat, s: nat, d: nat): nat {
    Own(p, level, src, future, l, s, d) + AddsAll(p.children, level + 1, Dest(p, src), future, l, s, d)
  }

  function AddsAll(ps: seq<Piece>, level: nat, src: nat, future: nat, l: nat, s: nat, d: nat): nat {
    if ps == [] then 0
    else AddsAll(ps[..|ps| - 1], level, src, future, l, s, d) + Adds(ps[|ps| - 1], level, src, future, l, s, d)
  }

  /** Items of the tree for node `d`, wherever they come from. */
  function ItemsTo(p: Piece, src: nat, d: nat): nat {
    (if Dest(p, src) >= DYNAMIC then 1 else if Dest(p, src) == d then 1 + p.fvSignals else 0)
    + ItemsToAll(p.children, Dest(p, src), d)
  }

  function ItemsToAll(ps: seq<Piece>, src: nat, d: nat): nat {
    if ps == [] then 0 else ItemsToAll(ps[..|ps| - 1], src, d) + ItemsTo(ps[|ps| - 1], src, d)
  }

  /** All counters of the table whose destination is `d`. */
  function PlanFor(cnts: seq<nat>, n: nat, d: nat, k: nat): nat
    requires n > 0 && d >= 1 && k <= |cnts|
  {
    if k == 0 then 0 else PlanFor(cnts, n, d, k - 1) + if (k - 1) % n == d - 1 then cnts[k - 1] else 0
  }

  lemma {:induction false} PlanForBump(cnts: seq<nat>, n: nat, d: nat, k: nat, j: nat, x: nat)
    requires n > 0 && d >= 1 && k <= |cnts| && j < |cnts|
    ensures PlanFor(cnts[j := cnts[j] + x], n, d, k) == PlanFor(cnts, n, d, k) + if j < k && j % n == d - 1 then x
            else 0
  {
    if k > 0 { PlanForBump(cnts, n, d, k - 1, j, x); }
  }

  /** The table `now` is `was` plus what the pieces add, counter by counter and per destination. */
  ghost predicate Grown(was: seq<nat>, now: seq<nat>, n: nat, add: (nat, nat, nat) -> nat, items: nat -> nat) {
    && n > 0 && |was| == |now| == LEVELS * n * n
    && (forall l: nat, s: nat, d: nat :: l < LEVELS && 1 <= s <= n && 1 <= d <= n ==>
          Index(n, l, s, d) < |now| && now[Index(n, l, s, d)] == was[Index(n, l, s, d)] + add(l, s, d))
    && (forall d: nat :: 1 <= d <= n ==> PlanFor(now, n, d, |now|) == PlanFor(was, n, d, |was|) + items(d))
  }

  lemma GrownNothing(was: seq<nat>, n: nat)
    requires n > 0 && |was| == LEVELS * n * n
    ensures Grown(was, was, n, (l, s, d) => 0, d => 0)
  {
    hide Index, PlanFor;
    forall l: nat, s: nat, d: nat | l < LEVELS && 1 <= s <= n && 1 <= d <= n ensures Index(n, l, s, d) < |was| {
      IndexInside(n, l, s, d);
    }
  }

  lemma GrownBoth(was: seq<nat>, mid: seq<nat>, now: seq<nat>, n: nat, add1: (nat, nat, nat) -> nat, items1: nat -> nat,
                  add2: (nat, nat, nat) -> nat, items2: nat -> nat, add: (nat, nat, nat) -> nat, items: nat -> nat)
    requires Grown(was, mid, n, add1, items1) && Grown(mid, now, n, add2, items2)
    requires forall l: nat, s: nat, d: nat ::
              l < LEVELS && 1 <= s <= n && 1 <= d <= n ==> add(l, s, d) == add1(l, s, d) + add2(l, s, d)
    requires forall d: nat :: 1 <= d <= n ==> items(d) == items1(d) + items2(d)
    ensures Grown(was, now, n, add, items)
  {
    hide Index, PlanFor;
    forall l: nat, s: nat, d: nat | l < LEVELS && 1 <= s <= n && 1 <= d <= n
      ensures now[Index(n, l, s, d)] == was[Index(n, l, s, d)] + add(l, s, d)
    {
      assert mid[Index(n, l, s, d)] == was[Index(n, l, s, d)] + add1(l, s, d);
    }
  }

  /** One counter goes up. */
  lemma GrownOne(was: seq<nat>, n: nat, level: nat, src: nat, dst: nat, x: nat)
    requires n > 0 && |was| == LEVELS * n * n && level < LEVELS && 1 <= src <= n && 1 <= dst <= n
    ensures Index(n, level, src, dst) < |was|
    ensures Grown(was, was[Index(n, level, src, dst) := was[Index(n, level, src, dst)] + x], n,
                  (l, s, d) => if l == level && s == src && d == dst then x else 0, d => if d == dst then x else 0)
  {
    IndexInside(n, level, src, dst);
    hide Index, PlanFor;
    var j := Index(n, level, src, dst);
    forall l: nat, s: nat, d: nat | l < LEVELS && 1 <= s <= n && 1 <= d <= n
      ensures Index(n, l, s, d) < |was| && (Index(n, l, s, d) == j <==> l == level && s == src && d == dst)
    {
      IndexInside(n, l, s, d);
      IndexInjective(n, l, s, d, level, src, dst);
    }
    forall d: nat | 1 <= d <= n
      ensures PlanFor(was[j := was[j] + x], n, d, |was|) == PlanFor(was, n, d, |was|) + if d == dst then x else 0
    {
      PlanForBump(was, n, d, |was|, j, x);
    }
  }

  // ---------- collecting a plan

  function OwnItems(p: Piece, src: nat, d: nat): nat {
    if Dest(p, src) >= DYNAMIC then 1 else if Dest(p, src) == d then 1 + p.fvSignals else 0
  }

  /** Add `x` to one counter. */
  method Bump(cnts: array<nat>, n: nat, level: nat, src: nat, dst: nat, x: nat)
    requires n > 0 && cnts.Length == LEVELS * n * n && level < LEVELS && 1 <= src <= n && 1 <= dst <= n
    modifies cnts
    ensures Grown(old(cnts[..]), cnts[..], n, (l, s, d) => if l == level && s == src && d == dst then x
                  else 0, d => if d == dst then x else 0)
  {
    GrownOne(cnts[..], n, level, src, dst, x);
    hide Index, Grown;
    ghost var was := cnts[..];
    var j := Index(n, level, src, dst);
    cnts[j] := cnts[j] + x;
    assert cnts[..] == was[j := was[j] + x];
  }

  /** What CollectBufferPlanImpl counts for the piece itself. */
  method CountOwn(cnts: array<nat>, n: nat, p: Piece, level: nat, src: nat, future: nat)
    requires 0 < n < DYNAMIC && cnts.Length == LEVELS * n * n && PieceOk(n, p, level) && 1 <= src <= n
             && 1 <= future <= n
    modifies cnts
    ensures Grown(old(cnts[..]), cnts[..], n, (l, s, d) => Own(p, level, src, future, l, s, d),
                  d => OwnItems(p, src, d))
  {
    hide Grown;
    ghost var was := cnts[..];
    var dst := Dest(p, src);
    if dst < DYNAMIC {
      Bump(cnts, n, level, src, dst, 1);
      ghost var mid := cnts[..];
      Bump(cnts, n, level, future, dst, p.fvSignals);
      GrownBoth(was, mid, cnts[..], n,
                (l, s, d) => if l == level && s == src && d == dst then 1 else 0, d => if d == dst then 1 else 0,
                (l, s, d) => if l == level && s == future && d == dst then p.fvSignals else 0, d => if d == dst
                  then p.fvSignals else 0,
                (l, s, d) => Own(p, level, src, future, l, s, d), d => OwnItems(p, src, d));
    } else {
      CountDynamic(cnts, n, level, src);
      GrownSame(was, cnts[..], n, (l, s, d) => if l == level && s == src && d <= n then 1 else 0,
                d => if d <= n then 1 else 0,
                (l, s, d) => Own(p, level, src, future, l, s, d), d => OwnItems(p, src, d));
    }
  }

  lemma GrownSame(was: seq<nat>, now: seq<nat>, n: nat, add1: (nat, nat, nat) -> nat, items1: nat -> nat,
                  add: (nat, nat, nat) -> nat, items: nat -> nat)
    requires Grown(was, now, n, add1, items1)
    requires forall l: nat, s: nat, d: nat :: l < LEVELS && 1 <= s <= n && 1 <= d <= n ==> add(l, s, d) == add1(l, s, d)
    requires forall d: nat :: 1 <= d <= n ==> items(d) == items1(d)
    ensures Grown(was, now, n, add, items)
  {
    hide Index, PlanFor;
  }

  /** A dynamic piece may run anywhere: one for every destination. */
  method CountDynamic(cnts: array<nat>, n: nat, level: nat, src: nat)
    requires 0 < n && cnts.Length == LEVELS * n * n && level < LEVELS && 1 <= src <= n
    modifies cnts
    ensures Grown(old(cnts[..]), cnts[..], n, (l, s, d) => if l == level && s == src && d <= n then 1
                  else 0, d => if d <= n then 1 else 0)
  {
    hide Grown;
    ghost var was := cnts[..];
    GrownNothing(was, n);
    var k := 1;
    GrownSame(was, was, n, (l, s, d) => 0, d => 0,
              (l, s, d) => if l == level && s == src && d < k then 1 else 0, d => if d < k then 1 else 0);
    while k <= n
      invariant 1 <= k <= n + 1
      invariant Grown(was, cnts[..], n, (l, s, d) => if l == level && s == src && d < k then 1 else 0, d => if d < k
                      then 1 else 0)
    {
      ghost var mid, k0 := cnts[..], k;
      Bump(cnts, n, level, src, k, 1);
      k := k + 1;
      GrownBoth(was, mid, cnts[..], n,
                (l, s, d) => if l == level && s == src && d < k0 then 1 else 0, d => if d < k0 then 1 else 0,
                (l, s, d) => if l == level && s == src && d == k0 then 1 else 0, d => if d == k0 then 1 else 0,
                (l, s, d) => if l == level && s == src && d < k then 1 else 0, d => if d < k then 1 else 0);
    }
    GrownSame(was, cnts[..], n, (l, s, d) => if l == level && s == src && d < k then 1 else 0,
              d => if d < k then 1 else 0,
              (l, s, d) => if l == level && s == src && d <= n then 1 else 0, d => if d <= n then 1 else 0);
  }

  /** CollectBufferPlanImpl: every counter grows by what the tree adds to it. */
  method CollectBufferPlanImpl(cnts: array<nat>, n: nat, p: Piece, level: nat, src: nat, future: nat)
    requires 0 < n < DYNAMIC && cnts.Length == LEVELS * n * n && PieceOk(n, p, level) && 1 <= src <= n
             && 1 <= future <= n
    modifies cnts
    ensures Grown(old(cnts[..]), cnts[..], n, (l, s, d) => Adds(p, level, src, future, l, s, d),
                  d => ItemsTo(p, src, d))
    decreases p
  {
    hide Grown, Own, AddsAll, ItemsToAll;
    ghost var was := cnts[..];
    CountOwn(cnts, n, p, level, src, future);
    ghost var own := cnts[..];
    var dst := Dest(p, src);
    if p.children == [] {
      NoChildren(p, level, src, future);
      GrownSame(was, own, n, (l, s, d) => Own(p, level, src, future, l, s, d), d => OwnItems(p, src, d),
                (l, s, d) => Adds(p, level, src, future, l, s, d), d => ItemsTo(p, src, d));
      return;
    }
    GrownNothing(own, n);
    var i := 0;
    NoPieces(p.children[..0], level + 1, dst, future);
    GrownSame(own, own, n, (l, s, d) => 0, d => 0,
              (l, s, d) => AddsAll(p.children[..0], level + 1, dst, future, l, s, d),
              d => ItemsToAll(p.children[..0], dst, d));
    while i < |p.children|
      invariant 0 <= i <= |p.children|
      invariant Grown(own, cnts[..], n, (l, s, d) => AddsAll(p.children[..i], level + 1, dst, future, l, s, d),
                      d => ItemsToAll(p.children[..i], dst, d))
    {
      ghost var mid, c, k := cnts[..], p.children[i], i;
      CollectBufferPlanImpl(cnts, n, p.children[i], level + 1, dst, future);
      i := i + 1;
      OneMore(p.children, k, level + 1, dst, future);
      GrownBoth(own, mid, cnts[..], n,
                (l, s, d) => AddsAll(p.children[..k], level + 1, dst, future, l, s, d),
                  d => ItemsToAll(p.children[..k], dst, d),
                (l, s, d) => Adds(c, level + 1, dst, future, l, s, d), d => ItemsTo(c, dst, d),
                (l, s, d) => AddsAll(p.children[..i], level + 1, dst, future, l, s, d),
                  d => ItemsToAll(p.children[..i], dst, d));
    }
    assert p.children[..i] == p.children;
    GrownBoth(was, own, cnts[..], n, (l, s, d) => Own(p, level, src, future, l, s, d), d => OwnItems(p, src, d),
              (l, s, d) => AddsAll(p.children[..i], level + 1, dst, future, l, s, d),
                d => ItemsToAll(p.children[..i], dst, d),
              (l, s, d) => Adds(p, level, src, future, l, s, d), d => ItemsTo(p, src, d));
  }

  lemma NoPieces(ps: seq<Piece>, level: nat, src: nat, future: nat)
    requires ps == []
    ensures forall l: nat, s: nat, d: nat :: AddsAll(ps, level, src, future, l, s, d) == 0
    ensures forall d: nat :: ItemsToAll(ps, src, d) == 0
  {}

  lemma NoChildren(p: Piece, level: nat, src: nat, future: nat)
    requires p.children == []
    ensures forall l: nat, s: nat, d: nat :: Adds(p, level, src, future, l, s, d) == Own(p, level, src, future, l, s, d)
    ensures forall d: nat :: ItemsTo(p, src, d) == OwnItems(p, src, d)
  {}

  lemma OneMore(ps: seq<Piece>, k: nat, level: nat, src: nat, future: nat)
    requires k < |ps|
    ensures forall l: nat, s: nat, d: nat ::
      AddsAll(ps[..k + 1], level, src, future, l, s, d)
        == AddsAll(ps[..k], level, src, future, l, s, d) + Adds(ps[k], level, src, future, l, s, d)
    ensures forall d: nat :: ItemsToAll(ps[..k + 1], src, d) == ItemsToAll(ps[..k], src, d) + ItemsTo(ps[k], src, d)
  {
    assert ps[..k + 1][..k] == ps[..k];
  }

  function RootAdds(ps: seq<Piece>, me: nat, l: nat, s: nat, d: nat): nat {
    if ps == [] then 0
    else RootAdds(ps[..|ps| - 1], me, l, s, d) + Adds(ps[|ps| - 1], 0, me, FutureNode(ps[|ps| - 1], me), l, s, d)
  }

  predicate RootsOk(n: nat, ps: seq<Piece>) {
    forall i :: 0 <= i < |ps| ==> PieceOk(n, ps[i], 0) && ps[i].futureSource <= n
  }

  /** CollectBufferPlan on node `me`, for all pieces of a transaction. */
  method CollectBufferPlan(cnts: array<nat>, n: nat, ps: seq<Piece>, me: nat)
    requires 0 < n < DYNAMIC && cnts.Length == LEVELS * n * n && RootsOk(n, ps) && 1 <= me <= n
    modifies cnts
    ensures Grown(old(cnts[..]), cnts[..], n, (l, s, d) => RootAdds(ps, me, l, s, d), d => ItemsToAll(ps, me, d))
  {
    hide Grown, Adds, ItemsTo, RootAdds, ItemsToAll;
    ghost var was := cnts[..];
    GrownNothing(was, n);
    NoRoots(ps[..0], me);
    GrownSame(was, was, n, (l, s, d) => 0, d => 0, (l, s, d) => RootAdds(ps[..0], me, l, s, d),
              d => ItemsToAll(ps[..0], me, d));
    var i := 0;
    while i < |ps|
      invariant 0 <= i <= |ps|
      invariant Grown(was, cnts[..], n, (l, s, d) => RootAdds(ps[..i], me, l, s, d), d => ItemsToAll(ps[..i], me, d))
    {
      ghost var mid, c, k := cnts[..], ps[i], i;
      CollectBufferPlanImpl(cnts, n, ps[i], 0, me, FutureNode(ps[i], me));
      i := i + 1;
      OneMoreRoot(ps, k, me);
      GrownBoth(was, mid, cnts[..], n, (l, s, d) => RootAdds(ps[..k], me, l, s, d), d => ItemsToAll(ps[..k], me, d),
                (l, s, d) => Adds(c, 0, me, FutureNode(c, me), l, s, d), d => ItemsTo(c, me, d),
                (l, s, d) => RootAdds(ps[..i], me, l, s, d), d => ItemsToAll(ps[..i], me, d));
    }
    assert ps[..i] == ps;
    GrownSame(was, cnts[..], n, (l, s, d) => RootAdds(ps[..i], me, l, s, d), d => ItemsToAll(ps[..i], me, d),
              (l, s, d) => RootAdds(ps, me, l, s, d), d => ItemsToAll(ps, me, d));
  }

  lemma NoRoots(ps: seq<Piece>, me: nat)
    requires ps == []
    ensures forall l: nat, s: nat, d: nat :: RootAdds(ps, me, l, s, d) == 0
    ensures forall d: nat :: ItemsToAll(ps, me, d) == 0
  {}

  lemma OneMoreRoot(ps: seq<Piece>, k: nat, me: nat)
    requires k < |ps|
    ensures forall l: nat, s: nat, d: nat ::
      RootAdds(ps[..k + 1], me, l, s, d)
        == RootAdds(ps[..k], me, l, s, d) + Adds(ps[k], 0, me, FutureNode(ps[k], me), l, s, d)
    ensures forall d: nat :: ItemsToAll(ps[..k + 1], me, d) == ItemsToAll(ps[..k], me, d) + ItemsTo(ps[k], me, d)
  {
    assert ps[..k + 1][..k] == ps[..k];
  }

  // ---------- exchanging plans

  /** The first `hi` entries of `data` have been added in. */
  predicate Added(was: seq<nat>, now: seq<nat>, data: seq<nat>, hi: nat) {
    && |was| == |now| == |data| && hi <= |data|
    && forall k :: 0 <= k < |now| ==> now[k] == was[k] + if k < hi then data[k] else 0
  }

  lemma RowEnd(i: nat, n: nat)
    ensures Cell(i, n, n) == Cell(i + 1, 0, n)
  {
    assert (i + 1) * n == i * n + n;
  }

  /** The columns of one row of FlushBufferPlan: from source `src` at level `level`. */
  method FlushRow(data: seq<nat>, local: array<nat>, total: array<nat>, n: nat, me: nat, level: nat, src: nat,
                  ghost local0: seq<nat>, ghost total0: seq<nat>) returns (inc: nat)
    requires local != total && local.Length == total.Length == |data| == LEVELS * n * n && level < LEVELS
             && 1 <= src <= n && 1 <= me <= n
    requires Added(local0, local[..], data, Index(n, level, src, 1))
             && Added(total0, total[..], data, Index(n, level, src, 1))
    modifies local, total
    ensures Index(n, level, src, n) < |data|
    ensures Added(local0, local[..], data, Index(n, level, src, n) + 1)
            && Added(total0, total[..], data, Index(n, level, src, n) + 1)
    ensures inc + PlanFor(data, n, me, Index(n, level, src, 1)) == PlanFor(data, n, me, Index(n, level, src, n) + 1)
  {
    IndexInside(n, level, src, n);
    var dst := 1;
    inc := 0;
    ghost var first := Index(n, level, src, 1);
    while dst <= n
      invariant 1 <= dst <= n + 1 && first + (dst - 1) <= |data|
      invariant Added(local0, local[..], data, first + (dst - 1)) && Added(total0, total[..], data, first + (dst - 1))
      invariant inc + PlanFor(data, n, me, first) == PlanFor(data, n, me, first + (dst - 1))
    {
      IndexInside(n, level, src, dst);
      var idx := Index(n, level, src, dst);
      var counter := data[idx];
      local[idx] := local[idx] + counter;
      total[idx] := total[idx] + counter;
      if counter != 0 && dst == me { inc := inc + counter; }
      dst := dst + 1;
    }
  }

  /** Where row `src` (from 0) of a level starts. */
  function RowStart(n: nat, level: nat, src: nat): nat {
    Cell(Cell(level, src, n), 0, n)
  }

  lemma RowsFollow(n: nat, level: nat, src: nat)
    requires src < n
    ensures Index(n, level, src + 1, 1) == RowStart(n, level, src)
            && Index(n, level, src + 1, n) + 1 == RowStart(n, level, src + 1)
    ensures RowStart(n, level, n) == RowStart(n, level + 1, 0) && RowStart(n, 0, 0) == 0
            && RowStart(n, LEVELS, 0) == LEVELS * n * n
  {
    RowEnd(Cell(level, src, n), n);
    RowEnd(level, n);
  }

  /** FlushBufferPlan: one core's counters go into the node's plan and totals, and the completion
      counter grows by everything in them for this node. */
  method FlushBufferPlan(data: seq<nat>, local: array<nat>, total: array<nat>, n: nat, me: nat) returns (inc: nat)
    requires local != total && local.Length == total.Length == |data| == LEVELS * n * n && 1 <= me <= n
    modifies local, total
    ensures Added(old(local[..]), local[..], data, |data|) && Added(old(total[..]), total[..], data, |data|)
    ensures inc == PlanFor(data, n, me, |data|)
  {
    hide Index, RowStart, PlanFor, Cell;
    ghost var local0, total0 := local[..], total[..];
    RowsFollow(n, 0, 0);
    PlanForNothing(data, n, me);
    inc := 0;
    var i := 0;
    while i < LEVELS
      invariant 0 <= i <= LEVELS && RowStart(n, i, 0) <= |data|
      invariant Added(local0, local[..], data, RowStart(n, i, 0)) && Added(total0, total[..], data, RowStart(n, i, 0))
      invariant inc == PlanFor(data, n, me, RowStart(n, i, 0))
    {
      var src := 0;
      while src < n
        invariant 0 <= src <= n && RowStart(n, i, src) <= |data|
        invariant Added(local0, local[..], data, RowStart(n, i, src))
                  && Added(total0, total[..], data, RowStart(n, i, src))
        invariant inc == PlanFor(data, n, me, RowStart(n, i, src))
      {
        RowsFollow(n, i, src);
        var more := FlushRow(data, local, total, n, me, i, src + 1, local0, total0);
        inc := inc + more;
        src := src + 1;
      }
      RowsFollow(n, i, 0);
      i := i + 1;
    }
    RowsFollow(n, 0, 0);
  }

  lemma PlanForNothing(data: seq<nat>, n: nat, d: nat)
    requires n > 0 && d >= 1
    ensures PlanFor(data, n, d, 0) == 0
  {}

  /** The columns of one row of a received plan; zero counters are skipped. */
  method ReceiveRow(data: seq<nat>, total: array<nat>, n: nat, me: nat, level: nat, src: nat,
                    ghost total0: seq<nat>) returns (cnt: nat)
    requires total.Length == |data| == LEVELS * n * n && level < LEVELS && 1 <= src <= n && 1 <= me <= n
    requires Added(total0, total[..], data, Index(n, level, src, 1))
    modifies total
    ensures Index(n, level, src, n) < |data| && Added(total0, total[..], data, Index(n, level, src, n) + 1)
    ensures cnt + PlanFor(data, n, me, Index(n, level, src, 1)) == PlanFor(data, n, me, Index(n, level, src, n) + 1)
  {
    IndexInside(n, level, src, n);
    var dst := 1;
    cnt := 0;
    ghost var first := Index(n, level, src, 1);
    while dst <= n
      invariant 1 <= dst <= n + 1 && first + (dst - 1) <= |data|
      invariant Added(total0, total[..], data, first + (dst - 1))
      invariant cnt + PlanFor(data, n, me, first) == PlanFor(data, n, me, first + (dst - 1))
    {
      IndexInside(n, level, src, dst);
      var idx := Index(n, level, src, dst);
      if data[idx] != 0 {
        total[idx] := total[idx] + data[idx];
        if dst == me { cnt := cnt + data[idx]; }
      }
      dst := dst + 1;
    }
  }

  /** UpdateBatchCountersFromReceiver: a peer's plan goes into the totals, and the completion counter
      is corrected from the guess to what the plan has for this node. */
  method UpdateBatchCounters(data: seq<nat>, total: array<nat>, n: nat, me: nat) returns (dec: int)
    requires total.Length == |data| == LEVELS * n * n && 1 <= me <= n
    modifies total
    ensures Added(old(total[..]), total[..], data, |data|)
    ensures MAX_PIECES - dec == PlanFor(data, n, me, |data|)
  {
    hide Index, RowStart, PlanFor, Cell;
    ghost var total0 := total[..];
    RowsFollow(n, 0, 0);
    PlanForNothing(data, n, me);
    var totalCnt := 0;
    var i := 0;
    while i < LEVELS
      invariant 0 <= i <= LEVELS && RowStart(n, i, 0) <= |data|
      invariant Added(total0, total[..], data, RowStart(n, i, 0))
      invariant totalCnt == PlanFor(data, n, me, RowStart(n, i, 0))
    {
      var src := 0;
      while src < n
        invariant 0 <= src <= n && RowStart(n, i, src) <= |data|
        invariant Added(total0, total[..], data, RowStart(n, i, src))
        invariant totalCnt == PlanFor(data, n, me, RowStart(n, i, src))
      {
        RowsFollow(n, i, src);
        var more := ReceiveRow(data, total, n, me, i, src + 1, total0);
        totalCnt := totalCnt + more;
        src := src + 1;
      }
      RowsFollow(n, i, 0);
      i := i + 1;
    }
    RowsFollow(n, 0, 0);
    dec := MAX_PIECES - totalCnt;
  }

  // ---------- what a channel expects

  /** Items from `src` to `dst` at levels below `level`. */
  function Incoming(total: seq<nat>, n: nat, src: nat, dst: nat, level: nat): nat
    requires 1 <= src <= n && 1 <= dst <= n && level <= LEVELS && |total| == LEVELS * n * n
  {
    if level == 0 then 0
    else (IndexInside(n, level - 1, src, dst); Incoming(total, n, src, dst, level - 1)
          + total[Index(n, level - 1, src, dst)])
  }

  /** CalculateIncomingFromNode. */
  method CalculateIncoming(total: array<nat>, n: nat, src: nat, me: nat) returns (s: nat)
    requires total.Length == LEVELS * n * n && 1 <= src <= n && 1 <= me <= n
    ensures s == Incoming(total[..], n, src, me, LEVELS)
  {
    s := 0;
    var i := 0;
    while i < LEVELS
      invariant 0 <= i <= LEVELS && s == Incoming(total[..], n, src, me, i)
    {
      IndexInside(n, i, src, me);
      s := s + total[Index(n, i, src, me)];
      i := i + 1;
    }
  }

  /** Items to `dst` from the first `k` sources, at levels below `level`. */
  function AllIncoming(total: seq<nat>, n: nat, dst: nat, k: nat, level: nat): nat
    requires k <= n && 1 <= dst <= n && level <= LEVELS && |total| == LEVELS * n * n
  {
    if k == 0 then 0 else AllIncoming(total, n, dst, k - 1, level) + Incoming(total, n, k, dst, level)
  }

  lemma {:induction false} RowAdds(total: seq<nat>, n: nat, dst: nat, level: nat, src: nat, k: nat)
    requires 1 <= src <= n && 1 <= dst <= n && level < LEVELS && |total| == LEVELS * n * n && k <= n
    ensures Index(n, level, src, 1) + k <= |total| && Index(n, level, src, dst) < |total|
    ensures PlanFor(total, n, dst, Index(n, level, src, 1) + k)
         == PlanFor(total, n, dst, Index(n, level, src, 1)) + if dst <= k then total[Index(n, level, src, dst)] else 0
  {
    IndexInside(n, level, src, n);
    IndexInside(n, level, src, dst);
    if k > 0 {
      RowAdds(total, n, dst, level, src, k - 1);
      IndexInside(n, level, src, k);
    }
  }

  lemma {:induction false} LevelAdds(total: seq<nat>, n: nat, dst: nat, level: nat, k: nat)
    requires 1 <= dst <= n && level < LEVELS && |total| == LEVELS * n * n && k <= n
    ensures RowStart(n, level, k) <= |total|
    ensures PlanFor(total, n, dst, RowStart(n, level, k)) - PlanFor(total, n, dst, RowStart(n, level, 0))
         == AllIncoming(total, n, dst, k, level + 1) - AllIncoming(total, n, dst, k, level)
  {
    RowsFollow(n, level, 0);
    IndexInside(n, level, 1, 1);
    if k > 0 {
      LevelAdds(total, n, dst, level, k - 1);
      RowAdds(total, n, dst, level, k, n);
      RowsFollow(n, level, k - 1);
      hide PlanFor, Index, RowStart, Cell;
    }
  }

  lemma {:induction false} PlanByLevels(total: seq<nat>, n: nat, dst: nat, level: nat)
    requires 1 <= dst <= n && level <= LEVELS && |total| == LEVELS * n * n
    ensures RowStart(n, level, 0) <= |total|
    ensures PlanFor(total, n, dst, RowStart(n, level, 0)) == AllIncoming(total, n, dst, n, level)
  {
    if level == 0 {
      RowsFollow(n, 0, 0);
      NoLevels(total, n, dst, n);
    } else {
      PlanByLevels(total, n, dst, level - 1);
      LevelAdds(total, n, dst, level - 1, n);
      RowsFollow(n, level - 1, 0);
    }
  }

  lemma {:induction false} NoLevels(total: seq<nat>, n: nat, dst: nat, k: nat)
    requires k <= n && 1 <= dst <= n && |total| == LEVELS * n * n
    ensures AllIncoming(total, n, dst, k, 0) == 0
  {
    if k > 0 { NoLevels(total, n, dst, k - 1); }
  }

  /** What the channels of a node expect together is what its completion counter was told. */
  lemma IncomingIsPlan(total: seq<nat>, n: nat, dst: nat)
    requires 1 <= dst <= n && |total| == LEVELS * n * n
    ensures AllIncoming(total, n, dst, n, LEVELS) == PlanFor(total, n, dst, |total|)
  {
    PlanByLevels(total, n, dst, LEVELS);
    RowsFollow(n, 0, 0);
  }
}
