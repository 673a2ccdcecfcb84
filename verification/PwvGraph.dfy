/** The dependency graph of PWV execution (pwv_graph.cc, pwv_graph.h): per resource, the
    transactions of an epoch form a chain in serial order; Build links each user to the next
    one and counts in-degrees, and ActivateResources releases the next user. */
module PwvGraph {
  import opened Sums

  const NONE: int := -1  // a null edge target
  const SPENT: int := -2 // 0xdeadbeef: the edge has been activated

  // ---------- who uses a resource before and after whom

  /** The last of the first `m` nodes that uses `r`, or NONE. */
  function LastUser(res: seq<seq<nat>>, m: nat, r: nat): (j: int)
    requires m <= |res|
    ensures -1 <= j < m
    ensures j >= 0 ==> r in res[j]
    ensures forall i :: j < i < m ==> r !in res[i]
  {
    if m == 0 then NONE else if r in res[m - 1] then m - 1 else LastUser(res, m - 1, r)
  }

  /** The first node in [a, m) that uses `r`, or NONE. */
  function FirstUser(res: seq<seq<nat>>, a: nat, m: nat, r: nat): (j: int)
    requires m <= |res|
    ensures j == NONE || (a <= j < m && r in res[j])
    ensures forall i :: a <= i < m && (j == NONE || i < j) ==> r !in res[i]
    decreases m - a
  {
    if a >= m then NONE else if r in res[a] then a else FirstUser(res, a + 1, m, r)
  }

  predicate Distinct(s: seq<nat>) {
    forall i, j :: 0 <= i < j < |s| ==> s[i] != s[j]
  }

  /** Each transaction lists a resource once. */
  predicate AllDistinct(res: seq<seq<nat>>) {
    forall i :: 0 <= i < |res| ==> Distinct(res[i])
  }

  function Depends(res: seq<seq<nat>>, i: nat, r: nat): int
    requires i <= |res|
  {
    if LastUser(res, i, r) >= 0 then 1 else 0
  }

  /** Per resource of node `i`, whether the epoch has an earlier user. */
  function DependsSeq(res: seq<seq<nat>>, i: nat): (s: seq<int>)
    requires i < |res|
    ensures |s| == |res[i]|
  {
    seq(|res[i]|, k requires 0 <= k < |res[i]| => Depends(res, i, res[i][k]))
  }

  // ---------- serial ids kept in the resource cells

  function SerialId(epoch: nat, node: nat): nat {
    epoch * 0x1_0000_0000 + (node + 1) * 0x100
  }

  /** from_serial_id: the node of a serial id. */
  function NodeOf(sid: nat): int {
    (sid / 0x100) % 0x100_0000 - 1
  }

  lemma SerialIdRoundTrip(epoch: nat, node: nat)
    requires node + 1 < 0x100_0000
    ensures NodeOf(SerialId(epoch, node)) == node
    ensures SerialId(epoch, node) / 0x1_0000_0000 == epoch
  {
    assert SerialId(epoch, node) == (epoch * 0x100_0000 + node + 1) * 0x100;
    assert (epoch * 0x100_0000 + (node + 1)) % 0x100_0000 == node + 1;
  }

  // ---------- the slots of a node's edges

  /** Node::at takes its index as an 8-bit number. */
  function SlotOf(n: nat): nat {
    n % 0x100
  }

  /** The edges of a node have slots of their own exactly up to 256 resources. */
  lemma SlotsDistinct(total: nat)
    ensures (forall i, j :: 0 <= i < j < total ==> SlotOf(i) != SlotOf(j)) <==> total <= 0x100
  {
    if total > 0x100 {
      assert SlotOf(0) == SlotOf(0x100);
    }
  }

  // ---------- what Build has done after the first `k` resources of node `m`

  /** The target of the edge of node `j` for `r`. */
  function EdgeTarget(res: seq<seq<nat>>, j: nat, r: nat, m: nat, k: nat): int
    requires m <= |res| && (m < |res| ==> k <= |res[m]|)
  {
    var f := FirstUser(res, j + 1, m, r);
    if f != NONE then f
    else if m < |res| && j < m && r in res[m][..k] then m
    else NONE
  }

  ghost predicate EdgesAt(res: seq<seq<nat>>, next: seq<seq<int>>, m: nat, k: nat) {
    && m <= |res| == |next| && (m < |res| ==> k <= |res[m]|)
    && (forall j :: 0 <= j < |res| ==> |next[j]| == |res[j]|)
    && forall j, e :: 0 <= j < |res| && 0 <= e < |res[j]| ==> next[j][e] == EdgeTarget(res, j, res[j][e], m, k)
  }

  function CellUser(res: seq<seq<nat>>, r: nat, m: nat, k: nat): int
    requires m <= |res| && (m < |res| ==> k <= |res[m]|)
  {
    if m < |res| && r in res[m][..k] then m else LastUser(res, m, r)
  }

  function CellWord(res: seq<seq<nat>>, r: nat, m: nat, k: nat, epoch: nat, before: nat): nat
    requires m <= |res| && (m < |res| ==> k <= |res[m]|)
  {
    var u := CellUser(res, r, m, k);
    if u >= 0 then SerialId(epoch, u) else before
  }

  ghost predicate CellsAt(res: seq<seq<nat>>, cells: seq<nat>, before: seq<nat>, epoch: nat, m: nat, k: nat) {
    && m <= |res| && (m < |res| ==> k <= |res[m]|) && |cells| == |before|
    && forall r :: 0 <= r < |cells| ==> cells[r] == CellWord(res, r, m, k, epoch, before[r])
  }

  lemma {:induction false} FirstUserExtend(res: seq<seq<nat>>, a: nat, m: nat, r: nat)
    requires m < |res|
    ensures FirstUser(res, a, m + 1, r) ==
              (var f := FirstUser(res, a, m, r); if f != NONE then f else if a <= m && r in res[m] then m else NONE)
    decreases m + 1 - a
  {
    if a < m && r !in res[a] {
      FirstUserExtend(res, a + 1, m, r);
    }
  }

  /** Only the last user so far has an open edge for `r`. */
  lemma LastUserIsOpen(res: seq<seq<nat>>, m: nat, r: nat, j: nat)
    requires m <= |res| && j < m && r in res[j]
    ensures FirstUser(res, j + 1, m, r) == NONE <==> j == LastUser(res, m, r)
  {}

  lemma InPrefix(s: seq<nat>, k: nat, x: nat)
    requires Distinct(s) && k < |s|
    ensures s[k] !in s[..k]
    ensures x in s[..k + 1] <==> x in s[..k] || x == s[k]
  {
    assert s[..k + 1] == s[..k] + [s[k]];
  }

  /** Build processes resource `k` of node `m`: the edge of its last user, if any, is closed. */
  lemma LinkStep(res: seq<seq<nat>>, next: seq<seq<int>>, next': seq<seq<int>>, m: nat, k: nat)
    requires AllDistinct(res) && EdgesAt(res, next, m, k) && m < |res| && k < |res[m]|
    requires var u := LastUser(res, m, res[m][k]);
             if u < 0 then next' == next
             else exists e :: 0 <= e < |res[u]| && res[u][e] == res[m][k] && next' == next[u := next[u][e := m]]
    ensures EdgesAt(res, next', m, k + 1)
  {
    var r := res[m][k];
    var u := LastUser(res, m, r);
    forall j, e | 0 <= j < |res| && 0 <= e < |res[j]|
      ensures next'[j][e] == EdgeTarget(res, j, res[j][e], m, k + 1)
    {
      InPrefix(res[m], k, res[j][e]);
      assert next[j][e] == EdgeTarget(res, j, res[j][e], m, k);
      if res[j][e] == r && j < m { LastUserIsOpen(res, m, r, j); }
    }
  }

  lemma CellStep(res: seq<seq<nat>>, cells: seq<nat>, before: seq<nat>, epoch: nat, m: nat, k: nat)
    requires AllDistinct(res) && CellsAt(res, cells, before, epoch, m, k) && m < |res| && k < |res[m]|
             && res[m][k] < |cells|
    ensures CellsAt(res, cells[res[m][k] := SerialId(epoch, m)], before, epoch, m, k + 1)
    ensures cells[res[m][k]] == (var u := LastUser(res, m, res[m][k]); if u >= 0 then SerialId(epoch, u)
                                 else before[res[m][k]])
  {
    var cells' := cells[res[m][k] := SerialId(epoch, m)];
    InPrefix(res[m], k, res[m][k]);
    forall r | 0 <= r < |cells| ensures cells'[r] == CellWord(res, r, m, k + 1, epoch, before[r]) {
      InPrefix(res[m], k, r);
    }
  }

  /** All resources of node `m` are done: on to the next node. */
  lemma NextNode(res: seq<seq<nat>>, next: seq<seq<int>>, cells: seq<nat>, before: seq<nat>, epoch: nat, m: nat)
    requires m < |res| && EdgesAt(res, next, m, |res[m]|) && CellsAt(res, cells, before, epoch, m, |res[m]|)
    ensures EdgesAt(res, next, m + 1, 0) && CellsAt(res, cells, before, epoch, m + 1, 0)
  {
    assert res[m][..|res[m]|] == res[m];
    forall j, e | 0 <= j < |res| && 0 <= e < |res[j]|
      ensures next[j][e] == EdgeTarget(res, j, res[j][e], m + 1, 0)
    {
      FirstUserExtend(res, j + 1, m, res[j][e]);
    }
    forall r | 0 <= r < |cells| ensures cells[r] == CellWord(res, r, m + 1, 0, epoch, before[r]) {
      assert cells[r] == CellWord(res, r, m, |res[m]|, epoch, before[r]);
    }
  }

  // ---------- activation, on values

  /** The graph while it runs: `active[i]` is the set of resources node `i` has activated. */
  datatype State = State(res: seq<seq<nat>>, mark: seq<bool>, next: seq<seq<int>>, in_degree: seq<int>,
                         freed: seq<nat>, active: seq<set<nat>>)

  /** Whether node `i` still waits for the release of `r` by the previous user. */
  function Waits(res: seq<seq<nat>>, active: seq<set<nat>>, i: nat, r: nat): int
    requires i <= |res| == |active|
  {
    var u := LastUser(res, i, r);
    if u >= 0 && r !in active[u] then 1 else 0
  }

  function WaitSeq(res: seq<seq<nat>>, active: seq<set<nat>>, i: nat): (s: seq<int>)
    requires i < |res| == |active|
    ensures |s| == |res[i]|
  {
    seq(|res[i]|, k requires 0 <= k < |res[i]| => Waits(res, active, i, res[i][k]))
  }

  function Target(res: seq<seq<nat>>, active: seq<set<nat>>, j: nat, r: nat): int
    requires j < |res| == |active|
  {
    var f := FirstUser(res, j + 1, |res|, r);
    if f != NONE && r in active[j] then SPENT else f
  }

  ghost predicate Lengths(g: State) {
    && |g.res| == |g.mark| == |g.next| == |g.in_degree| == |g.freed| == |g.active|
    && AllDistinct(g.res)
    && (forall j :: 0 <= j < |g.res| ==> |g.next[j]| == |g.res[j]|)
    && (forall i :: 0 <= i < |g.res| && !g.mark[i] ==> g.res[i] == [])
  }

  ghost predicate NodeOk(g: State, i: nat)
    requires Lengths(g) && i < |g.res|
  {
    && g.in_degree[i] == Sum(WaitSeq(g.res, g.active, i))
    && g.freed[i] == if g.mark[i] && g.in_degree[i] == 0 then 1 else 0
  }

  /** A resource is activated by its users in ascending order. */
  ghost predicate InOrder(res: seq<seq<nat>>, active: seq<set<nat>>)
    requires |res| == |active|
  {
    && (forall i, r :: 0 <= i < |res| && r in active[i] ==> r in res[i])
    && (forall i, j, r :: 0 <= j < i < |res| && r in active[i] && r in res[j] ==> r in active[j])
  }

  ghost predicate Running(g: State) {
    && Lengths(g)
    && (forall i :: 0 <= i < |g.res| ==> NodeOk(g, i))
    && (forall j, e ::
         0 <= j < |g.res| && 0 <= e < |g.res[j]| ==> g.next[j][e] == Target(g.res, g.active, j, g.res[j][e]))
    && InOrder(g.res, g.active)
  }

  /** Node `i`, which is free, activates its edge `e`: the next user of the resource loses one
      from its in-degree and is notified when that was the last. */
  ghost predicate Activates(g: State, g': State, i: nat, e: nat) {
    && Lengths(g) && i < |g.res| && e < |g.res[i]| && g.res[i][e] !in g.active[i] && g.in_degree[i] == 0
    && var active := g.active[i := g.active[i] + {g.res[i][e]}];
       var x := g.next[i][e];
       if x == NONE then g' == g.(active := active)
       else
         && 0 <= x < |g.res|
         && var d := g.in_degree[x] - 1;
            g' == g.(active := active, next := g.next[i := g.next[i][e := SPENT]], in_degree := g.in_degree[x := d],
                     freed := if d == 0 then g.freed[x := g.freed[x] + 1] else g.freed)
  }

  /** The next user of a resource is the one that waits for this node. */
  lemma NextWaits(res: seq<seq<nat>>, i: nat, x: nat, r: nat)
    requires i < |res| && x < |res| && r in res[i] && r in res[x]
    ensures LastUser(res, x, r) == i <==> FirstUser(res, i + 1, |res|, r) == x
  {}

  /** A free node has been released by all earlier users of its resources. */
  lemma FreeMeansReleased(g: State, i: nat, r: nat)
    requires Running(g) && i < |g.res| && g.in_degree[i] == 0 && r in g.res[i]
    ensures forall j :: 0 <= j < i && r in g.res[j] ==> r in g.active[j]
  {
    assert NodeOk(g, i);
    WaitsCount(g.res, g.active, i);
    var k :| 0 <= k < |g.res[i]| && g.res[i][k] == r;
    assert Waits(g.res, g.active, i, g.res[i][k]) == 0;
    ReleasedByLast(g.res, g.active, i, r);
  }

  lemma ReleasedByLast(res: seq<seq<nat>>, active: seq<set<nat>>, i: nat, r: nat)
    requires i < |res| == |active| && InOrder(res, active) && Waits(res, active, i, r) == 0
    ensures forall j :: 0 <= j < i && r in res[j] ==> r in active[j]
  {
    var u := LastUser(res, i, r);
    assert u >= 0 ==> r in active[u];
  }

  lemma OrderKept(g: State, i: nat, r: nat)
    requires Running(g) && i < |g.res| && g.in_degree[i] == 0 && r in g.res[i]
    ensures InOrder(g.res, g.active[i := g.active[i] + {r}])
  {
    FreeMeansReleased(g, i, r);
  }

  /** The only waiting that activating `r` at node `i` ends is that of the next user for `r`. */
  lemma WaitsAfter(res: seq<seq<nat>>, active: seq<set<nat>>, i: nat, r: nat, y: nat, k: nat)
    requires i < |res| == |active| && r in res[i] && r !in active[i] && y < |res| && k < |res[y]|
    ensures Waits(res, active[i := active[i] + {r}], y, res[y][k]) ==
              if y == FirstUser(res, i + 1, |res|, r) && res[y][k] == r then Waits(res, active, y, r) - 1
              else Waits(res, active, y, res[y][k])
  {
    if res[y][k] == r { NextWaits(res, i, y, r); }
  }

  lemma WaitSumAfter(res: seq<seq<nat>>, active: seq<set<nat>>, i: nat, r: nat, y: nat)
    requires i < |res| == |active| && r in res[i] && r !in active[i] && y < |res| && Distinct(res[y])
    ensures Sum(WaitSeq(res, active[i := active[i] + {r}], y)) ==
              Sum(WaitSeq(res, active, y)) - if y == FirstUser(res, i + 1, |res|, r) then 1 else 0
  {
    var active' := active[i := active[i] + {r}];
    var a, b := WaitSeq(res, active, y), WaitSeq(res, active', y);
    forall k | 0 <= k < |a|
      ensures b[k] == if y == FirstUser(res, i + 1, |res|, r) && res[y][k] == r then a[k] - 1 else a[k]
    {
      WaitsAfter(res, active, i, r, y, k);
    }
    if y == FirstUser(res, i + 1, |res|, r) {
      var k :| 0 <= k < |res[y]| && res[y][k] == r;
      SumChange(a, b, k);
    } else {
      assert a == b;
    }
  }

  lemma NodeKept(g: State, g': State, i: nat, e: nat, y: nat)
    requires Lengths(g) && Lengths(g') && Activates(g, g', i, e) && y < |g.res| && NodeOk(g, y)
    requires g.next[i][e] == FirstUser(g.res, i + 1, |g.res|, g.res[i][e])
    ensures NodeOk(g', y)
  {
    var r := g.res[i][e];
    WaitSumAfter(g.res, g.active, i, r, y);
    WaitsCount(g'.res, g'.active, y);
    assert y == FirstUser(g.res, i + 1, |g.res|, r) ==> r in g.res[y] && g.mark[y];
  }

  lemma WaitsCount(res: seq<seq<nat>>, active: seq<set<nat>>, i: nat)
    requires i < |res| == |active|
    ensures Sum(WaitSeq(res, active, i)) >= 0
    ensures Sum(WaitSeq(res, active, i)) == 0 ==> forall k ::
                                                   0 <= k < |res[i]| ==> Waits(res, active, i, res[i][k]) == 0
  {
    var ws := WaitSeq(res, active, i);
    SumNonNegative(ws);
    forall k | 0 <= k < |res[i]| ensures ws[k] == Waits(res, active, i, res[i][k]) {}
  }

  lemma ActivateKeeps(g: State, g': State, i: nat, e: nat)
    requires Running(g) && Activates(g, g', i, e)
    ensures Running(g')
  {
    hide NodeOk, InOrder, LastUser, FirstUser;
    OrderKept(g, i, g.res[i][e]);
    assert g.next[i][e] == Target(g.res, g.active, i, g.res[i][e]);
    forall y | 0 <= y < |g.res| ensures NodeOk(g', y) {
      NodeKept(g, g', i, e, y);
    }
    forall j, f | 0 <= j < |g.res| && 0 <= f < |g.res[j]|
      ensures g'.next[j][f] == Target(g.res, g'.active, j, g.res[j][f])
    {
      assert g.next[j][f] == Target(g.res, g.active, j, g.res[j][f]);
    }
  }

  // ---------- runs

  /** The graph as Build leaves it. */
  ghost predicate Built(g: State) {
    && Lengths(g)
    && (forall i :: 0 <= i < |g.res| ==> g.active[i] == {})
    && (forall j, e ::
         0 <= j < |g.res| && 0 <= e < |g.res[j]| ==> g.next[j][e] == FirstUser(g.res, j + 1, |g.res|, g.res[j][e]))
    && (forall i :: 0 <= i < |g.res| ==> g.in_degree[i] == Sum(DependsSeq(g.res, i)))
    && (forall i :: 0 <= i < |g.res| ==> g.freed[i] == if g.mark[i] && g.in_degree[i] == 0 then 1 else 0)
  }

  ghost predicate Next(g: State, g': State) {
    exists i, e :: Activates(g, g', i, e)
  }

  ghost predicate IsRun(run: seq<State>) {
    && run != [] && Built(run[0])
    && forall n :: 0 <= n < |run| - 1 ==> Next(run[n], run[n + 1])
  }

  lemma BuiltIsRunning(g: State)
    requires Built(g)
    ensures Running(g)
  {
    forall i | 0 <= i < |g.res| ensures NodeOk(g, i) {
      assert WaitSeq(g.res, g.active, i) == DependsSeq(g.res, i);
    }
  }

  lemma {:induction false} RunIsRunning(run: seq<State>, n: nat)
    requires IsRun(run) && n < |run|
    ensures Running(run[n])
  {
    hide Running, Activates, Built;
    if n == 0 {
      BuiltIsRunning(run[0]);
    } else {
      RunIsRunning(run, n - 1);
      assert Next(run[n - 1], run[n]);
      var i: nat, e: nat :| Activates(run[n - 1], run[n], i, e);
      ActivateKeeps(run[n - 1], run[n], i, e);
    }
  }

  /** In every state of every run: in-degrees count the unreleased resources, a marked node has
      been notified exactly once if it is free and not at all otherwise. */
  lemma NotifiedExactlyOnce(run: seq<State>, n: nat, i: nat)
    requires IsRun(run) && n < |run| && i < |run[n].res|
    ensures Lengths(run[n]) && run[n].in_degree[i] >= 0
    ensures run[n].in_degree[i] == Sum(WaitSeq(run[n].res, run[n].active, i))
    ensures run[n].mark[i] ==> run[n].freed[i] == if run[n].in_degree[i] == 0 then 1 else 0
  {
    RunIsRunning(run, n);
    assert NodeOk(run[n], i);
    SumNonNegative(WaitSeq(run[n].res, run[n].active, i));
  }

  /** Every resource is activated in ascending serial order. */
  lemma ActivatedAscending(run: seq<State>, n: nat, i: nat, j: nat, r: nat)
    requires IsRun(run) && n < |run| && j < i < |run[n].res| && |run[n].active| == |run[n].res|
    requires r in run[n].active[i] && r in run[n].res[j]
    ensures r in run[n].active[j]
  {
    RunIsRunning(run, n);
  }

  /** Progress: the first node that still has a resource to activate is free to do so. */
  lemma SmallestUnfinishedIsFree(run: seq<State>, n: nat, i: nat)
    requires IsRun(run) && n < |run| && i < |run[n].res| && |run[n].active| == |run[n].res|
    requires forall j, r :: 0 <= j < i && r in run[n].res[j] ==> r in run[n].active[j]
    ensures |run[n].in_degree| == |run[n].res| && run[n].in_degree[i] == 0
  {
    RunIsRunning(run, n);
    assert NodeOk(run[n], i);
    SumConstant(WaitSeq(run[n].res, run[n].active, i), 0);
  }

  /** A free node can activate each resource it has not activated yet. */
  lemma FreeCanActivate(g: State, i: nat, e: nat)
    requires Running(g) && i < |g.res| && e < |g.res[i]| && g.in_degree[i] == 0 && g.res[i][e] !in g.active[i]
    ensures exists g' :: Next(g, g')
  {
    var active := g.active[i := g.active[i] + {g.res[i][e]}];
    var x := g.next[i][e];
    assert x == Target(g.res, g.active, i, g.res[i][e]);
    if x == NONE {
      assert Next(g, g.(active := active)) by { assert Activates(g, g.(active := active), i, e); }
    } else {
      var d := g.in_degree[x] - 1;
      var g' := g.(active := active, next := g.next[i := g.next[i][e := SPENT]], in_degree := g.in_degree[x := d],
                   freed := if d == 0 then g.freed[x := g.freed[x] + 1] else g.freed);
      assert Next(g, g') by { assert Activates(g, g', i, e); }
    }
  }

  lemma {:induction false} StuckBelow(run: seq<State>, n: nat, i: nat)
    requires IsRun(run) && n < |run| && i <= |run[n].res| == |run[n].active| && forall g' :: !Next(run[n], g')
    ensures forall j, r :: 0 <= j < i && r in run[n].res[j] ==> r in run[n].active[j]
  {
    if i > 0 {
      hide IsRun, Next;
      StuckBelow(run, n, i - 1);
      SmallestUnfinishedIsFree(run, n, i - 1);
      RunIsRunning(run, n);
      var g := run[n];
      forall j, r | 0 <= j < i && r in g.res[j] ensures r in g.active[j] {
        if j == i - 1 && r !in g.active[j] {
          var e :| 0 <= e < |g.res[j]| && g.res[j][e] == r;
          FreeCanActivate(g, j, e);
        }
      }
    }
  }

  /** A graph in which nothing can be activated any more is done: every node has been freed, exactly
      once, and has activated all its resources. */
  lemma StuckMeansDone(run: seq<State>, n: nat, i: nat)
    requires IsRun(run) && n < |run| && i < |run[n].res| && forall g' :: !Next(run[n], g')
    ensures Lengths(run[n]) && run[n].in_degree[i] == 0 && (run[n].mark[i] ==> run[n].freed[i] == 1)
    ensures forall r :: r in run[n].res[i] <==> r in run[n].active[i]
  {
    hide IsRun, Next;
    RunIsRunning(run, n);
    StuckBelow(run, n, |run[n].res|);
    SmallestUnfinishedIsFree(run, n, i);
    assert NodeOk(run[n], i);
  }

  function Left(g: State): (r: seq<int>)
    requires |g.active| == |g.res|
    ensures |r| == |g.res|
  {
    seq(|g.res|, i requires 0 <= i < |g.res| => |g.res[i]| - |g.active[i]|)
  }

  /** Each step activates one more resource, so there are only as many as there are edges. */
  lemma StepLowers(run: seq<State>, n: nat)
    requires IsRun(run) && n + 1 < |run|
    ensures Lengths(run[n]) && Lengths(run[n + 1])
    ensures 0 <= Sum(Left(run[n + 1])) == Sum(Left(run[n])) - 1
  {
    RunIsRunning(run, n + 1);
    assert Next(run[n], run[n + 1]);
    var i: nat, e: nat :| Activates(run[n], run[n + 1], i, e);
    hide Sum;
    SumChange(Left(run[n]), Left(run[n + 1]), i);
    var g := run[n + 1];
    forall k | 0 <= k < |g.res| ensures Left(g)[k] >= 0 {
      SubsetSize(g.res[k], g.active[k]);
    }
    SumNonNegative(Left(g));
  }

  lemma {:induction false} SubsetSize(s: seq<nat>, a: set<nat>)
    requires forall r :: r in a ==> r in s
    ensures |a| <= |s|
  {
    if s == [] {
      assert a == {};
    } else {
      var k := |s| - 1;
      var b := a - {s[k]};
      forall r | r in b ensures r in s[..k] {}
      SubsetSize(s[..k], b);
      assert s[k] in a ==> a == b + {s[k]};
    }
  }

  /** The graph of one core over one epoch's transactions. Edge `k` of node `i` stands for the
      resource `res[i][k]` and points to node `next[i][k]`. */
  class Graph {
    const epoch: nat
    var tot: seq<nat>  // edges reserved per node, 16 bits
    var res: seq<seq<nat>>
    var next: seq<seq<int>>
    var mark: seq<bool>
    var in_degree: seq<int>
    var freed: seq<nat>  // calls of on_node_free per node
    var cells: seq<nat>  // the words the resources point to
    ghost var active: seq<set<nat>>

    ghost predicate Shape()
      reads this
    {
      && |tot| == |res| == |next| == |mark| == |in_degree| == |freed| == |active| < 0x100_0000 - 1
      && (forall i :: 0 <= i < |res| ==> |next[i]| == |res[i]| <= 0x100)
      && (forall i, k :: 0 <= i < |res| && 0 <= k < |res[i]| ==> res[i][k] < |cells|)
      && (forall i :: 0 <= i < |res| && !mark[i] ==> res[i] == [])
      && AllDistinct(res)
    }

    /** What AddResources leaves for Build. */
    ghost predicate Fresh()
      reads this
    {
      && Shape()
      && (forall i, k :: 0 <= i < |res| && 0 <= k < |res[i]| ==> next[i][k] == NONE)
      && (forall i :: 0 <= i < |res| ==> in_degree[i] == 0 && freed[i] == 0 && active[i] == {})
      && (forall r :: 0 <= r < |cells| ==> cells[r] / 0x1_0000_0000 != epoch)
    }

    constructor (epoch: nat, n: nat, cells: seq<nat>)
      requires n < 0x100_0000 - 1
      requires forall r :: 0 <= r < |cells| ==> cells[r] / 0x1_0000_0000 != epoch
      ensures Fresh() && this.epoch == epoch && this.cells == cells
      ensures res == seq(n, i => []) && mark == seq(n, i => false) && tot == seq(n, i => 0)
    {
      this.epoch := epoch;
      this.cells := cells;
      tot := seq(n, i => 0);
      res := seq(n, i => []);
      next := seq(n, i => []);
      mark := seq(n, i => false);
      in_degree := seq(n, i => 0);
      freed := seq(n, i => 0);
      active := seq(n, i => {});
    }

    ghost function Now(): State
      reads this
    {
      State(res, mark, next, in_degree, freed, active)
    }

    /** The body of ActivateResources' loop: node `i` is past its in-degree check. */
    method ActivateResource(i: nat, r: nat)
      requires Shape() && Running(Now()) && i < |res| && in_degree[i] == 0 && r in res[i] && r !in active[i]
      modifies this`next, this`in_degree, this`freed, this`active
      ensures Shape() && Running(Now())
      ensures exists e :: 0 <= e < |res[i]| && res[i][e] == r && Activates(old(Now()), Now(), i, e)
    {
      hide Running;
      ghost var g := Now();
      var e := FindEdge(i, r);
      RunningEdge(g, i, e);
      active := active[i := active[i] + {r}];
      if next[i][e] != NONE {
        var x := next[i][e];
        in_degree := in_degree[x := in_degree[x] - 1];
        if in_degree[x] == 0 {
          freed := freed[x := freed[x] + 1];
        }
        next := next[i := next[i][e := SPENT]];
      }
      ActivateKeeps(g, Now(), i, e);
    }

    /** ReserveEdge aborts once the node has resources. */
    method ReserveEdge(i: nat, n: nat) returns (ok: bool)
      requires Fresh() && i < |tot| && tot[i] + n < 0x1_0000
      modifies this`tot
      ensures Fresh() && (ok <==> res[i] == [])
      ensures tot == if ok then old(tot)[i := old(tot[i]) + n] else old(tot)
    {
      ok := |res[i]| == 0;
      if ok { tot := tot[i := tot[i] + n]; }
    }

    /** AddResources: the resources join the edges of the node, with no target yet. It aborts when
        fewer edges were reserved. */
    method AddResources(i: nat, rs: seq<nat>) returns (ok: bool)
      requires Fresh() && i < |res| && |res[i]| + |rs| <= 0x100
      requires Distinct(res[i] + rs) && forall k :: 0 <= k < |rs| ==> rs[k] < |cells|
      modifies this`res, this`next, this`mark
      ensures Fresh()
      ensures ok <==> old(|res[i]|) + |rs| <= tot[i]
      ensures ok ==> res == old(res)[i := old(res[i]) + rs] && mark == old(mark)[i := true]
      ensures !ok ==> res == old(res) && mark == old(mark)
    {
      if |res[i]| + |rs| > tot[i] { return false; }
      res := res[i := res[i] + rs];
      next := next[i := next[i] + seq(|rs|, k => NONE)];
      mark := mark[i := true];
      ok := true;
    }

    /** Node::FindEdge */
    method FindEdge(i: nat, r: nat) returns (e: int)
      requires Shape() && i < |res|
      ensures e == -1 <==> r !in res[i]
      ensures e != -1 ==> 0 <= e < |res[i]| && res[i][e] == r
    {
      e := 0;
      while e < |res[i]|
        invariant 0 <= e <= |res[i]|
        invariant r !in res[i][..e]
      {
        if res[i][SlotOf(e)] == r { return; }
        assert res[i][..e + 1] == res[i][..e] + [res[i][e]];
        e := e + 1;
      }
      assert res[i][..e] == res[i];
      e := -1;
    }

    /** Build: after it every edge points to the next user of its resource, the in-degree of a
        marked node counts its resources with an earlier user in the epoch, and exactly the
        marked nodes without any have been notified. */
    method Build()
      requires Fresh()
      modifies this`next, this`in_degree, this`freed, this`cells
      ensures Shape()
      ensures forall j, e ::
               0 <= j < |res| && 0 <= e < |res[j]| ==> next[j][e] == FirstUser(res, j + 1, |res|, res[j][e])
      ensures forall i :: 0 <= i < |res| ==> in_degree[i] == Sum(DependsSeq(res, i))
      ensures forall i :: 0 <= i < |res| ==> freed[i] == if mark[i] && in_degree[i] == 0 then 1 else 0
      ensures Built(Now())
    {
      hide EdgesAt, CellsAt, AllDistinct, DependsSeq;
      ghost var before := cells;
      StartState(res, next, cells, epoch);
      var m := 0;
      while m < |res|
        invariant 0 <= m <= |res| && Shape() && |cells| == |before|
        invariant EdgesAt(res, next, m, 0) && CellsAt(res, cells, before, epoch, m, 0)
        invariant forall i :: 0 <= i < m ==> in_degree[i] == Sum(DependsSeq(res, i))
        invariant forall i :: 0 <= i < m ==> freed[i] == if mark[i] && in_degree[i] == 0 then 1 else 0
        invariant forall i :: m <= i < |res| ==> in_degree[i] == 0 && freed[i] == 0
      {
        VisitNode(m, before);
        NextNode(res, next, cells, before, epoch, m);
        m := m + 1;
      }
      EdgesBuilt(res, next);
    }

    /** The body of Build's loop for node `m`. */
    method VisitNode(m: nat, ghost before: seq<nat>)
      requires Shape() && m < |res| && |before| == |cells| && in_degree[m] == 0 && freed[m] == 0
      requires EdgesAt(res, next, m, 0) && CellsAt(res, cells, before, epoch, m, 0)
      requires forall r :: 0 <= r < |before| ==> before[r] / 0x1_0000_0000 != epoch
      modifies this`next, this`in_degree, this`freed, this`cells
      ensures Shape() && |cells| == |before|
      ensures EdgesAt(res, next, m, |res[m]|) && CellsAt(res, cells, before, epoch, m, |res[m]|)
      ensures in_degree == old(in_degree)[m := Sum(DependsSeq(res, m))]
      ensures freed == old(freed)[m := if mark[m] && in_degree[m] == 0 then 1 else 0]
    {
      hide EdgesAt, CellsAt, AllDistinct, DependsSeq;
      if mark[m] {
        var d := LinkNode(m, before);
        DependsNonNegative(res, m);
        if d > 0 {
          in_degree := in_degree[m := in_degree[m] + d];
        } else {
          freed := freed[m := freed[m] + 1];
        }
      } else {
        NoResources(res, m);
      }
    }

    /** The inner loop of Build over the resources of node `m`. */
    method LinkNode(m: nat, ghost before: seq<nat>) returns (d: nat)
      requires Shape() && m < |res| && |before| == |cells|
      requires EdgesAt(res, next, m, 0) && CellsAt(res, cells, before, epoch, m, 0)
      requires forall r :: 0 <= r < |before| ==> before[r] / 0x1_0000_0000 != epoch
      modifies this`next, this`cells
      ensures Shape() && |cells| == |before|
      ensures EdgesAt(res, next, m, |res[m]|) && CellsAt(res, cells, before, epoch, m, |res[m]|)
      ensures d == Sum(DependsSeq(res, m))
    {
      hide EdgesAt, CellsAt, Depends, AllDistinct;
      d := 0;
      var k := 0;
      while k < |res[m]|
        invariant 0 <= k <= |res[m]| && Shape() && |cells| == |before|
        invariant EdgesAt(res, next, m, k) && CellsAt(res, cells, before, epoch, m, k)
        invariant d == Sum(DependsSeq(res, m)[..k])
      {
        var linked := LinkOne(m, k, before);
        if linked { d := d + 1; }
        DependsPrefix(res, m, k);
        k := k + 1;
      }
      assert DependsSeq(res, m)[..k] == DependsSeq(res, m);
    }

    /** One resource: look up its last user in the cell, link that user to `m`, sign the cell. */
    method LinkOne(m: nat, k: nat, ghost before: seq<nat>) returns (linked: bool)
      requires Shape() && m < |res| && k < |res[m]| && |before| == |cells|
      requires EdgesAt(res, next, m, k) && CellsAt(res, cells, before, epoch, m, k)
      requires forall r :: 0 <= r < |before| ==> before[r] / 0x1_0000_0000 != epoch
      modifies this`next, this`cells
      ensures Shape() && |cells| == |before|
      ensures EdgesAt(res, next, m, k + 1) && CellsAt(res, cells, before, epoch, m, k + 1)
      ensures linked <==> Depends(res, m, res[m][k]) == 1
    {
      hide EdgesAt, CellsAt, AllDistinct, SerialId, NodeOf;
      var rc := res[m][SlotOf(k)];
      CellStep(res, cells, before, epoch, m, k);
      var lastSid := cells[rc];
      ghost var u := LastUser(res, m, rc);
      if u >= 0 { SerialIdRoundTrip(epoch, u); }
      linked := lastSid / 0x1_0000_0000 == epoch;
      ghost var next0 := next;
      if linked {
        var parent := NodeOf(lastSid);
        var e := FindEdge(parent, rc);
        next := next[parent := next[parent][e := m]];
      }
      LinkStep(res, next0, next, m, k);
      cells := cells[rc := SerialId(epoch, m)];
    }
  }

  lemma DependsPrefix(res: seq<seq<nat>>, m: nat, k: nat)
    requires m < |res| && k < |res[m]|
    ensures Sum(DependsSeq(res, m)[..k + 1]) == Sum(DependsSeq(res, m)[..k]) + Depends(res, m, res[m][k])
    ensures Depends(res, m, res[m][k]) == 0 || Depends(res, m, res[m][k]) == 1
  {
    var s := DependsSeq(res, m);
    assert s[..k + 1][..k] == s[..k];
  }

  lemma RunningEdge(g: State, i: nat, e: nat)
    requires Running(g) && i < |g.res| && e < |g.res[i]|
    ensures Lengths(g)
    ensures g.res[i][e] !in g.active[i] ==> g.next[i][e] == NONE || 0 <= g.next[i][e] < |g.res|
  {
    assert g.next[i][e] == Target(g.res, g.active, i, g.res[i][e]);
  }

  lemma StartState(res: seq<seq<nat>>, next: seq<seq<int>>, cells: seq<nat>, epoch: nat)
    requires |res| == |next| && forall j :: 0 <= j < |res| ==> |next[j]| == |res[j]|
    requires forall i, k :: 0 <= i < |res| && 0 <= k < |res[i]| ==> next[i][k] == NONE
    ensures EdgesAt(res, next, 0, 0) && CellsAt(res, cells, cells, epoch, 0, 0)
  {}

  lemma EdgesBuilt(res: seq<seq<nat>>, next: seq<seq<int>>)
    requires EdgesAt(res, next, |res|, 0)
    ensures forall j, e :: 0 <= j < |res| && 0 <= e < |res[j]| ==> next[j][e] == FirstUser(res, j + 1, |res|, res[j][e])
  {}

  lemma NoResources(res: seq<seq<nat>>, m: nat)
    requires m < |res| && res[m] == []
    ensures Sum(DependsSeq(res, m)) == 0
  {
    assert DependsSeq(res, m) == [];
  }

  lemma DependsNonNegative(res: seq<seq<nat>>, i: nat)
    requires i < |res|
    ensures Sum(DependsSeq(res, i)) >= 0
  {
    SumNonNegative(DependsSeq(res, i));
  }
}
