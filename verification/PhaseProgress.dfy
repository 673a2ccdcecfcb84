/** A phase ends: as long as some node is not done there is a step, and only finitely many steps are
    left once the plans are flushed. */
module PhaseProgress {
  import opened Basics
  import opened Sums
  import opened PhaseProtocol

  // ---------- there is a step

  /** Some step other than adding to a plan is enabled. */
  ghost predicate CanStep(nodes: seq<Node>) {
    exists nodes', v, a :: Step(nodes, nodes', v, a) && !a.FlushEntry?
  }

  ghost predicate SamePlans(nodes: seq<Node>, nodes': seq<Node>) {
    && Shapes(nodes) && Shapes(nodes') && |nodes| == |nodes'|
    && forall v :: 0 <= v < |nodes| ==> nodes'[v].local == nodes[v].local
  }

  lemma PlansStillFit(nodes: seq<Node>, nodes': seq<Node>)
    requires SamePlans(nodes, nodes') && PlansFit(nodes)
    ensures PlansFit(nodes')
  {
    hide Sum;
    forall v | 0 <= v < |nodes| ensures Shape(nodes, v) && Shape(nodes', v) {}
    forall s, v | 0 <= s < |nodes| && 0 <= v < |nodes| ensures IncomingSeq(nodes', s, v) == IncomingSeq(nodes, s, v) {}
  }

  /** Steps that leave the plans alone only need their own guard. */
  lemma Enabled(nodes: seq<Node>, v: nat, node': Node, a: Action)
    requires Shapes(nodes) && PlansFit(nodes) && v < |nodes| && NodeStep(nodes, v, node', a) && !a.FlushEntry?
    ensures Step(nodes, nodes[v := node'], v, a) && CanStep(nodes)
  {
    hide PlansFit, Sum;
    var nodes' := nodes[v := node'];
    assert Shape(nodes, v);
    OwnShape(nodes, v, node', a);
    forall w | 0 <= w < |nodes'| ensures Shape(nodes', w) { assert Shape(nodes, w); }
    PlansStillFit(nodes, nodes');
  }

  lemma OwnShape(nodes: seq<Node>, v: nat, node': Node, a: Action)
    requires Shapes(nodes) && v < |nodes| && Shape(nodes, v) && NodeStep(nodes, v, node', a) && !a.FlushEntry?
    ensures Shape(nodes[v := node'], v) && node'.local == nodes[v].local
  {
    hide Sum;
  }

  /** A worker that is planning can end its flush. */
  lemma PlanningCanEnd(nodes: seq<Node>, v: nat, t: nat)
    requires Shapes(nodes) && PlansFit(nodes) && v < |nodes| && t < |nodes[v].workers|
    requires nodes[v].workers[t] == Planning
    ensures exists nodes' :: Step(nodes, nodes', v, EndFlush(t))
    ensures CanStep(nodes)
  {
    hide PlansFit;
    var node := nodes[v];
    var node' := node.(flushed := node.flushed + 1,
                       workers := node.workers[t := Issuing(node.flushed + 1 == |node.workers|)]);
    Enabled(nodes, v, node', EndFlush(t));
  }

  lemma WorkerCanGo(nodes: seq<Node>, v: nat, t: nat)
    requires Shapes(nodes) && PlansFit(nodes) && v < |nodes| && t < |nodes[v].workers|
    requires nodes[v].workers[t] != Finished
    ensures CanStep(nodes)
  {
    hide PlansFit;
    var node := nodes[v];
    match node.workers[t]
    case Planning => PlanningCanEnd(nodes, v, t);
    case Issuing(last) =>
      var w := if last then Closing else Finished;
      Enabled(nodes, v, Complete(node.(workers := node.workers[t := w]), 1), WorkerDone(t));
    case Closing => Enabled(nodes, v, Complete(node.(workers := node.workers[t := Finished]), 1), TokenDone(t));
  }

  ghost predicate AllFinished(nodes: seq<Node>) {
    forall v, t :: 0 <= v < |nodes| && 0 <= t < |nodes[v].workers| ==> nodes[v].workers[t] == Finished
  }

  lemma TableCanCome(nodes: seq<Node>, v: nat, s: nat)
    requires Shapes(nodes) && PlansFit(nodes) && v < |nodes| && s < |nodes| && s != v && Shape(nodes, v)
    requires nodes[v].channels[s].status == PollMappingTable
    ensures CanStep(nodes)
  {
    hide PlansFit;
    var node := nodes[v];
    Enabled(nodes, v, node.(channels := node.channels[s := ResetChannel(node.channels[s])]), TableArrives(s));
  }

  /** A channel that has not ended and whose table is here takes what is planned for it. */
  lemma PlanCanCome(nodes: seq<Node>, v: nat, u: nat)
    requires Inv(nodes) && AllFinished(nodes) && v < |nodes| && u < |nodes| && u != v && Shape(nodes, v)
    requires !nodes[v].received[u]
    ensures CanStep(nodes)
  {
    var node := nodes[v];
    assert NodeInv(nodes, v) && NodeInv(nodes, u) && Shape(nodes, u) && ChannelOk(nodes, v, u);
    StableMeansAll(node, v);
    AllFlushed(node);
    AllFlushed(nodes[u]);
    hide Inv, NodeInv, PlansFit, Sum, ChannelOk;
    if node.channels[u].status == PollMappingTable {
      TableCanCome(nodes, v, u);
    } else {
      var done := Complete(node, MAX_PIECES - Sum(nodes[u].local[v]));
      var counted := done.(totals := AddSeq(node.totals, nodes[u].local[v]), received := node.received[u := true],
                           counters := node.counters + 1);
      var node' := if node.counters + 2 == |nodes| then Stabilize(counted, v) else counted;
      Enabled(nodes, v, node', PlanArrives(u));
    }
  }

  lemma ReportCanGo(nodes: seq<Node>, v: nat, u: nat)
    requires Shapes(nodes) && PlansFit(nodes) && v < |nodes| && u < |nodes| && Shape(nodes, v)
    requires nodes[v].reported[u] < Sum(nodes[v].arrived[u])
    ensures CanStep(nodes)
  {
    hide PlansFit, Sum;
    var node := nodes[v];
    Enabled(nodes, v, Complete(node.(reported := node.reported[u := node.reported[u] + 1]), 1), Report(u, 1));
  }

  lemma ItemCanCome(nodes: seq<Node>, v: nat, u: nat, s: nat)
    requires Inv(nodes) && v < |nodes| && u < |nodes| && s < |nodes| && Shape(nodes, v) && Shape(nodes, u)
    requires nodes[v].arrived[u][s] < nodes[u].local[v][s]
    ensures CanStep(nodes)
  {
    var node := nodes[v];
    if s != v && node.channels[s].status == PollMappingTable {
      TableCanCome(nodes, v, s);
    } else {
      ChannelStillOpen(nodes, v, u, s);
      hide Inv, PlansFit, Sum;
      var taken := node.(arrived := node.arrived[u := node.arrived[u][s := node.arrived[u][s] + 1]],
                         got := node.got[s := node.got[s] + 1]);
      var node' := if s == v then taken
                   else taken.(channels := node.channels[s := CompleteChannel(node.channels[s], 1)]);
      Enabled(nodes, v, node', Arrive(s, u, 1));
    }
  }

  /** A channel does not end while an item is still to come over it. */
  lemma ChannelStillOpen(nodes: seq<Node>, v: nat, u: nat, s: nat)
    requires Inv(nodes) && v < |nodes| && u < |nodes| && s < |nodes| && Shape(nodes, v) && Shape(nodes, u)
    requires nodes[v].arrived[u][s] < nodes[u].local[v][s]
    ensures s != v ==> nodes[v].channels[s].status != EndOfPhase
    ensures Shapes(nodes) && PlansFit(nodes)
  {
    var a, b := ArrivedSeq(nodes, s, v), IncomingSeq(nodes, s, v);
    assert NodeInv(nodes, v) && ChannelOk(nodes, v, s);
    forall w | 0 <= w < |nodes| ensures a[w] <= b[w] { assert ItemsFromOk(nodes, v, w) && Shape(nodes, w); }
    assert a[u] < b[u];
    SumBelow(a, b, u);
  }

  lemma SumBelow(a: seq<int>, b: seq<int>, i: nat)
    requires i < |a| == |b| && (forall k :: 0 <= k < |a| ==> a[k] <= b[k]) && a[i] < b[i]
    ensures Sum(a) < Sum(b)
  {
    SumUpdate(a, i, b[i]);
    SumMonotone(a[i := b[i]], b);
  }

  /** An item that is planned, and whose plan has been received, is still to come or to be reported. */
  lemma ItemsCanGo(nodes: seq<Node>, v: nat, u: nat)
    requires Inv(nodes) && v < |nodes| && u < |nodes| && Shape(nodes, v) && Shape(nodes, u)
    requires nodes[v].reported[u] != Sum(nodes[u].local[v])
    ensures CanStep(nodes)
  {
    assert NodeInv(nodes, v) && ItemsFromOk(nodes, v, u);
    var a, b := nodes[v].arrived[u], nodes[u].local[v];
    if nodes[v].reported[u] < Sum(a) {
      ReportCanGo(nodes, v, u);
    } else {
      SumMonotone(a, b);
      var s: nat :| s < |nodes| && a[s] < b[s] by { SumLess(a, b); }
      ItemCanCome(nodes, v, u, s);
    }
  }

  lemma SumLess(a: seq<int>, b: seq<int>)
    requires |a| == |b| && Sum(a) != Sum(b) && forall k :: 0 <= k < |a| ==> a[k] <= b[k]
    ensures exists k: nat :: k < |a| && a[k] < b[k]
  {
    if forall k: nat :: k < |a| ==> a[k] >= b[k] { SeqPointwise(a, b); }
  }

  /** As long as some node is not done some node has a step other than adding to a plan. */
  lemma Progress(nodes: seq<Node>, v: nat)
    requires Inv(nodes) && v < |nodes| && !AllDone(nodes, v)
    ensures CanStep(nodes)
  {
    if !AllFinished(nodes) {
      var w: nat, t: nat :| w < |nodes| && t < |nodes[w].workers| && nodes[w].workers[t] != Finished;
      WorkerCanGo(nodes, w, t);
    } else {
      assert Shape(nodes, v);
      forall u | 0 <= u < |nodes| ensures Shape(nodes, u) && nodes[u].flushed == |nodes[u].workers| {
        assert NodeInv(nodes, u);
        AllFlushed(nodes[u]);
      }
      if u: nat :| u < |nodes| && u != v && !nodes[v].received[u] {
        PlanCanCome(nodes, v, u);
      } else {
        var u: nat :| u < |nodes| && nodes[v].reported[u] != Sum(nodes[u].local[v]);
        ItemsCanGo(nodes, v, u);
      }
    }
  }

  // ---------- only finitely many steps are left

  function StageRank(w: Stage): int {
    match w
    case Planning => 3
    case Issuing(_) => 2
    case Closing => 1
    case Finished => 0
  }

  function WorkerRanks(ws: seq<Stage>): (r: seq<int>)
    ensures |r| == |ws|
  {
    seq(|ws|, t requires 0 <= t < |ws| => StageRank(ws[t]))
  }

  /** What a channel still has to learn: its table and its plan. */
  function PeerRanks(channels: seq<Channel>, received: seq<bool>): (r: seq<int>)
    requires |channels| == |received|
    ensures |r| == |channels|
  {
    seq(|channels|, s requires 0 <= s < |channels| =>
      (if channels[s].status == PollMappingTable then 1 else 0) + (if received[s] then 0 else 1))
  }

  /** Items of each planner that are still to come and to be reported. */
  ghost function ItemRanks(nodes: seq<Node>, v: nat): (r: seq<int>)
    requires Shapes(nodes) && v < |nodes|
    ensures |r| == |nodes|
  {
    assert Shape(nodes, v);
    seq(|nodes|, u requires 0 <= u < |nodes| =>
      assert Shape(nodes, u);
      2 * Sum(nodes[u].local[v]) - Sum(nodes[v].arrived[u]) - nodes[v].reported[u])
  }

  /** The steps node `v` can still take before it is done. */
  ghost function Rank(nodes: seq<Node>, v: nat): int
    requires Shapes(nodes) && v < |nodes|
  {
    assert Shape(nodes, v);
    Sum(WorkerRanks(nodes[v].workers)) + Sum(PeerRanks(nodes[v].channels, nodes[v].received)) + Sum(ItemRanks(nodes, v))
  }

  ghost function Ranks(nodes: seq<Node>): (r: seq<int>)
    requires Shapes(nodes)
    ensures |r| == |nodes|
  {
    seq(|nodes|, v requires 0 <= v < |nodes| => Rank(nodes, v))
  }

  /** The steps the cluster can still take, but for adding to plans. */
  ghost function StepsLeft(nodes: seq<Node>): int {
    if Shapes(nodes) then Sum(Ranks(nodes)) else 0
  }

  lemma RankPositive(nodes: seq<Node>, v: nat)
    requires Inv(nodes) && v < |nodes|
    ensures Rank(nodes, v) >= 0
  {
    assert Shape(nodes, v) && NodeInv(nodes, v);
    var items := ItemRanks(nodes, v);
    forall u | 0 <= u < |nodes| ensures items[u] >= 0 {
      assert Shape(nodes, u) && ItemsFromOk(nodes, v, u);
      SumMonotone(nodes[v].arrived[u], nodes[u].local[v]);
    }
    SumNonNegative(items);
    SumNonNegative(WorkerRanks(nodes[v].workers));
    SumNonNegative(PeerRanks(nodes[v].channels, nodes[v].received));
  }

  /** Another node's rank depends on its own fields and the plans. */
  lemma RankElsewhere(nodes: seq<Node>, nodes': seq<Node>, w: nat)
    requires SamePlans(nodes, nodes') && w < |nodes| && nodes'[w] == nodes[w]
    ensures Rank(nodes', w) == Rank(nodes, w)
  {
    hide Sum;
    forall u | 0 <= u < |nodes| ensures Shape(nodes, u) && Shape(nodes', u) {}
    assert ItemRanks(nodes', w) == ItemRanks(nodes, w);
  }

  lemma WorkerLowers(nodes: seq<Node>, nodes': seq<Node>, v: nat, t: nat)
    requires SamePlans(nodes, nodes') && v < |nodes| && t < |nodes[v].workers| == |nodes'[v].workers|
    requires nodes'[v].workers == nodes[v].workers[t := nodes'[v].workers[t]]
    requires StageRank(nodes'[v].workers[t]) < StageRank(nodes[v].workers[t])
    requires nodes'[v].channels == nodes[v].channels && nodes'[v].received == nodes[v].received
    requires nodes'[v].arrived == nodes[v].arrived && nodes'[v].reported == nodes[v].reported
    ensures Rank(nodes', v) < Rank(nodes, v)
  {
    hide Sum;
    forall u | 0 <= u < |nodes| ensures Shape(nodes, u) && Shape(nodes', u) {}
    assert ItemRanks(nodes', v) == ItemRanks(nodes, v);
    SumChange(WorkerRanks(nodes[v].workers), WorkerRanks(nodes'[v].workers), t);
  }

  /** The statuses after a step: no channel goes back to wait for its table. */
  lemma PeerLowers(nodes: seq<Node>, nodes': seq<Node>, v: nat, s: nat)
    requires SamePlans(nodes, nodes') && v < |nodes| && s < |nodes| && Shape(nodes, v) && Shape(nodes', v)
    requires nodes'[v].workers == nodes[v].workers
    requires nodes'[v].arrived == nodes[v].arrived && nodes'[v].reported == nodes[v].reported
    requires var a := PeerRanks(nodes[v].channels, nodes[v].received);
             var b := PeerRanks(nodes'[v].channels, nodes'[v].received);
             b[s] < a[s] && forall k :: 0 <= k < |nodes| ==> b[k] <= a[k]
    ensures Rank(nodes', v) < Rank(nodes, v)
  {
    hide Sum;
    forall u | 0 <= u < |nodes| ensures Shape(nodes, u) && Shape(nodes', u) {}
    assert ItemRanks(nodes', v) == ItemRanks(nodes, v);
    SumBelow(PeerRanks(nodes'[v].channels, nodes'[v].received), PeerRanks(nodes[v].channels, nodes[v].received), s);
  }

  lemma ItemLowers(nodes: seq<Node>, nodes': seq<Node>, v: nat, u: nat)
    requires SamePlans(nodes, nodes') && v < |nodes| && u < |nodes| && Shape(nodes, v) && Shape(nodes', v)
    requires nodes'[v].workers == nodes[v].workers && nodes'[v].received == nodes[v].received
    requires forall k :: 0 <= k < |nodes| && nodes'[v].channels[k].status == PollMappingTable ==>
               nodes[v].channels[k].status == PollMappingTable
    requires forall k :: 0 <= k < |nodes| && k != u ==>
               nodes'[v].arrived[k] == nodes[v].arrived[k] && nodes'[v].reported[k] == nodes[v].reported[k]
    requires Sum(nodes'[v].arrived[u]) + nodes'[v].reported[u] > Sum(nodes[v].arrived[u]) + nodes[v].reported[u]
    ensures Rank(nodes', v) < Rank(nodes, v)
  {
    hide Sum;
    forall k | 0 <= k < |nodes| ensures Shape(nodes, k) && Shape(nodes', k) {}
    SumChange(ItemRanks(nodes, v), ItemRanks(nodes', v), u);
    SumMonotone(PeerRanks(nodes'[v].channels, nodes'[v].received), PeerRanks(nodes[v].channels, nodes[v].received));
  }

  /** While a plan is missing no channel has ended. */
  lemma NoneEnded(nodes: seq<Node>, v: nat, u: nat, k: nat)
    requires Inv(nodes) && v < |nodes| && u < |nodes| && u != v && k < |nodes| && k != v && Shape(nodes, v)
    requires !nodes[v].received[u]
    ensures nodes[v].channels[k].status != EndOfPhase
  {
    assert NodeInv(nodes, v) && ChannelOk(nodes, v, k);
    StableMeansAll(nodes[v], v);
  }

  lemma PlanPeers(nodes: seq<Node>, nodes': seq<Node>, v: nat, u: nat)
    requires Step(nodes, nodes', v, PlanArrives(u)) && Shape(nodes, v) && Shape(nodes', v)
    requires forall k :: 0 <= k < |nodes| && k != v ==> nodes[v].channels[k].status != EndOfPhase
    ensures forall k :: 0 <= k < |nodes| && nodes'[v].channels[k].status == PollMappingTable ==>
              nodes[v].channels[k].status == PollMappingTable
    ensures nodes'[v].received == nodes[v].received[u := true] && !nodes[v].received[u]
  {
    hide Sum, PlansFit;
  }

  /** Every step but adding to a plan lowers the rank of the node that takes it. */
  lemma OwnRank(nodes: seq<Node>, nodes': seq<Node>, v: nat, a: Action)
    requires Inv(nodes) && Step(nodes, nodes', v, a) && !a.FlushEntry? && SamePlans(nodes, nodes')
    ensures Rank(nodes', v) < Rank(nodes, v)
  {
    assert Shape(nodes, v) && Shape(nodes', v);
    if a.PlanArrives? {
      forall k | 0 <= k < |nodes| && k != v ensures nodes[v].channels[k].status != EndOfPhase {
        NoneEnded(nodes, v, a.u, k);
      }
      PlanPeers(nodes, nodes', v, a.u);
    }
    hide Sum, Inv, PlansFit, Rank, Stabilize;
    match a
    case EndFlush(t) => WorkerLowers(nodes, nodes', v, t);
    case WorkerDone(t) => WorkerLowers(nodes, nodes', v, t);
    case TokenDone(t) => WorkerLowers(nodes, nodes', v, t);
    case TableArrives(s) => PeerLowers(nodes, nodes', v, s);
    case PlanArrives(u) => PlanLowers(nodes, nodes', v, u);
    case Arrive(s, u, k) =>
      SumUpdate(nodes[v].arrived[u], s, nodes[v].arrived[u][s] + k);
      ItemLowers(nodes, nodes', v, u);
    case Report(u, k) => ItemLowers(nodes, nodes', v, u);
  }

  lemma PlanLowers(nodes: seq<Node>, nodes': seq<Node>, v: nat, u: nat)
    requires Step(nodes, nodes', v, PlanArrives(u)) && SamePlans(nodes, nodes') && Shape(nodes, v) && Shape(nodes', v)
    requires forall k :: 0 <= k < |nodes| && nodes'[v].channels[k].status == PollMappingTable ==>
               nodes[v].channels[k].status == PollMappingTable
    requires nodes'[v].received == nodes[v].received[u := true] && !nodes[v].received[u]
    ensures Rank(nodes', v) < Rank(nodes, v)
  {
    hide Sum, PlansFit, Rank;
    PeerLowers(nodes, nodes', v, u);
  }

  lemma PlansSame(nodes: seq<Node>, nodes': seq<Node>, v: nat, a: Action)
    requires Step(nodes, nodes', v, a) && !a.FlushEntry?
    ensures SamePlans(nodes, nodes')
  {
    hide Sum, PlansFit;
    assert Shape(nodes, v);
    OwnShape(nodes, v, nodes'[v], a);
  }

  lemma StepsLeftPositive(nodes: seq<Node>)
    requires Inv(nodes)
    ensures StepsLeft(nodes) >= 0
  {
    forall v | 0 <= v < |nodes| ensures Rank(nodes, v) >= 0 { RankPositive(nodes, v); }
    hide Rank;
    SumNonNegative(Ranks(nodes));
  }

  lemma RanksLower(nodes: seq<Node>, nodes': seq<Node>, v: nat)
    requires SamePlans(nodes, nodes') && v < |nodes| && nodes' == nodes[v := nodes'[v]]
    requires Rank(nodes', v) < Rank(nodes, v)
    ensures StepsLeft(nodes') < StepsLeft(nodes)
  {
    forall w | 0 <= w < |nodes| && w != v ensures Rank(nodes', w) == Rank(nodes, w) {
      RankElsewhere(nodes, nodes', w);
    }
    hide Rank, Sum;
    SumChange(Ranks(nodes), Ranks(nodes'), v);
  }

  /** Every step but adding to a plan lowers the rank of the cluster. */
  lemma StepLowers(nodes: seq<Node>, nodes': seq<Node>, v: nat, a: Action)
    requires Inv(nodes) && Step(nodes, nodes', v, a) && !a.FlushEntry?
    ensures Inv(nodes') && 0 <= StepsLeft(nodes') < StepsLeft(nodes)
  {
    hide Inv, NodeStep, Rank, Sum, StepsLeft, PlansFit, Shapes;
    PlansSame(nodes, nodes', v, a);
    OwnRank(nodes, nodes', v, a);
    StepKeepsInv(nodes, nodes', v, a);
    RanksLower(nodes, nodes', v);
    StepsLeftPositive(nodes');
  }

  // ---------- all runs

  /** No worker of any node is planning any more. */
  ghost predicate Flushed(nodes: seq<Node>) {
    forall v, t :: 0 <= v < |nodes| && 0 <= t < |nodes[v].workers| ==> nodes[v].workers[t] != Planning
  }

  lemma StaysFlushed(nodes: seq<Node>, nodes': seq<Node>, v: nat, a: Action)
    requires Flushed(nodes) && Step(nodes, nodes', v, a)
    ensures Flushed(nodes') && !a.FlushEntry?
  {
    hide Sum, PlansFit;
    assert Shape(nodes, v);
  }

  /** Once all plans are flushed a run has at most as many steps left as the rank says. */
  lemma {:induction false} FlushedRunEnds(run: seq<seq<Node>>, i: nat, j: nat)
    requires IsRun(run) && i <= j < |run| && Flushed(run[i])
    ensures Flushed(run[j]) && j - i + StepsLeft(run[j]) <= StepsLeft(run[i]) && 0 <= StepsLeft(run[j])
    decreases j
  {
    hide Inv, Init, Step, StepsLeft, Flushed;
    RunInv(run, i);
    if i == j {
      StepsLeftPositive(run[i]);
    } else {
      FlushedRunEnds(run, i, j - 1);
      RunInv(run, j - 1);
      assert Next(run[j - 1], run[j]);
      var v: nat, a :| Step(run[j - 1], run[j], v, a);
      StaysFlushed(run[j - 1], run[j], v, a);
      StepLowers(run[j - 1], run[j], v, a);
    }
  }

  /** The phase is over at node `v`: its callback has been called once and everything is done. */
  ghost predicate Over(nodes: seq<Node>, v: nat) {
    Shapes(nodes) && v < |nodes| && nodes[v].zeros == 1 && nodes[v].comp == 0 && AllDone(nodes, v)
  }

  ghost predicate AllOver(nodes: seq<Node>) {
    forall v :: 0 <= v < |nodes| ==> Over(nodes, v)
  }

  /** A run that cannot go on has ended the phase at every node, each with exactly one callback. */
  lemma StuckMeansOver(run: seq<seq<Node>>, v: nat)
    requires IsRun(run) && v < |run[|run| - 1]| && !CanStep(run[|run| - 1])
    ensures Over(run[|run| - 1], v)
  {
    var last := run[|run| - 1];
    RunInv(run, |run| - 1);
    PhaseEndsExactlyOnce(run, |run| - 1, v);
    hide IsRun, Inv, CanStep;
    if !AllDone(last, v) { Progress(last, v); }
  }

  /** Every run can be continued until the phase is over at every node. */
  lemma PhaseCanEnd(run: seq<seq<Node>>) returns (run': seq<seq<Node>>)
    requires IsRun(run)
    ensures IsRun(run') && run <= run' && |run'[|run'| - 1]| == |run[|run| - 1]| && AllOver(run'[|run'| - 1])
  {
    RunInv(run, |run| - 1);
    hide Inv, StepsLeft, AllOver;
    StepsLeftPositive(run[|run| - 1]);
    run' := GoOn(run, StepsLeft(run[|run| - 1]));
  }

  lemma {:induction false} GoOn(run: seq<seq<Node>>, rank: nat) returns (run': seq<seq<Node>>)
    requires IsRun(run) && rank == StepsLeft(run[|run| - 1])
    ensures IsRun(run') && run <= run' && |run'[|run'| - 1]| == |run[|run| - 1]| && AllOver(run'[|run'| - 1])
    decreases rank
  {
    assert run != [];
    hide Inv, Over, Step, IsRun, StepsLeft, CanStep;
    var last := run[|run| - 1];
    if CanStep(last) {
      var more := OneStep(run);
      run' := GoOn(more, StepsLeft(more[|more| - 1]));
    } else {
      run' := run;
      forall v | 0 <= v < |last| ensures Over(last, v) { StuckMeansOver(run, v); }
    }
  }

  lemma OneStep(run: seq<seq<Node>>) returns (more: seq<seq<Node>>)
    requires IsRun(run) && CanStep(run[|run| - 1])
    ensures IsRun(more) && run <= more && more != [] && |more[|more| - 1]| == |run[|run| - 1]|
    ensures 0 <= StepsLeft(more[|more| - 1]) < StepsLeft(run[|run| - 1])
  {
    assert run != [];
    hide Inv, Step, IsRun, StepsLeft;
    var last := run[|run| - 1];
    RunInv(run, |run| - 1);
    var nodes', v, a :| Step(last, nodes', v, a) && !a.FlushEntry?;
    StepLowers(last, nodes', v, a);
    Extends(run, nodes', v, a);
    more := run + [nodes'];
  }

  lemma Extends(run: seq<seq<Node>>, nodes': seq<Node>, v: nat, a: Action)
    requires IsRun(run) && Step(run[|run| - 1], nodes', v, a)
    ensures IsRun(run + [nodes']) && |nodes'| == |run[|run| - 1]|
  {
    hide NodeStep, PlansFit, Init;
    var more := run + [nodes'];
    forall i | 0 <= i < |more| - 1 ensures Next(more[i], more[i + 1]) {
      if i == |run| - 1 { assert Step(more[i], more[i + 1], v, a); }
    }
  }
}
