/** How the nodes of the cluster find out that a phase is over: the completion counter of
    completion.h, fed by CallTxns and its workers in epoch.cc, the buffer plans of
    node_config.cc, and the receiver channels of tcp_node.cc. Node numbers start at 0. */
module PhaseProtocol {
  import opened Basics
  import opened Sums

  /** CallTxnsWorker::Run: collecting and flushing its plan, issuing pieces, and completing
      its own token and, on the worker that flushed last, the flush token. */
  datatype Stage = Planning | Issuing(last: bool) | Closing | Finished

  /** IncomingTraffic::Status */
  datatype Status = PollMappingTable | PollRoutines | EndOfPhase

  /** A receiver channel: `ended` counts the Complete calls that found nothing left, `aborted` says
      whether one of its checks has failed. */
  datatype Channel = Channel(left: int, status: Status, ended: nat, aborted: bool)

  /** `local[d][s]` is the plan counter for items from source `s` to node `d` flushed so far,
      `totals[s]` the counters for items to this node added up over all plans seen here.
      Items that reached this node are counted by planner and source in `arrived[u][s]` and by
      source in `got[s]`; `reported[u]` counts those the completion counter has been told of. */
  datatype Node = Node(
    comp: int, zeros: nat,
    workers: seq<Stage>, flushed: nat, local: seq<seq<int>>,
    received: seq<bool>, counters: nat, totals: seq<int>,
    arrived: seq<seq<int>>, got: seq<int>, reported: seq<int>,
    channels: seq<Channel>)

  datatype Action =
    | FlushEntry(t: nat, s: nat, d: nat, x: nat) // FlushBufferPlan adds one counter of worker t
    | EndFlush(t: nat)                           // local_batch_completed.fetch_add, perhaps sending the plan
    | WorkerDone(t: nat)                         // completion.Complete() of a worker
    | TokenDone(t: nat)                          // the second Complete(), when node_finished
    | TableArrives(s: nat)                       // PollMappingTable and Reset
    | PlanArrives(u: nat)                        // UpdateBatchCountersFromReceiver, OnCounterReceived
    | Arrive(s: nat, u: nat, k: nat)             // PollRoutines takes k items planned by u, or they run locally
    | Report(u: nat, k: nat)                     // Complete(n) for items that have run

  // ---------- one node

  /** CompletionObject::Complete. */
  function Complete(node: Node, dec: int): Node {
    node.(comp := node.comp - dec, zeros := node.zeros + if node.comp - dec == 0 then 1 else 0)
  }

  /** IncomingTraffic::AdvanceStatus. */
  function Advance(status: Status): Status {
    match status
    case PollMappingTable => PollRoutines
    case PollRoutines => EndOfPhase
    case EndOfPhase => PollMappingTable
  }

  /** ReceiverChannel::Complete: on zero the status advances, and must then be EndOfPhase. */
  function CompleteChannel(c: Channel, n: int): Channel {
    if n == 0 then c
    else if c.left - n == 0 then
      Channel(0, Advance(c.status), c.ended + 1, c.aborted || Advance(c.status) != EndOfPhase)
    else c.(left := c.left - n, aborted := c.aborted || c.left - n < 0)
  }

  /** ReceiverChannel::Reset and AdvanceStatus at the end of PollMappingTable. */
  function ResetChannel(c: Channel): Channel {
    c.(left := MAX_PIECES, status := Advance(c.status), aborted := c.aborted || c.left != 0)
  }

  /** OnCounterReceived once all peer counters are in: every channel learns what to expect. */
  function Stabilize(node: Node, v: nat): Node
    requires |node.channels| == |node.totals|
  {
    var n := |node.channels|;
    node.(counters := 0,
          channels := seq(n, s requires 0 <= s < n =>
            if s == v then node.channels[s] else CompleteChannel(node.channels[s], MAX_PIECES - node.totals[s])))
  }

  function AddSeq(a: seq<int>, b: seq<int>): (r: seq<int>)
    requires |a| == |b|
    ensures |r| == |a| && forall i :: 0 <= i < |r| ==> r[i] == a[i] + b[i]
  {
    seq(|a|, i requires 0 <= i < |a| => a[i] + b[i])
  }

  ghost predicate Shape(nodes: seq<Node>, v: nat) {
    v < |nodes| &&
    var n, node := |nodes|, nodes[v];
    && |node.local| == |node.received| == |node.totals| == |node.arrived| == |node.got| == |node.reported| == n
    && |node.channels| == n
    && (forall d :: 0 <= d < n ==> |node.local[d]| == n)
    && (forall u :: 0 <= u < n ==> |node.arrived[u]| == n)
  }

  ghost predicate Shapes(nodes: seq<Node>) {
    forall v :: 0 <= v < |nodes| ==> Shape(nodes, v)
  }

  /** All items that any plan so far sends from source `s` to node `v`, by planner. */
  ghost function IncomingSeq(nodes: seq<Node>, s: nat, v: nat): (r: seq<int>)
    requires Shapes(nodes) && s < |nodes| && v < |nodes|
    ensures |r| == |nodes|
  {
    seq(|nodes|, u requires 0 <= u < |nodes| => assert Shape(nodes, u); nodes[u].local[v][s])
  }

  /** The plan of node `v` for node `d`, and all plans for a channel, stay below the guess. */
  ghost predicate PlansFit(nodes: seq<Node>)
    requires Shapes(nodes)
  {
    && (forall v, d :: 0 <= v < |nodes| && 0 <= d < |nodes| ==> Shape(nodes, v) && Sum(nodes[v].local[d]) < MAX_PIECES)
    && (forall s, v :: 0 <= s < |nodes| && 0 <= v < |nodes| ==> Sum(IncomingSeq(nodes, s, v)) < MAX_PIECES)
  }

  /** The new state of node `v` under action `a`. */
  ghost predicate NodeStep(nodes: seq<Node>, v: nat, node': Node, a: Action)
    requires Shapes(nodes) && v < |nodes|
  {
    assert Shape(nodes, v);
    var n, node := |nodes|, nodes[v];
    match a
    case FlushEntry(t, s, d, x) =>
      t < |node.workers| && node.workers[t] == Planning && s < n && d < n &&
      var local := node.local[d := node.local[d][s := node.local[d][s] + x]];
      node' == if d == v then node.(local := local, comp := node.comp + x,
                                    totals := node.totals[s := node.totals[s] + x])
               else node.(local := local)
    case EndFlush(t) =>
      t < |node.workers| && node.workers[t] == Planning &&
      node' == node.(flushed := node.flushed + 1,
                     workers := node.workers[t := Issuing(node.flushed + 1 == |node.workers|)])
    case WorkerDone(t) =>
      t < |node.workers| && node.workers[t].Issuing? &&
      node' == Complete(node.(workers := node.workers[t := if node.workers[t].last then Closing else Finished]), 1)
    case TokenDone(t) =>
      t < |node.workers| && node.workers[t] == Closing &&
      node' == Complete(node.(workers := node.workers[t := Finished]), 1)
    case TableArrives(s) =>
      s < n && s != v && node.channels[s].status == PollMappingTable &&
      node' == node.(channels := node.channels[s := ResetChannel(node.channels[s])])
    case PlanArrives(u) =>
      u < n && u != v && node.channels[u].status == PollRoutines && !node.received[u] &&
      nodes[u].flushed == |nodes[u].workers| && Shape(nodes, u) &&
      var done := Complete(node, MAX_PIECES - Sum(nodes[u].local[v]));
      var counted := done.(totals := AddSeq(node.totals, nodes[u].local[v]), received := node.received[u := true],
                           counters := node.counters + 1);
      if node.counters + 2 == n then node.flushed == |node.workers| && node' == Stabilize(counted, v)
      else node' == counted
    case Arrive(s, u, k) =>
      s < n && u < n && Shape(nodes, u) && 0 < k && node.arrived[u][s] + k <= nodes[u].local[v][s] &&
      (s != v ==> node.channels[s].status == PollRoutines) &&
      var taken := node.(arrived := node.arrived[u := node.arrived[u][s := node.arrived[u][s] + k]],
                         got := node.got[s := node.got[s] + k]);
      node' == if s == v then taken else taken.(channels := node.channels[s := CompleteChannel(node.channels[s], k)])
    case Report(u, k) =>
      u < n && 0 < k && node.reported[u] + k <= Sum(node.arrived[u]) &&
      node' == Complete(node.(reported := node.reported[u := node.reported[u] + k]), k)
  }

  // ---------- the cluster

  ghost predicate InitNode(n: nat, v: nat, node: Node) {
    && node.comp == (n - 1) * MAX_PIECES + 1 + |node.workers| && node.zeros == 0
    && 0 < |node.workers| && (forall t :: 0 <= t < |node.workers| ==> node.workers[t] == Planning)
    && node.flushed == 0 && node.counters == 0
    && node.received == seq(n, i => false)
    && node.totals == node.got == node.reported == Zeros(n)
    && |node.local| == |node.arrived| == |node.channels| == n
    && (forall i :: 0 <= i < n ==> node.local[i] == Zeros(n) && node.arrived[i] == Zeros(n))
    && (forall s :: 0 <= s < n ==>
          node.channels[s] == Channel(0, if s == v then EndOfPhase else PollMappingTable, 0, false))
  }

  function Zeros(n: nat): (r: seq<int>)
    ensures |r| == n && forall i :: 0 <= i < n ==> r[i] == 0
  {
    seq(n, i => 0)
  }

  ghost predicate Init(nodes: seq<Node>) {
    forall v :: 0 <= v < |nodes| ==> InitNode(|nodes|, v, nodes[v])
  }

  ghost predicate Step(nodes: seq<Node>, nodes': seq<Node>, v: nat, a: Action) {
    && Shapes(nodes) && v < |nodes| == |nodes'| && NodeStep(nodes, v, nodes'[v], a)
    && nodes' == nodes[v := nodes'[v]]
    && Shapes(nodes') && PlansFit(nodes')
  }

  ghost predicate Next(nodes: seq<Node>, nodes': seq<Node>) {
    exists v, a :: Step(nodes, nodes', v, a)
  }

  ghost predicate IsRun(run: seq<seq<Node>>) {
    && run != [] && Init(run[0])
    && forall i :: 0 <= i < |run| - 1 ==> Next(run[i], run[i + 1])
  }

  // ---------- the invariant of node v

  /** What node `v` still expects from planner `u`: the guess until the plan is known, then the
      plan, less what has been reported. */
  ghost function Owed(nodes: seq<Node>, v: nat, u: nat): int
    requires Shapes(nodes) && v < |nodes| && u < |nodes|
  {
    assert Shape(nodes, u) && Shape(nodes, v);
    (if u == v || nodes[v].received[u] then Sum(nodes[u].local[v]) else MAX_PIECES) - nodes[v].reported[u]
  }

  ghost function OwedSeq(nodes: seq<Node>, v: nat): (r: seq<int>)
    requires Shapes(nodes) && v < |nodes|
    ensures |r| == |nodes|
  {
    seq(|nodes|, u requires 0 <= u < |nodes| => Owed(nodes, v, u))
  }

  function StageTokens(w: Stage): int {
    match w
    case Planning => 1
    case Issuing(last) => if last then 2 else 1
    case Closing => 1
    case Finished => 0
  }

  function TokenSeq(ws: seq<Stage>): (r: seq<int>)
    ensures |r| == |ws|
  {
    seq(|ws|, t requires 0 <= t < |ws| => StageTokens(ws[t]))
  }

  /** Unfinished workers, plus the flush token until its worker holds it. */
  function Tokens(node: Node): int {
    Sum(TokenSeq(node.workers)) + if node.flushed < |node.workers| then 1 else 0
  }

  function FlushedSeq(ws: seq<Stage>): (r: seq<int>)
    ensures |r| == |ws|
  {
    seq(|ws|, t requires 0 <= t < |ws| => if ws[t] == Planning then 0 else 1)
  }

  /** The completion counter is the sum of everything still expected. */
  ghost predicate CompOk(nodes: seq<Node>, v: nat)
    requires Shapes(nodes) && v < |nodes|
  {
    && nodes[v].comp == Sum(OwedSeq(nodes, v)) + Tokens(nodes[v])
    && nodes[v].zeros == if nodes[v].comp == 0 then 1 else 0
  }

  ghost predicate WorkersOk(node: Node) {
    && 0 < |node.workers|
    && node.flushed == Sum(FlushedSeq(node.workers))
  }

  /** Nothing is reported that has not arrived, and nothing arrives that is not planned. */
  ghost predicate ItemsOk(nodes: seq<Node>, v: nat)
    requires Shapes(nodes) && v < |nodes|
  {
    forall u :: 0 <= u < |nodes| ==> ItemsFromOk(nodes, v, u)
  }

  ghost predicate ItemsFromOk(nodes: seq<Node>, v: nat, u: nat)
    requires Shapes(nodes) && v < |nodes| && u < |nodes|
  {
    assert Shape(nodes, u) && Shape(nodes, v);
    && 0 <= nodes[v].reported[u] <= Sum(nodes[v].arrived[u])
    && forall s :: 0 <= s < |nodes| ==> 0 <= nodes[v].arrived[u][s] <= nodes[u].local[v][s]
  }

  /** A plan that has been received is complete. */
  ghost predicate PlansOk(nodes: seq<Node>, v: nat)
    requires Shapes(nodes) && v < |nodes|
  {
    assert Shape(nodes, v);
    && !nodes[v].received[v]
    && forall u :: 0 <= u < |nodes| && nodes[v].received[u] ==> nodes[u].flushed == |nodes[u].workers|
  }

  function ReceivedSeq(received: seq<bool>): (r: seq<int>)
    ensures |r| == |received|
  {
    seq(|received|, u requires 0 <= u < |received| => if received[u] then 1 else 0)
  }

  /** All peer counters have come in. */
  ghost predicate Stable(node: Node) {
    Sum(ReceivedSeq(node.received)) == |node.received| - 1
  }

  ghost function KnownSeq(nodes: seq<Node>, s: nat, v: nat): (r: seq<int>)
    requires Shapes(nodes) && v < |nodes| && s < |nodes|
    ensures |r| == |nodes|
  {
    assert Shape(nodes, v);
    seq(|nodes|, u requires 0 <= u < |nodes| =>
      assert Shape(nodes, u); if u == v || nodes[v].received[u] then nodes[u].local[v][s] else 0)
  }

  /** The per-source totals add up the plans known here. */
  ghost predicate TotalsOk(nodes: seq<Node>, v: nat)
    requires Shapes(nodes) && v < |nodes|
  {
    assert Shape(nodes, v);
    && nodes[v].counters == (if Stable(nodes[v]) then 0 else Sum(ReceivedSeq(nodes[v].received)))
    && (Stable(nodes[v]) && |nodes| > 1 ==> nodes[v].flushed == |nodes[v].workers|)
    && forall s :: 0 <= s < |nodes| ==> nodes[v].totals[s] == Sum(KnownSeq(nodes, s, v))
  }

  ghost function ArrivedSeq(nodes: seq<Node>, s: nat, v: nat): (r: seq<int>)
    requires Shapes(nodes) && v < |nodes| && s < |nodes|
    ensures |r| == |nodes|
  {
    assert Shape(nodes, v);
    seq(|nodes|, u requires 0 <= u < |nodes| => nodes[v].arrived[u][s])
  }

  ghost predicate ChannelsOk(nodes: seq<Node>, v: nat)
    requires Shapes(nodes) && v < |nodes|
  {
    forall s :: 0 <= s < |nodes| ==> ChannelOk(nodes, v, s)
  }

  /** What is left on a channel is what is expected of it, or the guess, less what it gave. */
  ghost predicate ChannelOk(nodes: seq<Node>, v: nat, s: nat)
    requires Shapes(nodes) && v < |nodes| && s < |nodes|
  {
    assert Shape(nodes, v);
    var node := nodes[v];
    && node.got[s] == Sum(ArrivedSeq(nodes, s, v))
    && (s != v ==>
          && !node.channels[s].aborted
          && node.channels[s].ended == (if node.channels[s].status == EndOfPhase then 1 else 0)
          && match node.channels[s].status
          case PollMappingTable => node.channels[s].left == 0 && node.got[s] == 0 && !node.received[s]
          case PollRoutines =>
            && node.channels[s].left == (if Stable(node) then Sum(IncomingSeq(nodes, s, v))
                                         else MAX_PIECES) - node.got[s]
            && node.channels[s].left > 0
          case EndOfPhase =>
            Stable(node) && node.channels[s].left == 0 && node.got[s] == Sum(IncomingSeq(nodes, s, v)))
  }

  ghost predicate NodeInv(nodes: seq<Node>, v: nat)
    requires Shapes(nodes) && v < |nodes|
  {
    CompOk(nodes, v) && WorkersOk(nodes[v]) && ItemsOk(nodes, v) && PlansOk(nodes, v) && TotalsOk(nodes, v)
      && ChannelsOk(nodes, v)
  }

  ghost predicate Inv(nodes: seq<Node>) {
    Shapes(nodes) && PlansFit(nodes) && forall v :: 0 <= v < |nodes| ==> NodeInv(nodes, v)
  }

  // ---------- consequences for one state

  lemma SeqPointwise(a: seq<int>, b: seq<int>)
    requires |a| == |b| && forall i :: 0 <= i < |a| ==> a[i] == b[i]
    ensures a == b
  {}

  lemma TokensPositive(node: Node)
    ensures Tokens(node) >= 0
    ensures Tokens(node) == 0 <==> node.flushed >= |node.workers| && forall t ::
                 0 <= t < |node.workers| ==> node.workers[t] == Finished
  {
    var ts := TokenSeq(node.workers);
    SumNonNegative(ts);
    if forall t :: 0 <= t < |node.workers| ==> node.workers[t] == Finished {
      SumConstant(ts, 0);
    } else {
      var t :| 0 <= t < |node.workers| && node.workers[t] != Finished;
      assert ts[t] > 0;
    }
  }

  /** Every planner is owed a non-negative amount, and nothing exactly when its plan is in and
      all of its items have been reported. */
  lemma OwedBounds(nodes: seq<Node>, v: nat, u: nat)
    requires Inv(nodes) && v < |nodes| && u < |nodes|
    ensures Shape(nodes, u) && Shape(nodes, v) && Owed(nodes, v, u) >= 0
    ensures Owed(nodes, v, u) == 0 <==>
              (u == v || nodes[v].received[u]) && nodes[v].reported[u] == Sum(nodes[u].local[v])
  {
    assert Shape(nodes, u) && Shape(nodes, v);
    assert NodeInv(nodes, v) && ItemsFromOk(nodes, v, u);
    SumMonotone(nodes[v].arrived[u], nodes[u].local[v]);
    assert Sum(nodes[u].local[v]) < MAX_PIECES;
  }

  /** Everything planned for node `v`, by any node, has completed there. */
  ghost predicate AllDone(nodes: seq<Node>, v: nat)
    requires Shapes(nodes) && v < |nodes|
  {
    assert Shape(nodes, v);
    && (forall t :: 0 <= t < |nodes[v].workers| ==> nodes[v].workers[t] == Finished)
    && (forall u :: 0 <= u < |nodes| && u != v ==> nodes[v].received[u] && nodes[u].flushed == |nodes[u].workers|)
    && (forall u :: 0 <= u < |nodes| ==> Shape(nodes, u) && nodes[v].reported[u] == Sum(nodes[u].local[v]))
  }

  /** The completion counter is never negative, and zero exactly when all is done. */
  lemma CompZero(nodes: seq<Node>, v: nat)
    requires Inv(nodes) && v < |nodes|
    ensures nodes[v].comp >= 0
    ensures nodes[v].comp == 0 <==> AllDone(nodes, v)
  {
    assert Shape(nodes, v) && NodeInv(nodes, v);
    var owed := OwedSeq(nodes, v);
    forall u | 0 <= u < |nodes| ensures owed[u] >= 0 { OwedBounds(nodes, v, u); }
    SumNonNegative(owed);
    TokensPositive(nodes[v]);
    if nodes[v].comp == 0 {
      forall u | 0 <= u < |nodes|
        ensures u != v ==> nodes[v].received[u] && nodes[u].flushed == |nodes[u].workers|
        ensures Shape(nodes, u) && nodes[v].reported[u] == Sum(nodes[u].local[v])
      {
        OwedBounds(nodes, v, u);
        assert owed[u] == 0;
      }
    } else if AllDone(nodes, v) {
      forall u | 0 <= u < |nodes| ensures owed[u] == 0 { OwedBounds(nodes, v, u); }
      SumConstant(owed, 0);
      AllFlushed(nodes[v]);
    }
  }

  lemma AllFlushed(node: Node)
    requires WorkersOk(node) && forall t :: 0 <= t < |node.workers| ==> node.workers[t] != Planning
    ensures node.flushed == |node.workers|
  {
    SumConstant(FlushedSeq(node.workers), 1);
  }

  lemma PlanningMeansUnflushed(node: Node, t: nat)
    requires WorkersOk(node) && t < |node.workers| && node.workers[t] == Planning
    ensures node.flushed < |node.workers|
  {
    var fs := FlushedSeq(node.workers);
    var ones := seq(|fs|, i => 1);
    SumUpdate(fs, t, 1);
    SumMonotone(fs[t := 1], ones);
    SumConstant(ones, 1);
  }

  /** A node all of whose peers' counters are in has received from every peer. */
  lemma StableMeansAll(node: Node, v: nat)
    requires v < |node.received| && !node.received[v]
    ensures Stable(node) <==> forall u :: 0 <= u < |node.received| && u != v ==> node.received[u]
  {
    var rs := ReceivedSeq(node.received);
    var ones := seq(|rs|, i => 1);
    SumConstant(ones, 1);
    SumUpdate(ones, v, 0);
    assert forall i :: 0 <= i < |rs| ==> rs[i] <= ones[v := 0][i];
    if Stable(node) {
      SumTight(rs, ones[v := 0]);
      forall u | 0 <= u < |node.received| && u != v ensures node.received[u] {
        assert rs[u] == ones[v := 0][u];
      }
    } else if forall u :: 0 <= u < |node.received| && u != v ==> node.received[u] {
      SeqPointwise(rs, ones[v := 0]);
    }
  }

  // ---------- a step of one node does not disturb the others

  /** Plans only grow, and not any more once they have been received. */
  ghost predicate PlansGrow(nodes: seq<Node>, nodes': seq<Node>, w: nat)
    requires Shapes(nodes) && Shapes(nodes') && w < |nodes| == |nodes'|
  {
    assert Shape(nodes, w) && Shape(nodes', w);
    forall u :: 0 <= u < |nodes| ==>
      && Shape(nodes, u) && Shape(nodes', u)
      && (forall s :: 0 <= s < |nodes| ==> nodes[u].local[w][s] <= nodes'[u].local[w][s])
      && (u == w || nodes[w].received[u] ==> nodes'[u].local[w] == nodes[u].local[w])
      && (nodes[w].received[u] ==> nodes'[u].flushed == |nodes'[u].workers|)
  }

  lemma BystanderKeeps(nodes: seq<Node>, nodes': seq<Node>, w: nat)
    requires Shapes(nodes) && Shapes(nodes') && w < |nodes| == |nodes'| && nodes'[w] == nodes[w]
    requires NodeInv(nodes, w) && PlansGrow(nodes, nodes', w)
    ensures NodeInv(nodes', w)
  {
    assert Shape(nodes, w) && Shape(nodes', w);
    SeqPointwise(OwedSeq(nodes, w), OwedSeq(nodes', w));
    forall u | 0 <= u < |nodes| ensures ItemsFromOk(nodes', w, u) {
      assert ItemsFromOk(nodes, w, u);
      assert Shape(nodes, u) && Shape(nodes', u);
    }
    forall s | 0 <= s < |nodes| ensures nodes'[w].totals[s] == Sum(KnownSeq(nodes', s, w)) {
      SeqPointwise(KnownSeq(nodes, s, w), KnownSeq(nodes', s, w));
    }
    StableMeansAll(nodes[w], w);
    forall s | 0 <= s < |nodes| ensures ChannelOk(nodes', w, s) {
      assert ChannelOk(nodes, w, s);
      SeqPointwise(ArrivedSeq(nodes, s, w), ArrivedSeq(nodes', s, w));
      if Stable(nodes[w]) {
        SeqPointwise(IncomingSeq(nodes, s, w), IncomingSeq(nodes', s, w));
      }
    }
  }

  /** Steps that leave the node's own plan alone disturb nobody else. */
  lemma OthersKeep(nodes: seq<Node>, nodes': seq<Node>, v: nat)
    requires Inv(nodes) && Shapes(nodes') && v < |nodes| == |nodes'| && nodes' == nodes[v := nodes'[v]]
    requires nodes'[v].local == nodes[v].local && |nodes'[v].workers| == |nodes[v].workers|
    requires nodes[v].flushed == |nodes[v].workers| ==> nodes'[v].flushed == nodes[v].flushed
    ensures forall w :: 0 <= w < |nodes| && w != v ==> NodeInv(nodes', w)
  {
    forall w | 0 <= w < |nodes| && w != v ensures NodeInv(nodes', w) {
      assert NodeInv(nodes, w);
      forall u | 0 <= u < |nodes|
        ensures Shape(nodes, u) && Shape(nodes', u) && nodes'[u].local[w] == nodes[u].local[w]
      {
        assert Shape(nodes, u) && Shape(nodes', u);
      }
      BystanderKeeps(nodes, nodes', w);
    }
  }

  // ---------- a step keeps its own node's invariant

  /** Parts of the invariant that a step leaves alone. */
  lemma ItemsFrame(nodes: seq<Node>, nodes': seq<Node>, v: nat)
    requires Shapes(nodes) && Shapes(nodes') && v < |nodes| == |nodes'| && ItemsOk(nodes, v)
    requires nodes' == nodes[v := nodes'[v]] && nodes'[v].arrived == nodes[v].arrived
             && nodes'[v].reported == nodes[v].reported
    requires nodes'[v].local == nodes[v].local
    ensures ItemsOk(nodes', v)
  {
    forall u | 0 <= u < |nodes| ensures ItemsFromOk(nodes', v, u) {
      assert ItemsFromOk(nodes, v, u) && Shape(nodes, u) && Shape(nodes', u);
    }
  }

  lemma TotalsFrame(nodes: seq<Node>, nodes': seq<Node>, v: nat)
    requires Shapes(nodes) && Shapes(nodes') && v < |nodes| == |nodes'| && TotalsOk(nodes, v)
    requires nodes' == nodes[v := nodes'[v]] && nodes'[v].received == nodes[v].received
             && nodes'[v].counters == nodes[v].counters
    requires nodes'[v].local == nodes[v].local && nodes'[v].totals == nodes[v].totals
    requires |nodes'[v].workers| == |nodes[v].workers|
    requires nodes[v].flushed == |nodes[v].workers| ==> nodes'[v].flushed == nodes[v].flushed
    ensures TotalsOk(nodes', v)
  {
    assert Shape(nodes, v) && Shape(nodes', v);
    forall s | 0 <= s < |nodes| ensures nodes'[v].totals[s] == Sum(KnownSeq(nodes', s, v)) {
      SeqPointwise(KnownSeq(nodes, s, v), KnownSeq(nodes', s, v));
    }
  }

  lemma ChannelsFrame(nodes: seq<Node>, nodes': seq<Node>, v: nat, s: nat)
    requires Shapes(nodes) && Shapes(nodes') && v < |nodes| == |nodes'| && s < |nodes| && ChannelOk(nodes, v, s)
    requires nodes' == nodes[v := nodes'[v]] && nodes'[v].received == nodes[v].received
             && nodes'[v].local == nodes[v].local
    requires Shape(nodes, v) && Shape(nodes', v)
    requires forall u :: 0 <= u < |nodes| ==> nodes'[v].arrived[u][s] == nodes[v].arrived[u][s]
    requires nodes'[v].got[s] == nodes[v].got[s] && nodes'[v].channels[s] == nodes[v].channels[s]
    ensures ChannelOk(nodes', v, s)
  {
    SeqPointwise(ArrivedSeq(nodes, s, v), ArrivedSeq(nodes', s, v));
    SeqPointwise(IncomingSeq(nodes, s, v), IncomingSeq(nodes', s, v));
  }

  /** The counter follows when planner `u` is owed `dec` less and the tokens are `tok` fewer. */
  lemma CompChange(nodes: seq<Node>, nodes': seq<Node>, v: nat, u: nat, dec: int, tok: int)
    requires Shapes(nodes) && Shapes(nodes') && v < |nodes| == |nodes'| && u < |nodes| && CompOk(nodes, v)
    requires forall w :: 0 <= w < |nodes| && w != u ==> Owed(nodes', v, w) == Owed(nodes, v, w)
    requires Owed(nodes', v, u) == Owed(nodes, v, u) - dec
    requires Tokens(nodes'[v]) == Tokens(nodes[v]) - tok
    requires nodes'[v].comp == nodes[v].comp - dec - tok
    ensures nodes'[v].comp == Sum(OwedSeq(nodes', v)) + Tokens(nodes'[v])
  {
    SumChange(OwedSeq(nodes, v), OwedSeq(nodes', v), u);
  }

  lemma OwedSame(nodes: seq<Node>, nodes': seq<Node>, v: nat, w: nat)
    requires Shapes(nodes) && Shapes(nodes') && v < |nodes| == |nodes'| && w < |nodes| && Shape(nodes, v)
             && Shape(nodes', v)
    requires nodes' == nodes[v := nodes'[v]] && nodes'[v].received[w] == nodes[v].received[w]
    requires nodes'[v].reported[w] == nodes[v].reported[w] && nodes'[v].local == nodes[v].local
    ensures Owed(nodes', v, w) == Owed(nodes, v, w)
  {
    assert Shape(nodes, w) && Shape(nodes', w);
  }

  /** WorkerDone and TokenDone: one token fewer. */
  lemma TokenKeeps(nodes: seq<Node>, nodes': seq<Node>, v: nat, t: nat, w: Stage)
    requires Inv(nodes) && Shapes(nodes') && v < |nodes| == |nodes'| && nodes' == nodes[v := nodes'[v]]
    requires t < |nodes[v].workers| && nodes[v].workers[t] != Planning && w != Planning
    requires StageTokens(w) == StageTokens(nodes[v].workers[t]) - 1
    requires nodes'[v] == Complete(nodes[v].(workers := nodes[v].workers[t := w]), 1)
    ensures NodeInv(nodes', v)
  {
    assert Shape(nodes, v) && Shape(nodes', v) && NodeInv(nodes, v);
    CompZero(nodes, v);
    var ws, ws' := nodes[v].workers, nodes'[v].workers;
    SumChange(TokenSeq(ws), TokenSeq(ws'), t);
    SeqPointwise(FlushedSeq(ws), FlushedSeq(ws'));
    forall u | 0 <= u < |nodes| ensures Owed(nodes', v, u) == Owed(nodes, v, u) { OwedSame(nodes, nodes', v, u); }
    CompChange(nodes, nodes', v, v, 0, 1);
    ItemsFrame(nodes, nodes', v);
    TotalsFrame(nodes, nodes', v);
    forall s | 0 <= s < |nodes| ensures ChannelOk(nodes', v, s) {
      assert ChannelOk(nodes, v, s);
      ChannelsFrame(nodes, nodes', v, s);
    }
  }

  lemma EndFlushKeeps(nodes: seq<Node>, nodes': seq<Node>, v: nat, t: nat)
    requires Inv(nodes) && Step(nodes, nodes', v, EndFlush(t))
    ensures NodeInv(nodes', v)
  {
    assert Shape(nodes, v) && Shape(nodes', v) && NodeInv(nodes, v);
    var ws, ws' := nodes[v].workers, nodes'[v].workers;
    PlanningMeansUnflushed(nodes[v], t);
    SumChange(TokenSeq(ws), TokenSeq(ws'), t);
    SumChange(FlushedSeq(ws), FlushedSeq(ws'), t);
    forall u | 0 <= u < |nodes| ensures Owed(nodes', v, u) == Owed(nodes, v, u) { OwedSame(nodes, nodes', v, u); }
    CompChange(nodes, nodes', v, v, 0, 0);
    ItemsFrame(nodes, nodes', v);
    TotalsFrame(nodes, nodes', v);
    forall s | 0 <= s < |nodes| ensures ChannelOk(nodes', v, s) {
      assert ChannelOk(nodes, v, s);
      ChannelsFrame(nodes, nodes', v, s);
    }
  }

  lemma TableKeeps(nodes: seq<Node>, nodes': seq<Node>, v: nat, s: nat)
    requires Inv(nodes) && Step(nodes, nodes', v, TableArrives(s))
    ensures NodeInv(nodes', v)
  {
    assert Shape(nodes, v) && Shape(nodes', v) && NodeInv(nodes, v);
    forall u | 0 <= u < |nodes| ensures Owed(nodes', v, u) == Owed(nodes, v, u) { OwedSame(nodes, nodes', v, u); }
    CompChange(nodes, nodes', v, v, 0, 0);
    ItemsFrame(nodes, nodes', v);
    TotalsFrame(nodes, nodes', v);
    StableMeansAll(nodes[v], v);
    forall r | 0 <= r < |nodes| ensures ChannelOk(nodes', v, r) {
      assert ChannelOk(nodes, v, r);
      if r != s {
        ChannelsFrame(nodes, nodes', v, r);
      } else {
        SeqPointwise(ArrivedSeq(nodes, s, v), ArrivedSeq(nodes', s, v));
      }
    }
  }

  lemma ReportKeeps(nodes: seq<Node>, nodes': seq<Node>, v: nat, u: nat, k: nat)
    requires Inv(nodes) && Step(nodes, nodes', v, Report(u, k))
    ensures NodeInv(nodes', v)
  {
    assert Shape(nodes, v) && Shape(nodes', v) && NodeInv(nodes, v);
    CompZero(nodes, v);
    ReportLeavesOwed(nodes, v, u, k);
    forall w | 0 <= w < |nodes| && w != u ensures Owed(nodes', v, w) == Owed(nodes, v, w) {
      OwedSame(nodes, nodes', v, w);
    }
    assert Shape(nodes, u) && Shape(nodes', u);
    CompChange(nodes, nodes', v, u, k, 0);
    forall w | 0 <= w < |nodes| ensures ItemsFromOk(nodes', v, w) {
      assert ItemsFromOk(nodes, v, w) && Shape(nodes, w) && Shape(nodes', w);
    }
    TotalsFrame(nodes, nodes', v);
    forall s | 0 <= s < |nodes| ensures ChannelOk(nodes', v, s) {
      assert ChannelOk(nodes, v, s);
      ChannelsFrame(nodes, nodes', v, s);
    }
  }

  /** While something can be reported, the counter is not zero. */
  lemma ReportLeavesOwed(nodes: seq<Node>, v: nat, u: nat, k: nat)
    requires Inv(nodes) && v < |nodes| && u < |nodes| && Shape(nodes, v) && 0 < k
    requires nodes[v].reported[u] + k <= Sum(nodes[v].arrived[u])
    ensures nodes[v].comp != 0
  {
    assert Shape(nodes, u) && NodeInv(nodes, v) && ItemsFromOk(nodes, v, u);
    SumMonotone(nodes[v].arrived[u], nodes[u].local[v]);
    CompZero(nodes, v);
  }

  lemma ArriveKeeps(nodes: seq<Node>, nodes': seq<Node>, v: nat, s: nat, u: nat, k: nat)
    requires Inv(nodes) && Step(nodes, nodes', v, Arrive(s, u, k))
    ensures NodeInv(nodes', v)
  {
    assert Shape(nodes, v) && Shape(nodes', v) && NodeInv(nodes, v) && Shape(nodes, u) && Shape(nodes', u);
    forall w | 0 <= w < |nodes| ensures Owed(nodes', v, w) == Owed(nodes, v, w) { OwedSame(nodes, nodes', v, w); }
    CompChange(nodes, nodes', v, v, 0, 0);
    ArriveItems(nodes, nodes', v, s, u, k);
    TotalsFrame(nodes, nodes', v);
    forall r | 0 <= r < |nodes| ensures ChannelOk(nodes', v, r) {
      assert ChannelOk(nodes, v, r);
      if r != s { ChannelsFrame(nodes, nodes', v, r); } else { ArriveChannel(nodes, nodes', v, s, u, k); }
    }
  }

  lemma ArriveItems(nodes: seq<Node>, nodes': seq<Node>, v: nat, s: nat, u: nat, k: nat)
    requires Inv(nodes) && Step(nodes, nodes', v, Arrive(s, u, k))
    ensures ItemsOk(nodes', v)
  {
    hide CompOk, WorkersOk, TotalsOk, ChannelsOk, PlansOk, PlansFit, Sum;
    assert Shape(nodes, v) && Shape(nodes', v) && NodeInv(nodes, v) && Shape(nodes, u) && Shape(nodes', u);
    SumUpdate(nodes[v].arrived[u], s, nodes[v].arrived[u][s] + k);
    forall w | 0 <= w < |nodes| ensures ItemsFromOk(nodes', v, w) {
      assert ItemsFromOk(nodes, v, w) && Shape(nodes, w) && Shape(nodes', w);
    }
  }

  /** Items taken off a channel: it reaches zero only when all that is expected has come. */
  lemma ArriveChannel(nodes: seq<Node>, nodes': seq<Node>, v: nat, s: nat, u: nat, k: nat)
    requires Inv(nodes) && Step(nodes, nodes', v, Arrive(s, u, k))
    ensures ChannelOk(nodes', v, s)
  {
    assert Shape(nodes, v) && Shape(nodes', v) && NodeInv(nodes, v) && Shape(nodes, u) && Shape(nodes', u);
    assert ChannelOk(nodes, v, s);
    SumChange(ArrivedSeq(nodes, s, v), ArrivedSeq(nodes', s, v), u);
    SeqPointwise(IncomingSeq(nodes, s, v), IncomingSeq(nodes', s, v));
    ArrivedWithinPlans(nodes', v, s) by { ArriveItems(nodes, nodes', v, s, u, k); }
    assert Sum(IncomingSeq(nodes, s, v)) < MAX_PIECES;
  }

  lemma ArrivedWithinPlans(nodes: seq<Node>, v: nat, s: nat)
    requires Shapes(nodes) && v < |nodes| && s < |nodes| && ItemsOk(nodes, v)
    ensures Sum(ArrivedSeq(nodes, s, v)) <= Sum(IncomingSeq(nodes, s, v))
  {
    var a, b := ArrivedSeq(nodes, s, v), IncomingSeq(nodes, s, v);
    forall u | 0 <= u < |nodes| ensures a[u] <= b[u] {
      assert ItemsFromOk(nodes, v, u) && Shape(nodes, u) && Shape(nodes, v);
    }
    SumMonotone(a, b);
  }

  // ---------- flushing a counter of the plan

  lemma FlushKeeps(nodes: seq<Node>, nodes': seq<Node>, v: nat, t: nat, s: nat, d: nat, x: nat)
    requires Inv(nodes) && Step(nodes, nodes', v, FlushEntry(t, s, d, x))
    ensures NodeInv(nodes', v)
  {
    assert Shape(nodes, v) && Shape(nodes', v) && NodeInv(nodes, v);
    FlushComp(nodes, nodes', v, t, s, d, x);
    FlushItems(nodes, nodes', v, t, s, d, x);
    FlushTotals(nodes, nodes', v, t, s, d, x);
    FlushChannels(nodes, nodes', v, t, s, d, x);
    hide CompOk, TotalsOk, ItemsOk, ChannelsOk;
  }

  lemma FlushItems(nodes: seq<Node>, nodes': seq<Node>, v: nat, t: nat, s: nat, d: nat, x: nat)
    requires Inv(nodes) && Step(nodes, nodes', v, FlushEntry(t, s, d, x))
    ensures ItemsOk(nodes', v)
  {
    hide CompOk, WorkersOk, TotalsOk, ChannelsOk, PlansOk, PlansFit, Sum;
    assert Shape(nodes, v) && Shape(nodes', v) && NodeInv(nodes, v);
    forall w | 0 <= w < |nodes| ensures ItemsFromOk(nodes', v, w) {
      assert ItemsFromOk(nodes, v, w) && Shape(nodes, w) && Shape(nodes', w);
    }
  }

  lemma FlushTotals(nodes: seq<Node>, nodes': seq<Node>, v: nat, t: nat, s: nat, d: nat, x: nat)
    requires Inv(nodes) && Step(nodes, nodes', v, FlushEntry(t, s, d, x))
    ensures TotalsOk(nodes', v)
  {
    hide CompOk, ItemsOk, ChannelsOk, PlansOk, PlansFit, Sum;
    assert Shape(nodes, v) && Shape(nodes', v) && NodeInv(nodes, v);
    forall r | 0 <= r < |nodes| ensures nodes'[v].totals[r] == Sum(KnownSeq(nodes', r, v)) {
      SumChange(KnownSeq(nodes, r, v), KnownSeq(nodes', r, v), v);
    }
  }

  lemma FlushChannels(nodes: seq<Node>, nodes': seq<Node>, v: nat, t: nat, s: nat, d: nat, x: nat)
    requires Inv(nodes) && Step(nodes, nodes', v, FlushEntry(t, s, d, x))
    ensures ChannelsOk(nodes', v)
  {
    hide CompOk, ItemsOk, PlansFit, Sum;
    assert Shape(nodes, v) && Shape(nodes', v) && NodeInv(nodes, v);
    PlanningMeansUnflushed(nodes[v], t);
    forall r | 0 <= r < |nodes| ensures ChannelOk(nodes', v, r) {
      assert ChannelOk(nodes, v, r);
      SeqPointwise(ArrivedSeq(nodes, r, v), ArrivedSeq(nodes', r, v));
    }
  }

  lemma FlushComp(nodes: seq<Node>, nodes': seq<Node>, v: nat, t: nat, s: nat, d: nat, x: nat)
    requires Inv(nodes) && Step(nodes, nodes', v, FlushEntry(t, s, d, x))
    ensures CompOk(nodes', v)
  {
    assert Shape(nodes, v) && Shape(nodes', v) && NodeInv(nodes, v);
    CompZero(nodes, v);
    SumUpdate(nodes[v].local[d], s, nodes[v].local[d][s] + x);
    forall w | 0 <= w < |nodes| && w != v ensures Owed(nodes', v, w) == Owed(nodes, v, w) {
      assert Shape(nodes, w) && Shape(nodes', w);
    }
    var added: int := if d == v then x else 0;
    CompChange(nodes, nodes', v, v, 0 - added, 0);
    assert nodes[v].workers[t] != Finished;
  }

  lemma FlushOthers(nodes: seq<Node>, nodes': seq<Node>, v: nat, t: nat, s: nat, d: nat, x: nat, w: nat)
    requires Inv(nodes) && Step(nodes, nodes', v, FlushEntry(t, s, d, x)) && w < |nodes| && w != v
    ensures NodeInv(nodes', w)
  {
    assert Shape(nodes, v) && Shape(nodes', v) && NodeInv(nodes, v);
    PlanningMeansUnflushed(nodes[v], t);
    assert NodeInv(nodes, w) && Shape(nodes, w) && Shape(nodes', w);
    forall u | 0 <= u < |nodes|
      ensures Shape(nodes, u) && Shape(nodes', u)
      ensures forall r :: 0 <= r < |nodes| ==> nodes[u].local[w][r] <= nodes'[u].local[w][r]
    {
      assert Shape(nodes, u) && Shape(nodes', u);
    }
    BystanderKeeps(nodes, nodes', w);
  }

  // ---------- a peer's plan comes in

  lemma PlanComp(nodes: seq<Node>, nodes': seq<Node>, v: nat, u: nat)
    requires Inv(nodes) && Step(nodes, nodes', v, PlanArrives(u))
    ensures CompOk(nodes', v)
  {
    assert Shape(nodes, v) && Shape(nodes', v) && NodeInv(nodes, v) && Shape(nodes, u) && Shape(nodes', u);
    CompZero(nodes, v);
    forall w | 0 <= w < |nodes| && w != u ensures Owed(nodes', v, w) == Owed(nodes, v, w) {
      OwedSame(nodes, nodes', v, w);
    }
    CompChange(nodes, nodes', v, u, MAX_PIECES - Sum(nodes[u].local[v]), 0);
  }

  lemma PlanTotals(nodes: seq<Node>, nodes': seq<Node>, v: nat, u: nat)
    requires Inv(nodes) && Step(nodes, nodes', v, PlanArrives(u))
    ensures TotalsOk(nodes', v)
    ensures Stable(nodes'[v]) <==> nodes[v].counters + 2 == |nodes|
    ensures !Stable(nodes[v])
  {
    assert Shape(nodes, v) && Shape(nodes', v) && NodeInv(nodes, v) && Shape(nodes, u) && Shape(nodes', u);
    StableMeansAll(nodes[v], v);
    SumChange(ReceivedSeq(nodes[v].received), ReceivedSeq(nodes'[v].received), u);
    forall s | 0 <= s < |nodes| ensures nodes'[v].totals[s] == Sum(KnownSeq(nodes', s, v)) {
      SumChange(KnownSeq(nodes, s, v), KnownSeq(nodes', s, v), u);
    }
  }

  /** What OnCounterReceived does to the channel of source `s`. */
  lemma PlanWords(nodes: seq<Node>, nodes': seq<Node>, v: nat, u: nat, s: nat)
    requires Shapes(nodes) && Step(nodes, nodes', v, PlanArrives(u)) && s < |nodes| && s != v
    ensures Shape(nodes, v) && Shape(nodes', v) && nodes'[v].got == nodes[v].got
            && nodes'[v].arrived == nodes[v].arrived
    ensures u < |nodes| && u != v && nodes[v].channels[u].status == PollRoutines
    ensures nodes'[v].received == nodes[v].received[u := true]
    ensures nodes'[v].channels[s] ==
              if nodes[v].counters + 2 == |nodes|
                then CompleteChannel(nodes[v].channels[s], MAX_PIECES - nodes'[v].totals[s])
              else nodes[v].channels[s]
  {
    hide PlansFit, Sum;
    assert Shape(nodes, v) && Shape(nodes', v);
  }

  lemma PlanChannel(nodes: seq<Node>, nodes': seq<Node>, v: nat, u: nat, s: nat)
    requires Inv(nodes) && Step(nodes, nodes', v, PlanArrives(u)) && s < |nodes| && s != v
    requires TotalsOk(nodes', v) && ItemsOk(nodes', v)
    requires Stable(nodes'[v]) <==> nodes[v].counters + 2 == |nodes|
    requires !Stable(nodes[v])
    ensures ChannelOk(nodes', v, s)
  {
    hide Inv, NodeStep, NodeInv, ItemsOk, Sum, PlansFit, IncomingSeq, ArrivedSeq, KnownSeq, Stable;
    ChannelOf(nodes, v, s);
    PlanWords(nodes, nodes', v, u, s);
    ArrivedKept(nodes, nodes', v, s);
    if Stable(nodes'[v]) {
      StableMeansAll(nodes'[v], v);
      assert nodes'[v].received[s] && nodes'[v].totals[s] == Sum(KnownSeq(nodes', s, v));
      KnownIsAll(nodes', v, s);
      ArrivedWithinPlans(nodes', v, s);
      IncomingBelow(nodes', s, v);
    }
  }

  lemma IncomingBelow(nodes: seq<Node>, s: nat, v: nat)
    requires Shapes(nodes) && PlansFit(nodes) && s < |nodes| && v < |nodes|
    ensures Sum(IncomingSeq(nodes, s, v)) < MAX_PIECES
  {}

  lemma ArrivedKept(nodes: seq<Node>, nodes': seq<Node>, v: nat, s: nat)
    requires Shapes(nodes) && Shapes(nodes') && v < |nodes| == |nodes'| && s < |nodes|
    requires nodes'[v].arrived == nodes[v].arrived
    ensures ArrivedSeq(nodes', s, v) == ArrivedSeq(nodes, s, v)
  {
    assert Shape(nodes, v) && Shape(nodes', v);
    SeqPointwise(ArrivedSeq(nodes, s, v), ArrivedSeq(nodes', s, v));
  }

  lemma KnownIsAll(nodes: seq<Node>, v: nat, s: nat)
    requires Shapes(nodes) && v < |nodes| && s < |nodes| && Shape(nodes, v)
    requires forall u :: 0 <= u < |nodes| && u != v ==> nodes[v].received[u]
    ensures KnownSeq(nodes, s, v) == IncomingSeq(nodes, s, v)
  {
    SeqPointwise(KnownSeq(nodes, s, v), IncomingSeq(nodes, s, v));
  }

  lemma ChannelOf(nodes: seq<Node>, v: nat, s: nat)
    requires Inv(nodes) && v < |nodes| && s < |nodes|
    ensures ChannelOk(nodes, v, s) && Shape(nodes, v) && !nodes[v].received[v]
  {
    assert NodeInv(nodes, v) && Shape(nodes, v);
  }

  lemma PlanOwnSource(nodes: seq<Node>, nodes': seq<Node>, v: nat, u: nat)
    requires Inv(nodes) && Step(nodes, nodes', v, PlanArrives(u))
    ensures ChannelOk(nodes', v, v)
  {
    hide CompOk, ItemsOk, WorkersOk, TotalsOk, PlansFit, Sum;
    assert Shape(nodes, v) && Shape(nodes', v) && NodeInv(nodes, v) && ChannelOk(nodes, v, v);
    SeqPointwise(ArrivedSeq(nodes, v, v), ArrivedSeq(nodes', v, v));
  }

  lemma PlanKeeps(nodes: seq<Node>, nodes': seq<Node>, v: nat, u: nat)
    requires Inv(nodes) && Step(nodes, nodes', v, PlanArrives(u))
    ensures NodeInv(nodes', v)
  {
    assert Shape(nodes, v) && Shape(nodes', v) && NodeInv(nodes, v);
    PlanComp(nodes, nodes', v, u);
    PlanTotals(nodes, nodes', v, u);
    ItemsFrame(nodes, nodes', v);
    hide CompOk, TotalsOk, ItemsOk, ChannelOk;
    PlanOwnSource(nodes, nodes', v, u);
    forall s | 0 <= s < |nodes| && s != v ensures ChannelOk(nodes', v, s) {
      PlanChannel(nodes, nodes', v, u, s);
    }
  }

  // ---------- all runs

  lemma StepKeepsInv(nodes: seq<Node>, nodes': seq<Node>, v: nat, a: Action)
    requires Inv(nodes) && Step(nodes, nodes', v, a)
    ensures Inv(nodes')
  {
    assert Shape(nodes, v) && Shape(nodes', v);
    hide NodeInv;
    match a
    case FlushEntry(t, s, d, x) =>
      FlushKeeps(nodes, nodes', v, t, s, d, x);
      forall w | 0 <= w < |nodes| && w != v ensures NodeInv(nodes', w) { FlushOthers(nodes, nodes', v, t, s, d, x, w); }
    case EndFlush(t) =>
      assert nodes[v].flushed < |nodes[v].workers| by { FlushedBelow(nodes, v, t); }
      EndFlushKeeps(nodes, nodes', v, t); OthersKeep(nodes, nodes', v);
    case WorkerDone(t) =>
      TokenKeeps(nodes, nodes', v, t, nodes'[v].workers[t]); OthersKeep(nodes, nodes', v);
    case TokenDone(t) =>
      TokenKeeps(nodes, nodes', v, t, Finished); OthersKeep(nodes, nodes', v);
    case TableArrives(s) => TableKeeps(nodes, nodes', v, s); OthersKeep(nodes, nodes', v);
    case PlanArrives(u) => PlanKeeps(nodes, nodes', v, u); OthersKeep(nodes, nodes', v);
    case Arrive(s, u, k) => ArriveKeeps(nodes, nodes', v, s, u, k); OthersKeep(nodes, nodes', v);
    case Report(u, k) => ReportKeeps(nodes, nodes', v, u, k); OthersKeep(nodes, nodes', v);
  }

  lemma FlushedBelow(nodes: seq<Node>, v: nat, t: nat)
    requires Inv(nodes) && v < |nodes| && t < |nodes[v].workers| && nodes[v].workers[t] == Planning
    ensures nodes[v].flushed < |nodes[v].workers|
  {
    assert NodeInv(nodes, v);
    PlanningMeansUnflushed(nodes[v], t);
  }

  lemma InitInv(nodes: seq<Node>)
    requires Init(nodes)
    ensures Inv(nodes)
  {
    var n := |nodes|;
    forall v | 0 <= v < n ensures Shape(nodes, v) { assert InitNode(n, v, nodes[v]); }
    SumConstant(Zeros(n), 0);
    forall v, d | 0 <= v < n && 0 <= d < n ensures Shape(nodes, v) && Sum(nodes[v].local[d]) < MAX_PIECES {
      assert InitNode(n, v, nodes[v]);
    }
    forall s, v | 0 <= s < n && 0 <= v < n ensures Sum(IncomingSeq(nodes, s, v)) == 0 {
      forall u | 0 <= u < n ensures IncomingSeq(nodes, s, v)[u] == 0 {
        assert InitNode(n, u, nodes[u]) && Shape(nodes, u);
      }
      SumConstant(IncomingSeq(nodes, s, v), 0);
    }
    forall v | 0 <= v < n ensures NodeInv(nodes, v) { InitNodeInv(nodes, v); }
  }

  lemma InitNodeInv(nodes: seq<Node>, v: nat)
    requires Init(nodes) && Shapes(nodes) && v < |nodes|
    ensures NodeInv(nodes, v)
  {
    var n := |nodes|;
    assert InitNode(n, v, nodes[v]) && Shape(nodes, v);
    SumConstant(Zeros(n), 0);
    forall u | 0 <= u < n ensures InitNode(n, u, nodes[u]) && Shape(nodes, u) {}
    var owed := OwedSeq(nodes, v);
    var guess := seq(n, i => MAX_PIECES);
    SumConstant(guess, MAX_PIECES);
    SumChange(guess, owed, v);
    SumConstant(TokenSeq(nodes[v].workers), 1);
    SumConstant(FlushedSeq(nodes[v].workers), 0);
    SumConstant(ReceivedSeq(nodes[v].received), 0);
    forall u | 0 <= u < n ensures ItemsFromOk(nodes, v, u) {}
    forall s | 0 <= s < n ensures Sum(KnownSeq(nodes, s, v)) == 0 && ChannelOk(nodes, v, s) {
      SumConstant(KnownSeq(nodes, s, v), 0);
      SumConstant(ArrivedSeq(nodes, s, v), 0);
    }
  }

  lemma {:induction false} RunInv(run: seq<seq<Node>>, i: nat)
    requires IsRun(run) && i < |run|
    ensures Inv(run[i])
  {
    if i == 0 {
      InitInv(run[0]);
    } else {
      RunInv(run, i - 1);
      assert Next(run[i - 1], run[i]);
      var v: nat, a :| Step(run[i - 1], run[i], v, a);
      StepKeepsInv(run[i - 1], run[i], v, a);
    }
  }

  // ---------- the theorems

  /** In every state of every run the completion counter of a node is the guess for each peer
      whose plan is still out, plus the known plans, plus the tokens, less what has completed;
      it is never negative; it is zero exactly when everything planned for the node is done;
      and that zero has then been seen by exactly one Complete call, and none before. */
  lemma PhaseEndsExactlyOnce(run: seq<seq<Node>>, i: nat, v: nat)
    requires IsRun(run) && i < |run| && v < |run[i]|
    ensures Shapes(run[i])
    ensures run[i][v].comp == Sum(OwedSeq(run[i], v)) + Tokens(run[i][v])
    ensures run[i][v].comp >= 0
    ensures run[i][v].comp == 0 <==> AllDone(run[i], v)
    ensures run[i][v].zeros == if AllDone(run[i], v) then 1 else 0
  {
    RunInv(run, i);
    assert NodeInv(run[i], v);
    CompZero(run[i], v);
  }

  /** A channel's count is never negative, and zero after its reset exactly when all peer counters
      are in and everything any plan sends over it has been taken; that zero has then been found
      by exactly one Complete call and by none before, and no check of the channel has failed. */
  lemma ChannelEndsExactly(run: seq<seq<Node>>, i: nat, v: nat, s: nat)
    requires IsRun(run) && i < |run| && v < |run[i]| && s < |run[i]| && s != v
    ensures Shapes(run[i]) && Shape(run[i], v) && run[i][v].channels[s].left >= 0
    ensures run[i][v].channels[s].status == EndOfPhase <==>
              Stable(run[i][v]) && run[i][v].got[s] == Sum(IncomingSeq(run[i], s, v))
    ensures run[i][v].channels[s].left == 0 <==> run[i][v].channels[s].status != PollRoutines
    ensures run[i][v].channels[s].ended == if run[i][v].channels[s].status == EndOfPhase then 1 else 0
    ensures !run[i][v].channels[s].aborted
  {
    RunInv(run, i);
    assert Shape(run[i], v) && NodeInv(run[i], v) && ChannelOk(run[i], v, s);
    StableMeansAll(run[i][v], v);
  }

  lemma EndedGrows(nodes: seq<Node>, nodes': seq<Node>, v: nat, a: Action, s: nat)
    requires Shapes(nodes) && Step(nodes, nodes', v, a) && s < |nodes|
    ensures Shape(nodes, v) && Shape(nodes', v) && nodes[v].channels[s].ended <= nodes'[v].channels[s].ended
  {
    hide PlansFit, Sum;
    assert Shape(nodes, v) && Shape(nodes', v);
  }

  /** A channel at EndOfPhase stays there until the next phase. */
  lemma {:induction false} ChannelStaysEnded(run: seq<seq<Node>>, i: nat, j: nat, v: nat, s: nat)
    requires IsRun(run) && i <= j < |run| && v < |run[i]| && s < |run[i]| && s != v
    requires Shape(run[i], v) && run[i][v].channels[s].status == EndOfPhase
    ensures |run[j]| == |run[i]| && Shape(run[j], v) && run[j][v].channels[s].status == EndOfPhase
    decreases j - i
  {
    hide NodeStep, Sum, IncomingSeq, Stable, PlansFit, Init;
    if i < j {
      ChannelStaysEnded(run, i, j - 1, v, s);
      ChannelEndsExactly(run, j - 1, v, s);
      assert Next(run[j - 1], run[j]);
      var w: nat, a :| Step(run[j - 1], run[j], w, a);
      EndedGrows(run[j - 1], run[j], w, a, s);
      ChannelEndsExactly(run, j, v, s);
    }
  }

  /** When a node's phase is over, each of its channels is at EndOfPhase, so the next phase may
      start: the abort in ContinueInboundPhase cannot fire. */
  lemma ChannelsReadyForNextPhase(run: seq<seq<Node>>, i: nat, v: nat, s: nat)
    requires IsRun(run) && i < |run| && v < |run[i]| && s < |run[i]| && s != v && run[i][v].comp == 0
    ensures Shapes(run[i]) && Shape(run[i], v) && run[i][v].channels[s].status == EndOfPhase
  {
    RunInv(run, i);
    var nodes := run[i];
    assert Shape(nodes, v) && NodeInv(nodes, v) && ChannelOk(nodes, v, s);
    CompZero(nodes, v);
    StableMeansAll(nodes[v], v);
    var a, b := ArrivedSeq(nodes, s, v), IncomingSeq(nodes, s, v);
    forall u | 0 <= u < |nodes| ensures a[u] == b[u] {
      assert ItemsFromOk(nodes, v, u) && Shape(nodes, u);
      SumMonotone(nodes[v].arrived[u], nodes[u].local[v]);
      SumTight(nodes[v].arrived[u], nodes[u].local[v]);
    }
    SeqPointwise(a, b);
  }
}
