/** Flushing and receiving the counter tables of BufferPlan are the plan steps of PhaseProtocol. There
    nodes are numbered from 0 and the levels of a piece tree are added up. */
module PlanSteps {
  import opened Basics
  import opened Sums
  import opened BufferPlan
  import P = PhaseProtocol

  predicate TableOk(table: seq<nat>, n: nat) {
    n > 0 && |table| == LEVELS * n * n
  }

  /** Items from source `s` to node `d` in the table. */
  function Entry(table: seq<nat>, n: nat, d: nat, s: nat): nat
    requires TableOk(table, n) && d < n && s < n
  {
    Incoming(table, n, s + 1, d + 1, LEVELS)
  }

  /** The plan for node `d`, by source. */
  function RowView(table: seq<nat>, n: nat, d: nat): (r: seq<int>)
    requires TableOk(table, n) && d < n
    ensures |r| == n
  {
    seq(n, s requires 0 <= s < n => Entry(table, n, d, s))
  }

  lemma {:induction false} RowSum(table: seq<nat>, n: nat, d: nat, k: nat)
    requires TableOk(table, n) && d < n && k <= n
    ensures Sum(RowView(table, n, d)[..k]) == AllIncoming(table, n, d + 1, k, LEVELS)
  {
    var r := RowView(table, n, d);
    if k > 0 {
      RowSum(table, n, d, k - 1);
      assert r[..k][..k - 1] == r[..k - 1];
    }
  }

  /** A node's plan adds up to what the completion counter is told. */
  lemma RowIsPlan(table: seq<nat>, n: nat, d: nat)
    requires TableOk(table, n) && d < n
    ensures Sum(RowView(table, n, d)) == PlanFor(table, n, d + 1, |table|)
  {
    RowSum(table, n, d, n);
    assert RowView(table, n, d)[..n] == RowView(table, n, d);
    IncomingIsPlan(table, n, d + 1);
  }

  lemma {:induction false} IncomingAdded(was: seq<nat>, now: seq<nat>, data: seq<nat>, n: nat, src: nat, dst: nat,
                                         level: nat)
    requires TableOk(was, n) && TableOk(now, n) && TableOk(data, n) && Added(was, now, data, |data|)
    requires 1 <= src <= n && 1 <= dst <= n && level <= LEVELS
    ensures Incoming(now, n, src, dst, level) == Incoming(was, n, src, dst, level) + Incoming(data, n, src, dst, level)
  {
    if level > 0 {
      IncomingAdded(was, now, data, n, src, dst, level - 1);
      IndexInside(n, level - 1, src, dst);
    }
  }

  // ---------- receiving

  lemma RowAdded(was: seq<nat>, now: seq<nat>, data: seq<nat>, n: nat, d: nat)
    requires TableOk(was, n) && TableOk(now, n) && TableOk(data, n) && Added(was, now, data, |data|) && d < n
    ensures RowView(now, n, d) == P.AddSeq(RowView(was, n, d), RowView(data, n, d))
  {
    hide Added, Incoming;
    forall s: nat | s < n ensures Entry(now, n, d, s) == Entry(was, n, d, s) + Entry(data, n, d, s) {
      IncomingAdded(was, now, data, n, s + 1, d + 1, LEVELS);
    }
  }

  /** UpdateBatchCounters on the tables is PlanArrives on the node. */
  lemma ReceiveIsStep(nodes: seq<P.Node>, v: nat, u: nat, node': P.Node, data: seq<nat>, total0: seq<nat>,
                      total1: seq<nat>, dec: int)
    requires P.Shapes(nodes) && v < |nodes| && P.NodeStep(nodes, v, node', P.PlanArrives(u))
    requires TableOk(data, |nodes|) && TableOk(total0, |nodes|) && TableOk(total1, |nodes|)
    requires u < |nodes| && P.Shape(nodes, u) && nodes[u].local[v] == RowView(data, |nodes|, v)
    requires nodes[v].totals == RowView(total0, |nodes|, v)
    requires Added(total0, total1, data, |data|) && MAX_PIECES - dec == PlanFor(data, |nodes|, v + 1, |data|)
    ensures node'.comp == nodes[v].comp - dec && node'.totals == RowView(total1, |nodes|, v)
  {
    hide Added, Incoming, PlanFor, RowView, TableOk, Sum;
    RowIsPlan(data, |nodes|, v);
    RowAdded(total0, total1, data, |nodes|, v);
    assert P.Shape(nodes, v);
  }

  // ---------- flushing

  /** Entries come in the order of destinations, and of sources within one. */
  predicate Done(d0: nat, s0: nat, d: nat, s: nat) {
    d < d0 || (d == d0 && s < s0)
  }

  /** The node after the entries before (d0, s0) have been flushed. */
  function Flushed(node: P.Node, v: nat, data: seq<nat>, n: nat, d0: nat, s0: nat): (after: P.Node)
    requires TableOk(data, n) && v < n && |node.local| == |node.totals| == n && s0 <= n
    requires forall d :: 0 <= d < n ==> |node.local[d]| == n
    ensures |after.local| == |after.totals| == n
  {
    node.(
    local := seq(n, d requires 0 <= d < n => seq(n, s requires 0 <= s < n =>
      node.local[d][s] + if Done(d0, s0, d, s) then Entry(data, n, d, s) else 0)),
    totals := seq(n, s requires 0 <= s < n => node.totals[s] + if Done(d0, s0, v, s) then Entry(data, n, v, s) else 0),
    comp := node.comp + if v < d0 then Sum(RowView(data, n, v)) else if v == d0 then Sum(RowView(data, n, v)[..s0])
      else 0)
  }

  ghost predicate CanFlush(nodes: seq<P.Node>, v: nat, t: nat) {
    && P.Shapes(nodes) && v < |nodes| && P.Shape(nodes, v)
    && t < |nodes[v].workers| && nodes[v].workers[t] == P.Planning
  }

  lemma FlushedShapes(nodes: seq<P.Node>, v: nat, t: nat, data: seq<nat>, d0: nat, s0: nat)
    requires CanFlush(nodes, v, t) && TableOk(data, |nodes|) && s0 <= |nodes|
    ensures P.Shapes(nodes[v := Flushed(nodes[v], v, data, |nodes|, d0, s0)])
  {
    var nodes' := nodes[v := Flushed(nodes[v], v, data, |nodes|, d0, s0)];
    forall w: nat | w < |nodes'| ensures P.Shape(nodes', w) {
      assert P.Shape(nodes, w);
    }
  }

  /** Each entry of the table is one FlushEntry step of worker `t`. */
  lemma FlushIsStep(nodes: seq<P.Node>, v: nat, t: nat, data: seq<nat>, d: nat, s: nat)
    requires CanFlush(nodes, v, t) && TableOk(data, |nodes|) && d < |nodes| && s < |nodes|
    ensures var n := |nodes|;
            var before := nodes[v := Flushed(nodes[v], v, data, n, d, s)];
            && P.Shapes(before)
            && P.NodeStep(before, v, Flushed(nodes[v], v, data, n, d, s + 1),
                          P.FlushEntry(t, s, d, Entry(data, n, d, s)))
  {
    var n := |nodes|;
    FlushedShapes(nodes, v, t, data, d, s);
    var now, next := Flushed(nodes[v], v, data, n, d, s), Flushed(nodes[v], v, data, n, d, s + 1);
    hide Sum, Incoming;
    forall e: nat | e < n && e != d ensures next.local[e] == now.local[e] {}
    assert next.local[d] == now.local[d][s := now.local[d][s] + Entry(data, n, d, s)];
    assert next.local == now.local[d := now.local[d][s := now.local[d][s] + Entry(data, n, d, s)]];
    PartSum(data, n, v, s);
    assert d == v ==> next.totals == now.totals[s := now.totals[s] + Entry(data, n, d, s)];
    assert d != v ==> next.totals == now.totals;
  }

  lemma PartSum(data: seq<nat>, n: nat, v: nat, s: nat)
    requires TableOk(data, n) && v < n && s < n
    ensures Sum(RowView(data, n, v)[..s + 1]) == Sum(RowView(data, n, v)[..s]) + Entry(data, n, v, s)
  {
    var r := RowView(data, n, v);
    assert r[..s + 1][..s] == r[..s];
  }

  /** The steps of one row lead on to the next row. */
  lemma RowsMeet(node: P.Node, v: nat, data: seq<nat>, n: nat, d: nat)
    requires TableOk(data, n) && v < n && |node.local| == |node.totals| == n
    requires forall e :: 0 <= e < n ==> |node.local[e]| == n
    ensures Flushed(node, v, data, n, d, n) == Flushed(node, v, data, n, d + 1, 0)
    ensures Flushed(node, v, data, n, 0, 0) == node
  {
    var a, b, c := Flushed(node, v, data, n, d, n), Flushed(node, v, data, n, d + 1, 0),
      Flushed(node, v, data, n, 0, 0);
    assert RowView(data, n, v)[..n] == RowView(data, n, v) && RowView(data, n, v)[..0] == [];
    assert a.local == b.local by { assert forall e :: 0 <= e < n ==> a.local[e] == b.local[e]; }
    assert c.local == node.local by { assert forall e :: 0 <= e < n ==> c.local[e] == node.local[e]; }
    assert a.totals == b.totals && c.totals == node.totals;
  }

  /** The node's fields hold what the tables say. */
  ghost predicate Shows(node: P.Node, v: nat, n: nat, local: seq<nat>, total: seq<nat>)
    requires TableOk(local, n) && TableOk(total, n) && v < n
  {
    && |node.local| == n && node.totals == RowView(total, n, v)
    && (forall d :: 0 <= d < n ==> node.local[d] == RowView(local, n, d))
  }

  lemma FlushedRow(node: P.Node, v: nat, data: seq<nat>, n: nat, d: nat)
    requires TableOk(data, n) && v < n && |node.local| == |node.totals| == n && d < n
    requires forall e :: 0 <= e < n ==> |node.local[e]| == n
    ensures var after := Flushed(node, v, data, n, n, 0);
            && after.local[d] == P.AddSeq(node.local[d], RowView(data, n, d))
            && after.totals == P.AddSeq(node.totals, RowView(data, n, v))
            && after.comp == node.comp + Sum(RowView(data, n, v))
  {
    hide Sum, Incoming;
    var after := Flushed(node, v, data, n, n, 0);
    assert forall s: nat :: s < n ==> after.local[d][s] == node.local[d][s] + RowView(data, n, d)[s];
    assert forall s: nat :: s < n ==> after.totals[s] == node.totals[s] + RowView(data, n, v)[s];
  }

  /** After the last row the node has what FlushBufferPlan leaves in the tables and reports. */
  lemma FlushEnds(node: P.Node, v: nat, n: nat, data: seq<nat>, local0: seq<nat>, local1: seq<nat>,
                  total0: seq<nat>, total1: seq<nat>, inc: nat)
    requires TableOk(data, n) && TableOk(local0, n) && TableOk(local1, n) && v < n
    requires TableOk(total0, n) && TableOk(total1, n) && Shows(node, v, n, local0, total0)
    requires Added(local0, local1, data, |data|) && Added(total0, total1, data, |data|)
    requires inc == PlanFor(data, n, v + 1, |data|)
    ensures Shows(Flushed(node, v, data, n, n, 0), v, n, local1, total1)
    ensures Flushed(node, v, data, n, n, 0).comp == node.comp + inc
  {
    hide Added, Incoming, PlanFor, Flushed, Sum, Entry;
    RowIsPlan(data, n, v);
    RowAdded(total0, total1, data, n, v);
    forall d: nat | d < n
      ensures Flushed(node, v, data, n, n, 0).local[d] == RowView(local1, n, d)
    {
      RowAdded(local0, local1, data, n, d);
      FlushedRow(node, v, data, n, d);
    }
    FlushedRow(node, v, data, n, v);
  }
}
