/** What a buffer plan counts, said about the positions of the piece trees: a position is a path of
    child indices, from a root piece down. */
module PlanPaths {
  import opened BufferPlan

  /** A path into the trees. */
  predicate IsPath(ps: seq<Piece>, path: seq<nat>)
    decreases |path|
  {
    path != [] && path[0] < |ps| && (|path| > 1 ==> IsPath(ps[path[0]].children, path[1..]))
  }

  /** The piece at the end of a path; some piece where there is none. */
  function At(ps: seq<Piece>, path: seq<nat>): Piece
    decreases |path|
  {
    if path == [] || path[0] >= |ps| then Piece(0, 0, 0, [])
    else if |path| == 1 then ps[path[0]]
    else At(ps[path[0]].children, path[1..])
  }

  /** The node of the piece: its own, or that of the nearest piece above it that names one, or `me`. */
  function RunsOn(ps: seq<Piece>, me: nat, path: seq<nat>): nat
    decreases |path|
  {
    if path == [] then me
    else if At(ps, path).nodeId != 0 then At(ps, path).nodeId
    else RunsOn(ps, me, path[..|path| - 1])
  }

  /** What the position adds to the counter of items from `s` to `d`: the piece itself, sent from where
      the piece above it runs, to any node if it is dynamic; and its future values, sent from `future`. */
  function Weight(ps: seq<Piece>, me: nat, future: nat, s: nat, d: nat, path: seq<nat>): nat
    requires path != []
  {
    var above, here := RunsOn(ps, me, path[..|path| - 1]), RunsOn(ps, me, path);
    (if above == s && (here == d || here >= DYNAMIC) then 1 else 0)
    + (if future == s && here == d then At(ps, path).fvSignals else 0)
  }

  // ---------- all positions of a depth

  function Positions(ps: seq<Piece>, depth: nat): (r: seq<seq<nat>>)
    ensures forall k :: 0 <= k < |r| ==> r[k] != [] && r[k][0] < |ps|
    decreases depth, |ps|
  {
    if ps == [] then []
    else Positions(ps[..|ps| - 1], depth) + Under(ps[|ps| - 1], |ps| - 1, depth)
  }

  function Under(p: Piece, i: nat, depth: nat): (r: seq<seq<nat>>)
    ensures forall k :: 0 <= k < |r| ==> r[k] != [] && r[k][0] == i
    decreases depth, 0
  {
    if depth == 0 then [[i]] else Below(i, Positions(p.children, depth - 1))
  }

  function Below(i: nat, rests: seq<seq<nat>>): (r: seq<seq<nat>>)
    ensures |r| == |rests| && forall k :: 0 <= k < |r| ==> r[k] == [i] + rests[k]
  {
    seq(|rests|, k requires 0 <= k < |rests| => [i] + rests[k])
  }

  /** The list has every position of the depth ... */
  lemma {:induction false} PositionsAll(ps: seq<Piece>, depth: nat, path: seq<nat>)
    ensures path in Positions(ps, depth) <==> IsPath(ps, path) && |path| == depth + 1
    decreases depth, |ps|
  {
    if ps != [] {
      var n := |ps| - 1;
      PositionsAll(ps[..n], depth, path);
      UnderAll(ps[n], n, depth, path);
      if path != [] && path[0] < n { assert ps[..n][path[0]] == ps[path[0]]; }
    }
  }

  lemma {:induction false} UnderAll(p: Piece, i: nat, depth: nat, path: seq<nat>)
    ensures path in Under(p, i, depth) <==>
              path != [] && path[0] == i && |path| == depth + 1 && (depth > 0 ==> IsPath(p.children, path[1..]))
    decreases depth, 0
  {
    if depth == 0 {
      assert path != [] && path[0] == i && |path| == 1 ==> path == [i];
    } else {
      var rests := Positions(p.children, depth - 1);
      if path != [] && path[0] == i {
        PositionsAll(p.children, depth - 1, path[1..]);
        assert path == [i] + path[1..];
        if path[1..] in rests {
          var k :| 0 <= k < |rests| && rests[k] == path[1..];
          assert Below(i, rests)[k] == path;
        }
        if path in Below(i, rests) {
          var k :| 0 <= k < |rests| && Below(i, rests)[k] == path;
          assert path[1..] == rests[k];
        }
      }
    }
  }

  /** ... once. */
  lemma {:induction false} PositionsOnce(ps: seq<Piece>, depth: nat, i: nat, j: nat)
    requires i < j < |Positions(ps, depth)|
    ensures Positions(ps, depth)[i] != Positions(ps, depth)[j]
    decreases depth, |ps|
  {
    var n := |ps| - 1;
    var front, last := Positions(ps[..n], depth), Under(ps[n], n, depth);
    if j < |front| {
      PositionsOnce(ps[..n], depth, i, j);
    } else if i < |front| {
      assert front[i][0] < n && last[j - |front|][0] == n;
    } else {
      var rests := Positions(ps[n].children, depth - 1);
      var x, y := i - |front|, j - |front|;
      PositionsOnce(ps[n].children, depth - 1, x, y);
      assert last[x][1..] == rests[x] && last[y][1..] == rests[y];
    }
  }

  // ---------- adding up

  function Total(ps: seq<Piece>, me: nat, future: nat, s: nat, d: nat, paths: seq<seq<nat>>): nat
    requires forall k :: 0 <= k < |paths| ==> paths[k] != []
  {
    if paths == [] then 0
    else Total(ps, me, future, s, d, paths[..|paths| - 1]) + Weight(ps, me, future, s, d, paths[|paths| - 1])
  }

  lemma {:induction false} TotalBoth(ps: seq<Piece>, me: nat, future: nat, s: nat, d: nat, a: seq<seq<nat>>,
                                     b: seq<seq<nat>>)
    requires (forall k :: 0 <= k < |a| ==> a[k] != []) && (forall k :: 0 <= k < |b| ==> b[k] != [])
    ensures Total(ps, me, future, s, d, a + b) == Total(ps, me, future, s, d, a) + Total(ps, me, future, s, d, b)
  {
    if b == [] {
      assert a + b == a;
    } else {
      TotalBoth(ps, me, future, s, d, a, b[..|b| - 1]);
      assert (a + b)[..|a + b| - 1] == a + b[..|b| - 1];
    }
  }

  lemma {:induction false} TotalSame(ps: seq<Piece>, me: nat, qs: seq<Piece>, src: nat, future: nat, s: nat, d: nat,
                                     a: seq<seq<nat>>, b: seq<seq<nat>>)
    requires |a| == |b| && (forall k :: 0 <= k < |a| ==> a[k] != [] && b[k] != [])
    requires forall k :: 0 <= k < |a| ==> Weight(ps, me, future, s, d, a[k]) == Weight(qs, src, future, s, d, b[k])
    ensures Total(ps, me, future, s, d, a) == Total(qs, src, future, s, d, b)
  {
    if a != [] { TotalSame(ps, me, qs, src, future, s, d, a[..|a| - 1], b[..|b| - 1]); }
  }

  // ---------- going down into a tree

  lemma {:induction false} RunsBelow(ps: seq<Piece>, me: nat, i: nat, rest: seq<nat>)
    requires i < |ps|
    ensures RunsOn(ps, me, [i] + rest) == RunsOn(ps[i].children, RunsOn(ps, me, [i]), rest)
    ensures rest != [] ==> At(ps, [i] + rest) == At(ps[i].children, rest)
    decreases |rest|
  {
    if rest == [] {
      assert [i] + rest == [i];
    } else {
      var front := rest[..|rest| - 1];
      RunsBelow(ps, me, i, front);
      assert ([i] + rest)[..|rest|] == [i] + front && ([i] + rest)[1..] == rest;
    }
  }

  lemma WeightBelow(ps: seq<Piece>, me: nat, i: nat, future: nat, s: nat, d: nat, rest: seq<nat>)
    requires i < |ps| && rest != []
    ensures Weight(ps, me, future, s, d, [i] + rest)
         == Weight(ps[i].children, RunsOn(ps, me, [i]), future, s, d, rest)
  {
    hide RunsOn, At;
    var front := rest[..|rest| - 1];
    RunsBelow(ps, me, i, front);
    RunsBelow(ps, me, i, rest);
    assert ([i] + rest)[..|rest|] == [i] + front;
  }

  lemma {:induction false} RunsInFront(ps: seq<Piece>, n: nat, me: nat, path: seq<nat>)
    requires n <= |ps| && (path != [] ==> path[0] < n)
    ensures RunsOn(ps[..n], me, path) == RunsOn(ps, me, path) && At(ps[..n], path) == At(ps, path)
    decreases |path|
  {
    if path != [] { RunsInFront(ps, n, me, path[..|path| - 1]); }
  }

  lemma FrontTotal(ps: seq<Piece>, n: nat, me: nat, future: nat, s: nat, d: nat, paths: seq<seq<nat>>)
    requires n <= |ps| && forall k :: 0 <= k < |paths| ==> paths[k] != [] && paths[k][0] < n
    ensures Total(ps[..n], me, future, s, d, paths) == Total(ps, me, future, s, d, paths)
  {
    hide RunsOn, At;
    forall k | 0 <= k < |paths|
      ensures Weight(ps[..n], me, future, s, d, paths[k]) == Weight(ps, me, future, s, d, paths[k])
    {
      RunsInFront(ps, n, me, paths[k]);
      RunsInFront(ps, n, me, paths[k][..|paths[k]| - 1]);
    }
    TotalSame(ps[..n], me, ps, me, future, s, d, paths, paths);
  }

  lemma RootRuns(ps: seq<Piece>, me: nat, i: nat)
    requires i < |ps|
    ensures RunsOn(ps, me, [i]) == if ps[i].nodeId == 0 then me else ps[i].nodeId
    ensures RunsOn(ps, me, []) == me && At(ps, [i]) == ps[i]
  {}

  // ---------- the counters

  /** Below `level` the trees add nothing. */
  lemma {:induction false} NothingAbove(ps: seq<Piece>, level: nat, src: nat, future: nat, l: nat, s: nat, d: nat)
    requires l < level
    ensures AddsAll(ps, level, src, future, l, s, d) == 0
  {
    if ps != [] {
      NothingAbove(ps[..|ps| - 1], level, src, future, l, s, d);
      NothingAbove(ps[|ps| - 1].children, level + 1, Dest(ps[|ps| - 1], src), future, l, s, d);
    }
  }

  /** The last tree of `ps` adds what its positions at depth l - level weigh. */
  lemma {:induction false} TreeCounts(ps: seq<Piece>, i: nat, n: nat, level: nat, src: nat, future: nat, l: nat, s: nat,
                                      d: nat)
    requires i < |ps| && PieceOk(n, ps[i], level) && level <= l && 1 <= src <= n < DYNAMIC && 1 <= d <= n
    ensures Adds(ps[i], level, src, future, l, s, d) == Total(ps, src, future, s, d, Under(ps[i], i, l - level))
    decreases ps[i], 1
  {
    var p := ps[i];
    if l == level {
      TreeRoot(ps, i, n, level, src, future, s, d);
    } else {
      hide Total, Positions;
      var here := RunsOn(ps, src, [i]);
      RootRuns(ps, src, i);
      if p.children == [] {
        assert Positions(p.children, l - level - 1) == [] by { NoPositions(l - level - 1); }
        NoTotal(p.children, here, future, s, d);
      } else {
        ForestCounts(p.children, n, level + 1, here, future, l, s, d);
      }
      TreeBelow(ps, i, src, future, s, d, l - level);
    }
  }

  lemma NoPositions(depth: nat)
    ensures Positions([], depth) == []
  {}

  lemma NoTotal(ps: seq<Piece>, me: nat, future: nat, s: nat, d: nat)
    ensures Total(ps, me, future, s, d, []) == 0
  {}

  lemma TreeBelow(ps: seq<Piece>, i: nat, me: nat, future: nat, s: nat, d: nat, depth: nat)
    requires i < |ps| && 0 < depth
    ensures Total(ps, me, future, s, d, Under(ps[i], i, depth))
         == Total(ps[i].children, RunsOn(ps, me, [i]), future, s, d, Positions(ps[i].children, depth - 1))
  {
    hide Positions, Total;
    var under, rests := Under(ps[i], i, depth), Positions(ps[i].children, depth - 1);
    var here := RunsOn(ps, me, [i]);
    forall k | 0 <= k < |rests|
      ensures Weight(ps, me, future, s, d, under[k]) == Weight(ps[i].children, here, future, s, d, rests[k])
    {
      WeightBelow(ps, me, i, future, s, d, rests[k]);
    }
    hide Weight, RunsOn;
    TotalSame(ps, me, ps[i].children, here, future, s, d, under, rests);
  }

  lemma TreeRoot(ps: seq<Piece>, i: nat, n: nat, level: nat, src: nat, future: nat, s: nat, d: nat)
    requires i < |ps| && PieceOk(n, ps[i], level) && 1 <= src <= n < DYNAMIC && 1 <= d <= n
    ensures Adds(ps[i], level, src, future, level, s, d) == Total(ps, src, future, s, d, [[i]])
  {
    RootRuns(ps, src, i);
    NothingAbove(ps[i].children, level + 1, Dest(ps[i], src), future, level, s, d);
    assert [[i]][..0] == [] && [i][..0] == [];
    hide RunsOn, At, AddsAll;
  }

  lemma {:induction false} ForestCounts(ps: seq<Piece>, n: nat, level: nat, src: nat, future: nat, l: nat, s: nat,
                                        d: nat)
    requires (forall i :: 0 <= i < |ps| ==> PieceOk(n, ps[i], level)) && level <= l
    requires 1 <= src <= n < DYNAMIC && 1 <= d <= n
    ensures AddsAll(ps, level, src, future, l, s, d) == Total(ps, src, future, s, d, Positions(ps, l - level))
    decreases ps, 0
  {
    if ps != [] {
      var k := |ps| - 1;
      ForestCounts(ps[..k], n, level, src, future, l, s, d);
      TreeCounts(ps, k, n, level, src, future, l, s, d);
      hide Adds, Total, Under;
      var front, last := Positions(ps[..k], l - level), Under(ps[k], k, l - level);
      FrontTotal(ps, k, src, future, s, d, front);
      TotalBoth(ps, src, future, s, d, front, last);
    }
  }

  // ---------- the pieces of a transaction

  /** The node that computes the future values of a root piece and all pieces below it. */
  function FutureSource(ps: seq<Piece>, me: nat, root: nat): nat
    requires root < |ps|
  {
    if ps[root].futureSource != 0 then ps[root].futureSource else me
  }

  /** What the positions add to the counter of items from `s` to `d`. */
  function Counted(ps: seq<Piece>, me: nat, s: nat, d: nat, paths: seq<seq<nat>>): nat
    requires forall k :: 0 <= k < |paths| ==> paths[k] != [] && paths[k][0] < |ps|
  {
    if paths == [] then 0
    else
      var path := paths[|paths| - 1];
      Counted(ps, me, s, d, paths[..|paths| - 1]) + Weight(ps, me, FutureSource(ps, me, path[0]), s, d, path)
  }

  lemma {:induction false} CountedUnder(ps: seq<Piece>, me: nat, s: nat, d: nat, i: nat, paths: seq<seq<nat>>,
                                        more: seq<seq<nat>>)
    requires i < |ps| && forall k :: 0 <= k < |paths| ==> paths[k] != [] && paths[k][0] < |ps|
    requires forall k :: 0 <= k < |more| ==> more[k] != [] && more[k][0] == i
    ensures Counted(ps, me, s, d, paths + more)
         == Counted(ps, me, s, d, paths) + Total(ps, me, FutureSource(ps, me, i), s, d, more)
  {
    hide Weight;
    if more == [] {
      assert paths + more == paths;
    } else {
      CountedUnder(ps, me, s, d, i, paths, more[..|more| - 1]);
      assert (paths + more)[..|paths + more| - 1] == paths + more[..|more| - 1];
    }
  }

  lemma {:induction false} CountedFront(ps: seq<Piece>, n: nat, me: nat, s: nat, d: nat, paths: seq<seq<nat>>)
    requires n <= |ps| && forall k :: 0 <= k < |paths| ==> paths[k] != [] && paths[k][0] < n
    ensures Counted(ps[..n], me, s, d, paths) == Counted(ps, me, s, d, paths)
  {
    hide RunsOn, At;
    if paths != [] {
      CountedFront(ps, n, me, s, d, paths[..|paths| - 1]);
      var path := paths[|paths| - 1];
      RunsInFront(ps, n, me, path);
      RunsInFront(ps, n, me, path[..|path| - 1]);
    }
  }

  /** Counter (l, s, d) grows by one for each position of depth `l` whose piece runs on `d`, or on any
      node, below a piece that runs on `s`, and by its future values if they come from `s`. */
  lemma {:induction false} PlanCountsPositions(ps: seq<Piece>, n: nat, me: nat, l: nat, s: nat, d: nat)
    requires RootsOk(n, ps) && 1 <= me <= n < DYNAMIC && 1 <= d <= n
    ensures RootAdds(ps, me, l, s, d) == Counted(ps, me, s, d, Positions(ps, l))
  {
    hide PieceOk, Adds, Total, Under, Counted;
    if ps == [] {
      NothingCounted(me, s, d);
    } else {
      var k := |ps| - 1;
      PlanCountsPositions(ps[..k], n, me, l, s, d);
      assert PieceOk(n, ps[k], 0);
      TreeCounts(ps, k, n, 0, me, FutureSource(ps, me, k), l, s, d);
      CountedFront(ps, k, me, s, d, Positions(ps[..k], l));
      CountedUnder(ps, me, s, d, k, Positions(ps[..k], l), Under(ps[k], k, l));
    }
  }

  lemma NothingCounted(me: nat, s: nat, d: nat)
    ensures Counted([], me, s, d, []) == 0
  {}

  /** What CollectBufferPlan leaves, counter by counter. */
  lemma CollectedPositions(was: seq<nat>, now: seq<nat>, n: nat, ps: seq<Piece>, me: nat, l: nat, s: nat, d: nat)
    requires Grown(was, now, n, (l, s, d) => RootAdds(ps, me, l, s, d), d => ItemsToAll(ps, me, d))
    requires RootsOk(n, ps) && 1 <= me <= n < DYNAMIC && l < LEVELS && 1 <= s <= n && 1 <= d <= n
    ensures Index(n, l, s, d) < |now| == |was|
    ensures now[Index(n, l, s, d)] == was[Index(n, l, s, d)] + Counted(ps, me, s, d, Positions(ps, l))
  {
    PlanCountsPositions(ps, n, me, l, s, d);
    hide Index, RootAdds, Counted, Positions, PlanFor, RootsOk;
  }
}
