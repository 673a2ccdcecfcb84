/** The bin packing of contention_manager.cc: a subset-sum dynamic program with traceback, run once
    for every core but the last, which takes what is left. */
module BinPacking {

  /** The weight of the picked rows among the first `n`. */
  function PickSum(w: seq<nat>, pick: seq<bool>, n: nat): (r: nat)
    requires n <= |w| == |pick|
  {
    if n == 0 then 0 else PickSum(w, pick, n - 1) + if pick[n - 1] then w[n - 1] else 0
  }

  /** Picking only rows that are still in the knapsack. */
  predicate Allowed(pick: seq<bool>, present: seq<bool>) {
    |pick| == |present| && forall i :: 0 <= i < |pick| && pick[i] ==> present[i]
  }

  /** The entry of the table after `n` rows for capacity `cap`. */
  function Best(w: seq<nat>, present: seq<bool>, n: nat, cap: nat): nat
    requires n <= |w| == |present|
    decreases n, 1
  {
    if n == 0 then 0
    else if Takes(w, present, n, cap) then Best(w, present, n - 1, cap - w[n - 1]) + w[n - 1]
    else Best(w, present, n - 1, cap)
  }

  /** The trace bit of row `n - 1` for capacity `cap`. */
  predicate Takes(w: seq<nat>, present: seq<bool>, n: nat, cap: nat)
    requires 0 < n <= |w| == |present|
    decreases n, 0
  {
    present[n - 1] && w[n - 1] <= cap
      && Best(w, present, n - 1, cap - w[n - 1]) + w[n - 1] > Best(w, present, n - 1, cap)
  }

  /** No allowed pick within the capacity weighs more than the table entry. */
  lemma {:induction false} BestIsUpperBound(w: seq<nat>, present: seq<bool>, pick: seq<bool>, n: nat, cap: nat)
    requires n <= |w| == |present| && Allowed(pick, present) && PickSum(w, pick, n) <= cap
    ensures PickSum(w, pick, n) <= Best(w, present, n, cap)
  {
    if n > 0 {
      BestIsUpperBound(w, present, pick, n - 1, if pick[n - 1] then cap - w[n - 1] else cap);
    }
  }

  /** Weights of disjoint picks add up. */
  lemma {:induction false} PickSumUnion(w: seq<nat>, p: seq<bool>, q: seq<bool>, both: seq<bool>, n: nat)
    requires n <= |w| == |p| == |q| == |both|
    requires forall i :: 0 <= i < n ==> !(p[i] && q[i]) && both[i] == (p[i] || q[i])
    ensures PickSum(w, both, n) == PickSum(w, p, n) + PickSum(w, q, n)
  {
    if n > 0 { PickSumUnion(w, p, q, both, n - 1); }
  }

  /** The weight picked at or after position `n`. */
  function PickFrom(w: seq<nat>, pick: seq<bool>, n: nat): int
    requires n <= |w| == |pick|
  {
    PickSum(w, pick, |w|) - PickSum(w, pick, n)
  }

  lemma {:induction false} PickFromSame(w: seq<nat>, p: seq<bool>, q: seq<bool>, n: nat)
    requires n <= |w| == |p| == |q| && forall i :: n <= i < |w| ==> p[i] == q[i]
    ensures PickFrom(w, p, n) == PickFrom(w, q, n)
    decreases |w| - n
  {
    if n < |w| { PickFromSame(w, p, q, n + 1); }
  }

  /** The row in progress: the inner loop over capacities. */
  method FillRow(pf: array<nat>, f: array<nat>, wi: nat, ghost w: seq<nat>, ghost present: seq<bool>, ghost n: nat)
    returns (taken: seq<bool>)
    requires pf != f && pf.Length == f.Length
    requires 0 < n <= |w| == |present| && present[n - 1] && w[n - 1] == wi
    requires forall c :: 0 <= c < pf.Length ==> pf[c] == Best(w, present, n - 1, c)
    modifies f
    ensures |taken| == f.Length
    ensures forall c :: 0 <= c < f.Length ==> f[c] == Best(w, present, n, c) && taken[c] == Takes(w, present, n, c)
  {
    taken := [];
    var c := 0;
    while c < f.Length
      invariant 0 <= c <= f.Length && |taken| == c
      invariant forall d :: 0 <= d < pf.Length ==> pf[d] == Best(w, present, n - 1, d)
      invariant forall d :: 0 <= d < c ==> f[d] == Best(w, present, n, d) && taken[d] == Takes(w, present, n, d)
    {
      f[c] := pf[c];
      var bit := false;
      if c >= wi && pf[c - wi] + wi > f[c] {
        f[c] := pf[c - wi] + wi;
        bit := true;
      }
      taken := taken + [bit];
      c := c + 1;
    }
  }

  predicate TraceOk(w: seq<nat>, present: seq<bool>, trace: seq<seq<bool>>, limit: nat) {
    && |trace| <= |w| == |present|
    && (forall i :: 0 <= i < |trace| && present[i] ==> |trace[i]| == limit)
    && (forall i, c :: 0 <= i < |trace| && present[i] && 0 <= c < limit ==> trace[i][c] == Takes(w, present, i + 1, c))
  }

  /** The rows of the table, two arrays swapped after each. */
  method FillTable(w: seq<nat>, present: array<bool>, limit: nat) returns (maxcap: nat, trace: seq<seq<bool>>)
    requires |w| == present.Length && 0 < limit
    ensures |trace| == |w| && TraceOk(w, present[..], trace, limit)
    ensures maxcap == Best(w, present[..], |w|, limit - 1)
  {
    var f := new nat[limit](_ => 0);
    var pf := new nat[limit](_ => 0);
    trace := [];
    var i := 0;
    ghost var here := present[..];
    while i < |w|
      invariant 0 <= i <= |w| && |trace| == i && present[..] == here
      invariant f != pf && f.Length == pf.Length == limit && fresh(f) && fresh(pf)
      invariant forall c :: 0 <= c < limit ==> pf[c] == Best(w, here, i, c)
      invariant TraceOk(w, here, trace, limit)
    {
      var taken := [];
      if present[i] {
        taken := FillRow(pf, f, w[i], w, here, i + 1);
        pf, f := f, pf;
      }
      trace := trace + [taken];
      i := i + 1;
    }
    maxcap := pf[limit - 1];
  }

  /** The pick that removed rows from the knapsack. */
  function Removed(before: seq<bool>, after: seq<bool>): (r: seq<bool>)
    requires |before| == |after|
    ensures |r| == |before|
  {
    seq(|before|, i requires 0 <= i < |before| => before[i] && !after[i])
  }

  /** Rows taken out carry the label, all others are as they were. */
  predicate Relabelled(before: seq<bool>, after: seq<bool>, oldLabels: seq<int>, labels: seq<int>, core: int) {
    && |before| == |after| == |oldLabels| == |labels|
    && forall i :: 0 <= i < |before| ==>
         && (after[i] ==> before[i])
         && labels[i] == if before[i] && !after[i] then core else oldLabels[i]
  }

  /** The traceback: walk the rows from the last, spend the capacity on those with the trace bit. */
  method Traceback(w: seq<nat>, present: array<bool>, affinity: array<int>, core: int, limit: nat,
                   trace: seq<seq<bool>>)
    requires |w| == present.Length == affinity.Length && 0 < limit
    requires |trace| == |w| && TraceOk(w, present[..], trace, limit)
    modifies present, affinity
    ensures Relabelled(old(present[..]), present[..], old(affinity[..]), affinity[..], core)
    ensures PickSum(w, Removed(old(present[..]), present[..]), |w|) == Best(w, old(present[..]), |w|, limit - 1)
    ensures PickSum(w, Removed(old(present[..]), present[..]), |w|) <= limit - 1
  {
    ghost var before := present[..];
    ghost var oldLabels := affinity[..];
    var cap := limit - 1;
    var i := |w|;
    while i > 0
      invariant 0 <= i <= |w| && 0 <= cap < limit
      invariant Relabelled(before, present[..], oldLabels, affinity[..], core)
      invariant forall k :: 0 <= k < i ==> present[k] == before[k]
      invariant Best(w, before, i, cap) + PickFrom(w, Removed(before, present[..]), i)
                == Best(w, before, |w|, limit - 1)
      invariant cap + PickFrom(w, Removed(before, present[..]), i) == limit - 1
    {
      ghost var was := Removed(before, present[..]);
      i := i - 1;
      if present[i] {
        assert trace[i][cap] == Takes(w, before, i + 1, cap);
        if trace[i][cap] {
          cap := cap - w[i];
          affinity[i] := core;
          present[i] := false;
        }
      }
      PickFromSame(w, was, Removed(before, present[..]), i + 1);
    }
  }

  /** BinPack: the rows taken out weigh the most that fits in limit - 1. */
  method BinPack(w: seq<nat>, present: array<bool>, affinity: array<int>, core: int, limit: nat) returns (maxcap: nat)
    requires |w| == present.Length == affinity.Length
    modifies present, affinity
    ensures Relabelled(old(present[..]), present[..], old(affinity[..]), affinity[..], core)
    ensures maxcap == PickSum(w, Removed(old(present[..]), present[..]), |w|)
    ensures limit == 0 ==> present[..] == old(present[..]) && maxcap == 0
    ensures limit > 0 ==> maxcap <= limit - 1
    ensures limit > 0 ==> forall pick ::
                           Allowed(pick, old(present[..])) && PickSum(w, pick, |w|) <= limit - 1 ==>
                             PickSum(w, pick, |w|) <= maxcap
  {
    ghost var before := present[..];
    if limit == 0 {
      NothingPicked(w, Removed(before, present[..]), |w|);
      return 0;
    }
    var trace;
    maxcap, trace := FillTable(w, present, limit);
    forall pick | Allowed(pick, before) && PickSum(w, pick, |w|) <= limit - 1 ensures PickSum(w, pick, |w|) <= maxcap {
      BestIsUpperBound(w, before, pick, |w|, limit - 1);
    }
    Traceback(w, present, affinity, core, limit, trace);
  }

  lemma {:induction false} NothingPicked(w: seq<nat>, pick: seq<bool>, n: nat)
    requires n <= |w| == |pick| && forall i :: 0 <= i < n ==> !pick[i]
    ensures PickSum(w, pick, n) == 0
  {
    if n > 0 { NothingPicked(w, pick, n - 1); }
  }

  /** PackLeftOver: every row still in the knapsack gets the label. */
  method PackLeftOver(present: array<bool>, affinity: array<int>, core: int)
    requires present.Length == affinity.Length
    modifies affinity
    ensures forall i :: 0 <= i < affinity.Length ==> affinity[i] == if present[i] then core else old(affinity[i])
  {
    var i := 0;
    while i < affinity.Length
      invariant 0 <= i <= affinity.Length
      invariant forall k :: 0 <= k < i ==> affinity[k] == if present[k] then core else old(affinity[k])
      invariant forall k :: i <= k < affinity.Length ==> affinity[k] == old(affinity[k])
    {
      if present[i] { affinity[i] := core; }
      i := i + 1;
    }
  }

  // ---------- the loop over cores

  /** Rows already out of the knapsack with a label below `c`. */
  function Placed(present: seq<bool>, labels: seq<int>, c: int): (r: seq<bool>)
    requires |present| == |labels|
    ensures |r| == |labels|
  {
    seq(|labels|, i requires 0 <= i < |labels| => !present[i] && 0 <= labels[i] < c)
  }

  function Labelled(labels: seq<int>, c: int): (r: seq<bool>)
    ensures |r| == |labels|
  {
    seq(|labels|, i requires 0 <= i < |labels| => labels[i] == c)
  }

  /** The load bin packing gives core `c`. */
  function CoreLoad(w: seq<nat>, labels: seq<int>, c: int): nat
    requires |w| == |labels|
  {
    PickSum(w, Labelled(labels, c), |w|)
  }

  /** The load on cores 0..c-1. */
  function LoadBelow(w: seq<nat>, labels: seq<int>, c: nat): nat
    requires |w| == |labels|
  {
    if c == 0 then 0 else LoadBelow(w, labels, c - 1) + CoreLoad(w, labels, c - 1)
  }

  /** A row is out of the knapsack exactly when it has the label of a core already packed. */
  predicate Packing(present: seq<bool>, labels: seq<int>, c: nat) {
    |present| == |labels| && forall i :: 0 <= i < |present| && !present[i] ==> 0 <= labels[i] < c
  }

  lemma PackedOne(w: seq<nat>, before: seq<bool>, after: seq<bool>, oldLabels: seq<int>, labels: seq<int>, c: nat)
    requires |w| == |before| && Packing(before, oldLabels, c) && Relabelled(before, after, oldLabels, labels, c)
    ensures Packing(after, labels, c + 1)
    ensures PickSum(w, Placed(after, labels, c + 1), |w|)
         == PickSum(w, Placed(before, oldLabels, c), |w|) + PickSum(w, Removed(before, after), |w|)
  {
    PickSumUnion(w, Placed(before, oldLabels, c), Removed(before, after), Placed(after, labels, c + 1), |w|);
  }

  lemma {:induction false} BelowIsPlaced(w: seq<nat>, labels: seq<int>, c: nat)
    requires |w| == |labels|
    ensures LoadBelow(w, labels, c) == PickSum(w, Placed(seq(|w|, _ => false), labels, c), |w|)
  {
    var gone := seq(|w|, _ => false);
    if c == 0 {
      NothingPicked(w, Placed(gone, labels, 0), |w|);
    } else {
      BelowIsPlaced(w, labels, c - 1);
      PickSumUnion(w, Placed(gone, labels, c - 1), Labelled(labels, c - 1), Placed(gone, labels, c), |w|);
    }
  }

  /** Rows that core `c` could choose from: in the knapsack, or taken by `c` or later. */
  function Free(present: seq<bool>, labels: seq<int>, c: int): (r: seq<bool>)
    requires |present| == |labels|
    ensures |r| == |labels|
  {
    seq(|labels|, i requires 0 <= i < |labels| => present[i] || labels[i] >= c)
  }

  /** No pick of free rows that fits in `cap` weighs more than `got`. */
  ghost predicate MostThatFits(w: seq<nat>, free: seq<bool>, cap: int, got: int)
    requires |w| == |free|
  {
    forall pick :: Allowed(pick, free) && PickSum(w, pick, |w|) <= cap ==> PickSum(w, pick, |w|) <= got
  }

  /** What is carried into core `c`. */
  function Carry(deltas: seq<nat>, c: nat): nat
    requires c <= |deltas|
  {
    if c == 0 then 0 else deltas[c - 1]
  }

  /** Load so far and carry make up the limits of the first `c` cores. */
  predicate Accounted(w: seq<nat>, placed: seq<bool>, carry: nat, hard: nat, c: nat) {
    |w| == |placed| && PickSum(w, placed, |w|) + carry == c * hard
  }

  /** Cores 0..|deltas|-1 are packed: load so far and carry make up their limits, and each core
      took the most that fits in the limit plus its carry. */
  ghost predicate Packed(w: seq<nat>, present: seq<bool>, labels: seq<int>, hard: nat, deltas: seq<nat>) {
    && |w| == |present| == |labels| && Packing(present, labels, |deltas|)
    && (forall c: nat :: c <= |deltas| ==> AccountedAt(w, present, labels, hard, deltas, c))
    && (forall c: nat :: c < |deltas| ==> Chose(w, present, labels, hard, deltas, c))
  }

  predicate AccountedAt(w: seq<nat>, present: seq<bool>, labels: seq<int>, hard: nat, deltas: seq<nat>, c: nat)
    requires |w| == |present| == |labels| && c <= |deltas|
  {
    Accounted(w, Placed(present, labels, c), Carry(deltas, c), hard, c)
  }

  ghost predicate Chose(w: seq<nat>, present: seq<bool>, labels: seq<int>, hard: nat, deltas: seq<nat>, c: nat)
    requires |w| == |present| == |labels| && c < |deltas|
  {
    MostThatFits(w, Free(present, labels, c), hard + Carry(deltas, c), hard + Carry(deltas, c) - deltas[c])
  }

  lemma PackedStarts(w: seq<nat>, present: seq<bool>, labels: seq<int>, hard: nat)
    requires |w| == |present| == |labels| && forall i :: 0 <= i < |present| ==> present[i]
    ensures Packed(w, present, labels, hard, [])
  {
    NothingPicked(w, Placed(present, labels, 0), |w|);
  }

  lemma PackedStep(w: seq<nat>, before: seq<bool>, oldLabels: seq<int>, hard: nat, deltas: seq<nat>, after: seq<bool>,
                   labels: seq<int>, delta: nat)
    requires Packed(w, before, oldLabels, hard, deltas) && Relabelled(before, after, oldLabels, labels, |deltas|)
    requires PickSum(w, Removed(before, after), |w|) + delta == hard + Carry(deltas, |deltas|)
    requires MostThatFits(w, before, hard + Carry(deltas, |deltas|), PickSum(w, Removed(before, after), |w|))
    ensures Packed(w, after, labels, hard, deltas + [delta])
  {
    hide PickSum, MostThatFits, AccountedAt, Chose, Removed;
    var n := |deltas|;
    PackedOne(w, before, after, oldLabels, labels, n);
    forall c: nat | c <= n + 1 ensures AccountedAt(w, after, labels, hard, deltas + [delta], c) {
      if c <= n {
        AccountedSame(w, before, oldLabels, hard, deltas, after, labels, delta, c);
      } else {
        AccountedNew(w, before, oldLabels, hard, deltas, after, labels, delta);
      }
    }
    forall c: nat | c <= n ensures Chose(w, after, labels, hard, deltas + [delta], c) {
      ChoseStep(w, before, oldLabels, hard, deltas, after, labels, delta, c);
    }
  }

  lemma AccountedSame(w: seq<nat>, before: seq<bool>, oldLabels: seq<int>, hard: nat, deltas: seq<nat>,
                      after: seq<bool>, labels: seq<int>, delta: nat, c: nat)
    requires |w| == |before| && Packing(before, oldLabels, |deltas|)
             && Relabelled(before, after, oldLabels, labels, |deltas|)
    requires c <= |deltas| && AccountedAt(w, before, oldLabels, hard, deltas, c)
    ensures AccountedAt(w, after, labels, hard, deltas + [delta], c)
  {
    hide Accounted;
    PlacedSame(before, after, oldLabels, labels, |deltas|, c);
  }

  lemma AccountedNew(w: seq<nat>, before: seq<bool>, oldLabels: seq<int>, hard: nat, deltas: seq<nat>,
                     after: seq<bool>, labels: seq<int>, delta: nat)
    requires |w| == |before| && Packing(before, oldLabels, |deltas|)
             && Relabelled(before, after, oldLabels, labels, |deltas|)
    requires AccountedAt(w, before, oldLabels, hard, deltas, |deltas|)
    requires PickSum(w, Removed(before, after), |w|) + delta == hard + Carry(deltas, |deltas|)
    ensures AccountedAt(w, after, labels, hard, deltas + [delta], |deltas| + 1)
  {
    hide Accounted, PickSum, Removed;
    var n := |deltas|;
    PackedOne(w, before, after, oldLabels, labels, n);
    AccountedStep(w, Placed(before, oldLabels, n), Carry(deltas, n), hard, n, Placed(after, labels, n + 1), delta);
  }

  lemma PlacedSame(before: seq<bool>, after: seq<bool>, oldLabels: seq<int>, labels: seq<int>, n: nat, c: nat)
    requires Packing(before, oldLabels, n) && Relabelled(before, after, oldLabels, labels, n) && c <= n
    ensures Placed(after, labels, c) == Placed(before, oldLabels, c)
  {}

  lemma AccountedStep(w: seq<nat>, placed: seq<bool>, carry: nat, hard: nat, n: nat, placed': seq<bool>, carry': nat)
    requires Accounted(w, placed, carry, hard, n) && |placed'| == |w|
    requires PickSum(w, placed', |w|) - PickSum(w, placed, |w|) + carry' == hard + carry
    ensures Accounted(w, placed', carry', hard, n + 1)
  {
    hide PickSum;
    assert (n + 1) * hard == n * hard + hard;
  }

  lemma ChoseStep(w: seq<nat>, before: seq<bool>, oldLabels: seq<int>, hard: nat, deltas: seq<nat>, after: seq<bool>,
                  labels: seq<int>, delta: nat, c: nat)
    requires |w| == |before| && Packing(before, oldLabels, |deltas|)
             && Relabelled(before, after, oldLabels, labels, |deltas|)
    requires c <= |deltas| && (c < |deltas| ==> Chose(w, before, oldLabels, hard, deltas, c))
    requires MostThatFits(w, before, hard + Carry(deltas, |deltas|), hard + Carry(deltas, |deltas|) - delta)
    ensures Chose(w, after, labels, hard, deltas + [delta], c)
  {
    hide MostThatFits;
    if c < |deltas| {
      assert Free(after, labels, c) == Free(before, oldLabels, c);
    } else {
      assert Free(after, labels, c) == before;
    }
  }

  /** What the whole loop achieves. */
  ghost predicate Spread(w: seq<nat>, labels: seq<int>, threads: nat, hard: nat, deltas: seq<nat>) {
    && |w| == |labels| && |deltas| + 1 == threads
    && (forall i :: 0 <= i < |labels| ==> 0 <= labels[i] < threads)
    && (forall c :: 0 <= c < threads - 1 ==> LoadBelow(w, labels, c + 1) + deltas[c] == (c + 1) * hard)
    && (forall c ::
         0 <= c < threads - 1 ==>
           MostThatFits(w, Free(seq(|w|, _ => false), labels, c), hard + Carry(deltas, c), CoreLoad(w, labels, c)))
    && LoadBelow(w, labels, threads) == PickSum(w, seq(|w|, _ => true), |w|)
  }

  lemma LeftOverSpreads(w: seq<nat>, present: seq<bool>, oldLabels: seq<int>, hard: nat, deltas: seq<nat>,
                        labels: seq<int>)
    requires Packed(w, present, oldLabels, hard, deltas) && |labels| == |w|
    requires forall i :: 0 <= i < |labels| ==> labels[i] == if present[i] then |deltas| else oldLabels[i]
    ensures Spread(w, labels, |deltas| + 1, hard, deltas)
  {
    hide PickSum, MostThatFits, AccountedAt, Chose, LoadBelow, CoreLoad;
    var n := |deltas|;
    var gone := seq(|w|, _ => false);
    forall c: nat | c < n
      ensures LoadBelow(w, labels, c + 1) + deltas[c] == (c + 1) * hard
      ensures MostThatFits(w, Free(gone, labels, c), hard + Carry(deltas, c), CoreLoad(w, labels, c))
    {
      assert AccountedAt(w, present, oldLabels, hard, deltas, c)
        && AccountedAt(w, present, oldLabels, hard, deltas, c + 1);
      LeftOverAt(w, present, oldLabels, hard, deltas, labels, c);
    }
    assert Placed(gone, labels, n + 1) == seq(|w|, _ => true);
    BelowIsPlaced(w, labels, n + 1);
  }

  lemma LeftOverAt(w: seq<nat>, present: seq<bool>, oldLabels: seq<int>, hard: nat, deltas: seq<nat>,
                   labels: seq<int>, c: nat)
    requires |w| == |present| == |oldLabels| == |labels| && Packing(present, oldLabels, |deltas|) && c < |deltas|
    requires forall i :: 0 <= i < |labels| ==> labels[i] == if present[i] then |deltas| else oldLabels[i]
    requires AccountedAt(w, present, oldLabels, hard, deltas, c)
             && AccountedAt(w, present, oldLabels, hard, deltas, c + 1)
    requires Chose(w, present, oldLabels, hard, deltas, c)
    ensures LoadBelow(w, labels, c + 1) + deltas[c] == (c + 1) * hard
    ensures MostThatFits(w, Free(seq(|w|, _ => false), labels, c), hard + Carry(deltas, c), CoreLoad(w, labels, c))
  {
    hide PickSum, MostThatFits, CoreLoad;
    var gone := seq(|w|, _ => false);
    assert Placed(gone, labels, c) == Placed(present, oldLabels, c);
    assert Placed(gone, labels, c + 1) == Placed(present, oldLabels, c + 1);
    BelowIsPlaced(w, labels, c);
    BelowIsPlaced(w, labels, c + 1);
    assert Free(gone, labels, c) == Free(present, oldLabels, c);
    assert (c + 1) * hard == c * hard + hard;
    assert LoadBelow(w, labels, c + 1) == LoadBelow(w, labels, c) + CoreLoad(w, labels, c);
  }

  /** The packing loop of Reset over all rows, for the limit sum / threads. */
  method PackCores(w: seq<nat>, affinity: array<int>, threads: nat, sum: nat) returns (ghost deltas: seq<nat>)
    requires |w| == affinity.Length && threads > 0 && sum == PickSum(w, seq(|w|, _ => true), |w|)
    modifies affinity
    ensures Spread(w, affinity[..], threads, sum / threads, deltas)
  {
    hide Packed, Spread, PickSum, Relabelled;
    var present := new bool[|w|](_ => true);
    var hard := sum / threads;
    var delta := 0;
    deltas := [];
    PackedStarts(w, present[..], affinity[..], hard);
    var core := 0;
    while core < threads - 1
      invariant 0 <= core == |deltas| <= threads - 1 && fresh(present) && present.Length == |w|
      invariant delta == Carry(deltas, |deltas|)
      invariant Packed(w, present[..], affinity[..], hard, deltas)
    {
      ghost var before, oldLabels := present[..], affinity[..];
      var got := BinPack(w, present, affinity, core, hard + 1 + delta);
      delta := hard + delta - got;
      PackedStep(w, before, oldLabels, hard, deltas, present[..], affinity[..], delta);
      deltas := deltas + [delta];
      core := core + 1;
    }
    ghost var oldLabels := affinity[..];
    PackLeftOver(present, affinity, threads - 1);
    LeftOverSpreads(w, present[..], oldLabels, hard, deltas, affinity[..]);
  }
}
