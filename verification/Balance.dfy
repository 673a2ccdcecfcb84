/** The load balancer of locality_manager.cc: cores above the average hand the excess to cores
    below it, and each keeps a cumulative table of where its work goes. */
module Balance {
  import opened Sums

  const PREALLOC: nat := 1024 // LocalityManager::kPrealloc

  /** `dist` is cumulative: entry `e` sends dist[e] - dist[e - 1] units to `cores[e]`. */
  datatype Table = Table(dist: seq<int>, cores: seq<nat>)

  /** How many units the first `n` entries of the table send to core `i`. */
  function ShareUpTo(t: Table, n: nat, i: nat): int
    requires n <= |t.dist| == |t.cores|
  {
    if n == 0 then 0
    else ShareUpTo(t, n - 1, i) + if t.cores[n - 1] == i then t.dist[n - 1] - (if n == 1 then 0 else t.dist[n - 2])
      else 0
  }

  function Share(t: Table, i: nat): int
    requires |t.dist| == |t.cores|
  {
    ShareUpTo(t, |t.dist|, i)
  }

  function FullSeq(load: seq<int>, limit: int): (r: seq<int>)
    ensures |r| == |load|
  {
    seq(|load|, i requires 0 <= i < |load| => if load[i] >= limit then 1 else 0)
  }

  /** The number of cores at or above the limit. */
  function Full(load: seq<int>, limit: int): int {
    Sum(FullSeq(load, limit))
  }

  lemma FullStep(load: seq<int>, limit: int, i: nat, x: int)
    requires i < |load|
    ensures Full(load[i := x], limit)
            == Full(load, limit) - (if load[i] >= limit then 1 else 0) + (if x >= limit then 1 else 0)
  {
    SumChange(FullSeq(load, limit), FullSeq(load[i := x], limit), i);
  }

  lemma FullBounds(load: seq<int>, limit: int)
    ensures 0 <= Full(load, limit) <= |load|
  {
    var fs := FullSeq(load, limit);
    var ones := seq(|fs|, i => 1);
    SumNonNegative(fs);
    SumMonotone(fs, ones);
    SumConstant(ones, 1);
  }

  lemma {:induction false} ShareExtend(t: Table, t': Table, n: nat, i: nat)
    requires n <= |t.dist| == |t.cores| && n <= |t'.dist| == |t'.cores|
    requires t.dist[..n] == t'.dist[..n] && t.cores[..n] == t'.cores[..n]
    ensures ShareUpTo(t, n, i) == ShareUpTo(t', n, i)
  {
    if n > 0 {
      assert t.dist[..n - 1] == t.dist[..n][..n - 1] && t'.dist[..n - 1] == t'.dist[..n][..n - 1];
      assert t.cores[..n - 1] == t.cores[..n][..n - 1] && t'.cores[..n - 1] == t'.cores[..n][..n - 1];
      assert t.dist[..n][n - 1] == t'.dist[..n][n - 1] && t.cores[..n][n - 1] == t'.cores[..n][n - 1];
      assert n > 1 ==> t.dist[..n][n - 2] == t'.dist[..n][n - 2];
      ShareExtend(t, t', n - 1, i);
    }
  }

  lemma ShareAppend(t: Table, core: nat, upTo: int, i: nat)
    requires |t.dist| == |t.cores| > 0
    ensures Share(Table(t.dist + [upTo], t.cores + [core]), i) ==
              Share(t, i) + if core == i then upTo - t.dist[|t.dist| - 1] else 0
  {
    var t' := Table(t.dist + [upTo], t.cores + [core]);
    ShareExtend(t, t', |t.dist|, i);
  }

  /** The cores to walk when offloading `core`: those below the limit, same NUMA node first. */
  ghost predicate IsWalk(walk: seq<nat>, load: seq<int>, core: nat, limit: int) {
    && (forall i, j :: 0 <= i < j < |walk| ==> walk[i] != walk[j])
    && (forall k :: 0 <= k < |walk| ==> walk[k] < |load| && walk[k] != core && load[walk[k]] < limit)
    && (forall i :: 0 <= i < |load| && i != core && load[i] < limit ==> i in walk)
  }

  predicate NearWalk(walk: seq<nat>, core: nat) {
    forall i, j :: 0 <= i < j < |walk| && walk[j] / 8 == core / 8 ==> walk[i] / 8 == core / 8
  }

  /** The first loop of OffloadCore: candidates on the same NUMA node of 8 cores. */
  method NearCores(load: seq<int>, core: nat, limit: int) returns (walk: seq<nat>)
    requires core < |load|
    ensures forall i, j :: 0 <= i < j < |walk| ==> walk[i] != walk[j]
    ensures forall k ::
             0 <= k < |walk| ==> walk[k] < |load| && walk[k] / 8 == core / 8 && walk[k] != core && load[walk[k]] < limit
    ensures forall x :: 0 <= x < |load| && x / 8 == core / 8 && x != core && load[x] < limit ==> x in walk
  {
    var first := core / 8 * 8;
    var i := first;
    walk := [];
    while i < first + 8 && i < |load|
      invariant first <= i <= first + 8
      invariant forall k, l :: 0 <= k < l < |walk| ==> walk[k] != walk[l]
      invariant forall k ::
                 0 <= k < |walk| ==>
                   first <= walk[k] < i && walk[k] < |load| && walk[k] != core && load[walk[k]] < limit
      invariant forall x :: first <= x < i && x < |load| && x != core && load[x] < limit ==> x in walk
    {
      if i != core && load[i] < limit { walk := walk + [i]; }
      i := i + 1;
    }
  }

  /** The second loop of OffloadCore: candidates on the other NUMA nodes. */
  method FarCores(load: seq<int>, core: nat, limit: int) returns (walk: seq<nat>)
    requires core < |load|
    ensures forall i, j :: 0 <= i < j < |walk| ==> walk[i] != walk[j]
    ensures forall k :: 0 <= k < |walk| ==> walk[k] < |load| && walk[k] / 8 != core / 8 && load[walk[k]] < limit
    ensures forall x :: 0 <= x < |load| && x / 8 != core / 8 && load[x] < limit ==> x in walk
  {
    walk := [];
    var i := 0;
    while i < |load|
      invariant 0 <= i <= |load|
      invariant forall k, l :: 0 <= k < l < |walk| ==> walk[k] != walk[l]
      invariant forall k :: 0 <= k < |walk| ==> walk[k] < i && walk[k] / 8 != core / 8 && load[walk[k]] < limit
      invariant forall x :: 0 <= x < i && x / 8 != core / 8 && load[x] < limit ==> x in walk
    {
      if i / 8 != core / 8 && load[i] < limit { walk := walk + [i]; }
      i := i + 1;
    }
  }

  method BuildWalk(load: seq<int>, core: nat, limit: int) returns (walk: seq<nat>)
    requires core < |load|
    ensures IsWalk(walk, load, core, limit)
    ensures NearWalk(walk, core)
  {
    var near := NearCores(load, core, limit);
    var far := FarCores(load, core, limit);
    walk := near + far;
    forall x | 0 <= x < |load| && x != core && load[x] < limit ensures x in walk {
      assert x in near || x in far;
    }
  }

  /** What offloading `core` achieves: what it could place went to cores below the limit, none
      of which went above it; it kept some back only if nobody is below the limit any more. */
  ghost predicate Offloaded(load: seq<int>, load': seq<int>, t: Table, core: nat, weight: int, limit: int) {
    && core < |load| == |load'| && 0 < |t.dist| == |t.cores| && t.cores[0] == core && t.dist[0] == limit
    && var placed := t.dist[|t.dist| - 1];
       && limit <= placed <= weight
       && Sum(load') == Sum(load) + placed - limit
       && (forall i :: 0 <= i < |load| && i != core ==> load'[i] == load[i] + Share(t, i))
       && load'[core] == load[core] && Share(t, core) == limit
       && (forall i ::
            0 <= i < |load| ==>
              && load[i] <= load'[i] && (load[i] < limit ==> load'[i] <= limit)
              && (load[i] >= limit ==> load'[i] == load[i]))
       && (placed < weight ==> forall i :: 0 <= i < |load| && i != core ==> load'[i] >= limit)
       && |t.dist| - 1 <= Full(load', limit) - Full(load, limit) + 1
       && (forall e, f :: 0 <= e < f < |t.dist| ==> t.dist[e] < t.dist[f])
       && (forall e :: 0 <= e < |t.cores| ==> t.cores[e] < |load|)
  }

  /** State of the placing loop after `d` entries: they filled walk[..d]. */
  ghost predicate Placing(load: seq<int>, cur: seq<int>, t: Table, core: nat, weight: int, limit: int, walk: seq<nat>,
                          d: nat) {
    && core < |load| == |cur| && IsWalk(walk, load, core, limit) && d <= |walk|
    && TableOk(t, core, limit, |load|, d) && t.dist[d] <= weight
    && Filled(load, cur, limit, walk, d)
    && Booked(load, cur, t, core)
    && Sum(cur) == Sum(load) + t.dist[d] - limit
    && Full(cur, limit) == Full(load, limit) + d
  }

  ghost predicate TableOk(t: Table, core: nat, limit: int, n: nat, d: nat) {
    && |t.dist| == |t.cores| == d + 1 && t.cores[0] == core && t.dist[0] == limit && Share(t, core) == limit
    && (forall e, f :: 0 <= e < f < |t.dist| ==> t.dist[e] < t.dist[f])
    && (forall e :: 0 <= e < |t.cores| ==> t.cores[e] < n)
  }

  ghost predicate Filled(load: seq<int>, cur: seq<int>, limit: int, walk: seq<nat>, d: nat) {
    && d <= |walk| && |load| == |cur|
    && (forall k :: 0 <= k < d ==> walk[k] < |cur| && cur[walk[k]] == limit)
    && (forall i :: 0 <= i < |load| && i !in walk[..d] ==> cur[i] == load[i])
  }

  /** What a core gained is what the table says it was sent. */
  ghost predicate Booked(load: seq<int>, cur: seq<int>, t: Table, core: nat) {
    && core < |load| == |cur| && |t.dist| == |t.cores|
    && (forall i :: 0 <= i < |load| && i != core ==> cur[i] == load[i] + Share(t, i))
    && cur[core] == load[core]
  }

  /** One more entry: `c` is sent the units up to `upTo`. */
  lemma BookEntry(load: seq<int>, cur: seq<int>, t: Table, core: nat, limit: int, d: nat, c: nat, upTo: int)
    requires Booked(load, cur, t, core) && TableOk(t, core, limit, |load|, d)
    requires c < |load| && c != core && t.dist[d] < upTo
    ensures var cur', t' := cur[c := cur[c] + upTo - t.dist[d]], Table(t.dist + [upTo], t.cores + [c]);
            Booked(load, cur', t', core) && TableOk(t', core, limit, |load|, d + 1)
  {
    var t' := Table(t.dist + [upTo], t.cores + [c]);
    hide Share;
    forall i: nat ensures Share(t', i) == Share(t, i) + if c == i then upTo - t.dist[d] else 0 {
      ShareAppend(t, c, upTo, i);
    }
  }

  lemma PlacingStarts(load: seq<int>, core: nat, weight: int, limit: int, walk: seq<nat>)
    requires core < |load| && limit < weight && IsWalk(walk, load, core, limit)
    ensures Placing(load, load, Table([limit], [core]), core, weight, limit, walk, 0)
  {
    var t := Table([limit], [core]);
    forall i: nat ensures Share(t, i) == if i == core then limit else 0 {
      assert ShareUpTo(t, 1, i) == ShareUpTo(t, 0, i) + if core == i then limit else 0;
    }
  }

  /** The next candidate is filled up to the limit. */
  lemma PlaceFull(load: seq<int>, cur: seq<int>, t: Table, core: nat, weight: int, limit: int, walk: seq<nat>, d: nat)
    requires Placing(load, cur, t, core, weight, limit, walk, d) && d < |walk|
    requires t.dist[d] + (limit - cur[walk[d]]) <= weight
    ensures Placing(load, cur[walk[d] := limit],
                    Table(t.dist + [t.dist[d] + (limit - cur[walk[d]])], t.cores + [walk[d]]),
                    core, weight, limit, walk, d + 1)
  {
    var c := walk[d];
    var upTo := t.dist[d] + (limit - cur[c]);
    FillNext(load, cur, core, limit, walk, d);
    hide Sum, Full, Booked, Filled;
    BookEntry(load, cur, t, core, limit, d, c, upTo);
    SumUpdate(cur, c, limit);
    FullStep(cur, limit, c, limit);
  }

  lemma FillNext(load: seq<int>, cur: seq<int>, core: nat, limit: int, walk: seq<nat>, d: nat)
    requires IsWalk(walk, load, core, limit) && Filled(load, cur, limit, walk, d) && d < |walk|
    ensures cur[walk[d]] == load[walk[d]] < limit && Filled(load, cur[walk[d] := limit], limit, walk, d + 1)
  {
    assert walk[d] !in walk[..d];
    assert walk[..d + 1] == walk[..d] + [walk[d]];
  }

  /** The next candidate takes all that is left without being filled. */
  lemma PlaceLast(load: seq<int>, cur: seq<int>, t: Table, core: nat, weight: int, limit: int, walk: seq<nat>, d: nat)
    requires Placing(load, cur, t, core, weight, limit, walk, d) && d < |walk|
    requires t.dist[d] < weight && weight - t.dist[d] < limit - cur[walk[d]]
    ensures Offloaded(load, cur[walk[d] := cur[walk[d]] + weight - t.dist[d]],
                      Table(t.dist + [weight], t.cores + [walk[d]]),
                      core, weight, limit)
  {
    var c := walk[d];
    hide Sum, Full, Share;
    assert c !in walk[..d] && cur[c] == load[c] < limit;
    BookEntry(load, cur, t, core, limit, d, c, weight);
    SumUpdate(cur, c, cur[c] + weight - t.dist[d]);
    FullStep(cur, limit, c, cur[c] + weight - t.dist[d]);
    PlacingBounds(load, cur, t, core, weight, limit, walk, d);
  }

  lemma PlacingBounds(load: seq<int>, cur: seq<int>, t: Table, core: nat, weight: int, limit: int, walk: seq<nat>,
                      d: nat)
    requires Placing(load, cur, t, core, weight, limit, walk, d)
    ensures forall i ::
             0 <= i < |load| ==>
               load[i] <= cur[i] && (load[i] < limit ==> cur[i] <= limit) && (load[i] >= limit ==> cur[i] == load[i])
  {
    forall i | 0 <= i < |load|
      ensures load[i] <= cur[i] && (load[i] < limit ==> cur[i] <= limit) && (load[i] >= limit ==> cur[i] == load[i])
    {
      if i in walk[..d] {
        var k :| 0 <= k < d && walk[..d][k] == i;
        assert walk[k] == i;
      }
    }
  }

  lemma PlacingEnds(load: seq<int>, cur: seq<int>, t: Table, core: nat, weight: int, limit: int, walk: seq<nat>, d: nat)
    requires Placing(load, cur, t, core, weight, limit, walk, d) && (t.dist[d] == weight || d == |walk|)
    ensures Offloaded(load, cur, t, core, weight, limit)
  {
    PlacingBounds(load, cur, t, core, weight, limit, walk, d);
    if d == |walk| {
      forall i | 0 <= i < |load| && i != core ensures cur[i] >= limit {
        if load[i] < limit {
          var k :| 0 <= k < |walk| && walk[k] == i;
          assert cur[walk[k]] == limit;
        }
      }
    }
  }

  /** A core of another NUMA node is given something only once no core of this node has room. */
  ghost predicate NearFirst(load: seq<int>, load': seq<int>, core: nat, limit: int) {
    && |load| == |load'|
    && forall far, near | 0 <= far < |load| && 0 <= near < |load| ::
      far / 8 != core / 8 == near / 8 && near != core && load'[far] != load[far] ==> load'[near] >= limit
  }

  /** Of the first `d` candidates all but the last are filled. */
  ghost predicate FilledTo(load: seq<int>, cur: seq<int>, limit: int, walk: seq<nat>, d: nat) {
    && d <= |walk| && |load| == |cur|
    && (forall k :: 0 <= k < d - 1 ==> walk[k] < |cur| && cur[walk[k]] == limit)
    && (forall i :: 0 <= i < |load| && i !in walk[..d] ==> cur[i] == load[i])
  }

  lemma FilledInOrder(load: seq<int>, cur: seq<int>, core: nat, limit: int, walk: seq<nat>, d: nat)
    requires IsWalk(walk, load, core, limit) && NearWalk(walk, core) && FilledTo(load, cur, limit, walk, d)
    ensures NearFirst(load, cur, core, limit)
  {
    forall far, near | 0 <= far < |load| && 0 <= near < |load|
      ensures far / 8 != core / 8 == near / 8 && near != core && cur[far] != load[far] ==> cur[near] >= limit
    {
      if far / 8 != core / 8 == near / 8 && near != core && cur[far] != load[far] {
        var k :| 0 <= k < d && walk[k] == far;
        if load[near] < limit {
          var m :| 0 <= m < |walk| && walk[m] == near;
          assert m < k;
        } else {
          assert near !in walk;
        }
      }
    }
  }

  lemma FullInOrder(load: seq<int>, cur: seq<int>, t: Table, core: nat, weight: int, limit: int, walk: seq<nat>, d: nat)
    requires Placing(load, cur, t, core, weight, limit, walk, d) && NearWalk(walk, core)
    ensures NearFirst(load, cur, core, limit)
  {
    FilledInOrder(load, cur, core, limit, walk, d);
  }

  lemma LastInOrder(load: seq<int>, cur: seq<int>, t: Table, core: nat, weight: int, limit: int, walk: seq<nat>, d: nat,
                    x: int)
    requires Placing(load, cur, t, core, weight, limit, walk, d) && NearWalk(walk, core) && d < |walk|
    ensures NearFirst(load, cur[walk[d] := x], core, limit)
  {
    assert walk[..d + 1] == walk[..d] + [walk[d]];
    FilledInOrder(load, cur[walk[d] := x], core, limit, walk, d + 1);
  }

  /** OffloadCore: fill the candidates one after the other with what `core` has above the limit. */
  method OffloadCore(load: seq<int>, core: nat, weight: int, limit: int) returns (load': seq<int>, t: Table)
    requires core < |load| && limit < weight
    ensures Offloaded(load, load', t, core, weight, limit) && NearFirst(load, load', core, limit)
  {
    hide Placing, Offloaded, IsWalk, NearWalk, NearFirst;
    var walk := BuildWalk(load, core, limit);
    var loadCdf := limit;
    load', t := load, Table([limit], [core]);
    PlacingStarts(load, core, weight, limit, walk);
    while loadCdf < weight
      invariant 0 < |t.dist| && Placing(load, load', t, core, weight, limit, walk, |t.dist| - 1)
      invariant loadCdf == t.dist[|t.dist| - 1] <= weight
      decreases |walk| - |t.dist|
    {
      var d := |t.dist| - 1;
      PlacingSizes(load, load', t, core, weight, limit, walk, d);
      if d >= |walk| { break; }
      var cur := walk[d];
      var delta := if weight - loadCdf < limit - load'[cur] then weight - loadCdf else limit - load'[cur];
      loadCdf := loadCdf + delta;
      if delta < limit - load'[cur] {
        PlaceLast(load, load', t, core, weight, limit, walk, d);
        LastInOrder(load, load', t, core, weight, limit, walk, d, load'[cur] + delta);
        t := Table(t.dist + [loadCdf], t.cores + [cur]);
        load' := load'[cur := load'[cur] + delta];
        return;
      }
      PlaceFull(load, load', t, core, weight, limit, walk, d);
      t := Table(t.dist + [loadCdf], t.cores + [cur]);
      load' := load'[cur := load'[cur] + delta];
    }
    PlacingSizes(load, load', t, core, weight, limit, walk, |t.dist| - 1);
    PlacingEnds(load, load', t, core, weight, limit, walk, |t.dist| - 1);
    FullInOrder(load, load', t, core, weight, limit, walk, |t.dist| - 1);
  }

  lemma PlacingSizes(load: seq<int>, cur: seq<int>, t: Table, core: nat, weight: int, limit: int, walk: seq<nat>,
                     d: nat)
    requires Placing(load, cur, t, core, weight, limit, walk, d)
    ensures d <= |walk| && |cur| == |load| && |t.cores| == d + 1 && (d < |walk| ==> walk[d] < |load|)
  {}

  // ---------- the whole balancing pass

  function GivenSeq(tables: seq<Table>, i: nat): (r: seq<int>)
    requires TablesOk(tables)
    ensures |r| == |tables|
  {
    seq(|tables|, t requires 0 <= t < |tables| => Share(tables[t], i))
  }

  predicate TablesOk(tables: seq<Table>) {
    forall t :: 0 <= t < |tables| ==> |tables[t].dist| == |tables[t].cores|
  }

  function EntrySeq(tables: seq<Table>): (r: seq<int>)
    ensures |r| == |tables|
  {
    seq(|tables|, t requires 0 <= t < |tables| => |tables[t].dist|)
  }

  function OverSeq(weight: seq<int>, avg: int, c: nat): (r: seq<int>)
    ensures |r| == |weight|
  {
    seq(|weight|, i requires 0 <= i < |weight| => if i < c && weight[i] > avg then 1 else 0)
  }

  /** Cores below the average hold between their own weight and the average; cores above it are
      cut to the average once processed. */
  predicate LoadOk(weight: int, load: int, avg: int, processed: bool) {
    if weight > avg then load == (if processed then avg else weight) else weight <= load <= avg
  }

  /** Balance has processed the first `c` cores. */
  ghost predicate Progress(weight: seq<int>, load: seq<int>, tables: seq<Table>, avg: int, c: nat) {
    && |load| == |weight| && c == |tables| <= |weight| && TablesOk(tables)
    && (forall i :: 0 <= i < |weight| ==> LoadOk(weight[i], load[i], avg, i < c))
    && Sum(load) <= Sum(weight)
    && (Sum(load) < Sum(weight) ==> forall i :: 0 <= i < |weight| ==> load[i] >= avg)
    && (forall i :: 0 <= i < |weight| ==> load[i] == Sum(GivenSeq(tables, i)) + if i < c then 0 else weight[i])
    && Sum(EntrySeq(tables)) - c <= Full(load, avg) - Full(weight, avg) + Sum(OverSeq(weight, avg, c))
  }

  lemma GivenAppend(tables: seq<Table>, t: Table, i: nat)
    requires TablesOk(tables) && |t.dist| == |t.cores|
    ensures TablesOk(tables + [t]) && Sum(GivenSeq(tables + [t], i)) == Sum(GivenSeq(tables, i)) + Share(t, i)
  {
    var g := GivenSeq(tables + [t], i);
    assert g[..|g| - 1] == GivenSeq(tables, i);
  }

  lemma EntryAppend(tables: seq<Table>, t: Table)
    ensures Sum(EntrySeq(tables + [t])) == Sum(EntrySeq(tables)) + |t.dist|
  {
    var g := EntrySeq(tables + [t]);
    assert g[..|g| - 1] == EntrySeq(tables);
  }

  lemma OverStep(weight: seq<int>, avg: int, c: nat)
    requires c < |weight|
    ensures Sum(OverSeq(weight, avg, c + 1)) == Sum(OverSeq(weight, avg, c)) + if weight[c] > avg then 1 else 0
  {
    SumChange(OverSeq(weight, avg, c), OverSeq(weight, avg, c + 1), c);
  }

  lemma ProgressStarts(weight: seq<int>, avg: int)
    ensures Progress(weight, weight, [], avg, 0)
  {
    SumConstant(OverSeq(weight, avg, 0), 0);
  }

  /** A core not above the average keeps its own weight. */
  lemma KeepStep(weight: seq<int>, load: seq<int>, tables: seq<Table>, avg: int, c: nat)
    requires Progress(weight, load, tables, avg, c) && c < |weight| && weight[c] <= avg
    ensures Progress(weight, load, tables + [Table([weight[c]], [c])], avg, c + 1)
  {
    var t := Table([weight[c]], [c]);
    hide Sum, Full;
    OverStep(weight, avg, c);
    EntryAppend(tables, t);
    forall i | 0 <= i < |weight|
      ensures load[i] == Sum(GivenSeq(tables + [t], i)) + if i < c + 1 then 0 else weight[i]
    {
      GivenAppend(tables, t, i);
      assert ShareUpTo(t, 1, i) == ShareUpTo(t, 0, i) + if c == i then weight[c] else 0;
    }
  }

  /** A core above the average is cut to it and offloaded. */
  lemma OffloadStep(weight: seq<int>, load: seq<int>, tables: seq<Table>, avg: int, c: nat, load': seq<int>, t: Table)
    requires Progress(weight, load, tables, avg, c) && c < |weight| && weight[c] > avg
    requires Offloaded(load[c := avg], load', t, c, weight[c], avg)
    ensures Progress(weight, load', tables + [t], avg, c + 1)
  {
    hide Sum, Full, Share;
    FullStep(load, avg, c, avg);
    OverStep(weight, avg, c);
    EntryAppend(tables, t);
    OffloadLoads(weight, load, tables, avg, c, load', t);
    OffloadGiven(weight, load, tables, avg, c, load', t);
  }

  lemma OffloadGiven(weight: seq<int>, load: seq<int>, tables: seq<Table>, avg: int, c: nat, load': seq<int>, t: Table)
    requires Progress(weight, load, tables, avg, c) && c < |weight| && weight[c] > avg
    requires Offloaded(load[c := avg], load', t, c, weight[c], avg)
    ensures TablesOk(tables + [t])
    ensures forall i ::
             0 <= i < |weight| ==> load'[i] == Sum(GivenSeq(tables + [t], i)) + if i < c + 1 then 0 else weight[i]
  {
    hide Sum, Full, Share;
    forall i | 0 <= i < |weight|
      ensures load'[i] == Sum(GivenSeq(tables + [t], i)) + if i < c + 1 then 0 else weight[i]
    {
      GivenAppend(tables, t, i);
      assert LoadOk(weight[i], load[i], avg, i < c);
    }
  }

  lemma OffloadLoads(weight: seq<int>, load: seq<int>, tables: seq<Table>, avg: int, c: nat, load': seq<int>, t: Table)
    requires Progress(weight, load, tables, avg, c) && c < |weight| && weight[c] > avg
    requires Offloaded(load[c := avg], load', t, c, weight[c], avg)
    ensures forall i :: 0 <= i < |weight| ==> LoadOk(weight[i], load'[i], avg, i < c + 1)
    ensures Sum(load') <= Sum(weight)
    ensures Sum(load') < Sum(weight) ==> forall i :: 0 <= i < |weight| ==> load'[i] >= avg
  {
    hide Sum, Full, Share;
    SumUpdate(load, c, avg);
  }

  /** When all cores are processed every load is the average, and only the remainder of the
      division is unplaced. */
  lemma ProgressEnds(weight: seq<int>, load: seq<int>, tables: seq<Table>, avg: int)
    requires weight != [] && Progress(weight, load, tables, avg, |weight|) && avg == Sum(weight) / |weight|
    ensures forall i :: 0 <= i < |weight| ==> load[i] == avg && Sum(GivenSeq(tables, i)) == avg
    ensures Sum(weight) - Sum(load) == Sum(weight) % |weight|
    ensures Sum(EntrySeq(tables)) <= 2 * |weight|
  {
    AllAverage(weight, load, avg);
    EntriesBounded(weight, load, tables, avg);
    hide Sum, Full;
  }

  lemma AllAverage(weight: seq<int>, load: seq<int>, avg: int)
    requires |load| == |weight| > 0 && avg == Sum(weight) / |weight|
    requires forall i :: 0 <= i < |weight| ==> LoadOk(weight[i], load[i], avg, true)
    requires Sum(load) <= Sum(weight)
    requires Sum(load) < Sum(weight) ==> forall i :: 0 <= i < |weight| ==> load[i] >= avg
    ensures forall i :: 0 <= i < |weight| ==> load[i] == avg
    ensures Sum(weight) - Sum(load) == Sum(weight) % |weight|
  {
    var flat := seq(|weight|, i => avg);
    SumConstant(flat, avg);
    hide Sum;
    DivMod(Sum(weight), |weight|);
    assert forall i :: 0 <= i < |weight| ==> load[i] <= flat[i];
    SumMonotone(load, flat);
    if Sum(load) == Sum(weight) {
      SumTight(load, flat);
    }
    assert load == flat;
  }

  lemma DivMod(a: int, n: nat)
    requires n > 0
    ensures a == n * (a / n) + a % n && a % n >= 0
  {}

  lemma EntriesBounded(weight: seq<int>, load: seq<int>, tables: seq<Table>, avg: int)
    requires |load| == |weight| == |tables|
    requires Sum(EntrySeq(tables)) - |weight| <= Full(load, avg) - Full(weight, avg)
             + Sum(OverSeq(weight, avg, |weight|))
    ensures Sum(EntrySeq(tables)) <= 2 * |weight|
  {
    FullBounds(load, avg);
    SumMonotone(OverSeq(weight, avg, |weight|), FullSeq(weight, avg));
  }

  function Column(pending: seq<seq<int>>, core: nat): (r: seq<int>)
    requires forall j :: 0 <= j < |pending| ==> |pending[j]| == |pending|
    requires core < |pending|
    ensures |r| == |pending|
  {
    seq(|pending|, j requires 0 <= j < |pending| => pending[j][core])
  }

  /** All load planned for a core so far: its own weight and what each core has noted for it. */
  function Planned(weight: seq<int>, pending: seq<seq<int>>): (r: seq<int>)
    requires |weight| == |pending| && forall j :: 0 <= j < |pending| ==> |pending[j]| == |pending|
    ensures |r| == |weight|
  {
    seq(|weight|, i requires 0 <= i < |weight| => weight[i] + Sum(Column(pending, i)))
  }

  ghost predicate NothingPlanned(pending: seq<seq<int>>) {
    forall j, i :: 0 <= j < |pending| && 0 <= i < |pending[j]| ==> pending[j][i] == 0
  }

  class LocalityManager {
    var weight: seq<int>
    var weights_per_core: seq<seq<int>>
    var load: seq<int>
    var tables: seq<Table>

    ghost predicate Valid()
      reads this
    {
      && 0 < |weight| == |weights_per_core|
      && forall j :: 0 <= j < |weight| ==> |weights_per_core[j]| == |weight|
    }

    /** PlanLoad, called on core `current`. */
    method PlanLoad(current: nat, core: nat, delta: int)
      requires Valid() && current < |weight| && core < |weight|
      modifies this`weights_per_core
      ensures Valid()
      ensures Planned(weight, weights_per_core)
           == Planned(weight, old(weights_per_core))[core := Planned(weight, old(weights_per_core))[core] + delta]
    {
      ghost var before := weights_per_core;
      var row := weights_per_core[current];
      weights_per_core := weights_per_core[current := row[core := row[core] + delta]];
      forall i | 0 <= i < |weight|
        ensures Sum(Column(weights_per_core, i)) == Sum(Column(before, i)) + if i == core then delta else 0
      {
        SumChange(Column(before, i), Column(weights_per_core, i), current);
      }
    }

    /** The first loop of Balance: every core's weight collects what was planned for it, once. */
    method Gather()
      requires Valid()
      modifies this`weight, this`weights_per_core
      ensures Valid() && weight == Planned(old(weight), old(weights_per_core)) && NothingPlanned(weights_per_core)
    {
      ghost var w0, p0 := weight, weights_per_core;
      var core := 0;
      while core < |weight|
        invariant 0 <= core <= |weight| == |w0| && Valid()
        invariant forall i :: 0 <= i < core ==> weight[i] == w0[i] + Sum(Column(p0, i))
        invariant forall i :: core <= i < |weight| ==> weight[i] == w0[i]
        invariant forall j, i :: 0 <= j < |w0| && core <= i < |w0| ==> weights_per_core[j][i] == p0[j][i]
        invariant forall j, i :: 0 <= j < |w0| && 0 <= i < core ==> weights_per_core[j][i] == 0
      {
        GatherCore(core, p0);
        core := core + 1;
      }
      assert weight == Planned(w0, p0);
    }

    /** The inner loop for one core. */
    method GatherCore(core: nat, ghost p0: seq<seq<int>>)
      requires Valid() && core < |weight| == |p0| && forall j :: 0 <= j < |p0| ==> |p0[j]| == |p0|
      requires forall j :: 0 <= j < |p0| ==> weights_per_core[j][core] == p0[j][core]
      modifies this`weight, this`weights_per_core
      ensures Valid() && weight == old(weight)[core := old(weight[core]) + Sum(Column(p0, core))]
      ensures forall j, i ::
               0 <= j < |p0| && 0 <= i < |p0| ==>
                 weights_per_core[j][i] == if i == core then 0 else old(weights_per_core[j][i])
    {
      ghost var w := weight;
      ghost var p1 := weights_per_core;
      var j := 0;
      while j < |weight|
        invariant 0 <= j <= |weight| == |w| && Valid()
        invariant weight == w[core := w[core] + Sum(Column(p0, core)[..j])]
        invariant forall l :: 0 <= l < |w| ==> weights_per_core[l][core] == if l < j then 0 else p0[l][core]
        invariant forall l, i :: 0 <= l < |w| && 0 <= i < |w| && i != core ==> weights_per_core[l][i] == p1[l][i]
      {
        assert Column(p0, core)[..j + 1][..j] == Column(p0, core)[..j];
        weight := weight[core := weight[core] + weights_per_core[j][core]];
        weights_per_core := weights_per_core[j := weights_per_core[j][core := 0]];
        j := j + 1;
      }
      assert Column(p0, core)[..j] == Column(p0, core);
    }

    /** Balance: for non-negative weights every core ends with exactly the average, each load is
        what the tables send there, what is left unplaced is the remainder of the division, and
        the tables have at most twice as many entries as there are cores. */
    method Balance() returns (nrPrealloc: nat)
      requires Valid()
      requires forall i :: 0 <= i < |weight| ==> Planned(weight, weights_per_core)[i] >= 0
      modifies this
      ensures Valid() && weight == Planned(old(weight), old(weights_per_core)) && NothingPlanned(weights_per_core)
      ensures |load| == |tables| == |weight| && TablesOk(tables)
      ensures forall c :: 0 <= c < |tables| ==> Rising(tables[c])
      ensures forall i :: 0 <= i < |weight| ==> load[i] == Sum(weight) / |weight|
      ensures forall i :: 0 <= i < |weight| ==> load[i] == Sum(GivenSeq(tables, i))
      ensures Sum(weight) - Sum(load) == Sum(weight) % |weight|
      ensures nrPrealloc == Sum(EntrySeq(tables)) <= 2 * |weight|
      ensures |weight| <= 64 ==> nrPrealloc <= PREALLOC
    {
      hide Progress, Offloaded, Sum, Rising;
      Gather();
      var tot := Total(weight);
      SumNonNegative(weight);
      var average := tot / |weight|;
      nrPrealloc := Distribute(average);
      ProgressSizes(weight, load, tables, average);
      ProgressEnds(weight, load, tables, average);
    }

    /** The second loop of Balance. */
    method Distribute(average: nat) returns (nrPrealloc: nat)
      requires Valid() && forall i :: 0 <= i < |weight| ==> weight[i] >= 0
      modifies this`load, this`tables
      ensures Progress(weight, load, tables, average, |weight|)
      ensures forall c :: 0 <= c < |tables| ==> Rising(tables[c])
      ensures nrPrealloc == Sum(EntrySeq(tables))
    {
      hide Progress, Offloaded, Sum, Rising;
      load := weight;
      nrPrealloc := 0;
      tables := [];
      ProgressStarts(weight, average);
      EmptySum();
      while |tables| < |weight|
        invariant |tables| <= |weight| == |load|
        invariant Progress(weight, load, tables, average, |tables|)
        invariant nrPrealloc == Sum(EntrySeq(tables))
        invariant forall c :: 0 <= c < |tables| ==> Rising(tables[c])
      {
        var core := |tables|;
        var t;
        if weight[core] > average {
          var load1;
          load1, t := OffloadCore(load[core := average], core, weight[core], average);
          OffloadSizes(load[core := average], load1, t, core, weight[core], average);
          OffloadStep(weight, load, tables, average, core, load1, t);
          load := load1;
        } else {
          KeepStep(weight, load, tables, average, core);
          SingleRising(weight[core], core);
          t := Table([weight[core]], [core]);
        }
        EntryAppend(tables, t);
        tables := tables + [t];
        nrPrealloc := nrPrealloc + |t.dist|;
      }
    }
  }

  // ---------- drawing a core from a table

  predicate Rising(t: Table) {
    && 0 < |t.dist| == |t.cores| && 0 <= t.dist[0]
    && forall e, f :: 0 <= e < f < |t.dist| ==> t.dist[e] < t.dist[f]
  }

  /** Entry `e` is the upper bound of `seed`: it covers the units from dist[e - 1] up to dist[e]. */
  predicate Covers(t: Table, e: nat, seed: int)
    requires |t.dist| == |t.cores|
  {
    e < |t.dist| && seed < t.dist[e] && (e > 0 ==> t.dist[e - 1] <= seed)
  }

  /** GetScheduleCore: `random` is reduced modulo the last table entry. */
  method GetScheduleCore(t: Table, core: nat, random: nat) returns (target: nat)
    requires |t.dist| == |t.cores| && (|t.dist| > 1 ==> Rising(t))
    ensures t.dist == [] ==> target == core
    ensures |t.dist| == 1 ==> target == t.cores[0]
    ensures |t.dist| > 1 ==> exists e: nat :: Covers(t, e, random % t.dist[|t.dist| - 1]) && target == t.cores[e]
  {
    if |t.dist| == 0 { return core; }
    if |t.dist| == 1 { return t.cores[0]; }
    var seed := random % t.dist[|t.dist| - 1];
    var lo, hi := 0, |t.dist| - 1;
    while lo < hi
      invariant 0 <= lo <= hi < |t.dist|
      invariant seed < t.dist[hi] && (lo > 0 ==> t.dist[lo - 1] <= seed)
    {
      var mid := (lo + hi) / 2;
      if t.dist[mid] <= seed { lo := mid + 1; } else { hi := mid; }
    }
    assert Covers(t, lo, seed);
    target := t.cores[lo];
  }

  /** How many of the seeds 0..n-1 are covered by an entry of core `i`. */
  ghost function SeedsFor(t: Table, n: nat, i: nat): nat
    requires |t.dist| == |t.cores|
  {
    if n == 0 then 0
    else SeedsFor(t, n - 1, i) + if exists e: nat :: Covers(t, e, n - 1) && t.cores[e] == i then 1 else 0
  }

  lemma {:induction false} SeedsInEntry(t: Table, e: nat, n: nat, i: nat)
    requires Rising(t) && e < |t.dist| && (if e == 0 then 0 else t.dist[e - 1]) <= n <= t.dist[e]
    ensures SeedsFor(t, n, i) == ShareUpTo(t, e, i)
            + if t.cores[e] == i then n - (if e == 0 then 0 else t.dist[e - 1]) else 0
    decreases e, n
  {
    if n == (if e == 0 then 0 else t.dist[e - 1]) {
      if e > 0 { SeedsInEntry(t, e - 1, n, i); }
    } else {
      SeedsInEntry(t, e, n - 1, i);
      var seed := n - 1;
      assert Covers(t, e, seed);
      assert forall f: nat :: Covers(t, f, seed) ==> f == e;
    }
  }

  /** Every core is drawn for as many seeds as the table has units for it. */
  lemma SeedsMatchShares(t: Table, i: nat)
    requires Rising(t)
    ensures SeedsFor(t, t.dist[|t.dist| - 1], i) == Share(t, i)
  {
    SeedsInEntry(t, |t.dist| - 1, t.dist[|t.dist| - 1], i);
  }

  method Total(s: seq<int>) returns (tot: int)
    ensures tot == Sum(s)
  {
    tot := 0;
    var i := 0;
    while i < |s|
      invariant 0 <= i <= |s| && tot == Sum(s[..i])
    {
      assert s[..i + 1][..i] == s[..i];
      tot := tot + s[i];
      i := i + 1;
    }
    assert s[..i] == s;
  }

  lemma SingleRising(weight: int, core: nat)
    requires weight >= 0
    ensures Rising(Table([weight], [core]))
  {}

  lemma EmptySum()
    ensures Sum(EntrySeq([])) == 0
  {}

  lemma OffloadSizes(load: seq<int>, load': seq<int>, t: Table, core: nat, weight: int, limit: int)
    requires Offloaded(load, load', t, core, weight, limit)
    ensures |load'| == |load| && (limit >= 0 ==> Rising(t))
  {}

  lemma ProgressSizes(weight: seq<int>, load: seq<int>, tables: seq<Table>, avg: int)
    requires Progress(weight, load, tables, avg, |weight|)
    ensures TablesOk(tables) && |load| == |weight| == |tables|
    ensures forall i :: 0 <= i < |weight| ==> load[i] == Sum(GivenSeq(tables, i))
  {}
}
