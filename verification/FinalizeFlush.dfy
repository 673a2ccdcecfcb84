/** What FinalizeFlush leaves behind. A core runs it whenever its queue is empty, while other cores may
    still append, and reads the counter of every head only once. */
module FinalizeFlush {
  import opened LowerBound
  import opened VersionSeq
  import opened VersionBuffers

  // ---------- one scan in a run

  /** Core `c` begins a scan after state `b` and is done with it in state `e`. */
  ghost predicate IsScan(run: seq<State>, c: nat, b: nat, e: nat) {
    && b + 1 < e < |run| && (forall k :: b <= k <= e ==> c < |run[k].pcs|)
    && run[b].pcs[c] == Idle && run[b + 1].pcs[c] == Scan(0, Load, {}) && run[e].pcs[c] == Idle
    && (forall k :: b < k < e ==> run[k].pcs[c].Scan?)
  }

  /** Between states `k` and `k + 1` core `c` reads the counter of a head. */
  predicate ReadsAt(run: seq<State>, c: nat, k: nat) {
    && k + 1 < |run| && c < |run[k].pcs| && c < |run[k + 1].pcs| && run[k].pcs[c].Scan? && run[k + 1].pcs[c].Scan?
    && run[k].pcs[c].place.Enter? && run[k + 1].pcs[c].place.Walk?
  }

  /** At that moment the owner of the head is installing a position at which `c` has a version. */
  predicate SkipsAt(run: seq<State>, c: nat, k: nat) {
    && ReadsAt(run, c, k) && c < |run[k].bits| && 0 <= run[k].pcs[c].place.head < |run[k].heads|
    && Skips(run[k], c, run[k].pcs[c].place.head)
  }

  /** Core `c` is where it was, with the same bits. */
  ghost predicate Untouched(s: State, s': State, c: nat) {
    && c < |s.pcs| == |s'.pcs| && s'.pcs[c] == s.pcs[c]
    && c < |s.bits| == |s'.bits| && s'.bits[c] == s.bits[c]
  }

  lemma ScanOthers(cfg: Config, s: State, s': State, c: nat, d: nat, a: Action)
    requires Shape(cfg, s) && d < |s.pcs| && s.pcs[d].Scan? && ScanStep(cfg, s, s', d, a) && c < |s.pcs| && c != d
    ensures Untouched(s, s', c)
  {
    hide Merges, Skipped;
  }

  lemma BufferOthers(cfg: Config, s: State, s': State, c: nat, d: nat, a: Action)
    requires Shape(cfg, s) && d < |s.pcs| && BufferStep(cfg, s, s', d, a) && c < |s.pcs| && c != d
    ensures Untouched(s, s', c)
  {
    hide Merges;
  }

  lemma FindOthers(cfg: Config, s: State, s': State, c: nat, d: nat, a: Action)
    requires Shape(cfg, s) && d < |s.pcs| && s.pcs[d].Carry? && s.pcs[d].r < |cfg.init| && c < |s.pcs| && c != d
    requires FindStep(cfg, s, s', d, a)
    ensures Untouched(s, s', c)
  {
    hide Merges;
  }

  /** A step of another core leaves the core's place and bits alone. */
  lemma OthersKeep(cfg: Config, s: State, s': State, c: nat, d: nat, a: Action)
    requires Step(cfg, s, s', d, a) && c < |s.pcs| && c != d
    ensures Untouched(s, s', c)
  {
    hide ScanStep, BufferStep, FindStep;
    if a.Begin? || a == BeginScan {
    } else if s.pcs[d].Scan? {
      ScanOthers(cfg, s, s', c, d, a);
    } else if BufferStep(cfg, s, s', d, a) {
      BufferOthers(cfg, s, s', c, d, a);
    } else {
      FindOthers(cfg, s, s', c, d, a);
    }
  }

  lemma OwnScan(cfg: Config, s: State, s': State, c: nat, a: Action)
    requires Step(cfg, s, s', c, a) && s.pcs[c].Scan?
    ensures ScanStep(cfg, s, s', c, a)
  {}

  /** What one step does to a scan: reading a counter adds what it skips to the positions missed, and
      the scan ends behind the last core. */
  ghost predicate ScanGoesOn(s: State, s': State, c: nat)
    requires c < |s.pcs| && s.pcs[c].Scan?
  {
    && c < |s'.pcs| && c < |s.bits|
    && if !s'.pcs[c].Scan? then
         s.pcs[c].place == Load && s.pcs[c].i >= |s.cur| && s'.pcs[c] == Idle && s'.bits == s.bits
       else if s.pcs[c].place.Enter? && s'.pcs[c].place.Walk? then
         && 0 <= s.pcs[c].place.head < |s.heads|
         && s'.pcs[c].missed == s.pcs[c].missed + Skipped(s, c, s.pcs[c].place.head)
       else s'.pcs[c].missed == s.pcs[c].missed
  }

  lemma OwnGoesOn(cfg: Config, s: State, s': State, c: nat, a: Action)
    requires Shape(cfg, s) && c < |s.pcs| && s.pcs[c].Scan? && ScanStep(cfg, s, s', c, a)
    ensures ScanGoesOn(s, s', c)
  {
    hide Merges, Skipped;
    var pc := s.pcs[c];
    match pc.place
    case Load => {}
    case Enter(h) => {}
    case Walk(h, to, off, retry) => assert s'.pcs[c].Scan? && s'.pcs[c].missed == pc.missed;
  }

  lemma ScanNext(cfg: Config, s: State, s': State, c: nat)
    requires Next(cfg, s, s') && c < |s.pcs| && s.pcs[c].Scan?
    ensures ScanGoesOn(s, s', c)
  {
    hide Step;
    var d: nat, a: Action :| Step(cfg, s, s', d, a);
    if d != c {
      OthersKeep(cfg, s, s', c, d, a);
    } else {
      assert Shape(cfg, s) by { StepShape(cfg, s, s', c, a); }
      OwnScan(cfg, s, s', c, a);
      OwnGoesOn(cfg, s, s', c, a);
    }
  }

  lemma StepShape(cfg: Config, s: State, s': State, c: nat, a: Action)
    requires Step(cfg, s, s', c, a)
    ensures Shape(cfg, s) && c < |s.pcs|
  {}

  lemma {:induction false} MissedSoFar(cfg: Config, run: seq<State>, c: nat, b: nat, e: nat, k: nat)
    requires IsRun(cfg, run) && IsScan(run, c, b, e) && b < k < e
    ensures run[k].pcs[c].missed == {} <==> forall j :: b < j < k ==> !SkipsAt(run, c, j)
    decreases k
  {
    hide Next, Start;
    if k > b + 1 {
      MissedSoFar(cfg, run, c, b, e, k - 1);
      ScanNext(cfg, run[k - 1], run[k], c);
      hide Skips;
      var t := run[k - 1];
      assert SkipsAt(run, c, k - 1) <==> ReadsAt(run, c, k - 1) && Skipped(t, c, t.pcs[c].place.head) != {};
    }
  }

  /** A scan ends with all bits of its core clear if and only if at no reading of a head's counter the
      owner of the head was installing a position at which the core had a version. */
  lemma ScanLeavesClear(cfg: Config, run: seq<State>, c: nat, b: nat, e: nat)
    requires IsRun(cfg, run) && IsScan(run, c, b, e) && c < |cfg.zone|
    ensures Shape(cfg, run[e])
    ensures (forall p :: 0 <= p < cfg.positions ==> !run[e].bits[c][p])
            <==> forall k :: b < k < e ==> !SkipsAt(run, c, k)
  {
    hide Inv, Start, Next, Skips, Shape;
    var s := run[e - 1];
    RunInv(cfg, run, e - 1);
    RunInv(cfg, run, e);
    InvShape(cfg, s);
    InvShape(cfg, run[e]);
    MissedSoFar(cfg, run, c, b, e, e - 1);
    ScanNext(cfg, s, run[e], c);
    MissedIsSet(cfg, s, c);
    assert !ReadsAt(run, c, e - 1);
    ShapeBits(cfg, s, c);
    ShapeBits(cfg, run[e], c);
  }

  lemma ShapeBits(cfg: Config, s: State, c: nat)
    requires Shape(cfg, s) && c < |cfg.zone|
    ensures c < |s.bits| && |s.bits[c]| == cfg.positions && |s.pcs| == |cfg.zone|
  {}

  /** After the last head exactly the positions missed are set. */
  lemma MissedIsSet(cfg: Config, s: State, c: nat)
    requires Inv(cfg, s) && c < |cfg.zone| && c < |s.pcs|
    requires s.pcs[c].Scan? && s.pcs[c].place == Load && s.pcs[c].i >= |s.cur|
    ensures c < |s.bits| && |s.bits[c]| == cfg.positions
    ensures s.pcs[c].missed == {} <==> forall p :: 0 <= p < cfg.positions ==> !s.bits[c][p]
  {
    InvShape(cfg, s);
    MissedInside(cfg, s, c);
    hide Inv;
    forall p: nat | p < cfg.positions ensures s.bits[c][p] <==> p in s.pcs[c].missed {
      ScanEnds(cfg, s, c, p);
    }
  }

  lemma MissedInside(cfg: Config, s: State, c: nat)
    requires Inv(cfg, s) && c < |s.pcs| && s.pcs[c].Scan?
    ensures forall p :: p in s.pcs[c].missed ==> p < cfg.positions
  {
    AtPc(cfg, s, c);
  }

  // ---------- all cores

  /** The scan of core `c` between `b` and `e` is the last thing it does before state `i`. */
  ghost predicate IsLastScan(run: seq<State>, c: nat, b: nat, e: nat, i: nat) {
    && IsScan(run, c, b, e) && e <= i < |run|
    && (forall k :: e <= k <= i ==> c < |run[k].pcs| && run[k].pcs[c] == Idle)
  }

  lemma IdleStep(cfg: Config, s: State, s': State, c: nat)
    requires Next(cfg, s, s') && c < |s.pcs| && s.pcs[c] == Idle && c < |s'.pcs| && s'.pcs[c] == Idle
    ensures |s'.bits| == |s.bits| && c < |s.bits| && s'.bits[c] == s.bits[c]
  {
    var d: nat, a: Action :| Step(cfg, s, s', d, a);
    if d != c { OthersKeep(cfg, s, s', c, d, a); }
  }

  lemma {:induction false} IdleKeeps(cfg: Config, run: seq<State>, c: nat, e: nat, i: nat)
    requires IsRun(cfg, run) && e <= i < |run| && c < |cfg.zone|
    requires forall k :: e <= k <= i ==> c < |run[k].pcs| && run[k].pcs[c] == Idle
    ensures Shape(cfg, run[e]) && Shape(cfg, run[i]) && run[i].bits[c] == run[e].bits[c]
    decreases i
  {
    hide Inv, Start, Next, Shape;
    RunInv(cfg, run, e);
    RunInv(cfg, run, i);
    InvShape(cfg, run[e]);
    InvShape(cfg, run[i]);
    ShapeBits(cfg, run[e], c);
    ShapeBits(cfg, run[i], c);
    if e < i {
      IdleKeeps(cfg, run, c, e, i - 1);
      IdleStep(cfg, run[i - 1], run[i], c);
    }
  }

  lemma {:induction false} MultiSumNone(m: seq<multiset<nat>>)
    ensures MultiSum(m) == multiset{} <==> forall d :: 0 <= d < |m| ==> m[d] == multiset{}
  {
    if m != [] {
      MultiSumNone(m[..|m| - 1]);
      var sum, last := MultiSum(m[..|m| - 1]), m[|m| - 1];
      assert |sum + last| == |sum| + |last|;
    }
  }

  /** With no core at work a row has all its versions if and only if no core has any left at its position. */
  lemma RowIsFinal(cfg: Config, s: State, r: nat, appended: seq<nat>)
    requires Inv(cfg, s) && r < |cfg.init| && multiset(appended) == s.begun[r]
    requires forall c :: 0 <= c < |s.pcs| ==> s.pcs[c] == Idle
    ensures s.cut[r] <= |cfg.init[r]|
    ensures s.rows[r] == InsertAll(cfg.init[r][s.cut[r]..], appended) <==>
            forall c, p :: 0 <= c < |s.pcs| && 0 <= p < cfg.positions && s.bufPos[r] == p ==> !s.bits[c][p]
  {
    var held := HoldsSeq(s.bufs, s.pcs, s.bufPos[r], r);
    RowIsMerged(cfg, s, r, appended);
    MultiSumNone(held);
    HeldBits(cfg, s, r);
    hide Inv, InsertAll, MultiSum, HoldsSeq;
  }

  lemma HeldBits(cfg: Config, s: State, r: nat)
    requires Inv(cfg, s) && r < |cfg.init| && forall c :: 0 <= c < |s.pcs| ==> s.pcs[c] == Idle
    ensures var held := HoldsSeq(s.bufs, s.pcs, s.bufPos[r], r);
            (forall d :: 0 <= d < |held| ==> held[d] == multiset{}) <==>
            forall c, p :: 0 <= c < |s.pcs| && 0 <= p < cfg.positions && s.bufPos[r] == p ==> !s.bits[c][p]
  {
    hide HeadsOk, ChainsOk, PairsOk, SlotsOk, RowsOk, CountsOk, PcsOk;
    var held := HoldsSeq(s.bufs, s.pcs, s.bufPos[r], r);
    var p := s.bufPos[r];
    if 0 <= p < cfg.positions {
      forall c | 0 <= c < |s.pcs| ensures held[c] == multiset{} <==> !s.bits[c][p] {
        assert BufOk(cfg.init, s.bufs[c][p], s.bits[c][p], s.rowOf[p]);
        assert |multiset(s.bufs[c][p])| == |s.bufs[c][p]|;
      }
    }
  }

  lemma RowIsMerged(cfg: Config, s: State, r: nat, appended: seq<nat>)
    requires Inv(cfg, s) && r < |cfg.init| && multiset(appended) == s.begun[r]
    ensures s.cut[r] <= |cfg.init[r]|
    ensures s.rows[r] == InsertAll(cfg.init[r][s.cut[r]..], appended) <==>
            MultiSum(HoldsSeq(s.bufs, s.pcs, s.bufPos[r], r)) == multiset{}
  {
    var held := MultiSum(HoldsSeq(s.bufs, s.pcs, s.bufPos[r], r));
    var left := cfg.init[r][s.cut[r]..];
    RowAt(cfg, s, r);
    assert Conserved(cfg.init[r], s.rows[r], s.cut[r], held, s.begun[r]);
    assert Sorted(left);
    hide Inv, InsertAll, MultiSum, HoldsSeq;
    InsertAllSorted(left, appended);
    if held == multiset{} {
      MergeIsInsertAll(left, appended, s.rows[r]);
    } else {
      assert |multiset(s.rows[r]) + held| == |multiset(s.rows[r])| + |held|;
    }
  }

  /** When every core has finished its last scan, all rows hold exactly their remaining versions with
      all appended ones merged in if and only if none of these scans read a counter while the owner
      of the head was installing a position at which the scanning core had a version. */
  lemma FinalizedRows(cfg: Config, run: seq<State>, i: nat, b: seq<nat>, e: seq<nat>, appended: seq<seq<nat>>)
    requires IsRun(cfg, run) && i < |run| && |b| == |e| == |cfg.zone| && |appended| == |cfg.init| == |run[i].begun|
    requires forall c :: 0 <= c < |cfg.zone| ==> IsLastScan(run, c, b[c], e[c], i)
    requires forall r :: 0 <= r < |cfg.init| ==> multiset(appended[r]) == run[i].begun[r]
    ensures Shape(cfg, run[i]) && forall r :: 0 <= r < |cfg.init| ==> run[i].cut[r] <= |cfg.init[r]|
    ensures (forall r :: 0 <= r < |cfg.init| ==>
                run[i].rows[r] == InsertAll(cfg.init[r][run[i].cut[r]..], appended[r]))
            <==> (forall c, k :: 0 <= c < |cfg.zone| && b[c] < k < e[c] ==> !SkipsAt(run, c, k))
  {
    hide IsRun, Inv, InsertAll, SkipsAt, IsScan, Shape;
    RunInv(cfg, run, i);
    var s := run[i];
    assert Shape(cfg, s) by { InvShape(cfg, s); }
    AllSizes(cfg, s);
    forall c | 0 <= c < |cfg.zone|
      ensures (forall p :: 0 <= p < cfg.positions ==> !s.bits[c][p]) <==>
              forall k :: b[c] < k < e[c] ==> !SkipsAt(run, c, k)
    {
      assert IsLastScan(run, c, b[c], e[c], i);
      ScanLeavesClear(cfg, run, c, b[c], e[c]);
      IdleKeeps(cfg, run, c, e[c], i);
    }
    assert forall c :: 0 <= c < |cfg.zone| ==> s.pcs[c] == Idle by {
      forall c | 0 <= c < |cfg.zone| ensures s.pcs[c] == Idle { assert IsLastScan(run, c, b[c], e[c], i); }
    }
    RowsAreFinal(cfg, s, appended);
  }

  lemma AllSizes(cfg: Config, s: State)
    requires Shape(cfg, s)
    ensures |s.rows| == |s.cut| == |s.bufPos| == |s.begun| == |cfg.init| && |s.pcs| == |s.bits| == |cfg.zone|
    ensures forall c :: 0 <= c < |s.bits| ==> |s.bits[c]| == cfg.positions
  {}

  lemma RowsAreFinal(cfg: Config, s: State, appended: seq<seq<nat>>)
    requires Inv(cfg, s) && |appended| == |cfg.init| && forall c :: 0 <= c < |s.pcs| ==> s.pcs[c] == Idle
    requires forall r :: 0 <= r < |cfg.init| ==> multiset(appended[r]) == s.begun[r]
    ensures Shape(cfg, s) && forall r :: 0 <= r < |cfg.init| ==> s.cut[r] <= |cfg.init[r]|
    ensures (forall r :: 0 <= r < |cfg.init| ==>
                s.rows[r] == InsertAll(cfg.init[r][s.cut[r]..], appended[r]))
            <==> forall c, p :: 0 <= c < |cfg.zone| && 0 <= p < cfg.positions ==> !s.bits[c][p]
  {
    InvShape(cfg, s);
    AllSizes(cfg, s);
    hide Inv, InsertAll, Shape;
    forall r | 0 <= r < |cfg.init|
      ensures s.cut[r] <= |cfg.init[r]|
      ensures s.rows[r] == InsertAll(cfg.init[r][s.cut[r]..], appended[r]) <==>
              forall c, p :: 0 <= c < |s.pcs| && 0 <= p < cfg.positions && s.bufPos[r] == p ==> !s.bits[c][p]
    {
      RowIsFinal(cfg, s, r, appended[r]);
    }
    forall c, p | 0 <= c < |cfg.zone| && 0 <= p < cfg.positions && s.bits[c][p]
      ensures exists r :: 0 <= r < |cfg.init| && s.bufPos[r] == p
    {
      BitHasRow(cfg, s, c, p);
    }
  }

  lemma InvShape(cfg: Config, s: State)
    requires Inv(cfg, s)
    ensures Shape(cfg, s)
  {
    hide HeadsOk, ChainsOk, PairsOk, SlotsOk, RowsOk, CountsOk, PcsOk, BufsOk, Shape;
  }

  lemma BitHasRow(cfg: Config, s: State, c: nat, p: nat)
    requires Inv(cfg, s) && c < |s.bits| && p < |s.bits[c]| && s.bits[c][p]
    ensures exists r :: 0 <= r < |s.bufPos| && s.bufPos[r] == p
  {
    hide HeadsOk, ChainsOk, SlotsOk, RowsOk, CountsOk, PcsOk;
    assert BufOk(cfg.init, s.bufs[c][p], s.bits[c][p], s.rowOf[p]);
  }
}
