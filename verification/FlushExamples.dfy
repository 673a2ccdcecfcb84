/** Two runs of the version buffers on eight cores of one zone, with room for one head each: a version
    that is never flushed, and a core that finds the pool of heads empty. */
module FlushExamples {
  import opened VersionSeq
  import opened VersionBuffers
  import opened FinalizeFlush

  const CORES: nat := 8

  function EightConfig(rows: nat): Config {
    Config(seq(rows, _ => []), seq(CORES, _ => 0), [0], CORES * MAX_POS, CORES * MAX_POS)
  }

  function FirstHeads(n: nat): seq<Head> {
    seq(n, c requires c >= 0 => Head(c, c * MAX_POS, 0, -1))
  }

  function EightStart(rows: nat): State {
    State(seq(rows, _ => []), seq(rows, _ => 0), seq(rows, _ => -1), seq(CORES * MAX_POS, _ => -1),
          FirstHeads(CORES), seq(CORES, c requires c >= 0 => c), [CORES * MAX_POS],
          seq(CORES, _ => seq(CORES * MAX_POS, _ => [])), seq(CORES, _ => seq(CORES * MAX_POS, _ => false)),
          seq(CORES, _ => Idle), seq(CORES * MAX_POS, _ => -1), seq(rows, _ => multiset{}))
  }

  lemma {:induction false} CountFirst(n: nat)
    requires n <= CORES
    ensures HeadCount(seq(CORES, _ => 0), FirstHeads(n), 0) == n
  {
    if n > 0 {
      CountFirst(n - 1);
      assert FirstHeads(n)[..n - 1] == FirstHeads(n - 1);
    }
  }

  lemma StartsEight(rows: nat)
    ensures IsRun(EightConfig(rows), [EightStart(rows)])
  {
    CountFirst(CORES);
    var cfg, s := EightConfig(rows), EightStart(rows);
    assert ZonesOk(cfg, s.heads, s.zonePos);
    hide HeadCount;
    assert HeadsOk(cfg, s.heads, s.cur, s.zonePos) && ChainsOk(s.heads, s.cur);
  }

  /** One more step. */
  lemma Extend(cfg: Config, run: seq<State>, s': State, c: nat, a: Action)
    requires IsRun(cfg, run) && Step(cfg, run[|run| - 1], s', c, a)
    ensures IsRun(cfg, run + [s'])
  {
    hide Step, Start;
    var run' := run + [s'];
    forall i | 0 <= i < |run'| - 1 ensures Next(cfg, run'[i], run'[i + 1]) {
      if i == |run| - 1 { assert Step(cfg, run'[i], run'[i + 1], c, a); }
    }
  }

  function Moved(s: State, c: nat, pc: Pc): State
    requires c < |s.pcs|
  {
    s.(pcs := s.pcs[c := pc])
  }

  // ---------- core 0 gives its next position to a row

  /** Nobody is at work; core 0 has given out `k` positions and row `k` has none. */
  ghost predicate Ready(cfg: Config, s: State, k: nat) {
    && cfg == EightConfig(|cfg.init|) && Shape(cfg, s) && k < MAX_POS && k < |cfg.init|
    && (forall c :: 0 <= c < CORES ==> s.pcs[c] == Idle)
    && s.cur[0] == 0 && s.heads[0] == Head(0, 0, k, -1) && s.bufPos[k] == -1
  }

  function Begun(s: State, k: nat): State
    requires k < |s.begun| && |s.pcs| > 0
  {
    s.(begun := s.begun[k := s.begun[k] + multiset{1}], pcs := s.pcs[0 := Carry(k, 1, Check)])
  }

  function Swapped(s: State, k: nat): State
    requires k < |s.begun| && |s.pcs| > 0 && k < |s.bufPos| && k < |s.rowOf|
  {
    Begun(s, k).(bufPos := s.bufPos[k := k], rowOf := s.rowOf[k := k], pcs := s.pcs[0 := Carry(k, 1, Backref)])
  }

  function Installed(s: State, k: nat): State
    requires k < |s.begun| && |s.pcs| > 0 && k < |s.bufPos| && k < |s.rowOf| && k < |s.backrefs|
  {
    Swapped(s, k).(backrefs := s.backrefs[k := k], pcs := s.pcs[0 := Carry(k, 1, Increment)])
  }

  lemma BeginSteps(cfg: Config, s: State, k: nat)
    requires Ready(cfg, s, k)
    ensures var s1 := Begun(s, k);
            var s2, s3 := Moved(s1, 0, Carry(k, 1, Install)), Moved(s1, 0, Carry(k, 1, Cas(k)));
            && Step(cfg, s, s1, 0, Begin(k, 1)) && Step(cfg, s1, s2, 0, CheckBusy) && Step(cfg, s2, s3, 0, Lookup)
  {
    hide ScanStep, BufferStep;
    var s1 := Begun(s, k);
    var s2, s3 := Moved(s1, 0, Carry(k, 1, Install)), Moved(s1, 0, Carry(k, 1, Cas(k)));
    assert s2.pcs[0 := Carry(k, 1, Cas(k))] == s3.pcs;
    assert s1.pcs[0 := Carry(k, 1, Install)] == s2.pcs;
    assert Step(cfg, s, s1, 0, Begin(k, 1));
    assert Step(cfg, s1, s2, 0, CheckBusy);
    assert Step(cfg, s2, s3, 0, Lookup);
  }

  lemma SwapStep(cfg: Config, s: State, k: nat)
    requires Ready(cfg, s, k)
    ensures Step(cfg, Moved(Begun(s, k), 0, Carry(k, 1, Cas(k))), Swapped(s, k), 0, Swap)
  {
    hide ScanStep, BufferStep;
    assert s.pcs[0 := Carry(k, 1, Check)][0 := Carry(k, 1, Cas(k))][0 := Carry(k, 1, Backref)]
        == s.pcs[0 := Carry(k, 1, Backref)];
  }

  lemma BackrefStep(cfg: Config, s: State, k: nat)
    requires Ready(cfg, s, k)
    ensures Step(cfg, Swapped(s, k), Installed(s, k), 0, SetBackref)
  {
    hide ScanStep, BufferStep;
    assert s.pcs[0 := Carry(k, 1, Backref)][0 := Carry(k, 1, Increment)] == s.pcs[0 := Carry(k, 1, Increment)];
  }

  /** The run goes on until the position is installed and the counter is about to move. */
  lemma InstallRow(cfg: Config, run: seq<State>, s: State, k: nat) returns (run': seq<State>)
    requires IsRun(cfg, run) && run[|run| - 1] == s && Ready(cfg, s, k)
    ensures IsRun(cfg, run') && run' != [] && run'[|run'| - 1] == Installed(s, k)
  {
    assert run != [];
    BeginSteps(cfg, s, k);
    SwapStep(cfg, s, k);
    BackrefStep(cfg, s, k);
    var s1 := Begun(s, k);
    var s2, s3 := Moved(s1, 0, Carry(k, 1, Install)), Moved(s1, 0, Carry(k, 1, Cas(k)));
    hide IsRun, Step, Ready, Begun, Swapped, Installed, Moved;
    Extend(cfg, run, s1, 0, Begin(k, 1));
    run' := run + [s1];
    Extend(cfg, run', s2, 0, CheckBusy);
    run' := run' + [s2];
    Extend(cfg, run', s3, 0, Lookup);
    run' := run' + [s3];
    Extend(cfg, run', Swapped(s, k), 0, Swap);
    run' := run' + [Swapped(s, k)];
    Extend(cfg, run', Installed(s, k), 0, SetBackref);
    run' := run' + [Installed(s, k)];
  }

  // ---------- a version that is never flushed

  ghost predicate ScansFrom(run: seq<State>, c: nat, f: nat) {
    forall k :: f <= k < |run| ==> c < |run[k].pcs| && run[k].pcs[c].Scan?
  }

  ghost predicate IdlesFrom(run: seq<State>, c: nat, f: nat) {
    forall k :: f <= k < |run| ==> c < |run[k].pcs| && run[k].pcs[c] == Idle
  }

  /** The heads of cores `i` and above are new and nobody installs into them. */
  ghost predicate UnusedFrom(cfg: Config, s: State, i: nat) {
    && Shape(cfg, s) && Alive(s.pcs) && |cfg.zone| == CORES
    && forall j :: i <= j < CORES ==>
         s.cur[j] == j < |s.heads| && s.heads[j].owner == j && s.heads[j].pos == 0 && s.heads[j].next == -1
         && !Installing(s.pcs[j])
  }

  /** Since state `f` every core but `c` is where it is in `s`. */
  ghost predicate OthersFrom(run: seq<State>, c: nat, f: nat, s: State) {
    forall k :: f <= k < |run| ==> c < |run[k].pcs| == |s.pcs| && run[k].pcs == s.pcs[c := run[k].pcs[c]]
  }

  lemma ShapeMoved(cfg: Config, s: State, c: nat)
    requires Shape(cfg, s) && c < |s.pcs|
    ensures forall pc :: Shape(cfg, Moved(s, c, pc)) && |s.pcs| == |s.cur| == |s.bits| == |cfg.zone|
  {}

  /** The four steps in which a scan passes an unused head. */
  lemma PassSteps(cfg: Config, s: State, c: nat, i: nat, missed: set<nat>)
    requires UnusedFrom(cfg, s, i) && i < CORES && c < |s.pcs| && s.pcs[c] == Scan(i, Load, missed)
    ensures var s1, s2 := Moved(s, c, Scan(i, Enter(i), missed)), Moved(s, c, Scan(i, Walk(i, 0, 0, false), missed));
            var s3, s4 := Moved(s, c, Scan(i, Enter(-1), missed)), Moved(s, c, Scan(i + 1, Load, missed));
            && Step(cfg, s, s1, c, LoadHead) && Step(cfg, s1, s2, c, ReadPos)
            && Step(cfg, s2, s3, c, ScanEnd) && Step(cfg, s3, s4, c, NextCore)
  {
    hide FindStep, BufferStep, WalkStep, Shape;
    ShapeMoved(cfg, s, c);
    var s1 := Moved(s, c, Scan(i, Enter(i), missed));
    assert s.cur[i] == i < |s.heads|;
    assert !InstallsAt(s1, i);
    assert missed + Skipped(s1, c, i) == missed;
  }

  lemma UnusedMoved(cfg: Config, s: State, c: nat, i: nat, pc: Pc)
    requires UnusedFrom(cfg, s, i) && c < |s.pcs| && pc.Scan?
    ensures UnusedFrom(cfg, Moved(s, c, pc), i) && UnusedFrom(cfg, Moved(s, c, pc), i + 1)
  {
    ShapeMoved(cfg, s, c);
    hide Shape;
    var s' := Moved(s, c, pc);
    forall d | 0 <= d < |s'.pcs| ensures !(s'.pcs[d].Carry? && s'.pcs[d].at == Crashed) {
      assert d == c || s'.pcs[d] == s.pcs[d];
    }
    forall j | i <= j < CORES ensures !Installing(s'.pcs[j]) && s.cur[j] == j {
      assert j == c || s'.pcs[j] == s.pcs[j];
    }
  }

  lemma FromMore(run: seq<State>, c: nat, f: nat, s: State, t: State)
    requires ScansFrom(run, c, f) && OthersFrom(run, c, f, s) && c < |s.pcs| == |t.pcs| && t.pcs[c].Scan?
    requires t.pcs == s.pcs[c := t.pcs[c]]
    ensures ScansFrom(run + [t], c, f) && OthersFrom(run + [t], c, f, s)
  {
    var run' := run + [t];
    assert forall k :: 0 <= k < |run| ==> run'[k] == run[k];
  }

  lemma FromJoin(next: seq<State>, run: seq<State>, c: nat, f: nat, s: State)
    requires next != [] && next <= run && ScansFrom(next, c, f) && ScansFrom(run, c, |next|)
    requires OthersFrom(next, c, f, s) && OthersFrom(run, c, |next|, next[|next| - 1])
    requires c < |s.pcs| == |next[|next| - 1].pcs| && next[|next| - 1].pcs == s.pcs[c := next[|next| - 1].pcs[c]]
    ensures ScansFrom(run, c, f) && OthersFrom(run, c, f, s)
  {
    var t := next[|next| - 1];
    forall k | |next| <= k < |run| ensures c < |run[k].pcs| == |s.pcs| && run[k].pcs == s.pcs[c := run[k].pcs[c]] {
      assert run[k].pcs == t.pcs[c := run[k].pcs[c]];
    }
    assert forall k :: 0 <= k < |next| ==> run[k] == next[k];
  }

  /** One more step of a scan that began to move at state `f` from `s`. */
  lemma ScanOn(cfg: Config, run: seq<State>, s: State, c: nat, f: nat, pc: Pc, a: Action)
    requires IsRun(cfg, run) && c < |s.pcs| && pc.Scan? && Step(cfg, run[|run| - 1], Moved(s, c, pc), c, a)
    requires ScansFrom(run, c, f) && OthersFrom(run, c, f, s)
    ensures var run' := run + [Moved(s, c, pc)];
            && IsRun(cfg, run') && run <= run' && run' != [] && run'[|run'| - 1] == Moved(s, c, pc)
            && ScansFrom(run', c, f) && OthersFrom(run', c, f, s)
  {
    assert run != [];
    hide IsRun, Step;
    Extend(cfg, run, Moved(s, c, pc), c, a);
    FromMore(run, c, f, s, Moved(s, c, pc));
    hide ScansFrom, OthersFrom;
  }

  /** A scan passes the unused heads of one core. */
  lemma PassCore(cfg: Config, run: seq<State>, c: nat, i: nat, missed: set<nat>) returns (run': seq<State>)
    requires IsRun(cfg, run) && i < CORES
    requires var s := run[|run| - 1]; UnusedFrom(cfg, s, i) && c < |s.pcs| && s.pcs[c] == Scan(i, Load, missed)
    ensures IsRun(cfg, run') && run <= run' && run' != []
    ensures run'[|run'| - 1] == Moved(run[|run| - 1], c, Scan(i + 1, Load, missed))
    ensures ScansFrom(run', c, |run|) && OthersFrom(run', c, |run|, run[|run| - 1])
  {
    assert run != [];
    var s, f := run[|run| - 1], |run|;
    assert ScansFrom(run, c, f) && OthersFrom(run, c, f, s);
    hide Step, IsRun, ScansFrom, OthersFrom, Moved, UnusedFrom;
    PassSteps(cfg, s, c, i, missed);
    ScanOn(cfg, run, s, c, f, Scan(i, Enter(i), missed), LoadHead);
    var run1 := run + [Moved(s, c, Scan(i, Enter(i), missed))];
    ScanOn(cfg, run1, s, c, f, Scan(i, Walk(i, 0, 0, false), missed), ReadPos);
    var run2 := run1 + [Moved(s, c, Scan(i, Walk(i, 0, 0, false), missed))];
    ScanOn(cfg, run2, s, c, f, Scan(i, Enter(-1), missed), ScanEnd);
    var run3 := run2 + [Moved(s, c, Scan(i, Enter(-1), missed))];
    ScanOn(cfg, run3, s, c, f, Scan(i + 1, Load, missed), NextCore);
    run' := run3 + [Moved(s, c, Scan(i + 1, Load, missed))];
  }

  /** A scan passes all unused heads and ends. */
  lemma {:induction false} PassCores(cfg: Config, run: seq<State>, c: nat, i: nat, missed: set<nat>)
    returns (run': seq<State>)
    requires IsRun(cfg, run) && i <= CORES
    requires var s := run[|run| - 1]; UnusedFrom(cfg, s, i) && c < |s.pcs| && s.pcs[c] == Scan(i, Load, missed)
    ensures IsRun(cfg, run') && run <= run' && run' != []
    ensures run'[|run'| - 1] == Moved(run[|run| - 1], c, Scan(CORES, Load, missed))
    ensures ScansFrom(run', c, |run|) && OthersFrom(run', c, |run|, run[|run| - 1])
    decreases CORES - i
  {
    assert run != [];
    var s := run[|run| - 1];
    assert ScansFrom(run, c, |run|) && OthersFrom(run, c, |run|, s);
    hide IsRun, UnusedFrom, ScansFrom, OthersFrom;
    run' := run;
    if i == CORES {
      assert s.pcs[c := s.pcs[c]] == s.pcs;
    } else {
      var next := PassCore(cfg, run, c, i, missed);
      UnusedMoved(cfg, s, c, i, Scan(i + 1, Load, missed));
      run' := PassCores(cfg, next, c, i + 1, missed);
      FromJoin(next, run', c, |run|, s);
      var last := Scan(CORES, Load, missed);
      assert s.pcs[c := Scan(i + 1, Load, missed)][c := last] == s.pcs[c := last];
    }
  }

  // the states of the run, for one row: core 0 installs position 0 for version 1 ...

  function Lost5(): State { Installed(EightStart(1), 0) }

  /** ... and stops before it moves its counter; core 1 puts version 2 there ... */
  function Lost6(): State {
    Lost5().(begun := [multiset{1, 2}], pcs := Lost5().pcs[1 := Carry(0, 2, Check)])
  }

  function Lost9(): State {
    Lost6().(bufs := SetBuf(Lost6().bufs, 1, 0, [2]), bits := SetBit(Lost6().bits, 1, 0, true),
             pcs := Lost6().pcs[1 := Idle])
  }

  lemma LostBegins() returns (run: seq<State>)
    ensures IsRun(EightConfig(1), run) && run != [] && run[|run| - 1] == Lost5()
  {
    StartsEight(1);
    run := InstallRow(EightConfig(1), [EightStart(1)], EightStart(1), 0);
  }

  lemma LostBegun()
    ensures Lost5().begun == [multiset{1}]
  {
    var none, one: multiset<nat> := multiset{}, multiset{1};
    assert none + one == one;
  }

  /** Core 1 finds the position of the row ... */
  lemma FindSteps()
    ensures var cfg := EightConfig(1);
            var s7, s8 := Moved(Lost6(), 1, Carry(0, 2, Install)), Moved(Lost6(), 1, Carry(0, 2, Append(0)));
            && Step(cfg, Lost5(), Lost6(), 1, Begin(0, 2)) && Step(cfg, Lost6(), s7, 1, CheckBusy)
            && Step(cfg, s7, s8, 1, Lookup)
  {
    hide ScanStep, BufferStep;
    LostBegun();
    var cfg := EightConfig(1);
    var one, two, both: multiset<nat> := multiset{1}, multiset{2}, multiset{1, 2};
    assert one + two == both;
    assert Lost5().begun[0 := Lost5().begun[0] + multiset{2}] == [both];
    var s7, s8 := Moved(Lost6(), 1, Carry(0, 2, Install)), Moved(Lost6(), 1, Carry(0, 2, Append(0)));
    assert s7.pcs[1 := Carry(0, 2, Append(0))] == s8.pcs;
    assert Step(cfg, Lost5(), Lost6(), 1, Begin(0, 2));
    assert Step(cfg, Lost6(), s7, 1, CheckBusy);
    assert Step(cfg, s7, s8, 1, Lookup);
  }

  /** ... and pushes its version. */
  lemma PushStep()
    ensures Step(EightConfig(1), Moved(Lost6(), 1, Carry(0, 2, Append(0))), Lost9(), 1, Push)
  {
    hide ScanStep, FindStep;
    var s8 := Moved(Lost6(), 1, Carry(0, 2, Append(0)));
    assert s8.pcs[1 := Idle] == Lost9().pcs;
    assert s8.bufs[1][0] == [] && [] + [2] == [2];
  }

  lemma LostPushed() returns (run: seq<State>)
    ensures IsRun(EightConfig(1), run) && run != [] && run[|run| - 1] == Lost9()
  {
    run := LostBegins();
    var cfg := EightConfig(1);
    FindSteps();
    PushStep();
    var s7, s8 := Moved(Lost6(), 1, Carry(0, 2, Install)), Moved(Lost6(), 1, Carry(0, 2, Append(0)));
    hide IsRun, Step, Lost5, Lost6, Lost9, EightConfig, Moved;
    Extend(cfg, run, Lost6(), 1, Begin(0, 2));
    run := run + [Lost6()];
    Extend(cfg, run, s7, 1, CheckBusy);
    run := run + [s7];
    Extend(cfg, run, s8, 1, Lookup);
    run := run + [s8];
    Extend(cfg, run, Lost9(), 1, Push);
    run := run + [Lost9()];
  }

  /** ... and scans: it reads 0 at the first head. */
  lemma MissSteps()
    ensures var cfg, s := EightConfig(1), Lost9();
            var s0, s1 := Moved(s, 1, Scan(0, Load, {})), Moved(s, 1, Scan(0, Enter(0), {}));
            var s2, s3 := Moved(s, 1, Scan(0, Walk(0, 0, 0, false), {0})), Moved(s, 1, Scan(0, Enter(-1), {0}));
            && Step(cfg, s, s0, 1, BeginScan) && Step(cfg, s0, s1, 1, LoadHead) && Step(cfg, s1, s2, 1, ReadPos)
            && Step(cfg, s2, s3, 1, ScanEnd) && Step(cfg, s3, Moved(s, 1, Scan(1, Load, {0})), 1, NextCore)
  {
    hide FindStep, BufferStep, WalkStep;
    var cfg, s := EightConfig(1), Lost9();
    var s0, s1 := Moved(s, 1, Scan(0, Load, {})), Moved(s, 1, Scan(0, Enter(0), {}));
    var s2, s3 := Moved(s, 1, Scan(0, Walk(0, 0, 0, false), {0})), Moved(s, 1, Scan(0, Enter(-1), {0}));
    assert Skips(s1, 1, 0);
    var none, zero: set<nat> := {}, {0};
    assert none + Skipped(s1, 1, 0) == zero;
    assert Step(cfg, s0, s1, 1, LoadHead);
    assert Step(cfg, s1, s2, 1, ReadPos);
    assert Step(cfg, s2, s3, 1, ScanEnd);
  }

  /** A scan that has come to core 1 passes the unused heads that are left and ends. */
  lemma EndScan(cfg: Config, run: seq<State>, c: nat, f: nat, missed: set<nat>, s: State) returns (run': seq<State>)
    requires IsRun(cfg, run) && 0 < f < |run| && c < |s.pcs|
    requires UnusedFrom(cfg, s, 1) && run[|run| - 1] == Moved(s, c, Scan(1, Load, missed))
    requires ScansFrom(run, c, f) && OthersFrom(run, c, f, s)
    requires c < |run[f - 1].pcs| && run[f - 1].pcs[c] == Idle && run[f].pcs[c] == Scan(0, Load, {})
    ensures IsRun(cfg, run') && run <= run' && run' != []
    ensures run'[|run'| - 1] == Moved(s, c, Idle) && OthersFrom(run', c, f, s)
    ensures IsScan(run', c, f - 1, |run'| - 1)
  {
    UnusedMoved(cfg, s, c, 1, Scan(1, Load, missed));
    UnusedMoved(cfg, s, c, 1, Scan(CORES, Load, missed));
    hide IsRun, Step, UnusedFrom;
    var t := run[|run| - 1];
    var next := PassCores(cfg, run, c, 1, missed);
    FromJoin(run, next, c, f, s);
    assert Moved(t, c, Scan(CORES, Load, missed)) == Moved(s, c, Scan(CORES, Load, missed));
    FinishStep(cfg, s, c, missed);
    Extend(cfg, next, Moved(s, c, Idle), c, Finish);
    run' := next + [Moved(s, c, Idle)];
    assert forall k :: 0 <= k < |next| ==> run'[k] == next[k];
    assert run'[f - 1] == run[f - 1] && run'[f] == run[f];
    assert |run| < |run'|;
    hide Moved, UnusedFrom;
  }

  lemma FinishStep(cfg: Config, s: State, c: nat, missed: set<nat>)
    requires UnusedFrom(cfg, s, 1) && c < |s.pcs|
    requires UnusedFrom(cfg, Moved(s, c, Scan(CORES, Load, missed)), 1)
    ensures Step(cfg, Moved(s, c, Scan(CORES, Load, missed)), Moved(s, c, Idle), c, Finish)
  {
    hide FindStep, BufferStep, WalkStep;
  }

  lemma LostMissed() returns (run: seq<State>, b: nat)
    ensures IsRun(EightConfig(1), run) && run != [] && run[|run| - 1] == Lost9() && IsScan(run, 1, b, |run| - 1)
  {
    var cfg, s := EightConfig(1), Lost9();
    run := LostPushed();
    MissSteps();
    LostUnused();
    assert s.pcs[1] == Idle && |s.pcs| == CORES;
    b := |run| - 1;
    var f := |run|;
    assert ScansFrom(run, 1, f) && OthersFrom(run, 1, f, s);
    hide IsRun, Step, Lost9, EightConfig, ScansFrom, OthersFrom, UnusedFrom;
    ScanOn(cfg, run, s, 1, f, Scan(0, Load, {}), BeginScan);
    run := run + [Moved(s, 1, Scan(0, Load, {}))];
    ScanOn(cfg, run, s, 1, f, Scan(0, Enter(0), {}), LoadHead);
    run := run + [Moved(s, 1, Scan(0, Enter(0), {}))];
    ScanOn(cfg, run, s, 1, f, Scan(0, Walk(0, 0, 0, false), {0}), ReadPos);
    run := run + [Moved(s, 1, Scan(0, Walk(0, 0, 0, false), {0}))];
    ScanOn(cfg, run, s, 1, f, Scan(0, Enter(-1), {0}), ScanEnd);
    run := run + [Moved(s, 1, Scan(0, Enter(-1), {0}))];
    ScanOn(cfg, run, s, 1, f, Scan(1, Load, {0}), NextCore);
    run := run + [Moved(s, 1, Scan(1, Load, {0}))];
    run := EndScan(cfg, run, 1, f, {0}, s);
    assert s.pcs[1 := Idle] == s.pcs;
    hide IsScan;
  }

  lemma LostUnused()
    ensures UnusedFrom(EightConfig(1), Lost9(), 1)
  {}

  // ... then core 0 goes on: its counter moves, its version is pushed and it scans its own buffers

  function LostA(): State {
    var s := Lost9();
    s.(heads := s.heads[0 := Head(0, 0, 1, -1)], bufs := SetBuf(s.bufs, 0, 1, []), bits := SetBit(s.bits, 0, 1, false),
       pcs := s.pcs[0 := Carry(0, 1, Append(0))])
  }

  function LostB(): State {
    var s := LostA();
    s.(bufs := SetBuf(s.bufs, 0, 0, [1]), bits := SetBit(s.bits, 0, 0, true), pcs := s.pcs[0 := Idle])
  }

  function LostC(): State {
    var s := LostB();
    s.(rows := [[1]], bufs := SetBuf(s.bufs, 0, 0, []), bits := SetBit(s.bits, 0, 0, false))
  }

  lemma AdvanceSteps()
    ensures var cfg := EightConfig(1);
            Step(cfg, Lost9(), LostA(), 0, Advance) && Step(cfg, LostA(), LostB(), 0, Push)
  {
    hide ScanStep;
    var cfg := EightConfig(1);
    assert LostA().bufs[0][0] == [] && [] + [1] == [1];
    assert Step(cfg, Lost9(), LostA(), 0, Advance);
    assert Step(cfg, LostA(), LostB(), 0, Push);
  }

  lemma ReadSteps()
    ensures var cfg, s := EightConfig(1), LostB();
            var s0, s1 := Moved(s, 0, Scan(0, Load, {})), Moved(s, 0, Scan(0, Enter(0), {}));
            && Step(cfg, s, s0, 0, BeginScan) && Step(cfg, s0, s1, 0, LoadHead)
            && Step(cfg, s1, Moved(s, 0, Scan(0, Walk(0, 1, 0, false), {})), 0, ReadPos)
  {
    hide FindStep, BufferStep, WalkStep;
    var cfg, s := EightConfig(1), LostB();
    var s0, s1 := Moved(s, 0, Scan(0, Load, {})), Moved(s, 0, Scan(0, Enter(0), {}));
    var none: set<nat> := {};
    assert none + Skipped(s1, 0, 0) == none;
    assert Step(cfg, s0, s1, 0, LoadHead);
  }

  lemma FlushStep()
    ensures Step(EightConfig(1), Moved(LostB(), 0, Scan(0, Walk(0, 1, 0, false), {})),
                 Moved(LostC(), 0, Scan(0, Walk(0, 1, 1, false), {})), 0, ScanFlush(0))
  {
    hide FindStep, BufferStep;
    var s := Moved(LostB(), 0, Scan(0, Walk(0, 1, 0, false), {}));
    assert s.rows[0][0..] == [] && [1][1..] == [] && InsertAll([], [1]) == [1];
    assert s.rows[0 := [1]] == [[1]] && s.cut[0 := 0] == s.cut;
    assert s.bufs[0][0] == [1];
    hide InsertAll;
  }

  lemma LeaveSteps()
    ensures var cfg, t := EightConfig(1), LostC();
            var t0, t1 := Moved(t, 0, Scan(0, Walk(0, 1, 1, false), {})), Moved(t, 0, Scan(0, Enter(-1), {}));
            Step(cfg, t0, t1, 0, ScanEnd) && Step(cfg, t1, Moved(t, 0, Scan(1, Load, {})), 0, NextCore)
  {
    hide FindStep, BufferStep, WalkStep;
  }

  lemma LostCounted(run: seq<State>) returns (run': seq<State>)
    requires IsRun(EightConfig(1), run) && run[|run| - 1] == Lost9()
    ensures IsRun(EightConfig(1), run') && run <= run' && run' != [] && run'[|run'| - 1] == LostB()
    ensures IdlesFrom(run', 1, |run|)
  {
    var cfg := EightConfig(1);
    assert run != [] && LostA().pcs[1] == Idle == LostB().pcs[1];
    AdvanceSteps();
    hide IsRun, Step, EightConfig, LostA, LostB, Lost9;
    Extend(cfg, run, LostA(), 0, Advance);
    Extend(cfg, run + [LostA()], LostB(), 0, Push);
    run' := run + [LostA()] + [LostB()];
  }

  lemma LostParts()
    ensures var s, t := LostB(), LostC();
            |t.pcs| == |s.pcs| == CORES && t.pcs == s.pcs && (forall c :: 0 <= c < CORES ==> t.pcs[c] == Idle)
            && t.rows == [[1]] && t.begun == [multiset{1, 2}]
  {}

  lemma LostRead(run: seq<State>) returns (run': seq<State>)
    requires IsRun(EightConfig(1), run) && run[|run| - 1] == LostB()
    ensures IsRun(EightConfig(1), run') && run <= run' && |run| < |run'|
    ensures run'[|run'| - 1] == Moved(LostB(), 0, Scan(0, Walk(0, 1, 0, false), {}))
    ensures ScansFrom(run', 0, |run|) && OthersFrom(run', 0, |run|, LostB())
    ensures 0 < |run'[|run|].pcs| && run'[|run|].pcs[0] == Scan(0, Load, {})
  {
    assert run != [];
    hide IsRun, Step, EightConfig, LostB;
    var cfg, s, f := EightConfig(1), LostB(), |run|;
    LostParts();
    ReadSteps();
    run' := run;
    assert ScansFrom(run', 0, f) && OthersFrom(run', 0, f, s);
    hide ScansFrom, OthersFrom;
    ScanOn(cfg, run', s, 0, f, Scan(0, Load, {}), BeginScan);
    run' := run' + [Moved(s, 0, Scan(0, Load, {}))];
    ScanOn(cfg, run', s, 0, f, Scan(0, Enter(0), {}), LoadHead);
    run' := run' + [Moved(s, 0, Scan(0, Enter(0), {}))];
    ScanOn(cfg, run', s, 0, f, Scan(0, Walk(0, 1, 0, false), {}), ReadPos);
    run' := run' + [Moved(s, 0, Scan(0, Walk(0, 1, 0, false), {}))];
  }

  lemma LostFlushed(run: seq<State>) returns (run': seq<State>, b: nat)
    requires IsRun(EightConfig(1), run) && run[|run| - 1] == LostB()
    ensures IsRun(EightConfig(1), run') && run <= run' && run' != [] && run'[|run'| - 1] == LostC()
    ensures IsScan(run', 0, b, |run'| - 1) && OthersFrom(run', 0, |run|, LostC())
  {
    assert run != [];
    hide IsRun, Step, EightConfig, UnusedFrom, LostB, LostC, IsScan, ScansFrom, OthersFrom;
    var cfg, s, t := EightConfig(1), LostB(), LostC();
    LostParts();
    FlushStep();
    LeaveSteps();
    LostDone();
    var f := |run|;
    b := f - 1;
    run' := LostRead(run);
    OthersSame(run', 0, f, s, t);
    ScanOn(cfg, run', t, 0, f, Scan(0, Walk(0, 1, 1, false), {}), ScanFlush(0));
    run' := run' + [Moved(t, 0, Scan(0, Walk(0, 1, 1, false), {}))];
    ScanOn(cfg, run', t, 0, f, Scan(0, Enter(-1), {}), ScanEnd);
    run' := run' + [Moved(t, 0, Scan(0, Enter(-1), {}))];
    ScanOn(cfg, run', t, 0, f, Scan(1, Load, {}), NextCore);
    run' := run' + [Moved(t, 0, Scan(1, Load, {}))];
    run' := EndScan(cfg, run', 0, f, {}, t);
    assert t.pcs[0 := Idle] == t.pcs;
  }

  lemma OthersSame(run: seq<State>, c: nat, f: nat, s: State, t: State)
    requires OthersFrom(run, c, f, s) && t.pcs == s.pcs
    ensures OthersFrom(run, c, f, t)
  {}

  lemma IdlesOn(part: seq<State>, run: seq<State>, f: nat, t: State)
    requires part <= run && IdlesFrom(part, 1, f) && OthersFrom(run, 0, |part|, t) && 1 < |t.pcs| && t.pcs[1] == Idle
    ensures IdlesFrom(run, 1, f)
  {
    forall k | f <= k < |run| ensures 1 < |run[k].pcs| && run[k].pcs[1] == Idle {
      if k < |part| { assert run[k] == part[k]; }
    }
  }

  lemma LostDone()
    ensures UnusedFrom(EightConfig(1), LostC(), 1)
  {}

  lemma ScanStays(part: seq<State>, run: seq<State>, c: nat, b: nat, e: nat)
    requires part <= run && IsScan(part, c, b, e)
    ensures IsScan(run, c, b, e)
  {
    assert forall k :: 0 <= k < |part| ==> run[k] == part[k];
  }

  /** Core 1 has flushed all it saw and so has core 0, both after their last version; version 2 is gone. */
  lemma LostVersionExample() returns (run: seq<State>, b0: nat, e0: nat, b1: nat, e1: nat)
    ensures var cfg, i := EightConfig(1), |run| - 1;
            && IsRun(cfg, run) && IsLastScan(run, 0, b0, e0, i) && IsLastScan(run, 1, b1, e1, i)
            && (forall c :: 0 <= c < |run[i].pcs| ==> run[i].pcs[c] == Idle)
            && run[i].begun == [multiset{1, 2}] && run[i].rows == [[1]]
  {
    hide IsRun, EightConfig, Lost9, LostB, LostC, OthersFrom;
    var part, more;
    part, b1 := LostMissed();
    e1 := |part| - 1;
    more := LostCounted(part);
    run, b0 := LostFlushed(more);
    e0 := |run| - 1;
    LostParts();
    ScanStays(part, run, 1, b1, e1);
    IdlesOn(more, run, |part|, LostC());
    assert run[e1] == part[e1];
    assert part[e1].pcs[1] == Idle && run[e0].pcs[0] == Idle;
    hide IsScan;
  }

  // ---------- an empty pool

  /** Core 0 has given positions 0 to k - 1 to rows 0 to k - 1; nobody is at work. */
  ghost predicate Filled(cfg: Config, s: State, k: nat) {
    && cfg == EightConfig(MAX_POS + 1) && Shape(cfg, s) && k <= MAX_POS
    && (forall c :: 0 <= c < CORES ==> s.pcs[c] == Idle)
    && s.cur[0] == 0 && s.heads[0] == Head(0, 0, k, -1) && s.zonePos == [CORES * MAX_POS]
    && (forall r :: k <= r < |s.bufPos| ==> s.bufPos[r] == -1)
    && (forall p :: k <= p < cfg.positions ==> s.bufs[0][p] == [])
  }

  function Counted(s: State, k: nat): State
    requires 0 < |s.heads| && 0 < |s.pcs| && 0 < |s.bufs| == |s.bits| && k + 1 < |s.bufs[0]| == |s.bits[0]|
  {
    var s1 := s.(heads := s.heads[0 := Head(0, 0, k + 1, -1)], pcs := s.pcs[0 := Carry(k, 1, Append(k))]);
    if k + 1 == MAX_POS then s1
    else s1.(bufs := SetBuf(s.bufs, 0, k + 1, []), bits := SetBit(s.bits, 0, k + 1, false))
  }

  function Pushed(s: State, k: nat): State
    requires 0 < |s.pcs| && 0 < |s.bufs| == |s.bits| && k < |s.bufs[0]| == |s.bits[0]|
  {
    s.(bufs := SetBuf(s.bufs, 0, k, [1]), bits := SetBit(s.bits, 0, k, true), pcs := s.pcs[0 := Idle])
  }

  lemma CountStep(cfg: Config, s: State, k: nat)
    requires Filled(cfg, s, k) && k < MAX_POS
    ensures var t := Installed(s, k);
            Step(cfg, t, Counted(t, k), 0, Advance)
  {
    hide ScanStep, BufferStep;
  }

  lemma PushedStep(cfg: Config, s: State, k: nat)
    requires Filled(cfg, s, k) && k < MAX_POS
    ensures var t := Counted(Installed(s, k), k);
            Step(cfg, t, Pushed(t, k), 0, Push) && Filled(cfg, Pushed(t, k), k + 1)
  {
    hide ScanStep, FindStep;
    var t := Counted(Installed(s, k), k);
    assert t.bufs[0][k] == [] && [] + [1] == [1];
  }

  /** After as many rows as a head has positions. */
  lemma {:induction false} FillHead(k: nat) returns (run: seq<State>)
    requires k <= MAX_POS
    ensures IsRun(EightConfig(MAX_POS + 1), run) && run != [] && Filled(EightConfig(MAX_POS + 1), run[|run| - 1], k)
    decreases k
  {
    var cfg := EightConfig(MAX_POS + 1);
    if k == 0 {
      StartsEight(MAX_POS + 1);
      run := [EightStart(MAX_POS + 1)];
    } else {
      run := FillHead(k - 1);
      var s := run[|run| - 1];
      run := InstallRow(cfg, run, s, k - 1);
      CountStep(cfg, s, k - 1);
      PushedStep(cfg, s, k - 1);
      var t := Counted(Installed(s, k - 1), k - 1);
      hide IsRun, Step, Filled, Installed, Counted, Pushed;
      Extend(cfg, run, t, 0, Advance);
      run := run + [t];
      Extend(cfg, run, Pushed(t, k - 1), 0, Push);
      run := run + [Pushed(t, k - 1)];
    }
  }

  lemma CrashSteps(cfg: Config, s: State)
    requires Filled(cfg, s, MAX_POS)
    ensures var s1 := Begun(s, MAX_POS);
            var s2 := Moved(s1, 0, Carry(MAX_POS, 1, Install));
            && Step(cfg, s, s1, 0, Begin(MAX_POS, 1)) && Step(cfg, s1, s2, 0, CheckBusy)
            && Step(cfg, s2, Moved(s1, 0, Carry(MAX_POS, 1, Crashed)), 0, NoHead)
  {
    hide ScanStep, BufferStep;
    var s1 := Begun(s, MAX_POS);
    var s2 := Moved(s1, 0, Carry(MAX_POS, 1, Install));
    assert s2.pcs[0 := Carry(MAX_POS, 1, Crashed)] == s1.pcs[0 := Carry(MAX_POS, 1, Crashed)];
    assert Step(cfg, s, s1, 0, Begin(MAX_POS, 1));
    assert Step(cfg, s1, s2, 0, CheckBusy);
    assert Step(cfg, s2, Moved(s1, 0, Carry(MAX_POS, 1, Crashed)), 0, NoHead);
  }

  /** One contended row more than a head has positions crashes the process. */
  lemma CrashExample() returns (run: seq<State>)
    ensures IsRun(EightConfig(MAX_POS + 1), run) && 0 < |run[|run| - 1].pcs|
    ensures run[|run| - 1].pcs[0] == Carry(MAX_POS, 1, Crashed)
  {
    var cfg := EightConfig(MAX_POS + 1);
    run := FillHead(MAX_POS);
    var s := run[|run| - 1];
    CrashSteps(cfg, s);
    var s1 := Begun(s, MAX_POS);
    var s2, s3 := Moved(s1, 0, Carry(MAX_POS, 1, Install)), Moved(s1, 0, Carry(MAX_POS, 1, Crashed));
    hide IsRun, Step, Filled, EightConfig;
    Extend(cfg, run, s1, 0, Begin(MAX_POS, 1));
    run := run + [s1];
    Extend(cfg, run, s2, 0, CheckBusy);
    run := run + [s2];
    Extend(cfg, run, s3, 0, NoHead);
    run := run + [s3];
  }
}
