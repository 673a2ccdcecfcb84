/** No core ever gets stuck in the middle of an append or of FinalizeFlush, and an append takes a bounded
    number of steps of its own core, whatever the others do. */
module BufferProgress {
  import opened Basics
  import opened VersionBuffers
  import VersionSeq

  /** A step that neither starts something new nor fails to get a lock. */
  predicate Works(a: Action) {
    !a.Begin? && a != BeginScan && a != GiveUp && a != ScanBusy
  }

  ghost predicate CanGo(cfg: Config, s: State, c: nat) {
    exists s', a :: Works(a) && Step(cfg, s, s', c, a)
  }

  // ---------- what the invariant says about the places a core needs

  lemma MergeCanBe(cfg: Config, s: State, r: nat, xs: seq<nat>, s': State)
    requires Inv(cfg, s) && r < |cfg.init|
    requires s'.rows == s.rows[r := VersionSeq.InsertAll(s.rows[r][0..], xs)] && s'.cut == s.cut
    ensures Merges(cfg, s, s', r, 0, xs)
  {
    hide HeadsOk, ChainsOk, PairsOk, SlotsOk, BufsOk, CountsOk, PcsOk;
    assert RowOk(cfg.init[r], s.rows[r], s.cut[r]);
    assert s.cut[r := s.cut[r] + 0] == s.cut;
  }

  /** All positions of a head lie inside the pool. */
  lemma HeadFits(cfg: Config, s: State, h: nat)
    requires Inv(cfg, s) && h < |s.heads|
    ensures s.heads[h].base + MAX_POS <= cfg.positions && s.heads[h].pos <= MAX_POS
  {
    hide ChainsOk, PairsOk, SlotsOk, BufsOk, RowsOk, CountsOk, PcsOk;
    assert HeadOk(cfg, s.heads[h], s.zonePos);
  }

  lemma PosFits(cfg: Config, s: State, r: nat)
    requires Inv(cfg, s) && r < |s.bufPos|
    ensures s.bufPos[r] == -1 || 0 <= s.bufPos[r] < cfg.positions
  {
    hide HeadsOk, ChainsOk, SlotsOk, BufsOk, RowsOk, CountsOk, PcsOk;
  }

  lemma ShapeOf(cfg: Config, s: State)
    requires Inv(cfg, s)
    ensures ConfigOk(cfg) && Shape(cfg, s)
  {
    hide HeadsOk, ChainsOk, PairsOk, SlotsOk, BufsOk, RowsOk, CountsOk, PcsOk;
  }

  // ---------- nobody is stuck

  lemma InstallCanGo(cfg: Config, s: State, c: nat)
    requires Inv(cfg, s) && Alive(s.pcs) && c < |s.pcs| && s.pcs[c].Carry?
    requires s.pcs[c].at == Install || s.pcs[c].at.Cas?
    ensures CanGo(cfg, s, c)
  {
    hide Inv, Alive, PcOk, ConfigOk;
    ShapeOf(cfg, s);
    CarryAt(cfg, s, c);
    var pc := s.pcs[c];
    var r, head, z := pc.r, s.heads[s.cur[c]], cfg.zone[c];
    PosFits(cfg, s, r);
    HeadFits(cfg, s, s.cur[c]);
    ZoneAt(cfg, c);
    if pc.at.Cas? {
      if s.bufPos[r] == -1 {
        var p := head.base + pc.at.k;
        assert Step(cfg, s, s.(bufPos := s.bufPos[r := p], rowOf := s.rowOf[p := r],
                               pcs := s.pcs[c := pc.(at := Backref)]), c, Swap);
      } else {
        assert Step(cfg, s, s.(pcs := s.pcs[c := pc.(at := Append(s.bufPos[r]))]), c, Swap);
      }
    } else if s.bufPos[r] != -1 {
      assert Step(cfg, s, s.(pcs := s.pcs[c := pc.(at := Append(s.bufPos[r]))]), c, Lookup);
    } else if head.pos < MAX_POS {
      assert Step(cfg, s, s.(pcs := s.pcs[c := pc.(at := Cas(head.pos))]), c, Lookup);
    } else if s.zonePos[z] + MAX_POS <= cfg.span {
      assert Step(cfg, s, s.(heads := s.heads + [Head(c, cfg.zoneBase[z] + s.zonePos[z], 0, s.cur[c])],
                             cur := s.cur[c := |s.heads|],
                             zonePos := s.zonePos[z := s.zonePos[z] + MAX_POS]), c, NewHead);
    } else {
      assert Step(cfg, s, s.(pcs := s.pcs[c := pc.(at := Crashed)]), c, NoHead);
    }
  }

  lemma ZoneAt(cfg: Config, c: nat)
    requires ConfigOk(cfg) && c < |cfg.zone|
    ensures cfg.zone[c] < |cfg.zoneBase|
  {}

  lemma CarryAt(cfg: Config, s: State, c: nat)
    requires Inv(cfg, s) && c < |s.pcs| && s.pcs[c].Carry?
    ensures CarryOk(cfg, s.heads, s.cur, s.bufPos, s.backrefs, s.pcs[c], c)
  {
    hide Inv, CarryOk;
    AtPc(cfg, s, c);
  }

  lemma BackrefCanGo(cfg: Config, s: State, c: nat)
    requires Inv(cfg, s) && Alive(s.pcs) && c < |s.pcs| && s.pcs[c].Carry? && s.pcs[c].at == Backref
    ensures CanGo(cfg, s, c)
  {
    hide Inv, Alive, PcOk, ConfigOk;
    ShapeOf(cfg, s);
    CarryAt(cfg, s, c);
    var pc := s.pcs[c];
    var head := s.heads[s.cur[c]];
    HeadFits(cfg, s, s.cur[c]);
    assert Step(cfg, s, s.(backrefs := s.backrefs[head.base + head.pos := pc.r],
                           pcs := s.pcs[c := pc.(at := Increment)]), c, SetBackref);
  }

  lemma AdvanceCanGo(cfg: Config, s: State, c: nat)
    requires Inv(cfg, s) && Alive(s.pcs) && c < |s.pcs| && s.pcs[c].Carry? && s.pcs[c].at == Increment
    ensures CanGo(cfg, s, c)
  {
    hide Inv, Alive, PcOk, ConfigOk, FindStep, BufferStep, Above;
    ShapeOf(cfg, s);
    CarryAt(cfg, s, c);
    HeadFits(cfg, s, s.cur[c]);
    if s.heads[s.cur[c]].pos + 1 != MAX_POS { AdvanceClears(cfg, s, c); }
    AdvanceIsStep(cfg, s, c);
    hide Advanced, CarryOk;
    assert Step(cfg, s, Advanced(s, c), c, Advance);
  }

  lemma AdvanceIsStep(cfg: Config, s: State, c: nat)
    requires Shape(cfg, s) && c < |s.pcs| && s.pcs[c].Carry? && s.pcs[c].r < |cfg.init| && s.pcs[c].at == Increment
    requires var head := s.heads[s.cur[c]];
             var p := head.base + head.pos + 1;
             head.pos + 1 == MAX_POS || (p < cfg.positions && s.bufs[c][p] == [] && !s.bits[c][p])
    ensures FindStep(cfg, s, Advanced(s, c), c, Advance)
  {
    var p := s.heads[s.cur[c]].base + s.heads[s.cur[c]].pos + 1;
    if s.heads[s.cur[c]].pos + 1 != MAX_POS {
      assert s.bufs[c][p := []] == s.bufs[c] && s.bits[c][p := false] == s.bits[c];
      assert SetBuf(s.bufs, c, p, []) == s.bufs && SetBit(s.bits, c, p, false) == s.bits;
    }
  }

  lemma AppendCanGo(cfg: Config, s: State, c: nat)
    requires Inv(cfg, s) && Alive(s.pcs) && c < |s.pcs| && s.pcs[c].Carry? && s.pcs[c].at.Append?
    ensures CanGo(cfg, s, c)
  {
    hide Inv, Alive, PcOk, ConfigOk, Merges, VersionSeq.InsertAll;
    ShapeOf(cfg, s);
    CarryAt(cfg, s, c);
    var pc := s.pcs[c];
    var r, p := pc.r, pc.at.p;
    PosFits(cfg, s, r);
    var buf := s.bufs[c][p];
    if |buf| != MAX_BATCH {
      assert Step(cfg, s, s.(bufs := SetBuf(s.bufs, c, p, buf + [pc.sid]),
                             bits := (if |buf| == 0 then SetBit(s.bits, c, p, true) else s.bits),
                             pcs := s.pcs[c := if |buf| + 1 > MAX_BATCH / 2 then TryFlush(r, p) else Idle]), c, Push);
    } else {
      var s' := s.(rows := s.rows[r := VersionSeq.InsertAll(s.rows[r][0..], [pc.sid])], pcs := s.pcs[c := Flush(r, p)]);
      MergeCanBe(cfg, s, r, [pc.sid], s');
      assert Step(cfg, s, s', c, PushFull(0));
    }
  }

  lemma OtherCarryCanGo(cfg: Config, s: State, c: nat)
    requires Inv(cfg, s) && Alive(s.pcs) && c < |s.pcs| && s.pcs[c].Carry?
    requires s.pcs[c].at == Check || s.pcs[c].at == Locked
    ensures CanGo(cfg, s, c)
  {
    hide Inv, Alive, PcOk, ConfigOk, Merges, VersionSeq.InsertAll;
    ShapeOf(cfg, s);
    CarryAt(cfg, s, c);
    var pc := s.pcs[c];
    var r := pc.r;
    if pc.at == Check {
      assert Step(cfg, s, s.(pcs := s.pcs[c := pc.(at := Install)]), c, CheckBusy);
    } else {
      var s' := s.(rows := s.rows[r := VersionSeq.InsertAll(s.rows[r][0..], [pc.sid])], pcs := s.pcs[c := Idle]);
      MergeCanBe(cfg, s, r, [pc.sid], s');
      assert Step(cfg, s, s', c, LockedAppend(0));
    }
  }

  lemma FlushCanGo(cfg: Config, s: State, c: nat)
    requires Inv(cfg, s) && Alive(s.pcs) && c < |s.pcs| && (s.pcs[c].TryFlush? || s.pcs[c].Flush?)
    ensures CanGo(cfg, s, c)
  {
    hide Inv, Alive, ConfigOk, Merges, VersionSeq.InsertAll;
    ShapeOf(cfg, s);
    AtPc(cfg, s, c);
    var pc := s.pcs[c];
    PosFits(cfg, s, pc.row);
    if pc.TryFlush? {
      assert Step(cfg, s, s.(pcs := s.pcs[c := Flush(pc.row, pc.p)]), c, LockForFlush);
    } else {
      var s' := s.(rows := s.rows[pc.row := VersionSeq.InsertAll(s.rows[pc.row][0..], s.bufs[c][pc.p])],
                   bufs := SetBuf(s.bufs, c, pc.p, []), bits := SetBit(s.bits, c, pc.p, false),
                   pcs := s.pcs[c := Idle]);
      MergeCanBe(cfg, s, pc.row, s.bufs[c][pc.p], s');
      assert Step(cfg, s, s', c, FlushBuffer(0));
    }
  }

  lemma ScanCanGo(cfg: Config, s: State, c: nat)
    requires Inv(cfg, s) && Alive(s.pcs) && c < |s.pcs| && s.pcs[c].Scan?
    ensures CanGo(cfg, s, c)
  {
    hide Inv, Alive, ConfigOk, WalkStep;
    ShapeOf(cfg, s);
    PlaceAt(cfg, s, c);
    var pc := s.pcs[c];
    match pc.place
    case Load =>
      if pc.i >= |s.cur| {
        assert Step(cfg, s, s.(pcs := s.pcs[c := Idle]), c, Finish);
      } else {
        assert Step(cfg, s, s.(pcs := s.pcs[c := Scan(pc.i, Enter(s.cur[pc.i]), pc.missed)]), c, LoadHead);
      }
    case Enter(h) =>
      if h < 0 {
        assert Step(cfg, s, s.(pcs := s.pcs[c := Scan(pc.i + 1, Load, pc.missed)]), c, NextCore);
      } else {
        var now := Scan(pc.i, Walk(h, s.heads[h].pos, 0, false), pc.missed + Skipped(s, c, h));
        assert Step(cfg, s, s.(pcs := s.pcs[c := now]), c, ReadPos);
      }
    case Walk(h, to, off, retry) =>
      if off >= to {
        var place := if retry then Walk(h, to, 0, false) else Enter(s.heads[h].next);
        assert Step(cfg, s, s.(pcs := s.pcs[c := Scan(pc.i, place, pc.missed)]), c, ScanEnd);
      } else {
        WalkCanGo(cfg, s, c);
      }
  }

  lemma PlaceAt(cfg: Config, s: State, c: nat)
    requires Inv(cfg, s) && c < |s.pcs| && s.pcs[c].Scan?
    ensures PlaceOk(s.heads, s.pcs[c])
  {
    hide Inv, PlaceOk;
    AtPc(cfg, s, c);
  }

  lemma WalkCanGo(cfg: Config, s: State, c: nat)
    requires Inv(cfg, s) && Alive(s.pcs) && c < |s.pcs| && s.pcs[c].Scan? && s.pcs[c].place.Walk?
    requires s.pcs[c].place.off < s.pcs[c].place.to
    ensures CanGo(cfg, s, c)
  {
    hide Inv, Alive, ConfigOk, Merges, VersionSeq.InsertAll;
    ShapeOf(cfg, s);
    PlaceAt(cfg, s, c);
    var pc := s.pcs[c];
    var w := pc.place;
    HeadFits(cfg, s, w.h);
    var p := s.heads[w.h].base + w.off;
    var on := s.pcs[c := Scan(pc.i, Walk(w.h, w.to, w.off + 1, w.retry), pc.missed)];
    if !s.bits[c][p] {
      assert Step(cfg, s, s.(pcs := on), c, ScanClear);
    } else {
      ScannedRow(cfg, s, w.h, p);
      var r := s.backrefs[p];
      var s' := s.(rows := s.rows[r := VersionSeq.InsertAll(s.rows[r][0..], s.bufs[c][p])],
                   bufs := SetBuf(s.bufs, c, p, []), bits := SetBit(s.bits, c, p, false), pcs := on);
      MergeCanBe(cfg, s, r, s.bufs[c][p], s');
      assert WalkStep(cfg, s, s', c, ScanFlush(0));
      assert Step(cfg, s, s', c, ScanFlush(0));
    }
  }

  /** In every state the process survives, a core that is not idle has a step that needs no luck with a lock. */
  lemma NeverStuck(cfg: Config, run: seq<State>, i: nat, c: nat)
    requires IsRun(cfg, run) && i < |run| && c < |run[i].pcs| && Alive(run[i].pcs) && run[i].pcs[c] != Idle
    ensures CanGo(cfg, run[i], c)
  {
    hide Inv, CanGo, Start, Next;
    RunInv(cfg, run, i);
    var s := run[i];
    match s.pcs[c]
    case Idle =>
    case TryFlush(_, _) => FlushCanGo(cfg, s, c);
    case Flush(_, _) => FlushCanGo(cfg, s, c);
    case Scan(_, _, _) => ScanCanGo(cfg, s, c);
    case Carry(_, _, at) =>
      match at
      case Check => OtherCarryCanGo(cfg, s, c);
      case Locked => OtherCarryCanGo(cfg, s, c);
      case Install => InstallCanGo(cfg, s, c);
      case Cas(_) => InstallCanGo(cfg, s, c);
      case Backref => BackrefCanGo(cfg, s, c);
      case Increment => AdvanceCanGo(cfg, s, c);
      case Append(_) => AppendCanGo(cfg, s, c);
      case Crashed =>
  }

  // ---------- an append is short

  /** In AppendNewVersion. */
  predicate Appending(pc: Pc) {
    (pc.Carry? && pc.at != Crashed) || pc.TryFlush? || pc.Flush?
  }

  function Rank(pc: Pc, full: bool): nat {
    match pc
    case Idle => 0
    case Scan(_, _, _) => 0
    case TryFlush(_, _) => 4
    case Flush(_, _) => 3
    case Carry(_, _, at) =>
      match at
      case Check => 11
      case Install => if full then 10 else 9
      case Cas(_) => 8
      case Backref => 7
      case Increment => 6
      case Append(_) => 5
      case Locked => 1
      case Crashed => 0
  }

  function StepsLeft(cfg: Config, s: State, c: nat): nat
    requires Shape(cfg, s) && c < |s.pcs|
  {
    Rank(s.pcs[c], s.heads[s.cur[c]].pos >= MAX_POS)
  }

  /** Where core `c` is and which head it uses; only its own steps change either. */
  predicate Stays(s: State, s': State, c: nat) {
    c < |s.pcs| && c < |s'.pcs| && c < |s.cur| && c < |s'.cur| && s'.pcs[c] == s.pcs[c] && s'.cur[c] == s.cur[c]
  }

  lemma FindLowers(cfg: Config, s: State, s': State, c: nat, a: Action)
    requires Shape(cfg, s) && Shape(cfg, s') && c < |s.pcs| && s.pcs[c].Carry? && s.pcs[c].r < |cfg.init|
    requires FindStep(cfg, s, s', c, a) && s.heads[s.cur[c]].pos <= MAX_POS
    ensures StepsLeft(cfg, s', c) < StepsLeft(cfg, s, c) && !Stays(s, s', c)
  {
    hide Merges, SetBuf, SetBit;
  }

  lemma BufferLowers(cfg: Config, s: State, s': State, c: nat, a: Action)
    requires Shape(cfg, s) && Shape(cfg, s') && c < |s.pcs| && BufferStep(cfg, s, s', c, a)
    ensures StepsLeft(cfg, s', c) < StepsLeft(cfg, s, c) && !Stays(s, s', c)
  {
    hide Merges, SetBuf, SetBit;
  }

  lemma NextShape(cfg: Config, s: State, s': State, c: nat, a: Action)
    requires Inv(cfg, s) && Step(cfg, s, s', c, a)
    ensures Shape(cfg, s) && Shape(cfg, s') && Inv(cfg, s')
  {
    hide Inv, Step, Shape;
    assert Next(cfg, s, s');
    NextKeeps(cfg, s, s');
    ShapeOf(cfg, s);
    ShapeOf(cfg, s');
  }

  lemma OwnStepLowers(cfg: Config, s: State, s': State, c: nat, a: Action)
    requires Inv(cfg, s) && Step(cfg, s, s', c, a) && Appending(s.pcs[c])
    ensures Shape(cfg, s) && Shape(cfg, s') && StepsLeft(cfg, s', c) < StepsLeft(cfg, s, c) && !Stays(s, s', c)
  {
    hide Inv, FindStep, BufferStep, ScanStep, Stays, Rank;
    NextShape(cfg, s, s', c, a);
    if BufferStep(cfg, s, s', c, a) {
      BufferLowers(cfg, s, s', c, a);
    } else {
      HeadFits(cfg, s, s.cur[c]);
      FindLowers(cfg, s, s', c, a);
    }
  }

  /** What a step of core `c` can do to the heads and to where the cores are. */
  ghost predicate OwnOnly(s: State, s': State, c: nat) {
    && c < |s.pcs| == |s'.pcs| && c < |s.cur| == |s'.cur| && s.cur[c] < |s.heads| <= |s'.heads|
    && (forall d :: 0 <= d < |s.pcs| && d != c ==> s'.pcs[d] == s.pcs[d])
    && (forall d :: 0 <= d < |s.cur| && d != c ==> s'.cur[d] == s.cur[d])
    && (forall h :: 0 <= h < |s.heads| && h != s.cur[c] ==> s'.heads[h] == s.heads[h])
  }

  lemma FindOwn(cfg: Config, s: State, s': State, c: nat, a: Action)
    requires Shape(cfg, s) && c < |s.pcs| && s.pcs[c].Carry? && s.pcs[c].r < |cfg.init| && FindStep(cfg, s, s', c, a)
    ensures OwnOnly(s, s', c)
  {
    hide Merges, SetBuf, SetBit;
  }

  lemma BufferOwn(cfg: Config, s: State, s': State, c: nat, a: Action)
    requires Shape(cfg, s) && c < |s.pcs| && BufferStep(cfg, s, s', c, a)
    ensures OwnOnly(s, s', c)
  {
    hide Merges, SetBuf, SetBit;
  }

  lemma ScanOwn(cfg: Config, s: State, s': State, c: nat, a: Action)
    requires Shape(cfg, s) && c < |s.pcs| && s.pcs[c].Scan? && ScanStep(cfg, s, s', c, a)
    ensures OwnOnly(s, s', c)
  {
    hide Merges, SetBuf, SetBit, Skipped;
  }

  lemma StepOwn(cfg: Config, s: State, s': State, c: nat, a: Action)
    requires Step(cfg, s, s', c, a)
    ensures OwnOnly(s, s', c)
  {
    hide FindStep, BufferStep, ScanStep;
    if a.Begin? || a == BeginScan {
    } else if s.pcs[c].Scan? {
      ScanOwn(cfg, s, s', c, a);
    } else if BufferStep(cfg, s, s', c, a) {
      BufferOwn(cfg, s, s', c, a);
    } else {
      FindOwn(cfg, s, s', c, a);
    }
  }

  lemma OtherStepKeeps(cfg: Config, s: State, s': State, c: nat, a: Action, d: nat)
    requires Inv(cfg, s) && Step(cfg, s, s', c, a) && d != c && d < |s.pcs|
    ensures Shape(cfg, s) && Shape(cfg, s') && StepsLeft(cfg, s', d) == StepsLeft(cfg, s, d) && Stays(s, s', d)
  {
    hide Inv, Step, HeadsOk, ChainsOk, Rank, CurOwned;
    NextShape(cfg, s, s', c, a);
    StepOwn(cfg, s, s', c, a);
    HeadsPart(cfg, s);
    CurDiffer(cfg, s.heads, s.cur, s.zonePos, c, d);
  }

  lemma StepLowers(cfg: Config, s: State, s': State, c: nat)
    requires Inv(cfg, s) && Next(cfg, s, s') && c < |s.pcs| && Appending(s.pcs[c])
    ensures Shape(cfg, s) && Shape(cfg, s')
    ensures StepsLeft(cfg, s', c) + (if Stays(s, s', c) then 0 else 1) <= StepsLeft(cfg, s, c)
  {
    hide Inv, Step, Stays, StepsLeft, Appending;
    var d: nat, a: Action :| Step(cfg, s, s', d, a);
    if d == c { OwnStepLowers(cfg, s, s', c, a); } else { OtherStepKeeps(cfg, s, s', d, a, c); }
  }

  /** How many steps core `c` took from state `i` to state `j`. */
  function OwnSteps(run: seq<State>, i: nat, j: nat, c: nat): nat
    requires i <= j < |run|
  {
    if i == j then 0 else OwnSteps(run, i, j - 1, c) + if Stays(run[j - 1], run[j], c) then 0 else 1
  }

  ghost predicate AppendingAll(run: seq<State>, i: nat, j: nat, c: nat) {
    i <= j < |run| && forall k :: i <= k < j ==> c < |run[k].pcs| && Appending(run[k].pcs[c])
  }

  lemma {:induction false} AppendLowers(cfg: Config, run: seq<State>, i: nat, j: nat, c: nat)
    requires IsRun(cfg, run) && AppendingAll(run, i, j, c) && c < |cfg.zone|
    ensures Shape(cfg, run[i]) && Shape(cfg, run[j]) && c < |run[i].pcs| && c < |run[j].pcs|
    ensures OwnSteps(run, i, j, c) + StepsLeft(cfg, run[j], c) <= StepsLeft(cfg, run[i], c)
    decreases j
  {
    hide Inv, Start, Next, StepsLeft, Stays, Appending;
    RunInv(cfg, run, j);
    ShapeOf(cfg, run[j]);
    if i < j {
      AppendLowers(cfg, run, i, j - 1, c);
      RunInv(cfg, run, j - 1);
      assert Next(cfg, run[j - 1], run[j]);
      StepLowers(cfg, run[j - 1], run[j], c);
    }
  }

  /** From where it is called a version is in the row or in a buffer, and a flush it caused is over, after at
      most eleven steps of its core, however many steps the other cores take meanwhile. */
  lemma AppendIsShort(cfg: Config, run: seq<State>, i: nat, j: nat, c: nat)
    requires IsRun(cfg, run) && AppendingAll(run, i, j, c) && c < |cfg.zone|
    ensures OwnSteps(run, i, j, c) <= 11 && c < |run[j].pcs|
    ensures OwnSteps(run, i, j, c) == 11 ==> !Appending(run[j].pcs[c])
  {
    hide IsRun, OwnSteps, AppendingAll, Shape;
    AppendLowers(cfg, run, i, j, c);
  }

  // ---------- a row that has a position

  /** What a step does to the positions of rows and to a core that is appending. */
  ghost predicate GoesOn(s: State, s': State, r: nat) {
    && |s'.bufPos| == |s.bufPos| && r < |s.bufPos|
    && (s.bufPos[r] != -1 ==> s'.bufPos[r] == s.bufPos[r])
    && forall c: nat :: c < |s.pcs| && Appending(s.pcs[c]) && s.bufPos[r] != -1 && ToBuffer(s.pcs[c], r) ==>
                          c < |s'.pcs| && ToBuffer(s'.pcs[c], r)
  }

  /** Not on the way to appending straight to the row. */
  predicate ToBuffer(pc: Pc, r: nat) {
    pc.Carry? ==> pc.r == r && pc.at != Locked
  }

  lemma FindGoesOn(cfg: Config, s: State, s': State, c: nat, a: Action, r: nat)
    requires Shape(cfg, s) && c < |s.pcs| && s.pcs[c].Carry? && s.pcs[c].r < |cfg.init| && FindStep(cfg, s, s', c, a)
    requires r < |s.bufPos|
    ensures GoesOn(s, s', r)
  {
    hide Merges, SetBuf, SetBit;
  }

  lemma BufferGoesOn(cfg: Config, s: State, s': State, c: nat, a: Action, r: nat)
    requires Shape(cfg, s) && c < |s.pcs| && BufferStep(cfg, s, s', c, a) && r < |s.bufPos|
    ensures GoesOn(s, s', r)
  {
    hide Merges, SetBuf, SetBit;
  }

  lemma ScanGoesOn(cfg: Config, s: State, s': State, c: nat, a: Action, r: nat)
    requires Shape(cfg, s) && c < |s.pcs| && s.pcs[c].Scan? && ScanStep(cfg, s, s', c, a) && r < |s.bufPos|
    ensures GoesOn(s, s', r)
  {
    hide Merges, SetBuf, SetBit, Skipped;
  }

  lemma StepGoesOn(cfg: Config, s: State, s': State, c: nat, a: Action, r: nat)
    requires Step(cfg, s, s', c, a) && r < |s.bufPos|
    ensures GoesOn(s, s', r)
  {
    hide FindStep, BufferStep, ScanStep;
    if a.Begin? || a == BeginScan {
    } else if s.pcs[c].Scan? {
      ScanGoesOn(cfg, s, s', c, a, r);
    } else if BufferStep(cfg, s, s', c, a) {
      BufferGoesOn(cfg, s, s', c, a, r);
    } else {
      FindGoesOn(cfg, s, s', c, a, r);
    }
  }

  /** A row keeps its position for ever. */
  lemma {:induction false} PositionStays(cfg: Config, run: seq<State>, i: nat, j: nat, r: nat)
    requires IsRun(cfg, run) && i <= j < |run| && r < |run[i].bufPos| && run[i].bufPos[r] != -1
    ensures r < |run[j].bufPos| && run[j].bufPos[r] == run[i].bufPos[r]
    decreases j
  {
    hide Step;
    if i < j {
      PositionStays(cfg, run, i, j - 1, r);
      assert Next(cfg, run[j - 1], run[j]);
      var c: nat, a: Action :| Step(cfg, run[j - 1], run[j], c, a);
      StepGoesOn(cfg, run[j - 1], run[j], c, a, r);
    }
  }

  /** Once a row has a position, no append that has yet to look gets past the buffers. */
  lemma PositionIsUsed(cfg: Config, run: seq<State>, i: nat, j: nat, c: nat, r: nat)
    requires IsRun(cfg, run) && AppendingAll(run, i, j, c) && r < |run[i].bufPos| && run[i].bufPos[r] != -1
    requires c < |run[i].pcs| && run[i].pcs[c].Carry? && run[i].pcs[c].r == r && run[i].pcs[c].at == Check
    ensures c < |run[j].pcs| && !(run[j].pcs[c].Carry? && run[j].pcs[c].at == Locked)
  {
    StaysToBuffer(cfg, run, i, j, c, r);
  }

  lemma {:induction false} StaysToBuffer(cfg: Config, run: seq<State>, i: nat, j: nat, c: nat, r: nat)
    requires IsRun(cfg, run) && AppendingAll(run, i, j, c) && r < |run[i].bufPos| && run[i].bufPos[r] != -1
    requires c < |run[i].pcs| && ToBuffer(run[i].pcs[c], r)
    ensures c < |run[j].pcs| && ToBuffer(run[j].pcs[c], r)
    decreases j
  {
    hide Step, ToBuffer, Appending;
    if i < j {
      StaysToBuffer(cfg, run, i, j - 1, c, r);
      PositionStays(cfg, run, i, j - 1, r);
      assert Next(cfg, run[j - 1], run[j]);
      var d: nat, a: Action :| Step(cfg, run[j - 1], run[j], d, a);
      StepGoesOn(cfg, run[j - 1], run[j], d, a, r);
    }
  }
}
