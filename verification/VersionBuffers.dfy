/** Version buffers of contention_manager.cc: every core collects new versions of a contended row
    in a buffer of its own, found through the row's buffer position, and flushes it into the row's
    sorted version array. A locked section of the row is one step here; a try-lock may fail at any
    time. */
module VersionBuffers {
  import opened Basics
  import opened LowerBound
  import opened VersionSeq

  const MAX_POS: nat := 8192

  /** Positions base..base+MAX_POS-1 of all cores' buffers, handed out by the owner core; `next` is the
      owner's head before this one, or -1. */
  datatype Head = Head(owner: nat, base: nat, pos: nat, next: int)

  /** Where a core is in AppendNewVersion while it carries a version; `Crashed` is after it wrote
      through the null head it got from an empty pool. */
  datatype At = Check | Locked | Install | Cas(k: nat) | Backref | Increment | Append(p: nat) | Crashed

  /** Where a core is in FinalizeFlush: about to load the newest head of a core, about to read the
      counter of head `h`, or at an offset of the part of `h` below the counter it has read. */
  datatype ScanAt = Load | Enter(head: int) | Walk(h: nat, to: nat, off: nat, retry: bool)

  /** A scan is at the heads of core `i`; `missed` records the positions it has left behind set. */
  datatype Pc =
    | Idle
    | Carry(r: nat, sid: nat, at: At)
    | TryFlush(row: nat, p: nat)
    | Flush(row: nat, p: nat)
    | Scan(i: nat, place: ScanAt, missed: set<nat>)

  /** `init` holds each row's versions at the start; `zone` maps cores to memory zones, and zone z
      owns positions zoneBase[z]..zoneBase[z]+span-1. */
  datatype Config = Config(init: seq<seq<nat>>, zone: seq<nat>, zoneBase: seq<nat>, span: nat, positions: nat)

  /** `rowOf` records which row a position was given to, `begun` which versions appends were
      called for, `cut` how many of a row's initial versions were collected since. */
  datatype State = State(
    rows: seq<seq<nat>>, cut: seq<nat>, bufPos: seq<int>, backrefs: seq<int>,
    heads: seq<Head>, cur: seq<nat>, zonePos: seq<nat>,
    bufs: seq<seq<seq<nat>>>, bits: seq<seq<bool>>, pcs: seq<Pc>,
    rowOf: seq<int>, begun: seq<multiset<nat>>)

  ghost predicate ConfigOk(cfg: Config) {
    && (forall r :: 0 <= r < |cfg.init| ==> Sorted(cfg.init[r]))
    && (forall c :: 0 <= c < |cfg.zone| ==> cfg.zone[c] < |cfg.zoneBase|)
    && (forall z, y :: 0 <= z < y < |cfg.zoneBase| ==> cfg.zoneBase[z] + cfg.span <= cfg.zoneBase[y])
    && (forall z :: 0 <= z < |cfg.zoneBase| ==> cfg.zoneBase[z] + cfg.span <= cfg.positions)
  }

  ghost predicate Shape(cfg: Config, s: State) {
    && |s.rows| == |s.cut| == |s.bufPos| == |s.begun| == |cfg.init|
    && |s.backrefs| == |s.rowOf| == cfg.positions && |s.zonePos| == |cfg.zoneBase|
    && |s.cur| == |s.bufs| == |s.bits| == |s.pcs| == |cfg.zone|
    && (forall c :: 0 <= c < |s.bufs| ==> |s.bufs[c]| == |s.bits[c]| == cfg.positions)
    && (forall c :: 0 <= c < |s.cur| ==> s.cur[c] < |s.heads|)
  }

  // ---------- steps

  datatype Action =
    | Begin(row: nat, sid: nat)
    | CheckFree
    | CheckBusy
    | LockedAppend(drop: nat)
    | Lookup
    | NewHead
    | NoHead
    | Swap
    | SetBackref
    | Advance
    | Push
    | PushFull(drop: nat)
    | LockForFlush
    | GiveUp
    | FlushBuffer(drop: nat)
    | BeginScan
    | LoadHead
    | NextCore
    | ReadPos
    | ScanClear
    | ScanBusy
    | ScanFlush(drop: nat)
    | ScanEnd
    | Finish

  /** IncreaseSize may collect `drop` of the initial versions, then `xs` are merged in. */
  ghost predicate Merges(cfg: Config, s: State, s': State, r: nat, drop: nat, xs: seq<nat>)
    requires Shape(cfg, s)
  {
    && r < |cfg.init| && drop + s.cut[r] <= |cfg.init[r]| && drop <= |s.rows[r]|
    && s'.rows == s.rows[r := InsertAll(s.rows[r][drop..], xs)]
    && s'.cut == s.cut[r := s.cut[r] + drop]
  }

  function SetBuf(bufs: seq<seq<seq<nat>>>, c: nat, p: nat, xs: seq<nat>): (r: seq<seq<seq<nat>>>)
    requires c < |bufs| && p < |bufs[c]|
    ensures |r| == |bufs|
  {
    bufs[c := bufs[c][p := xs]]
  }

  function SetBit(bits: seq<seq<bool>>, c: nat, p: nat, b: bool): (r: seq<seq<bool>>)
    requires c < |bits| && p < |bits[c]|
    ensures |r| == |bits|
  {
    bits[c := bits[c][p := b]]
  }

  /** Versions of the row are below every new serial id. */
  predicate Above(init: seq<seq<nat>>, r: nat, sid: nat) {
    r < |init| && forall i :: 0 <= i < |init[r]| ==> init[r][i] <= sid
  }

  /** The steps of AppendNewVersion up to a buffer position. */
  ghost predicate FindStep(cfg: Config, s: State, s': State, c: nat, a: Action)
    requires Shape(cfg, s) && c < |s.pcs| && s.pcs[c].Carry? && s.pcs[c].r < |cfg.init|
  {
    var pc := s.pcs[c];
    var r, sid := pc.r, pc.sid;
    var head := s.heads[s.cur[c]];
    match a
    case CheckFree =>
      pc.at == Check && s.bufPos[r] == -1 && s' == s.(pcs := s.pcs[c := pc.(at := Locked)])
    case CheckBusy =>
      pc.at == Check && s' == s.(pcs := s.pcs[c := pc.(at := Install)])
    case LockedAppend(drop) =>
      pc.at == Locked && Merges(cfg, s, s', r, drop, [sid])
        && s' == s.(rows := s'.rows, cut := s'.cut, pcs := s.pcs[c := Idle])
    case Lookup =>
      && pc.at == Install
      && (if s.bufPos[r] != -1 then s.bufPos[r] >= 0 && s' == s.(pcs := s.pcs[c := pc.(at := Append(s.bufPos[r]))])
          else head.pos < MAX_POS && s' == s.(pcs := s.pcs[c := pc.(at := Cas(head.pos))]))
    case NewHead =>
      var z := cfg.zone[c];
      && pc.at == Install && s.bufPos[r] == -1 && head.pos >= MAX_POS
      && z < |s.zonePos| && s.zonePos[z] + MAX_POS <= cfg.span
      && s' == s.(heads := s.heads + [Head(c, cfg.zoneBase[z] + s.zonePos[z], 0, s.cur[c])],
                  cur := s.cur[c := |s.heads|],
                  zonePos := s.zonePos[z := s.zonePos[z] + MAX_POS])
    case NoHead =>
      var z := cfg.zone[c];
      && pc.at == Install && s.bufPos[r] == -1 && head.pos >= MAX_POS
      && z < |s.zonePos| && s.zonePos[z] + MAX_POS > cfg.span
      && s' == s.(pcs := s.pcs[c := pc.(at := Crashed)])
    case Swap =>
      && pc.at.Cas?
      && (if s.bufPos[r] == -1 then
            && head.base + pc.at.k < cfg.positions
            && s' == s.(bufPos := s.bufPos[r := head.base + pc.at.k], rowOf := s.rowOf[head.base + pc.at.k := r],
                        pcs := s.pcs[c := pc.(at := Backref)])
          else s.bufPos[r] >= 0 && s' == s.(pcs := s.pcs[c := pc.(at := Append(s.bufPos[r]))]))
    case SetBackref =>
      && pc.at == Backref && head.base + head.pos < cfg.positions
      && s' == s.(backrefs := s.backrefs[head.base + head.pos := r], pcs := s.pcs[c := pc.(at := Increment)])
    case Advance =>
      var p := head.base + head.pos;
      var s1 := s.(heads := s.heads[s.cur[c] := head.(pos := head.pos + 1)], pcs := s.pcs[c := pc.(at := Append(p))]);
      && pc.at == Increment
      && (if head.pos + 1 == MAX_POS then s' == s1
          else p + 1 < cfg.positions &&
               s' == s1.(bufs := SetBuf(s.bufs, c, p + 1, []), bits := SetBit(s.bits, c, p + 1, false)))
    case _ => false
  }

  /** The steps of VersionBufferHandle::Append and FlushIntoNoLock. */
  ghost predicate BufferStep(cfg: Config, s: State, s': State, c: nat, a: Action)
    requires Shape(cfg, s) && c < |s.pcs|
  {
    var pc := s.pcs[c];
    match a
    case Push =>
      && pc.Carry? && pc.at.Append? && pc.at.p < cfg.positions && pc.r < |cfg.init|
      && var buf := s.bufs[c][pc.at.p];
         && |buf| != MAX_BATCH
         && s' == s.(bufs := SetBuf(s.bufs, c, pc.at.p, buf + [pc.sid]),
                     bits := (if |buf| == 0 then SetBit(s.bits, c, pc.at.p, true) else s.bits),
                     pcs := s.pcs[c := if |buf| + 1 > MAX_BATCH / 2 then TryFlush(pc.r, pc.at.p) else Idle])
    case PushFull(drop) =>
      && pc.Carry? && pc.at.Append? && pc.at.p < cfg.positions && |s.bufs[c][pc.at.p]| == MAX_BATCH
      && Merges(cfg, s, s', pc.r, drop, [pc.sid])
      && s' == s.(rows := s'.rows, cut := s'.cut, pcs := s.pcs[c := Flush(pc.r, pc.at.p)])
    case LockForFlush =>
      pc.TryFlush? && s' == s.(pcs := s.pcs[c := Flush(pc.row, pc.p)])
    case GiveUp =>
      pc.TryFlush? && s' == s.(pcs := s.pcs[c := Idle])
    case FlushBuffer(drop) =>
      && pc.Flush? && pc.p < cfg.positions
      && Merges(cfg, s, s', pc.row, drop, s.bufs[c][pc.p])
      && s' == s.(rows := s'.rows, cut := s'.cut, bufs := SetBuf(s.bufs, c, pc.p, []),
                  bits := SetBit(s.bits, c, pc.p, false), pcs := s.pcs[c := Idle])
    case _ => false
  }

  /** The owner of head `h` has given out the position at its counter and not yet moved the counter. */
  predicate InstallsAt(s: State, h: nat)
    requires h < |s.heads|
  {
    var o := s.heads[h].owner;
    o < |s.cur| && o < |s.pcs| && s.cur[o] == h && Installing(s.pcs[o])
  }

  /** Reading the counter of head `h` now leaves out a position at which core `c` has something. */
  predicate Skips(s: State, c: nat, h: nat)
    requires h < |s.heads| && c < |s.bits|
  {
    var p := s.heads[h].base + s.heads[h].pos;
    InstallsAt(s, h) && p < |s.bits[c]| && s.bits[c][p]
  }

  function Skipped(s: State, c: nat, h: nat): set<nat>
    requires h < |s.heads| && c < |s.bits|
  {
    if Skips(s, c, h) then {s.heads[h].base + s.heads[h].pos} else {}
  }

  /** The steps of FinalizeFlush: core after core, from its newest head to its oldest, every position
      below the counter as it was read once, again while one was busy. */
  ghost predicate ScanStep(cfg: Config, s: State, s': State, c: nat, a: Action)
    requires Shape(cfg, s) && c < |s.pcs| && s.pcs[c].Scan?
  {
    var pc := s.pcs[c];
    match pc.place
    case Load =>
      if pc.i >= |s.cur| then a == Finish && s' == s.(pcs := s.pcs[c := Idle])
      else a == LoadHead && s' == s.(pcs := s.pcs[c := pc.(place := Enter(s.cur[pc.i]))])
    case Enter(h) =>
      if h < 0 then a == NextCore && s' == s.(pcs := s.pcs[c := Scan(pc.i + 1, Load, pc.missed)])
      else
        && a == ReadPos && h < |s.heads|
        && s' == s.(pcs := s.pcs[c := Scan(pc.i, Walk(h, s.heads[h].pos, 0, false), pc.missed + Skipped(s, c, h))])
    case Walk(h, to, off, retry) =>
      && h < |s.heads|
      && if off >= to then
           && a == ScanEnd
           && s' == s.(pcs := s.pcs[c := pc.(place := if retry then Walk(h, to, 0, false) else Enter(s.heads[h].next))])
         else WalkStep(cfg, s, s', c, a)
  }

  ghost predicate WalkStep(cfg: Config, s: State, s': State, c: nat, a: Action)
    requires Shape(cfg, s) && c < |s.pcs| && s.pcs[c].Scan? && s.pcs[c].place.Walk? && s.pcs[c].place.h < |s.heads|
  {
    var pc := s.pcs[c];
    var w := pc.place;
    var p := s.heads[w.h].base + w.off;
    && p < cfg.positions
    && match a
       case ScanClear => !s.bits[c][p] && s' == s.(pcs := s.pcs[c := pc.(place := w.(off := w.off + 1))])
       case ScanBusy => s.bits[c][p] && s' == s.(pcs := s.pcs[c := pc.(place := w.(off := w.off + 1, retry := true))])
       case ScanFlush(drop) =>
         && s.bits[c][p] && s.backrefs[p] >= 0
         && Merges(cfg, s, s', s.backrefs[p], drop, s.bufs[c][p])
         && s' == s.(rows := s'.rows, cut := s'.cut, bufs := SetBuf(s.bufs, c, p, []),
                     bits := SetBit(s.bits, c, p, false), pcs := s.pcs[c := pc.(place := w.(off := w.off + 1))])
       case _ => false
  }

  /** A crash of one core ends the process. */
  ghost predicate Alive(pcs: seq<Pc>) {
    forall c :: 0 <= c < |pcs| ==> !(pcs[c].Carry? && pcs[c].at == Crashed)
  }

  ghost predicate Step(cfg: Config, s: State, s': State, c: nat, a: Action) {
    && Shape(cfg, s) && c < |s.pcs| && Alive(s.pcs)
    && if a.Begin? then
         && s.pcs[c] == Idle && Above(cfg.init, a.row, a.sid)
         && s' == s.(begun := s.begun[a.row := s.begun[a.row] + multiset{a.sid}],
                     pcs := s.pcs[c := Carry(a.row, a.sid, if a.sid == 0 then Locked else Check)])
       else if a == BeginScan then s.pcs[c] == Idle && s' == s.(pcs := s.pcs[c := Scan(0, Load, {})])
       else if s.pcs[c].Scan? then ScanStep(cfg, s, s', c, a)
       else
         || BufferStep(cfg, s, s', c, a)
         || (s.pcs[c].Carry? && s.pcs[c].r < |cfg.init| && FindStep(cfg, s, s', c, a))
  }

  ghost predicate Next(cfg: Config, s: State, s': State) {
    exists c: nat, a: Action :: Step(cfg, s, s', c, a)
  }

  ghost predicate Start(cfg: Config, s: State) {
    && ConfigOk(cfg) && Shape(cfg, s)
    && s.rows == cfg.init && (forall r ::
                               0 <= r < |s.rows| ==> s.cut[r] == 0 && s.bufPos[r] == -1 && s.begun[r] == multiset{})
    && (forall p :: 0 <= p < |s.rowOf| ==> s.rowOf[p] == -1)
    && (forall c, p :: 0 <= c < |s.bufs| && 0 <= p < cfg.positions ==> s.bufs[c][p] == [] && !s.bits[c][p])
    && (forall c :: 0 <= c < |s.pcs| ==> s.pcs[c] == Idle)
    && HeadsOk(cfg, s.heads, s.cur, s.zonePos) && ChainsOk(s.heads, s.cur)
    && (forall h :: 0 <= h < |s.heads| ==> s.heads[h].pos == 0)
    && ZonesOk(cfg, s.heads, s.zonePos)
  }

  ghost predicate IsRun(cfg: Config, run: seq<State>) {
    && run != [] && Start(cfg, run[0])
    && forall i :: 0 <= i < |run| - 1 ==> Next(cfg, run[i], run[i + 1])
  }

  /** Heads taken from the pool of zone `z`. */
  function HeadCount(zone: seq<nat>, heads: seq<Head>, z: nat): nat {
    if heads == [] then 0
    else
      var last := heads[|heads| - 1];
      HeadCount(zone, heads[..|heads| - 1], z) + if last.owner < |zone| && zone[last.owner] == z then 1 else 0
  }

  /** A zone's counter has moved by one head's positions for every head taken. */
  ghost predicate ZonesOk(cfg: Config, heads: seq<Head>, zonePos: seq<nat>) {
    forall z :: 0 <= z < |zonePos| ==> zonePos[z] == MAX_POS * HeadCount(cfg.zone, heads, z)
  }

  // ---------- the invariant

  predicate Apart(a: Head, b: Head) {
    a.base + MAX_POS <= b.base || b.base + MAX_POS <= a.base
  }

  ghost predicate HeadOk(cfg: Config, head: Head, zonePos: seq<nat>) {
    && head.owner < |cfg.zone| && head.pos <= MAX_POS
    && var z := cfg.zone[head.owner];
       && z < |cfg.zoneBase| == |zonePos|
       && cfg.zoneBase[z] <= head.base && head.base + MAX_POS <= cfg.zoneBase[z] + zonePos[z]
  }

  ghost predicate HeadsOk(cfg: Config, heads: seq<Head>, cur: seq<nat>, zonePos: seq<nat>) {
    && |cur| == |cfg.zone| && |zonePos| == |cfg.zoneBase|
    && (forall z :: 0 <= z < |zonePos| ==> zonePos[z] <= cfg.span)
    && (forall h :: 0 <= h < |heads| ==> HeadOk(cfg, heads[h], zonePos))
    && (forall h, g :: 0 <= h < g < |heads| ==> Apart(heads[h], heads[g]))
    && (forall c :: 0 <= c < |cur| ==> cur[c] < |heads| && heads[cur[c]].owner == c)
  }

  /** The heads of a core are linked from the newest to the oldest. */
  ghost predicate ChainsOk(heads: seq<Head>, cur: seq<nat>) {
    && (forall h :: 0 <= h < |heads| ==> ChainOk(heads, h))
    && (forall c, g :: 0 <= c < |cur| && cur[c] < g < |heads| ==> heads[g].owner != c)
  }

  ghost predicate ChainOk(heads: seq<Head>, h: nat)
    requires h < |heads|
  {
    && -1 <= heads[h].next < h && (heads[h].next >= 0 ==> heads[heads[h].next].owner == heads[h].owner)
    && forall g :: heads[h].next < g < h ==> heads[g].owner != heads[h].owner
  }

  predicate Installing(pc: Pc) {
    pc.Carry? && (pc.at == Backref || pc.at == Increment)
  }

  /** Positions given out by head `h`: those below its counter, and the next one while its owner is
      in the middle of installing it. */
  predicate Taken(heads: seq<Head>, cur: seq<nat>, pcs: seq<Pc>, h: nat, k: nat)
    requires h < |heads|
  {
    || k < heads[h].pos
    || (k == heads[h].pos && heads[h].owner < |cur| == |pcs| && cur[heads[h].owner] == h
        && Installing(pcs[heads[h].owner]))
  }

  predicate Inside(head: Head, p: int) {
    head.base <= p < head.base + MAX_POS
  }

  /** A row has at most one position and a position at most one row. */
  ghost predicate PairsOk(bufPos: seq<int>, rowOf: seq<int>) {
    && (forall r :: 0 <= r < |bufPos| && bufPos[r] != -1 ==> 0 <= bufPos[r] < |rowOf| && rowOf[bufPos[r]] == r)
    && (forall p :: 0 <= p < |rowOf| && rowOf[p] != -1 ==> 0 <= rowOf[p] < |bufPos| && bufPos[rowOf[p]] == p)
  }

  /** The positions with a row are exactly those given out by some head. */
  ghost predicate SlotsOk(heads: seq<Head>, cur: seq<nat>, pcs: seq<Pc>, rowOf: seq<int>, backrefs: seq<int>) {
    && |backrefs| == |rowOf|
    && (forall h, p :: 0 <= h < |heads| && 0 <= p < |rowOf| && Inside(heads[h], p) ==>
          (rowOf[p] != -1 <==> Taken(heads, cur, pcs, h, p - heads[h].base)))
    && (forall h, p ::
         0 <= h < |heads| && 0 <= p < |rowOf| && Inside(heads[h], p) && p < heads[h].base + heads[h].pos ==>
           backrefs[p] == rowOf[p])
    && (forall p :: 0 <= p < |rowOf| && rowOf[p] != -1 ==> exists h :: 0 <= h < |heads| && Inside(heads[h], p))
  }

  /** A bit is set exactly when the buffer holds something; only positions with a row hold any. */
  ghost predicate BufsOk(init: seq<seq<nat>>, bufs: seq<seq<seq<nat>>>, bits: seq<seq<bool>>, rowOf: seq<int>) {
    && |bufs| == |bits|
    && (forall c :: 0 <= c < |bufs| ==> |bufs[c]| == |bits[c]| == |rowOf|)
    && (forall c, p :: 0 <= c < |bufs| && 0 <= p < |rowOf| ==> BufOk(init, bufs[c][p], bits[c][p], rowOf[p]))
  }

  ghost predicate BufOk(init: seq<seq<nat>>, buf: seq<nat>, bit: bool, row: int) {
    && (bit <==> buf != []) && |buf| <= MAX_BATCH
    && (buf != [] ==> row >= 0 && forall i :: 0 <= i < |buf| ==> Above(init, row, buf[i]))
  }

  /** A row is sorted and starts with what is left of its initial versions. */
  ghost predicate RowOk(init: seq<nat>, row: seq<nat>, cut: nat) {
    && Sorted(row) && cut <= |init| <= |row| + cut
    && row[..|init| - cut] == init[cut..]
  }

  ghost predicate RowsOk(init: seq<seq<nat>>, rows: seq<seq<nat>>, cut: seq<nat>) {
    && |rows| == |cut| == |init|
    && forall r :: 0 <= r < |rows| ==> RowOk(init[r], rows[r], cut[r])
  }

  /** What core-local state holds for row `r`: its buffer at the row's position and the version it
      carries. */
  function Holds(buf: seq<seq<nat>>, pc: Pc, pos: int, r: nat): multiset<nat> {
    (if 0 <= pos < |buf| then multiset(buf[pos]) else multiset{})
      + (if pc.Carry? && pc.r == r then multiset{pc.sid} else multiset{})
  }

  function HoldsSeq(bufs: seq<seq<seq<nat>>>, pcs: seq<Pc>, pos: int, r: nat): (m: seq<multiset<nat>>)
    requires |bufs| == |pcs|
    ensures |m| == |pcs|
  {
    seq(|pcs|, c requires 0 <= c < |pcs| => Holds(bufs[c], pcs[c], pos, r))
  }

  function MultiSum(m: seq<multiset<nat>>): multiset<nat> {
    if m == [] then multiset{} else MultiSum(m[..|m| - 1]) + m[|m| - 1]
  }

  /** No version of row `r` is lost or invented. */
  ghost predicate Conserved(init: seq<nat>, row: seq<nat>, cut: nat, held: multiset<nat>, begun: multiset<nat>) {
    cut <= |init| && multiset(row) + held == multiset(init[cut..]) + begun
  }

  ghost predicate CountsOk(init: seq<seq<nat>>, rows: seq<seq<nat>>, cut: seq<nat>, bufs: seq<seq<seq<nat>>>,
                           pcs: seq<Pc>, bufPos: seq<int>, begun: seq<multiset<nat>>) {
    && |rows| == |cut| == |init| == |bufPos| == |begun| && |bufs| == |pcs|
    && forall r ::
        0 <= r < |rows| ==> Conserved(init[r], rows[r], cut[r], MultiSum(HoldsSeq(bufs, pcs, bufPos[r], r)), begun[r])
  }

  ghost predicate CarryOk(cfg: Config, heads: seq<Head>, cur: seq<nat>, bufPos: seq<int>, backrefs: seq<int>, pc: Pc,
                          c: nat)
    requires pc.Carry?
  {
    && pc.r < |bufPos| && Above(cfg.init, pc.r, pc.sid)
    && c < |cur| && cur[c] < |heads|
    && var head := heads[cur[c]];
       match pc.at
       case Cas(k) => k == head.pos < MAX_POS
       case Backref => head.pos < MAX_POS && bufPos[pc.r] == head.base + head.pos
       case Increment => head.pos < MAX_POS && bufPos[pc.r] == head.base + head.pos < |backrefs|
         && backrefs[head.base + head.pos] == pc.r
       case Append(p) => bufPos[pc.r] == p
       case _ => true
  }

  /** Head `g` comes before the place of a scan. */
  predicate Behind(heads: seq<Head>, pc: Pc, g: nat)
    requires pc.Scan? && g < |heads|
  {
    || heads[g].owner < pc.i
    || (heads[g].owner == pc.i && match pc.place
                                  case Load => false
                                  case Enter(h) => g > h
                                  case Walk(h, _, _, _) => g > h)
  }

  /** The scan will not come to position `p` of head `g` any more. */
  predicate PassedIn(heads: seq<Head>, pc: Pc, g: nat, p: nat)
    requires pc.Scan? && g < |heads|
  {
    && Inside(heads[g], p)
    && (Behind(heads, pc, g) || (pc.place.Walk? && pc.place.h == g && p >= heads[g].base + pc.place.to))
  }

  ghost predicate Passed(heads: seq<Head>, pc: Pc, p: nat)
    requires pc.Scan?
  {
    exists g: nat :: g < |heads| && PassedIn(heads, pc, g, p)
  }

  predicate PlaceOk(heads: seq<Head>, pc: Pc)
    requires pc.Scan?
  {
    match pc.place
    case Load => true
    case Enter(h) => -1 <= h < |heads| && (h >= 0 ==> heads[h].owner == pc.i)
    case Walk(h, to, off, _) => h < |heads| && heads[h].owner == pc.i && off <= to <= heads[h].pos
  }

  /** The clean part of the head that is being walked. */
  predicate WalkedClear(heads: seq<Head>, bits: seq<bool>, pc: Pc)
    requires pc.Scan? && PlaceOk(heads, pc)
  {
    pc.place.Walk? && !pc.place.retry ==>
      forall p :: heads[pc.place.h].base <= p < heads[pc.place.h].base + pc.place.off && p < |bits| ==> !bits[p]
  }

  /** Among the positions passed, exactly those missed are still set. */
  ghost predicate ScanOk(heads: seq<Head>, bits: seq<bool>, pc: Pc)
    requires pc.Scan?
  {
    && PlaceOk(heads, pc) && WalkedClear(heads, bits, pc)
    && (forall p: nat :: p < |bits| && Passed(heads, pc, p) ==> (bits[p] <==> p in pc.missed))
    && (forall p :: p in pc.missed ==> p < |bits| && Passed(heads, pc, p))
  }

  ghost predicate PcOk(cfg: Config, heads: seq<Head>, cur: seq<nat>, bufPos: seq<int>, backrefs: seq<int>,
                       bits: seq<bool>, pc: Pc, c: nat) {
    match pc
    case Idle => true
    case Carry(_, _, _) => CarryOk(cfg, heads, cur, bufPos, backrefs, pc, c)
    case TryFlush(r, p) => r < |bufPos| && bufPos[r] == p
    case Flush(r, p) => r < |bufPos| && bufPos[r] == p
    case Scan(_, _, _) => ScanOk(heads, bits, pc)
  }

  ghost predicate PcsOk(cfg: Config, s: State)
    requires Shape(cfg, s)
  {
    forall c :: 0 <= c < |s.pcs| ==> PcOk(cfg, s.heads, s.cur, s.bufPos, s.backrefs, s.bits[c], s.pcs[c], c)
  }

  ghost predicate Inv(cfg: Config, s: State) {
    && ConfigOk(cfg) && Shape(cfg, s)
    && HeadsOk(cfg, s.heads, s.cur, s.zonePos) && ChainsOk(s.heads, s.cur)
    && PairsOk(s.bufPos, s.rowOf)
    && SlotsOk(s.heads, s.cur, s.pcs, s.rowOf, s.backrefs)
    && BufsOk(cfg.init, s.bufs, s.bits, s.rowOf)
    && RowsOk(cfg.init, s.rows, s.cut)
    && CountsOk(cfg.init, s.rows, s.cut, s.bufs, s.pcs, s.bufPos, s.begun)
    && PcsOk(cfg, s)
  }

  // ---------- counting

  lemma {:induction false} MultiSumChange(m: seq<multiset<nat>>, n: seq<multiset<nat>>, c: nat)
    requires c < |m| == |n| && forall d :: 0 <= d < |m| && d != c ==> m[d] == n[d]
    ensures MultiSum(n) + m[c] == MultiSum(m) + n[c]
  {
    var k := |m| - 1;
    if c < k {
      MultiSumChange(m[..k], n[..k], c);
      assert MultiSum(n) + m[c] == MultiSum(n[..k]) + m[..k][c] + n[k];
      assert MultiSum(m) + n[c] == MultiSum(m[..k]) + n[..k][c] + m[k];
    } else {
      assert m[..k] == n[..k];
    }
  }

  lemma {:induction false} MultiSumEmpty(m: seq<multiset<nat>>)
    requires forall d :: 0 <= d < |m| ==> m[d] == multiset{}
    ensures MultiSum(m) == multiset{}
  {
    if m != [] { MultiSumEmpty(m[..|m| - 1]); }
  }

  /** Collecting initial versions from the front. */
  lemma DropKeepsRow(init: seq<nat>, row: seq<nat>, cut: nat, drop: nat)
    requires RowOk(init, row, cut) && drop + cut <= |init| && drop <= |row|
    ensures RowOk(init, row[drop..], cut + drop)
  {
    var k := |init| - cut - drop;
    assert row[drop..][..k] == row[..|init| - cut][drop..] == init[cut..][drop..] == init[cut + drop..];
  }

  lemma DropCounts(init: seq<nat>, row: seq<nat>, cut: nat, drop: nat)
    requires RowOk(init, row, cut) && drop + cut <= |init| && drop <= |row|
    ensures multiset(row) == multiset(init[cut..cut + drop]) + multiset(row[drop..])
    ensures multiset(init[cut..]) == multiset(init[cut..cut + drop]) + multiset(init[cut + drop..])
  {
    assert row[..drop] == row[..|init| - cut][..drop] == init[cut..][..drop] == init[cut..cut + drop];
    assert row == row[..drop] + row[drop..];
    assert init[cut..] == init[cut..cut + drop] + init[cut + drop..];
  }

  lemma InsertsKeepRow(all: seq<seq<nat>>, r: nat, row: seq<nat>, cut: nat, xs: seq<nat>)
    requires r < |all| && RowOk(all[r], row, cut) && forall i :: 0 <= i < |xs| ==> Above(all, r, xs[i])
    ensures RowOk(all[r], InsertAll(row, xs), cut)
  {
    var k := |all[r]| - cut;
    forall i, j | 0 <= i < k && 0 <= j < |xs| ensures row[i] <= xs[j] {
      assert row[i] == row[..k][i] == all[r][cut + i];
      assert Above(all, r, xs[j]);
    }
    InsertAllKeepsPrefix(row, xs, k);
    InsertAllSorted(row, xs);
  }

  /** Merging new versions keeps the row sorted and its initial part in front. */
  lemma MergeKeepsRow(all: seq<seq<nat>>, r: nat, row: seq<nat>, cut: nat, drop: nat, xs: seq<nat>)
    requires r < |all| && RowOk(all[r], row, cut) && drop + cut <= |all[r]| && drop <= |row|
    requires forall i :: 0 <= i < |xs| ==> Above(all, r, xs[i])
    ensures RowOk(all[r], InsertAll(row[drop..], xs), cut + drop)
  {
    hide RowOk, Above, InsertAll;
    DropKeepsRow(all[r], row, cut, drop);
    InsertsKeepRow(all, r, row[drop..], cut + drop, xs);
  }

  /** Merging moves versions from what is held into the row. */
  lemma MergeConserves(init: seq<nat>, row: seq<nat>, cut: nat, drop: nat, xs: seq<nat>, held: multiset<nat>,
                       held': multiset<nat>, begun: multiset<nat>)
    requires RowOk(init, row, cut) && Conserved(init, row, cut, held, begun)
    requires drop + cut <= |init| && drop <= |row| && held == held' + multiset(xs)
    ensures Conserved(init, InsertAll(row[drop..], xs), cut + drop, held', begun)
  {
    InsertAllSorted(row[drop..], xs);
    hide RowOk, InsertAll;
    DropCounts(init, row, cut, drop);
    var gone := multiset(init[cut..cut + drop]);
    assert multiset(row[drop..]) + held + gone == multiset(row) + held;
    assert multiset(init[cut + drop..]) + begun + gone == multiset(init[cut..]) + begun;
    Cancel(multiset(row[drop..]) + held, multiset(init[cut + drop..]) + begun, gone);
    assert multiset(InsertAll(row[drop..], xs)) + held' == multiset(row[drop..]) + held;
  }

  lemma Cancel(a: multiset<nat>, b: multiset<nat>, x: multiset<nat>)
    requires a + x == b + x
    ensures a == b
  {
    assert a == (a + x) - x && b == (b + x) - x;
  }

  /** A step of core `c` that changes what only `c` holds. */
  lemma HeldChange(bufs: seq<seq<seq<nat>>>, pcs: seq<Pc>, bufs': seq<seq<seq<nat>>>, pcs': seq<Pc>, pos: int, r: nat,
                   c: nat)
    requires |bufs| == |pcs| == |bufs'| == |pcs'| && c < |pcs|
    requires forall d :: 0 <= d < |pcs| && d != c ==> bufs'[d] == bufs[d] && pcs'[d] == pcs[d]
    ensures MultiSum(HoldsSeq(bufs', pcs', pos, r)) + Holds(bufs[c], pcs[c], pos, r)
         == MultiSum(HoldsSeq(bufs, pcs, pos, r)) + Holds(bufs'[c], pcs'[c], pos, r)
  {
    MultiSumChange(HoldsSeq(bufs, pcs, pos, r), HoldsSeq(bufs', pcs', pos, r), c);
  }

  /** Both carry the same version for the same row, or neither carries one. */
  predicate SameCargo(a: Pc, b: Pc) {
    a.Carry? == b.Carry? && (a.Carry? ==> a.r == b.r && a.sid == b.sid)
  }

  lemma CountsQuiet(init: seq<seq<nat>>, rows: seq<seq<nat>>, cut: seq<nat>, bufs: seq<seq<seq<nat>>>, pcs: seq<Pc>,
                    bufPos: seq<int>, begun: seq<multiset<nat>>, c: nat, pc: Pc)
    requires CountsOk(init, rows, cut, bufs, pcs, bufPos, begun) && c < |pcs| && SameCargo(pcs[c], pc)
    ensures CountsOk(init, rows, cut, bufs, pcs[c := pc], bufPos, begun)
  {
    hide Conserved, MultiSum;
    forall r | 0 <= r < |rows|
      ensures HoldsSeq(bufs, pcs[c := pc], bufPos[r], r) == HoldsSeq(bufs, pcs, bufPos[r], r)
    {}
  }

  /** Core `c` changes what it holds for row `r` only. */
  lemma CountsMove(init: seq<seq<nat>>, rows: seq<seq<nat>>, cut: seq<nat>, bufs: seq<seq<seq<nat>>>, pcs: seq<Pc>,
                   bufPos: seq<int>, begun: seq<multiset<nat>>,
                   c: nat, r: nat, row: seq<nat>, cut1: nat, buf: seq<seq<nat>>, pc: Pc, begun1: multiset<nat>)
    requires CountsOk(init, rows, cut, bufs, pcs, bufPos, begun) && c < |pcs| && r < |rows|
    requires forall q: nat ::
              q < |rows| && q != r ==> Holds(buf, pc, bufPos[q], q) == Holds(bufs[c], pcs[c], bufPos[q], q)
    requires Conserved(init[r], row, cut1, MultiSum(HoldsSeq(bufs[c := buf], pcs[c := pc], bufPos[r], r)), begun1)
    ensures CountsOk(init, rows[r := row], cut[r := cut1], bufs[c := buf], pcs[c := pc], bufPos, begun[r := begun1])
  {
    hide Conserved, MultiSum, Holds;
    forall q: nat | q < |rows| && q != r
      ensures HoldsSeq(bufs[c := buf], pcs[c := pc], bufPos[q], q) == HoldsSeq(bufs, pcs, bufPos[q], q)
    {}
  }

  lemma CountsMerge(init: seq<seq<nat>>, rows: seq<seq<nat>>, cut: seq<nat>, bufs: seq<seq<seq<nat>>>, pcs: seq<Pc>,
                    bufPos: seq<int>, begun: seq<multiset<nat>>,
                    c: nat, r: nat, drop: nat, xs: seq<nat>, buf: seq<seq<nat>>, pc: Pc)
    requires CountsOk(init, rows, cut, bufs, pcs, bufPos, begun) && c < |pcs| && r < |rows|
    requires RowOk(init[r], rows[r], cut[r]) && drop + cut[r] <= |init[r]| && drop <= |rows[r]|
    requires forall q: nat ::
              q < |rows| && q != r ==> Holds(buf, pc, bufPos[q], q) == Holds(bufs[c], pcs[c], bufPos[q], q)
    requires Holds(bufs[c], pcs[c], bufPos[r], r) == Holds(buf, pc, bufPos[r], r) + multiset(xs)
    ensures CountsOk(init, rows[r := InsertAll(rows[r][drop..], xs)], cut[r := cut[r] + drop], bufs[c := buf],
                     pcs[c := pc], bufPos, begun)
  {
    hide Conserved, MultiSum, Holds, RowOk, InsertAll, HoldsSeq;
    HeldChange(bufs, pcs, bufs[c := buf], pcs[c := pc], bufPos[r], r, c);
    var was, now := MultiSum(HoldsSeq(bufs, pcs, bufPos[r], r)),
      MultiSum(HoldsSeq(bufs[c := buf], pcs[c := pc], bufPos[r], r));
    var h := Holds(buf, pc, bufPos[r], r);
    assert now + multiset(xs) + h == was + h;
    Cancel(now + multiset(xs), was, h);
    MergeConserves(init[r], rows[r], cut[r], drop, xs, was, now, begun[r]);
    CountsMove(init, rows, cut, bufs, pcs, bufPos, begun, c, r, InsertAll(rows[r][drop..], xs), cut[r] + drop, buf,
               pc, begun[r]);
    assert begun[r := begun[r]] == begun;
  }

  /** A version put into the core's buffer at the row's position. */
  lemma CountsPush(init: seq<seq<nat>>, rows: seq<seq<nat>>, cut: seq<nat>, bufs: seq<seq<seq<nat>>>, pcs: seq<Pc>,
                   bufPos: seq<int>, begun: seq<multiset<nat>>,
                   c: nat, r: nat, buf: seq<seq<nat>>, pc: Pc)
    requires CountsOk(init, rows, cut, bufs, pcs, bufPos, begun) && c < |pcs| && r < |rows|
    requires forall q: nat ::
              q < |rows| && q != r ==> Holds(buf, pc, bufPos[q], q) == Holds(bufs[c], pcs[c], bufPos[q], q)
    requires Holds(bufs[c], pcs[c], bufPos[r], r) == Holds(buf, pc, bufPos[r], r)
    ensures CountsOk(init, rows, cut, bufs[c := buf], pcs[c := pc], bufPos, begun)
  {
    hide Conserved, MultiSum, Holds, HoldsSeq;
    HeldChange(bufs, pcs, bufs[c := buf], pcs[c := pc], bufPos[r], r, c);
    Cancel(MultiSum(HoldsSeq(bufs, pcs, bufPos[r], r)),
           MultiSum(HoldsSeq(bufs[c := buf], pcs[c := pc], bufPos[r], r)), Holds(buf, pc, bufPos[r], r));
    CountsMove(init, rows, cut, bufs, pcs, bufPos, begun, c, r, rows[r], cut[r], buf, pc, begun[r]);
    assert begun[r := begun[r]] == begun && rows[r := rows[r]] == rows && cut[r := cut[r]] == cut;
  }

  lemma CountsBegin(init: seq<seq<nat>>, rows: seq<seq<nat>>, cut: seq<nat>, bufs: seq<seq<seq<nat>>>, pcs: seq<Pc>,
                    bufPos: seq<int>, begun: seq<multiset<nat>>,
                    c: nat, r: nat, sid: nat, at: At)
    requires CountsOk(init, rows, cut, bufs, pcs, bufPos, begun) && c < |pcs| && r < |rows| && pcs[c] == Idle
    ensures CountsOk(init, rows, cut, bufs, pcs[c := Carry(r, sid, at)], bufPos, begun[r := begun[r] + multiset{sid}])
  {
    var pc := Carry(r, sid, at);
    var pos := bufPos[r];
    assert bufs[c := bufs[c]] == bufs && rows[r := rows[r]] == rows && cut[r := cut[r]] == cut;
    HeldChange(bufs, pcs, bufs, pcs[c := pc], pos, r, c);
    assert Holds(bufs[c], pc, pos, r) == Holds(bufs[c], pcs[c], pos, r) + multiset{sid};
    hide MultiSum, Holds, HoldsSeq;
    var h := Holds(bufs[c], pcs[c], pos, r);
    var was, now := MultiSum(HoldsSeq(bufs, pcs, pos, r)), MultiSum(HoldsSeq(bufs, pcs[c := pc], pos, r));
    assert now + h == was + multiset{sid} + h;
    Cancel(now, was + multiset{sid}, h);
    assert multiset(rows[r]) + now == multiset(init[r][cut[r]..]) + (begun[r] + multiset{sid}) by {
      assert multiset(rows[r]) + now == multiset(rows[r]) + was + multiset{sid};
    }
    forall q: nat | q < |rows| && q != r ensures Holds(bufs[c], pc, bufPos[q], q)
      == Holds(bufs[c], pcs[c], bufPos[q], q) {
      HoldsOther(bufs[c], pcs[c], pc, bufPos[q], q);
    }
    CountsMove(init, rows, cut, bufs, pcs, bufPos, begun, c, r, rows[r], cut[r], bufs[c], pc, begun[r] + multiset{sid});
  }

  lemma HoldsOther(buf: seq<seq<nat>>, a: Pc, b: Pc, pos: int, q: nat)
    requires (a.Carry? ==> a.r != q) && (b.Carry? ==> b.r != q)
    ensures Holds(buf, a, pos, q) == Holds(buf, b, pos, q)
  {}

  /** A position that no buffer uses becomes the position of row `r`. */
  lemma CountsInstall(init: seq<seq<nat>>, rows: seq<seq<nat>>, cut: seq<nat>, bufs: seq<seq<seq<nat>>>, pcs: seq<Pc>,
                      bufPos: seq<int>, begun: seq<multiset<nat>>, r: nat, p: nat)
    requires CountsOk(init, rows, cut, bufs, pcs, bufPos, begun) && r < |rows| && bufPos[r] == -1
    requires forall c :: 0 <= c < |bufs| ==> p < |bufs[c]| && bufs[c][p] == []
    ensures CountsOk(init, rows, cut, bufs, pcs, bufPos[r := p], begun)
  {
    hide Conserved, MultiSum;
    assert HoldsSeq(bufs, pcs, p, r) == HoldsSeq(bufs, pcs, -1, r);
  }

  // ---------- every step keeps the invariant

  lemma SlotsQuiet(heads: seq<Head>, cur: seq<nat>, pcs: seq<Pc>, rowOf: seq<int>, backrefs: seq<int>, c: nat, pc: Pc)
    requires SlotsOk(heads, cur, pcs, rowOf, backrefs) && c < |pcs| && Installing(pcs[c]) == Installing(pc)
    ensures SlotsOk(heads, cur, pcs[c := pc], rowOf, backrefs)
  {
    forall h: nat, k: nat | h < |heads| ensures Taken(heads, cur, pcs[c := pc], h, k) == Taken(heads, cur, pcs, h, k) {}
    hide Taken, Inside;
  }

  /** Core `c` moves along and changes at most its own bits. */
  lemma PcsQuiet(cfg: Config, s: State, s': State, c: nat)
    requires Shape(cfg, s) && Shape(cfg, s') && PcsOk(cfg, s) && c < |s.pcs|
    requires s'.heads == s.heads && s'.cur == s.cur && s'.bufPos == s.bufPos && s'.backrefs == s.backrefs
    requires forall d :: 0 <= d < |s.pcs| && d != c ==> s'.pcs[d] == s.pcs[d] && s'.bits[d] == s.bits[d]
    requires PcOk(cfg, s.heads, s.cur, s.bufPos, s.backrefs, s'.bits[c], s'.pcs[c], c)
    ensures PcsOk(cfg, s')
  {
    hide PcOk;
  }

  /** Steps that only move core `c` along. */
  lemma QuietKeeps(cfg: Config, s: State, s': State, c: nat)
    requires Inv(cfg, s) && c < |s.pcs| && |s'.pcs| == |s.pcs|
    requires s' == s.(pcs := s.pcs[c := s'.pcs[c]])
    requires SameCargo(s.pcs[c], s'.pcs[c]) && Installing(s.pcs[c]) == Installing(s'.pcs[c])
    requires PcOk(cfg, s.heads, s.cur, s.bufPos, s.backrefs, s.bits[c], s'.pcs[c], c)
    ensures Inv(cfg, s')
  {
    hide HeadsOk, ChainsOk, PairsOk, SlotsOk, BufsOk, RowsOk, CountsOk, PcsOk, ConfigOk, PcOk;
    SlotsQuiet(s.heads, s.cur, s.pcs, s.rowOf, s.backrefs, c, s'.pcs[c]);
    CountsQuiet(cfg.init, s.rows, s.cut, s.bufs, s.pcs, s.bufPos, s.begun, c, s'.pcs[c]);
    PcsQuiet(cfg, s, s', c);
  }

  lemma AtPc(cfg: Config, s: State, c: nat)
    requires Inv(cfg, s) && c < |s.pcs|
    ensures PcOk(cfg, s.heads, s.cur, s.bufPos, s.backrefs, s.bits[c], s.pcs[c], c)
  {
    hide PcOk, HeadsOk, PairsOk, SlotsOk, BufsOk, RowsOk, CountsOk;
  }

  lemma BeginKeeps(cfg: Config, s: State, s': State, c: nat, a: Action)
    requires Inv(cfg, s) && a.Begin? && Step(cfg, s, s', c, a)
    ensures Inv(cfg, s')
  {
    hide HeadsOk, ChainsOk, PairsOk, SlotsOk, BufsOk, RowsOk, CountsOk, PcsOk, ConfigOk;
    var at := if a.sid == 0 then Locked else Check;
    SlotsQuiet(s.heads, s.cur, s.pcs, s.rowOf, s.backrefs, c, s'.pcs[c]);
    CountsBegin(cfg.init, s.rows, s.cut, s.bufs, s.pcs, s.bufPos, s.begun, c, a.row, a.sid, at);
    PcsQuiet(cfg, s, s', c);
  }

  /** Steps of AppendNewVersion that only look. */
  lemma CheckKeeps(cfg: Config, s: State, s': State, c: nat, a: Action)
    requires Inv(cfg, s) && Step(cfg, s, s', c, a) && (a == CheckFree || a == CheckBusy || a == NoHead)
    ensures Inv(cfg, s')
  {
    hide HeadsOk, ChainsOk, PairsOk, SlotsOk, BufsOk, RowsOk, CountsOk, PcsOk, ConfigOk;
    AtPc(cfg, s, c);
    QuietKeeps(cfg, s, s', c);
  }

  lemma LookupKeeps(cfg: Config, s: State, s': State, c: nat, a: Action)
    requires Inv(cfg, s) && Step(cfg, s, s', c, a) && (a == Lookup || (a == Swap && s'.bufPos == s.bufPos))
    ensures Inv(cfg, s')
  {
    hide HeadsOk, ChainsOk, PairsOk, SlotsOk, BufsOk, RowsOk, CountsOk, PcsOk, ConfigOk;
    AtPc(cfg, s, c);
    QuietKeeps(cfg, s, s', c);
  }

  lemma TryKeeps(cfg: Config, s: State, s': State, c: nat, a: Action)
    requires Inv(cfg, s) && Step(cfg, s, s', c, a) && (a == LockForFlush || a == GiveUp)
    ensures Inv(cfg, s')
  {
    hide HeadsOk, ChainsOk, PairsOk, SlotsOk, BufsOk, RowsOk, CountsOk, PcsOk, ConfigOk;
    AtPc(cfg, s, c);
    QuietKeeps(cfg, s, s', c);
  }

  // ---------- the steps of a scan

  /** Moving to a place from which the same positions are passed. */
  lemma ScanSame(heads: seq<Head>, bits: seq<bool>, pc: Pc, pc': Pc)
    requires pc.Scan? && pc'.Scan? && ScanOk(heads, bits, pc) && pc'.missed == pc.missed
    requires PlaceOk(heads, pc') && WalkedClear(heads, bits, pc')
    requires forall g: nat, p: nat :: g < |heads| ==> PassedIn(heads, pc', g, p) == PassedIn(heads, pc, g, p)
    ensures ScanOk(heads, bits, pc')
  {
    hide PassedIn, PlaceOk, WalkedClear;
    forall p: nat ensures Passed(heads, pc', p) == Passed(heads, pc, p) {}
  }

  /** A new position counts as passed, set exactly if it is missed. */
  lemma ScanMore(heads: seq<Head>, bits: seq<bool>, pc: Pc, pc': Pc, more: set<nat>, g: nat)
    requires pc.Scan? && pc'.Scan? && ScanOk(heads, bits, pc) && pc'.missed == pc.missed + more
    requires PlaceOk(heads, pc') && WalkedClear(heads, bits, pc') && g < |heads|
    requires forall h: nat, p: nat :: h < |heads| && PassedIn(heads, pc, h, p) ==> PassedIn(heads, pc', h, p)
    requires forall h: nat, p: nat ::
               h < |heads| && PassedIn(heads, pc', h, p) && !PassedIn(heads, pc, h, p) ==>
                 h == g && Inside(heads[g], p) && !Passed(heads, pc, p) && (p < |bits| ==> (bits[p] <==> p in more))
    requires forall p :: p in more ==> p < |bits| && bits[p] && PassedIn(heads, pc', g, p)
    ensures ScanOk(heads, bits, pc')
  {
    hide PassedIn, PlaceOk, WalkedClear;
    forall p: nat | Passed(heads, pc, p) ensures Passed(heads, pc', p) {
      var h: nat :| h < |heads| && PassedIn(heads, pc, h, p);
      assert PassedIn(heads, pc', h, p);
    }
    forall p: nat | p < |bits| && Passed(heads, pc', p) ensures bits[p] <==> p in pc'.missed {
      var h: nat :| h < |heads| && PassedIn(heads, pc', h, p);
      if PassedIn(heads, pc, h, p) { assert Passed(heads, pc, p); }
    }
  }

  /** What lies inside head `g` is passed only as part of `g`. */
  lemma PassedOnce(cfg: Config, heads: seq<Head>, cur: seq<nat>, zonePos: seq<nat>, pc: Pc, g: nat, p: nat)
    requires HeadsOk(cfg, heads, cur, zonePos) && pc.Scan? && g < |heads| && Inside(heads[g], p)
    ensures Passed(heads, pc, p) <==> PassedIn(heads, pc, g, p)
  {
    forall h: nat | h < |heads| && PassedIn(heads, pc, h, p) ensures h == g {
      InsideOnce(cfg, heads, cur, zonePos, h, g, p);
    }
  }

  lemma LoadKeeps(heads: seq<Head>, cur: seq<nat>, bits: seq<bool>, pc: Pc)
    requires ChainsOk(heads, cur) && pc.Scan? && ScanOk(heads, bits, pc) && pc.place == Load && pc.i < |cur|
    requires cur[pc.i] < |heads| && heads[cur[pc.i]].owner == pc.i
    ensures ScanOk(heads, bits, pc.(place := Enter(cur[pc.i])))
  {
    var pc' := pc.(place := Enter(cur[pc.i]));
    forall g: nat | g < |heads| ensures Behind(heads, pc', g) == Behind(heads, pc, g) {}
    hide ScanOk;
    ScanSame(heads, bits, pc, pc');
  }

  lemma NextCoreKeeps(heads: seq<Head>, bits: seq<bool>, pc: Pc)
    requires pc.Scan? && ScanOk(heads, bits, pc) && pc.place == Enter(-1)
    ensures ScanOk(heads, bits, Scan(pc.i + 1, Load, pc.missed))
  {
    var pc' := Scan(pc.i + 1, Load, pc.missed);
    forall g: nat | g < |heads| ensures Behind(heads, pc', g) == Behind(heads, pc, g) {}
    hide ScanOk;
    ScanSame(heads, bits, pc, pc');
  }

  /** Going on within a head. */
  lemma WalkKeeps(heads: seq<Head>, bits: seq<bool>, pc: Pc, off: nat, retry: bool)
    requires pc.Scan? && ScanOk(heads, bits, pc) && pc.place.Walk? && off <= pc.place.to
    requires WalkedClear(heads, bits, pc.(place := pc.place.(off := off, retry := retry)))
    ensures ScanOk(heads, bits, pc.(place := pc.place.(off := off, retry := retry)))
  {
    var pc' := pc.(place := pc.place.(off := off, retry := retry));
    forall g: nat | g < |heads| ensures Behind(heads, pc', g) == Behind(heads, pc, g) {}
    hide ScanOk;
    ScanSame(heads, bits, pc, pc');
  }

  /** A head that has been walked without meeting a busy row is behind. */
  lemma LeaveKeeps(cfg: Config, heads: seq<Head>, cur: seq<nat>, zonePos: seq<nat>, bits: seq<bool>, pc: Pc)
    requires HeadsOk(cfg, heads, cur, zonePos) && ChainsOk(heads, cur) && pc.Scan? && ScanOk(heads, bits, pc)
    requires pc.place.Walk? && pc.place.off >= pc.place.to && !pc.place.retry
    ensures ScanOk(heads, bits, pc.(place := Enter(heads[pc.place.h].next)))
  {
    var g := pc.place.h;
    var pc' := pc.(place := Enter(heads[g].next));
    assert ChainOk(heads, g);
    forall h: nat | h < |heads| ensures Behind(heads, pc', h) <==> Behind(heads, pc, h) || h == g {}
    forall h: nat, p: nat | h < |heads| && PassedIn(heads, pc', h, p) && !PassedIn(heads, pc, h, p)
      ensures h == g && Inside(heads[g], p) && !Passed(heads, pc, p) && (p < |bits| ==> !bits[p])
    {
      PassedOnce(cfg, heads, cur, zonePos, pc, g, p);
    }
    assert pc'.missed == pc.missed + {};
    hide ScanOk, HeadsOk, ChainsOk;
    ScanMore(heads, bits, pc, pc', {}, g);
  }

  /** Reading a counter passes what lies above it: nothing, but for the position being installed. */
  lemma ReadKeeps(cfg: Config, s: State, c: nat, h: nat)
    requires Inv(cfg, s) && c < |s.pcs| && s.pcs[c].Scan? && s.pcs[c].place == Enter(h)
    ensures h < |s.heads|
    ensures ScanOk(s.heads, s.bits[c], Scan(s.pcs[c].i, Walk(h, s.heads[h].pos, 0, false),
                                            s.pcs[c].missed + Skipped(s, c, h)))
  {
    AtPc(cfg, s, c);
    var pc, heads, bits := s.pcs[c], s.heads, s.bits[c];
    var pc' := Scan(pc.i, Walk(h, heads[h].pos, 0, false), pc.missed + Skipped(s, c, h));
    hide Inv, HeadsOk, ChainsOk;
    forall g: nat | g < |heads| ensures Behind(heads, pc', g) == Behind(heads, pc, g) {}
    forall g: nat, p: nat | g < |heads| && PassedIn(heads, pc', g, p) && !PassedIn(heads, pc, g, p)
      ensures g == h && Inside(heads[h], p) && !Passed(heads, pc, p)
      ensures p < |bits| ==> (bits[p] <==> p in Skipped(s, c, h))
    {
      AbovePos(cfg, s, c, h, p);
      assert !Behind(heads, pc, h);
    }
    SkippedInside(cfg, s, c, h);
    hide ScanOk;
    ScanMore(heads, bits, pc, pc', Skipped(s, c, h), h);
  }

  lemma AbovePos(cfg: Config, s: State, c: nat, h: nat, p: nat)
    requires Inv(cfg, s) && c < |s.pcs| && s.pcs[c].Scan? && h < |s.heads|
    requires Inside(s.heads[h], p) && p >= s.heads[h].base + s.heads[h].pos
    ensures Passed(s.heads, s.pcs[c], p) <==> PassedIn(s.heads, s.pcs[c], h, p)
    ensures p < |s.bits[c]| ==> (s.bits[c][p] <==> p in Skipped(s, c, h))
  {
    hide PairsOk, RowsOk, CountsOk, PcsOk, ChainsOk;
    PassedOnce(cfg, s.heads, s.cur, s.zonePos, s.pcs[c], h, p);
    if p < |s.bits[c]| {
      assert BufOk(cfg.init, s.bufs[c][p], s.bits[c][p], s.rowOf[p]);
      assert s.rowOf[p] != -1 <==> Taken(s.heads, s.cur, s.pcs, h, p - s.heads[h].base);
    }
  }

  lemma SkippedInside(cfg: Config, s: State, c: nat, h: nat)
    requires Inv(cfg, s) && c < |s.pcs| && h < |s.heads|
    ensures forall p :: p in Skipped(s, c, h) ==>
              p < |s.bits[c]| && s.bits[c][p] && Inside(s.heads[h], p) && p >= s.heads[h].base + s.heads[h].pos
  {
    hide PairsOk, RowsOk, CountsOk, ChainsOk, BufsOk, SlotsOk, HeadsOk;
    if Skips(s, c, h) { AtPc(cfg, s, s.heads[h].owner); }
  }

  /** Flushing a position below the counter that was read. */
  lemma ScanFlushed(cfg: Config, heads: seq<Head>, cur: seq<nat>, zonePos: seq<nat>, bits: seq<bool>, pc: Pc)
    requires HeadsOk(cfg, heads, cur, zonePos) && pc.Scan? && ScanOk(heads, bits, pc) && pc.place.Walk?
    requires pc.place.off < pc.place.to && heads[pc.place.h].base + pc.place.off < |bits|
    ensures var p := heads[pc.place.h].base + pc.place.off;
            ScanOk(heads, bits[p := false], pc.(place := pc.place.(off := pc.place.off + 1)))
  {
    var g := pc.place.h;
    var p := heads[g].base + pc.place.off;
    assert HeadOk(cfg, heads[g], zonePos);
    PassedOnce(cfg, heads, cur, zonePos, pc, g, p);
    assert !Passed(heads, pc, p);
    ScanUnset(heads, bits, pc, p);
    hide ScanOk, HeadsOk, Passed;
    WalkKeeps(heads, bits[p := false], pc, pc.place.off + 1, pc.place.retry);
  }

  lemma ScanUnset(heads: seq<Head>, bits: seq<bool>, pc: Pc, p: nat)
    requires pc.Scan? && ScanOk(heads, bits, pc) && p < |bits| && !Passed(heads, pc, p)
    ensures ScanOk(heads, bits[p := false], pc)
  {
    hide Passed;
  }

  lemma ScanKeeps(cfg: Config, s: State, s': State, c: nat, a: Action)
    requires Inv(cfg, s) && Step(cfg, s, s', c, a) && s.pcs[c].Scan? && !a.Begin? && !a.ScanFlush?
    ensures Inv(cfg, s')
  {
    hide HeadsOk, ChainsOk, PairsOk, SlotsOk, BufsOk, RowsOk, CountsOk, PcsOk, ConfigOk, ScanOk;
    AtPc(cfg, s, c);
    ScanMoves(cfg, s, s', c, a);
    QuietKeeps(cfg, s, s', c);
  }

  lemma ScanMoves(cfg: Config, s: State, s': State, c: nat, a: Action)
    requires Inv(cfg, s) && c < |s.pcs| && s.pcs[c].Scan? && ScanStep(cfg, s, s', c, a) && !a.ScanFlush?
    ensures |s'.pcs| == |s.pcs| && s' == s.(pcs := s.pcs[c := s'.pcs[c]])
    ensures s'.pcs[c] == Idle || s'.pcs[c].Scan?
    ensures s'.pcs[c].Scan? ==> ScanOk(s.heads, s.bits[c], s'.pcs[c])
  {
    AtPc(cfg, s, c);
    assert CurOwned(s.heads, s.cur) && ChainsOk(s.heads, s.cur) by { HeadsPart(cfg, s); }
    hide Inv, HeadsOk, ChainsOk, ScanOk;
    var pc := s.pcs[c];
    match pc.place
    case Load => if pc.i < |s.cur| { LoadKeeps(s.heads, s.cur, s.bits[c], pc); }
    case Enter(h) =>
      if h < 0 {
        EnterPlace(s.heads, s.bits[c], pc);
        NextCoreKeeps(s.heads, s.bits[c], pc);
      } else {
        ReadKeeps(cfg, s, c, h);
      }
    case Walk(h, to, off, retry) => WalkMoves(cfg, s, s', c, a);
  }

  lemma EnterPlace(heads: seq<Head>, bits: seq<bool>, pc: Pc)
    requires pc.Scan? && ScanOk(heads, bits, pc) && pc.place.Enter?
    ensures -1 <= pc.place.head < |heads|
  {}

  ghost predicate CurOwned(heads: seq<Head>, cur: seq<nat>) {
    forall c :: 0 <= c < |cur| ==> cur[c] < |heads| && heads[cur[c]].owner == c
  }

  lemma HeadsPart(cfg: Config, s: State)
    requires Inv(cfg, s)
    ensures HeadsOk(cfg, s.heads, s.cur, s.zonePos) && ChainsOk(s.heads, s.cur) && CurOwned(s.heads, s.cur)
  {
    hide ChainsOk, PairsOk, SlotsOk, BufsOk, RowsOk, CountsOk, PcsOk, ConfigOk, HeadOk, Apart;
  }

  lemma WalkMoves(cfg: Config, s: State, s': State, c: nat, a: Action)
    requires Inv(cfg, s) && c < |s.pcs| && s.pcs[c].Scan? && s.pcs[c].place.Walk? && ScanStep(cfg, s, s', c, a)
    requires !a.ScanFlush? && ScanOk(s.heads, s.bits[c], s.pcs[c])
    ensures |s'.pcs| == |s.pcs| && s' == s.(pcs := s.pcs[c := s'.pcs[c]]) && s'.pcs[c].Scan?
    ensures ScanOk(s.heads, s.bits[c], s'.pcs[c])
  {
    HeadsPart(cfg, s);
    hide Inv, HeadsOk, ChainsOk, Passed;
    var pc := s.pcs[c];
    var w := pc.place;
    if w.off < w.to {
      WalkKeeps(s.heads, s.bits[c], pc, w.off + 1, a == ScanBusy || w.retry);
    } else if w.retry {
      WalkKeeps(s.heads, s.bits[c], pc, 0, false);
    } else {
      LeaveKeeps(cfg, s.heads, s.cur, s.zonePos, s.bits[c], pc);
    }
  }

  lemma BeginScanKeeps(cfg: Config, s: State, s': State, c: nat)
    requires Inv(cfg, s) && Step(cfg, s, s', c, BeginScan)
    ensures Inv(cfg, s')
  {
    hide HeadsOk, ChainsOk, PairsOk, SlotsOk, BufsOk, RowsOk, CountsOk, PcsOk, ConfigOk;
    assert forall g: nat :: g < |s.heads| ==> !Behind(s.heads, Scan(0, Load, {}), g);
    QuietKeeps(cfg, s, s', c);
  }

  /** After the last head exactly the positions missed are still set. */
  lemma ScanEnds(cfg: Config, s: State, c: nat, p: nat)
    requires Inv(cfg, s) && c < |s.pcs| && s.pcs[c].Scan? && s.pcs[c].place == Load && s.pcs[c].i >= |s.cur|
    requires p < |s.bits[c]|
    ensures s.bits[c][p] <==> p in s.pcs[c].missed
  {
    hide PairsOk, RowsOk, CountsOk, ChainsOk;
    AtPc(cfg, s, c);
    if s.bits[c][p] {
      assert BufOk(cfg.init, s.bufs[c][p], s.bits[c][p], s.rowOf[p]);
      var g: nat :| g < |s.heads| && Inside(s.heads[g], p);
      assert HeadOk(cfg, s.heads[g], s.zonePos);
      assert PassedIn(s.heads, s.pcs[c], g, p);
    }
  }

  // ---------- steps that merge into a row

  lemma RowsMerge(init: seq<seq<nat>>, rows: seq<seq<nat>>, cut: seq<nat>, r: nat, drop: nat, xs: seq<nat>)
    requires RowsOk(init, rows, cut) && r < |rows| == |cut| == |init| && drop + cut[r] <= |init[r]| && drop <= |rows[r]|
    requires forall i :: 0 <= i < |xs| ==> Above(init, r, xs[i])
    ensures RowsOk(init, rows[r := InsertAll(rows[r][drop..], xs)], cut[r := cut[r] + drop])
  {
    hide RowOk, RowsOk, InsertAll, Above;
    assert RowOk(init[r], rows[r], cut[r]) by { RowOf(init, rows, cut, r); }
    MergeKeepsRow(init, r, rows[r], cut[r], drop, xs);
    SetRow(init, rows, cut, r, InsertAll(rows[r][drop..], xs), cut[r] + drop);
  }

  lemma RowOf(init: seq<seq<nat>>, rows: seq<seq<nat>>, cut: seq<nat>, r: nat)
    requires RowsOk(init, rows, cut) && r < |rows|
    ensures |rows| == |cut| == |init| && RowOk(init[r], rows[r], cut[r])
  {
    hide RowOk;
  }

  lemma SetRow(init: seq<seq<nat>>, rows: seq<seq<nat>>, cut: seq<nat>, r: nat, row: seq<nat>, cut1: nat)
    requires RowsOk(init, rows, cut) && r < |rows| && RowOk(init[r], row, cut1)
    ensures RowsOk(init, rows[r := row], cut[r := cut1])
  {
    hide RowOk;
  }

  /** A version carried by core `c` goes straight into its row. */
  lemma CarriedMerge(cfg: Config, s: State, s': State, c: nat, drop: nat, pc: Pc)
    requires Inv(cfg, s) && c < |s.pcs| && s.pcs[c].Carry? && !Installing(s.pcs[c]) && !pc.Carry?
    requires Merges(cfg, s, s', s.pcs[c].r, drop, [s.pcs[c].sid])
    requires s' == s.(rows := s'.rows, cut := s'.cut, pcs := s.pcs[c := pc])
    requires PcOk(cfg, s.heads, s.cur, s.bufPos, s.backrefs, s.bits[c], pc, c)
    ensures Inv(cfg, s')
  {
    hide HeadsOk, ChainsOk, PairsOk, SlotsOk, BufsOk, RowsOk, CountsOk, PcsOk, ConfigOk, PcOk, InsertAll;
    CarriedParts(cfg, s, c, drop, pc);
    SlotsQuiet(s.heads, s.cur, s.pcs, s.rowOf, s.backrefs, c, pc);
    PcsQuiet(cfg, s, s', c);
  }

  lemma CarriedParts(cfg: Config, s: State, c: nat, drop: nat, pc: Pc)
    requires Inv(cfg, s) && c < |s.pcs| && s.pcs[c].Carry? && !pc.Carry?
    requires s.pcs[c].r < |cfg.init| && drop + s.cut[s.pcs[c].r] <= |cfg.init[s.pcs[c].r]|
             && drop <= |s.rows[s.pcs[c].r]|
    ensures var r := s.pcs[c].r;
            var row := InsertAll(s.rows[r][drop..], [s.pcs[c].sid]);
            && RowsOk(cfg.init, s.rows[r := row], s.cut[r := s.cut[r] + drop])
            && CountsOk(cfg.init, s.rows[r := row], s.cut[r := s.cut[r] + drop], s.bufs, s.pcs[c := pc], s.bufPos,
                        s.begun)
  {
    hide HeadsOk, ChainsOk, PairsOk, SlotsOk, BufsOk, CountsOk, PcsOk, ConfigOk, RowsOk, InsertAll, RowOk, Holds, Above;
    var r, sid := s.pcs[c].r, s.pcs[c].sid;
    AtPc(cfg, s, c);
    RowAt(cfg, s, r);
    RowsMerge(cfg.init, s.rows, s.cut, r, drop, [sid]);
    forall q: nat | q < |s.rows| ensures Holds(s.bufs[c], s.pcs[c], s.bufPos[q], q)
      == Holds(s.bufs[c], pc, s.bufPos[q], q) + (if q == r then multiset([sid]) else multiset{}) {
      HoldsCarried(s.bufs[c], s.pcs[c], pc, s.bufPos[q], q);
    }
    CountsMerge(cfg.init, s.rows, s.cut, s.bufs, s.pcs, s.bufPos, s.begun, c, r, drop, [sid], s.bufs[c], pc);
    assert s.bufs[c := s.bufs[c]] == s.bufs;
  }

  lemma HoldsCarried(buf: seq<seq<nat>>, a: Pc, b: Pc, pos: int, q: nat)
    requires a.Carry? && !b.Carry?
    ensures Holds(buf, a, pos, q) == Holds(buf, b, pos, q) + (if q == a.r then multiset([a.sid]) else multiset{})
  {}

  lemma RowAt(cfg: Config, s: State, r: nat)
    requires Inv(cfg, s) && r < |s.rows|
    ensures RowOk(cfg.init[r], s.rows[r], s.cut[r])
  {
    hide HeadsOk, ChainsOk, PairsOk, SlotsOk, BufsOk, CountsOk, PcsOk, ConfigOk, RowOk;
  }

  /** The buffers at a row's position hold versions of that row, and no other row has the position. */
  lemma BufferAt(cfg: Config, s: State, c: nat, r: nat, p: nat)
    requires Inv(cfg, s) && c < |s.pcs| && r < |s.bufPos| && s.bufPos[r] == p
    ensures p < cfg.positions && s.rowOf[p] == r
    ensures BufOk(cfg.init, s.bufs[c][p], s.bits[c][p], r)
    ensures forall q: nat :: q < |s.bufPos| && q != r ==> s.bufPos[q] != p
  {
    hide HeadsOk, SlotsOk, RowsOk, CountsOk, PcsOk, ConfigOk, BufOk;
    forall q: nat | q < |s.bufPos| && q != r ensures s.bufPos[q] != p {}
    assert BufOk(cfg.init, s.bufs[c][p], s.bits[c][p], s.rowOf[p]);
  }

  lemma LockedAppendKeeps(cfg: Config, s: State, s': State, c: nat, a: Action)
    requires Inv(cfg, s) && a.LockedAppend? && Step(cfg, s, s', c, a)
    ensures Inv(cfg, s')
  {
    hide HeadsOk, ChainsOk, PairsOk, SlotsOk, BufsOk, RowsOk, CountsOk, PcsOk, ConfigOk, Merges;
    CarriedMerge(cfg, s, s', c, a.drop, Idle);
  }

  lemma PushFullKeeps(cfg: Config, s: State, s': State, c: nat, a: Action)
    requires Inv(cfg, s) && a.PushFull? && Step(cfg, s, s', c, a)
    ensures Inv(cfg, s')
  {
    hide HeadsOk, ChainsOk, PairsOk, SlotsOk, BufsOk, RowsOk, CountsOk, PcsOk, ConfigOk, Merges;
    AtPc(cfg, s, c);
    CarriedMerge(cfg, s, s', c, a.drop, Flush(s.pcs[c].r, s.pcs[c].at.p));
  }

  lemma BufsSet(init: seq<seq<nat>>, bufs: seq<seq<seq<nat>>>, bits: seq<seq<bool>>, rowOf: seq<int>, c: nat, p: nat,
                xs: seq<nat>, bit: bool)
    requires BufsOk(init, bufs, bits, rowOf) && c < |bufs| && p < |rowOf| && BufOk(init, xs, bit, rowOf[p])
    ensures BufsOk(init, SetBuf(bufs, c, p, xs), SetBit(bits, c, p, bit), rowOf)
  {
    hide BufOk;
  }

  /** Core `c` empties its buffer at the position of row `r` into the row. */
  lemma FlushMerge(cfg: Config, s: State, s': State, c: nat, r: nat, p: nat, drop: nat, pc: Pc)
    requires Inv(cfg, s) && c < |s.pcs| && r < |s.bufPos| && s.bufPos[r] == p < cfg.positions
    requires !s.pcs[c].Carry? && !pc.Carry? && !Installing(pc)
    requires Merges(cfg, s, s', r, drop, s.bufs[c][p])
    requires s' == s.(rows := s'.rows, cut := s'.cut, bufs := SetBuf(s.bufs, c, p, []),
                      bits := SetBit(s.bits, c, p, false), pcs := s.pcs[c := pc])
    requires PcOk(cfg, s.heads, s.cur, s.bufPos, s.backrefs, s'.bits[c], pc, c)
    ensures Inv(cfg, s')
  {
    hide HeadsOk, ChainsOk, PairsOk, SlotsOk, BufsOk, RowsOk, CountsOk, PcsOk, ConfigOk, PcOk, InsertAll;
    FlushParts(cfg, s, c, r, p, drop, pc);
    SlotsQuiet(s.heads, s.cur, s.pcs, s.rowOf, s.backrefs, c, pc);
    BufsSet(cfg.init, s.bufs, s.bits, s.rowOf, c, p, [], false);
    PcsQuiet(cfg, s, s', c);
  }

  lemma FlushParts(cfg: Config, s: State, c: nat, r: nat, p: nat, drop: nat, pc: Pc)
    requires Inv(cfg, s) && c < |s.pcs| && r < |s.bufPos| && s.bufPos[r] == p < cfg.positions
    requires !s.pcs[c].Carry? && !pc.Carry?
    requires drop + s.cut[r] <= |cfg.init[r]| && drop <= |s.rows[r]|
    ensures var row := InsertAll(s.rows[r][drop..], s.bufs[c][p]);
            && RowsOk(cfg.init, s.rows[r := row], s.cut[r := s.cut[r] + drop])
            && CountsOk(cfg.init, s.rows[r := row], s.cut[r := s.cut[r] + drop], SetBuf(s.bufs, c, p, []),
                        s.pcs[c := pc], s.bufPos, s.begun)
  {
    hide HeadsOk, ChainsOk, PairsOk, SlotsOk, BufsOk, CountsOk, PcsOk, ConfigOk, RowsOk, InsertAll, RowOk, Holds, Above;
    var xs := s.bufs[c][p];
    BufferAt(cfg, s, c, r, p);
    RowAt(cfg, s, r);
    RowsMerge(cfg.init, s.rows, s.cut, r, drop, xs);
    forall q: nat | q < |s.rows|
      ensures Holds(s.bufs[c], s.pcs[c], s.bufPos[q], q)
              == Holds(s.bufs[c][p := []], pc, s.bufPos[q], q) + (if q == r then multiset(xs) else multiset{})
    {
      HoldsFlushed(s.bufs[c], s.pcs[c], pc, p, s.bufPos[q], q);
    }
    CountsMerge(cfg.init, s.rows, s.cut, s.bufs, s.pcs, s.bufPos, s.begun, c, r, drop, xs, s.bufs[c][p := []], pc);
  }

  lemma HoldsFlushed(buf: seq<seq<nat>>, a: Pc, b: Pc, p: nat, pos: int, q: nat)
    requires !a.Carry? && !b.Carry? && p < |buf|
    ensures Holds(buf, a, pos, q) == Holds(buf[p := []], b, pos, q)
            + (if pos == p then multiset(buf[p]) else multiset{})
  {}

  lemma FlushBufferKeeps(cfg: Config, s: State, s': State, c: nat, a: Action)
    requires Inv(cfg, s) && a.FlushBuffer? && Step(cfg, s, s', c, a)
    ensures Inv(cfg, s')
  {
    hide HeadsOk, ChainsOk, PairsOk, SlotsOk, BufsOk, RowsOk, CountsOk, PcsOk, ConfigOk, Merges;
    AtPc(cfg, s, c);
    FlushMerge(cfg, s, s', c, s.pcs[c].row, s.pcs[c].p, a.drop, Idle);
  }

  lemma ScanFlushKeeps(cfg: Config, s: State, s': State, c: nat, a: Action)
    requires Inv(cfg, s) && a.ScanFlush? && Step(cfg, s, s', c, a)
    ensures Inv(cfg, s')
  {
    hide HeadsOk, ChainsOk, PairsOk, SlotsOk, BufsOk, RowsOk, CountsOk, PcsOk, ConfigOk, Merges, Passed;
    AtPc(cfg, s, c);
    var pc := s.pcs[c];
    assert pc.Scan? && pc.place.Walk? && pc.place.h < |s.heads| && pc.place.off < pc.place.to;
    var p := s.heads[pc.place.h].base + pc.place.off;
    ScannedRow(cfg, s, pc.place.h, p);
    ScanFlushed(cfg, s.heads, s.cur, s.zonePos, s.bits[c], pc);
    hide ScanOk;
    FlushMerge(cfg, s, s', c, s.backrefs[p], p, a.drop, pc.(place := pc.place.(off := pc.place.off + 1)));
  }

  /** The back reference at a scanned position leads to the row that has the position. */
  lemma ScannedRow(cfg: Config, s: State, h: nat, p: nat)
    requires Inv(cfg, s) && h < |s.heads| && s.heads[h].base <= p < s.heads[h].base + s.heads[h].pos
             && p < cfg.positions
    ensures 0 <= s.backrefs[p] < |s.bufPos| && s.bufPos[s.backrefs[p]] == p
  {
    hide BufsOk, RowsOk, CountsOk, PcsOk;
    assert HeadOk(cfg, s.heads[h], s.zonePos);
    assert Inside(s.heads[h], p) && Taken(s.heads, s.cur, s.pcs, h, p - s.heads[h].base);
  }

  lemma PushKeeps(cfg: Config, s: State, s': State, c: nat)
    requires Inv(cfg, s) && Step(cfg, s, s', c, Push)
    ensures Inv(cfg, s')
  {
    hide HeadsOk, ChainsOk, PairsOk, SlotsOk, BufsOk, RowsOk, CountsOk, PcsOk, ConfigOk;
    AtPc(cfg, s, c);
    PushParts(cfg, s, s', c);
    SlotsQuiet(s.heads, s.cur, s.pcs, s.rowOf, s.backrefs, c, s'.pcs[c]);
    PcsQuiet(cfg, s, s', c);
  }

  lemma PushParts(cfg: Config, s: State, s': State, c: nat)
    requires Inv(cfg, s) && Step(cfg, s, s', c, Push)
    ensures Shape(cfg, s')
    ensures BufsOk(cfg.init, s'.bufs, s'.bits, s'.rowOf)
    ensures CountsOk(cfg.init, s.rows, s.cut, s'.bufs, s'.pcs, s.bufPos, s.begun)
  {
    hide HeadsOk, ChainsOk, PairsOk, SlotsOk, BufsOk, CountsOk, PcsOk, ConfigOk, RowsOk, Holds, Above;
    AtPc(cfg, s, c);
    var r, p, sid := s.pcs[c].r, s.pcs[c].at.p, s.pcs[c].sid;
    var buf := s.bufs[c][p];
    BufferAt(cfg, s, c, r, p);
    BufsSet(cfg.init, s.bufs, s.bits, s.rowOf, c, p, buf + [sid], true);
    if |buf| > 0 {
      assert s.bits[c][p := true] == s.bits[c];
      assert SetBit(s.bits, c, p, true) == s.bits;
    }
    forall q: nat | q < |s.rows|
      ensures Holds(s.bufs[c][p := buf + [sid]], s'.pcs[c], s.bufPos[q], q)
              == Holds(s.bufs[c], s.pcs[c], s.bufPos[q], q)
    {
      HoldsPushed(s.bufs[c], s.pcs[c], s'.pcs[c], p, s.bufPos[q], q);
    }
    CountsPush(cfg.init, s.rows, s.cut, s.bufs, s.pcs, s.bufPos, s.begun, c, r, s.bufs[c][p := buf + [sid]], s'.pcs[c]);
  }

  lemma HoldsPushed(buf: seq<seq<nat>>, a: Pc, b: Pc, p: nat, pos: int, q: nat)
    requires a.Carry? && !b.Carry? && p < |buf| && (pos == p <==> q == a.r)
    ensures Holds(buf[p := buf[p] + [a.sid]], b, pos, q) == Holds(buf, a, pos, q)
  {}

  // ---------- steps that give out positions

  /** Different cores install into different heads. */
  lemma CurDiffer(cfg: Config, heads: seq<Head>, cur: seq<nat>, zonePos: seq<nat>, c: nat, d: nat)
    requires HeadsOk(cfg, heads, cur, zonePos) && c < |cur| && d < |cur| && c != d
    ensures cur[c] != cur[d]
  {}

  /** A position lies inside one head only. */
  lemma InsideOnce(cfg: Config, heads: seq<Head>, cur: seq<nat>, zonePos: seq<nat>, h: nat, g: nat, p: int)
    requires HeadsOk(cfg, heads, cur, zonePos) && h < |heads| && g < |heads| && Inside(heads[h], p)
             && Inside(heads[g], p)
    ensures h == g
  {}

  lemma NewHeadApart(cfg: Config, heads: seq<Head>, cur: seq<nat>, zonePos: seq<nat>, c: nat, h: nat)
    requires ConfigOk(cfg) && HeadsOk(cfg, heads, cur, zonePos) && c < |cur| && h < |heads|
    requires zonePos[cfg.zone[c]] + MAX_POS <= cfg.span
    ensures Apart(heads[h], Head(c, cfg.zoneBase[cfg.zone[c]] + zonePos[cfg.zone[c]], 0, cur[c]))
  {
    var z, y := cfg.zone[c], cfg.zone[heads[h].owner];
    assert HeadOk(cfg, heads[h], zonePos);
  }

  lemma HeadsGrow(cfg: Config, heads: seq<Head>, cur: seq<nat>, zonePos: seq<nat>, c: nat)
    requires ConfigOk(cfg) && HeadsOk(cfg, heads, cur, zonePos) && c < |cur|
    requires zonePos[cfg.zone[c]] + MAX_POS <= cfg.span
    ensures var z := cfg.zone[c];
            HeadsOk(cfg, heads + [Head(c, cfg.zoneBase[z] + zonePos[z], 0, cur[c])], cur[c := |heads|],
                    zonePos[z := zonePos[z] + MAX_POS])
  {
    var z := cfg.zone[c];
    var zonePos' := zonePos[z := zonePos[z] + MAX_POS];
    var heads' := heads + [Head(c, cfg.zoneBase[z] + zonePos[z], 0, cur[c])];
    hide Apart;
    forall h | 0 <= h < |heads'| ensures HeadOk(cfg, heads'[h], zonePos') {
      assert h < |heads| ==> HeadOk(cfg, heads[h], zonePos);
    }
    hide HeadOk;
    forall h, g | 0 <= h < g < |heads'| ensures Apart(heads'[h], heads'[g]) {
      if g == |heads| { NewHeadApart(cfg, heads, cur, zonePos, c, h); }
    }
  }

  lemma SlotsGrow(cfg: Config, heads: seq<Head>, cur: seq<nat>, zonePos: seq<nat>, pcs: seq<Pc>, rowOf: seq<int>,
                  backrefs: seq<int>, c: nat)
    requires ConfigOk(cfg) && HeadsOk(cfg, heads, cur, zonePos) && c < |cur| == |pcs| && !Installing(pcs[c])
    requires zonePos[cfg.zone[c]] + MAX_POS <= cfg.span
    requires SlotsOk(heads, cur, pcs, rowOf, backrefs)
    ensures var head := Head(c, cfg.zoneBase[cfg.zone[c]] + zonePos[cfg.zone[c]], 0, cur[c]);
            SlotsOk(heads + [head], cur[c := |heads|], pcs, rowOf, backrefs)
  {
    var z := cfg.zone[c];
    var head := Head(c, cfg.zoneBase[z] + zonePos[z], 0, cur[c]);
    var heads', cur' := heads + [head], cur[c := |heads|];
    forall p: nat | p < |rowOf| && rowOf[p] != -1
      ensures !Inside(head, p) && exists h :: 0 <= h < |heads'| && Inside(heads'[h], p)
    {
      var h: nat :| h < |heads| && Inside(heads[h], p);
      NewHeadApart(cfg, heads, cur, zonePos, c, h);
      assert Inside(heads'[h], p);
    }
    forall h: nat, k: nat | h < |heads| ensures Taken(heads', cur', pcs, h, k) == Taken(heads, cur, pcs, h, k) {}
    forall k: nat ensures !Taken(heads', cur', pcs, |heads|, k) {}
    hide Inside, Taken, HeadsOk;
  }

  lemma NewHeadKeeps(cfg: Config, s: State, s': State, c: nat)
    requires Inv(cfg, s) && Step(cfg, s, s', c, NewHead)
    ensures Inv(cfg, s')
  {
    hide HeadsOk, ChainsOk, PairsOk, SlotsOk, BufsOk, RowsOk, CountsOk, PcsOk, ConfigOk;
    SlotsGrow(cfg, s.heads, s.cur, s.zonePos, s.pcs, s.rowOf, s.backrefs, c);
    HeadsGrow(cfg, s.heads, s.cur, s.zonePos, c);
    HeadsPart(cfg, s);
    ChainsGrow(s.heads, s.cur, c, s'.heads[|s.heads|]);
    PcsGrow(cfg, s, s', c);
  }

  lemma ChainsGrow(heads: seq<Head>, cur: seq<nat>, c: nat, head: Head)
    requires ChainsOk(heads, cur) && CurOwned(heads, cur) && c < |cur| && head.owner == c && head.next == cur[c]
    ensures ChainsOk(heads + [head], cur[c := |heads|])
  {
    var heads' := heads + [head];
    forall h | 0 <= h < |heads'| ensures ChainOk(heads', h) {
      assert h < |heads| ==> ChainOk(heads, h);
    }
    hide ChainOk;
  }

  /** A new head holds no row yet, so no core has anything in it. */
  lemma NewHeadEmpty(cfg: Config, s: State, c: nat, head: Head, d: nat, p: nat)
    requires Inv(cfg, s) && c < |s.pcs| && d < |s.pcs| && s.zonePos[cfg.zone[c]] + MAX_POS <= cfg.span
    requires head == Head(c, cfg.zoneBase[cfg.zone[c]] + s.zonePos[cfg.zone[c]], 0, s.cur[c])
    requires Inside(head, p) && p < |s.bits[d]|
    ensures !s.bits[d][p] && forall g: nat :: g < |s.heads| ==> !Inside(s.heads[g], p)
  {
    hide PairsOk, RowsOk, CountsOk, PcsOk, ChainsOk;
    forall g: nat | g < |s.heads| ensures !Inside(s.heads[g], p) {
      NewHeadApart(cfg, s.heads, s.cur, s.zonePos, c, g);
    }
    assert BufOk(cfg.init, s.bufs[d][p], s.bits[d][p], s.rowOf[p]);
  }

  lemma ScanGrow(heads: seq<Head>, bits: seq<bool>, pc: Pc, head: Head)
    requires pc.Scan? && ScanOk(heads, bits, pc)
    requires forall p: nat :: Inside(head, p) && p < |bits| ==>
               !bits[p] && forall g: nat :: g < |heads| ==> !Inside(heads[g], p)
    ensures ScanOk(heads + [head], bits, pc)
  {
    var heads' := heads + [head];
    forall g: nat, p: nat | g < |heads| ensures PassedIn(heads', pc, g, p) == PassedIn(heads, pc, g, p) {}
    forall p: nat | Passed(heads, pc, p) ensures Passed(heads', pc, p) {
      var g: nat :| g < |heads| && PassedIn(heads, pc, g, p);
      assert PassedIn(heads', pc, g, p);
    }
    forall p: nat | p < |bits| && Passed(heads', pc, p) ensures bits[p] <==> p in pc.missed {
      var g: nat :| g < |heads'| && PassedIn(heads', pc, g, p);
      if g < |heads| { assert PassedIn(heads, pc, g, p); }
    }
  }

  lemma PcsGrow(cfg: Config, s: State, s': State, c: nat)
    requires Inv(cfg, s) && Step(cfg, s, s', c, NewHead) && Shape(cfg, s')
    ensures PcsOk(cfg, s')
  {
    hide HeadsOk, ChainsOk, PairsOk, SlotsOk, BufsOk, RowsOk, CountsOk, ConfigOk, ScanOk;
    forall d | 0 <= d < |s.pcs| ensures PcOk(cfg, s'.heads, s'.cur, s'.bufPos, s'.backrefs, s'.bits[d], s'.pcs[d], d) {
      assert PcOk(cfg, s.heads, s.cur, s.bufPos, s.backrefs, s.bits[d], s.pcs[d], d);
      assert d != c ==> s'.heads[s'.cur[d]] == s.heads[s.cur[d]];
      if s.pcs[d].Scan? {
        var head := s'.heads[|s.heads|];
        forall p: nat | Inside(head, p) && p < |s.bits[d]|
          ensures !s.bits[d][p] && forall g: nat :: g < |s.heads| ==> !Inside(s.heads[g], p)
        {
          NewHeadEmpty(cfg, s, c, head, d, p);
        }
        ScanGrow(s.heads, s.bits[d], s.pcs[d], head);
      }
    }
  }

  // the compare-and-swap that gives row `r` the next position of core `c`

  lemma NextFree(cfg: Config, s: State, c: nat)
    requires Inv(cfg, s) && c < |s.pcs| && s.heads[s.cur[c]].pos < MAX_POS && !Installing(s.pcs[c])
    ensures var p := s.heads[s.cur[c]].base + s.heads[s.cur[c]].pos;
            p < cfg.positions && Inside(s.heads[s.cur[c]], p) && s.rowOf[p] == -1
  {
    hide PairsOk, BufsOk, RowsOk, CountsOk, PcsOk;
    assert HeadOk(cfg, s.heads[s.cur[c]], s.zonePos);
  }

  lemma PairsInstall(bufPos: seq<int>, rowOf: seq<int>, r: nat, p: nat)
    requires PairsOk(bufPos, rowOf) && r < |bufPos| && p < |rowOf| && bufPos[r] == -1 && rowOf[p] == -1
    ensures PairsOk(bufPos[r := p], rowOf[p := r])
  {}

  lemma SlotsInstall(cfg: Config, heads: seq<Head>, cur: seq<nat>, zonePos: seq<nat>, pcs: seq<Pc>, rowOf: seq<int>,
                     backrefs: seq<int>, c: nat, r: nat, pc: Pc)
    requires HeadsOk(cfg, heads, cur, zonePos) && c < |cur| == |pcs| && !Installing(pcs[c]) && Installing(pc)
    requires SlotsOk(heads, cur, pcs, rowOf, backrefs)
    requires heads[cur[c]].pos < MAX_POS && heads[cur[c]].base + heads[cur[c]].pos < |rowOf|
    ensures SlotsOk(heads, cur, pcs[c := pc], rowOf[heads[cur[c]].base + heads[cur[c]].pos := r], backrefs)
  {
    var g := cur[c];
    var p0 := heads[g].base + heads[g].pos;
    assert Inside(heads[g], p0);
    forall h: nat, k: nat | h < |heads|
      ensures Taken(heads, cur, pcs[c := pc], h, k) <==> Taken(heads, cur, pcs, h, k) || (h == g && k == heads[g].pos)
    {
      assert heads[g].owner == c;
    }
    forall h: nat | h < |heads| && Inside(heads[h], p0) ensures h == g {
      InsideOnce(cfg, heads, cur, zonePos, h, g, p0);
    }
    hide Taken, HeadsOk;
  }

  lemma BufsInstall(init: seq<seq<nat>>, bufs: seq<seq<seq<nat>>>, bits: seq<seq<bool>>, rowOf: seq<int>, r: nat,
                    p: nat)
    requires BufsOk(init, bufs, bits, rowOf) && p < |rowOf| && rowOf[p] == -1
    ensures BufsOk(init, bufs, bits, rowOf[p := r])
    ensures forall c :: 0 <= c < |bufs| ==> bufs[c][p] == []
  {
    forall c, q | 0 <= c < |bufs| && 0 <= q < |rowOf| ensures BufOk(init, bufs[c][q], bits[c][q], rowOf[p := r][q])
      && (q == p ==> bufs[c][q] == []) {
      assert BufOk(init, bufs[c][q], bits[c][q], rowOf[q]);
    }
  }

  lemma SwapKeeps(cfg: Config, s: State, s': State, c: nat)
    requires Inv(cfg, s) && Step(cfg, s, s', c, Swap) && s'.bufPos != s.bufPos
    ensures Inv(cfg, s')
  {
    hide HeadsOk, ChainsOk, PairsOk, SlotsOk, BufsOk, RowsOk, CountsOk, PcsOk, ConfigOk;
    AtPc(cfg, s, c);
    NextFree(cfg, s, c);
    var r := s.pcs[c].r;
    var p := s.heads[s.cur[c]].base + s.heads[s.cur[c]].pos;
    PairsInstall(s.bufPos, s.rowOf, r, p);
    SlotsInstall(cfg, s.heads, s.cur, s.zonePos, s.pcs, s.rowOf, s.backrefs, c, r, s'.pcs[c]);
    BufsInstall(cfg.init, s.bufs, s.bits, s.rowOf, r, p);
    CountsInstall(cfg.init, s.rows, s.cut, s.bufs, s.pcs, s.bufPos, s.begun, r, p);
    CountsQuiet(cfg.init, s.rows, s.cut, s.bufs, s.pcs, s'.bufPos, s.begun, c, s'.pcs[c]);
    PcsSwap(cfg, s, s', c);
  }

  lemma PcsSwap(cfg: Config, s: State, s': State, c: nat)
    requires Inv(cfg, s) && Step(cfg, s, s', c, Swap) && s'.bufPos != s.bufPos && Shape(cfg, s')
    ensures PcsOk(cfg, s')
  {
    hide HeadsOk, ChainsOk, PairsOk, SlotsOk, BufsOk, RowsOk, CountsOk, ConfigOk, ScanOk;
    forall d | 0 <= d < |s.pcs| ensures PcOk(cfg, s'.heads, s'.cur, s'.bufPos, s'.backrefs, s'.bits[d], s'.pcs[d], d) {
      assert PcOk(cfg, s.heads, s.cur, s.bufPos, s.backrefs, s.bits[d], s.pcs[d], d);
    }
  }

  // recording the row at its position

  lemma SetBackrefKeeps(cfg: Config, s: State, s': State, c: nat)
    requires Inv(cfg, s) && Step(cfg, s, s', c, SetBackref)
    ensures Inv(cfg, s')
  {
    hide HeadsOk, ChainsOk, PairsOk, SlotsOk, BufsOk, RowsOk, CountsOk, PcsOk, ConfigOk;
    AtPc(cfg, s, c);
    SlotsQuiet(s.heads, s.cur, s.pcs, s.rowOf, s.backrefs, c, s'.pcs[c]);
    SlotsBackref(cfg, s.heads, s.cur, s.zonePos, s'.pcs, s.rowOf, s.backrefs, s.cur[c], s.pcs[c].r);
    CountsQuiet(cfg.init, s.rows, s.cut, s.bufs, s.pcs, s.bufPos, s.begun, c, s'.pcs[c]);
    PcsBackref(cfg, s, s', c);
  }

  lemma SlotsBackref(cfg: Config, heads: seq<Head>, cur: seq<nat>, zonePos: seq<nat>, pcs: seq<Pc>, rowOf: seq<int>,
                     backrefs: seq<int>, g: nat, r: nat)
    requires HeadsOk(cfg, heads, cur, zonePos) && g < |heads| && SlotsOk(heads, cur, pcs, rowOf, backrefs)
    requires heads[g].pos < MAX_POS && heads[g].base + heads[g].pos < |rowOf|
    ensures SlotsOk(heads, cur, pcs, rowOf, backrefs[heads[g].base + heads[g].pos := r])
  {
    var p0 := heads[g].base + heads[g].pos;
    assert Inside(heads[g], p0);
    forall h: nat | h < |heads| && Inside(heads[h], p0) ensures h == g {
      InsideOnce(cfg, heads, cur, zonePos, h, g, p0);
    }
    hide Taken, HeadsOk;
  }

  lemma PcsBackref(cfg: Config, s: State, s': State, c: nat)
    requires Inv(cfg, s) && Step(cfg, s, s', c, SetBackref) && Shape(cfg, s')
    ensures PcsOk(cfg, s')
  {
    hide ChainsOk, PairsOk, SlotsOk, BufsOk, RowsOk, CountsOk, ConfigOk, ScanOk;
    AtPc(cfg, s, c);
    var g := s.cur[c];
    var p0 := s.heads[g].base + s.heads[g].pos;
    forall d: nat | d < |s.pcs| ensures PcOk(cfg, s'.heads, s'.cur, s'.bufPos, s'.backrefs, s'.bits[d], s'.pcs[d], d) {
      assert PcOk(cfg, s.heads, s.cur, s.bufPos, s.backrefs, s.bits[d], s.pcs[d], d);
      if d != c && s.pcs[d].Carry? && s.pcs[d].at == Increment {
        var p := s.heads[s.cur[d]].base + s.heads[s.cur[d]].pos;
        OtherSlot(cfg, s.heads, s.cur, s.zonePos, c, d);
      }
    }
  }

  /** The next positions of two cores differ. */
  lemma OtherSlot(cfg: Config, heads: seq<Head>, cur: seq<nat>, zonePos: seq<nat>, c: nat, d: nat)
    requires HeadsOk(cfg, heads, cur, zonePos) && c < |cur| && d < |cur| && c != d
    requires heads[cur[c]].pos < MAX_POS && heads[cur[d]].pos < MAX_POS
    ensures cur[c] != cur[d]
    ensures heads[cur[c]].base + heads[cur[c]].pos != heads[cur[d]].base + heads[cur[d]].pos
  {
    CurDiffer(cfg, heads, cur, zonePos, c, d);
    assert cur[c] < cur[d] ==> Apart(heads[cur[c]], heads[cur[d]]);
    assert cur[d] < cur[c] ==> Apart(heads[cur[d]], heads[cur[c]]);
  }

  // moving the counter of the head

  lemma HeadsAdvance(cfg: Config, heads: seq<Head>, cur: seq<nat>, zonePos: seq<nat>, g: nat)
    requires HeadsOk(cfg, heads, cur, zonePos) && g < |heads| && heads[g].pos < MAX_POS
    ensures HeadsOk(cfg, heads[g := heads[g].(pos := heads[g].pos + 1)], cur, zonePos)
  {
    var heads' := heads[g := heads[g].(pos := heads[g].pos + 1)];
    forall h | 0 <= h < |heads| ensures HeadOk(cfg, heads'[h], zonePos) {
      assert HeadOk(cfg, heads[h], zonePos);
    }
    hide HeadOk;
    forall h, k | 0 <= h < k < |heads'| ensures Apart(heads'[h], heads'[k]) {
      assert Apart(heads[h], heads[k]);
    }
  }

  lemma SlotsAdvance(heads: seq<Head>, cur: seq<nat>, pcs: seq<Pc>, rowOf: seq<int>, backrefs: seq<int>, c: nat, pc: Pc)
    requires SlotsOk(heads, cur, pcs, rowOf, backrefs) && c < |cur| == |pcs| && cur[c] < |heads|
             && heads[cur[c]].owner == c
    requires Installing(pcs[c]) && !Installing(pc) && heads[cur[c]].pos < MAX_POS
    requires var p := heads[cur[c]].base + heads[cur[c]].pos; p < |rowOf| && backrefs[p] == rowOf[p]
    ensures SlotsOk(heads[cur[c] := heads[cur[c]].(pos := heads[cur[c]].pos + 1)], cur, pcs[c := pc], rowOf, backrefs)
  {
    var g := cur[c];
    var heads' := heads[g := heads[g].(pos := heads[g].pos + 1)];
    forall h: nat, k: nat | h < |heads| ensures Taken(heads', cur, pcs[c := pc], h, k)
      == Taken(heads, cur, pcs, h, k) {}
    forall h: nat, p: int | h < |heads| ensures Inside(heads'[h], p) == Inside(heads[h], p) {}
    hide Taken, Inside;
    forall p: nat | p < |rowOf| && rowOf[p] != -1 ensures exists h :: 0 <= h < |heads'| && Inside(heads'[h], p) {
      var h: nat :| h < |heads| && Inside(heads[h], p);
      assert Inside(heads'[h], p);
    }
  }

  lemma AdvanceClears(cfg: Config, s: State, c: nat)
    requires Inv(cfg, s) && c < |s.pcs| && s.heads[s.cur[c]].pos + 1 < MAX_POS
    ensures var p := s.heads[s.cur[c]].base + s.heads[s.cur[c]].pos + 1;
            p < cfg.positions && s.bufs[c][p] == [] && !s.bits[c][p]
  {
    hide PairsOk, RowsOk, CountsOk, PcsOk;
    var g := s.cur[c];
    assert HeadOk(cfg, s.heads[g], s.zonePos);
    var p := s.heads[g].base + s.heads[g].pos + 1;
    assert Inside(s.heads[g], p) && !Taken(s.heads, s.cur, s.pcs, g, p - s.heads[g].base);
    assert BufOk(cfg.init, s.bufs[c][p], s.bits[c][p], s.rowOf[p]);
  }

  /** The state after a head's counter has moved. */
  function Advanced(s: State, c: nat): State
    requires c < |s.pcs| && c < |s.cur| && s.cur[c] < |s.heads| && s.pcs[c].Carry?
  {
    var head := s.heads[s.cur[c]];
    s.(heads := s.heads[s.cur[c] := head.(pos := head.pos + 1)],
       pcs := s.pcs[c := s.pcs[c].(at := Append(head.base + head.pos))])
  }

  /** Clearing the next position changes nothing. */
  lemma AdvanceIs(cfg: Config, s: State, s': State, c: nat)
    requires Inv(cfg, s) && Step(cfg, s, s', c, Advance)
    ensures c < |s.pcs| && s.pcs[c].Carry? && s.pcs[c].at == Increment && s' == Advanced(s, c)
  {
    hide HeadsOk, ChainsOk, PairsOk, SlotsOk, BufsOk, RowsOk, CountsOk, PcsOk, ConfigOk, ScanStep, BufferStep;
    assert s.pcs[c].Carry? && FindStep(cfg, s, s', c, Advance) by { AdvanceFinds(cfg, s, s', c); }
    var head := s.heads[s.cur[c]];
    var p := head.base + head.pos;
    if head.pos + 1 != MAX_POS {
      assert head.pos < MAX_POS by { AtPc(cfg, s, c); }
      AdvanceClears(cfg, s, c);
      assert s.bufs[c][p + 1 := []] == s.bufs[c] && s.bits[c][p + 1 := false] == s.bits[c];
    }
  }

  lemma AdvanceFinds(cfg: Config, s: State, s': State, c: nat)
    requires Step(cfg, s, s', c, Advance)
    ensures c < |s.pcs| && s.pcs[c].Carry? && s.pcs[c].r < |cfg.init| && FindStep(cfg, s, s', c, Advance)
  {}

  lemma AdvanceKeeps(cfg: Config, s: State, s': State, c: nat)
    requires Inv(cfg, s) && Step(cfg, s, s', c, Advance)
    ensures Inv(cfg, s')
  {
    hide Step, HeadsOk, ChainsOk, PairsOk, SlotsOk, BufsOk, RowsOk, CountsOk, PcsOk, ConfigOk, ScanOk;
    AdvanceIs(cfg, s, s', c);
    AtPc(cfg, s, c);
    var head := s.heads[s.cur[c]];
    BufferAt(cfg, s, c, s.pcs[c].r, head.base + head.pos);
    AdvanceParts(cfg, s, c, s'.pcs[c]);
    ChainsAdvance(s.heads, s.cur, s.cur[c]);
    CountsQuiet(cfg.init, s.rows, s.cut, s.bufs, s.pcs, s.bufPos, s.begun, c, s'.pcs[c]);
    PcsAdvance(cfg, s, c);
  }

  lemma AdvanceParts(cfg: Config, s: State, c: nat, pc: Pc)
    requires Inv(cfg, s) && c < |s.pcs| && Installing(s.pcs[c]) && !Installing(pc) && s.heads[s.cur[c]].pos < MAX_POS
    requires var p := s.heads[s.cur[c]].base + s.heads[s.cur[c]].pos; p < |s.rowOf| && s.backrefs[p] == s.rowOf[p]
    ensures var heads' := s.heads[s.cur[c] := s.heads[s.cur[c]].(pos := s.heads[s.cur[c]].pos + 1)];
            HeadsOk(cfg, heads', s.cur, s.zonePos) && SlotsOk(heads', s.cur, s.pcs[c := pc], s.rowOf, s.backrefs)
  {
    hide PairsOk, BufsOk, RowsOk, CountsOk, PcsOk, ConfigOk, SlotsOk;
    HeadsAdvance(cfg, s.heads, s.cur, s.zonePos, s.cur[c]);
    SlotsAdvance(s.heads, s.cur, s.pcs, s.rowOf, s.backrefs, c, pc);
  }

  lemma PcsAdvance(cfg: Config, s: State, c: nat)
    requires Inv(cfg, s) && c < |s.pcs| && s.pcs[c].Carry? && s.pcs[c].at == Increment
    ensures Shape(cfg, Advanced(s, c)) && PcsOk(cfg, Advanced(s, c))
  {
    hide HeadsOk, ChainsOk, PairsOk, SlotsOk, BufsOk, RowsOk, CountsOk, PcsOk, ConfigOk, PcOk;
    var s' := Advanced(s, c);
    forall d: nat | d < |s.pcs| ensures PcOk(cfg, s'.heads, s.cur, s.bufPos, s.backrefs, s.bits[d], s'.pcs[d], d) {
      PcAdvance(cfg, s, c, d);
    }
    assert PcsOk(cfg, s') by { PcsFrom(cfg, s'); }
  }

  lemma PcsFrom(cfg: Config, s: State)
    requires Shape(cfg, s)
    requires forall d: nat :: d < |s.pcs| ==> PcOk(cfg, s.heads, s.cur, s.bufPos, s.backrefs, s.bits[d], s.pcs[d], d)
    ensures PcsOk(cfg, s)
  {
    hide PcOk;
  }

  lemma PcAdvance(cfg: Config, s: State, c: nat, d: nat)
    requires Inv(cfg, s) && c < |s.pcs| && s.pcs[c].Carry? && s.pcs[c].at == Increment && d < |s.pcs|
    ensures var s' := Advanced(s, c);
            PcOk(cfg, s'.heads, s.cur, s.bufPos, s.backrefs, s.bits[d], s'.pcs[d], d)
  {
    hide HeadsOk, ChainsOk, PairsOk, SlotsOk, BufsOk, RowsOk, CountsOk, PcsOk, ConfigOk, ScanOk, CurOwned, Above;
    AtPc(cfg, s, d);
    if d != c {
      assert s.cur[c] != s.cur[d] by {
        HeadsPart(cfg, s);
        CurDiffer(cfg, s.heads, s.cur, s.zonePos, c, d);
      }
      if s.pcs[d].Scan? { ScanAdvance(s.heads, s.bits[d], s.pcs[d], s.cur[c]); }
    }
  }

  lemma ScanAdvance(heads: seq<Head>, bits: seq<bool>, pc: Pc, g: nat)
    requires pc.Scan? && ScanOk(heads, bits, pc) && g < |heads|
    ensures ScanOk(heads[g := heads[g].(pos := heads[g].pos + 1)], bits, pc)
  {
    var heads' := heads[g := heads[g].(pos := heads[g].pos + 1)];
    forall h: nat, p: nat | h < |heads| ensures PassedIn(heads', pc, h, p) == PassedIn(heads, pc, h, p) {}
    forall p: nat ensures Passed(heads', pc, p) == Passed(heads, pc, p) {
      if Passed(heads, pc, p) {
        var h: nat :| h < |heads| && PassedIn(heads, pc, h, p);
        assert PassedIn(heads', pc, h, p);
      }
      if Passed(heads', pc, p) {
        var h: nat :| h < |heads'| && PassedIn(heads', pc, h, p);
        assert PassedIn(heads, pc, h, p);
      }
    }
    hide Passed, PassedIn;
  }

  lemma ChainsAdvance(heads: seq<Head>, cur: seq<nat>, g: nat)
    requires ChainsOk(heads, cur) && g < |heads|
    ensures ChainsOk(heads[g := heads[g].(pos := heads[g].pos + 1)], cur)
  {
    var heads' := heads[g := heads[g].(pos := heads[g].pos + 1)];
    forall h | 0 <= h < |heads'| ensures ChainOk(heads', h) {
      assert ChainOk(heads, h);
    }
    hide ChainOk;
  }

  // ---------- runs

  lemma NextKeeps(cfg: Config, s: State, s': State)
    requires Inv(cfg, s) && Next(cfg, s, s')
    ensures Inv(cfg, s')
  {
    hide Inv, Step;
    var c: nat, a: Action :| Step(cfg, s, s', c, a);
    StepKind(cfg, s, s', c, a);
    if s.pcs[c].Scan? && !a.Begin? && !a.ScanFlush? {
      ScanKeeps(cfg, s, s', c, a);
    } else {
      match a
      case Begin(_, _) => BeginKeeps(cfg, s, s', c, a);
      case CheckFree => CheckKeeps(cfg, s, s', c, a);
      case CheckBusy => CheckKeeps(cfg, s, s', c, a);
      case LockedAppend(_) => LockedAppendKeeps(cfg, s, s', c, a);
      case Lookup => LookupKeeps(cfg, s, s', c, a);
      case NewHead => NewHeadKeeps(cfg, s, s', c);
      case NoHead => CheckKeeps(cfg, s, s', c, a);
      case Swap => if s'.bufPos == s.bufPos { LookupKeeps(cfg, s, s', c, a); } else { SwapKeeps(cfg, s, s', c); }
      case SetBackref => SetBackrefKeeps(cfg, s, s', c);
      case Advance => AdvanceKeeps(cfg, s, s', c);
      case Push => PushKeeps(cfg, s, s', c);
      case PushFull(_) => PushFullKeeps(cfg, s, s', c, a);
      case LockForFlush => TryKeeps(cfg, s, s', c, a);
      case GiveUp => TryKeeps(cfg, s, s', c, a);
      case FlushBuffer(_) => FlushBufferKeeps(cfg, s, s', c, a);
      case BeginScan => BeginScanKeeps(cfg, s, s', c);
      case ScanFlush(_) => ScanFlushKeeps(cfg, s, s', c, a);
      case _ => {}
    }
  }

  /** Only a scan takes the other steps of FinalizeFlush. */
  lemma StepKind(cfg: Config, s: State, s': State, c: nat, a: Action)
    requires Step(cfg, s, s', c, a)
    ensures c < |s.pcs|
    ensures a in {LoadHead, NextCore, ReadPos, ScanClear, ScanBusy, ScanEnd, Finish} ==> s.pcs[c].Scan?
  {}

  lemma StartInv(cfg: Config, s: State)
    requires Start(cfg, s)
    ensures Inv(cfg, s)
  {
    forall r: nat | r < |s.rows|
      ensures RowOk(cfg.init[r], s.rows[r], s.cut[r])
      ensures Conserved(cfg.init[r], s.rows[r], s.cut[r], MultiSum(HoldsSeq(s.bufs, s.pcs, s.bufPos[r], r)), s.begun[r])
    {
      MultiSumEmpty(HoldsSeq(s.bufs, s.pcs, s.bufPos[r], r));
      assert cfg.init[r][0..] == cfg.init[r] && s.rows[r][..|cfg.init[r]|] == s.rows[r];
    }
  }

  lemma {:induction false} RunInv(cfg: Config, run: seq<State>, i: nat)
    requires IsRun(cfg, run) && i < |run|
    ensures Inv(cfg, run[i])
  {
    hide Inv, Start, Next;
    if i == 0 {
      StartInv(cfg, run[0]);
    } else {
      RunInv(cfg, run, i - 1);
      NextKeeps(cfg, run[i - 1], run[i]);
    }
  }

  /** In every state a row, the buffers at its position and the versions being carried hold exactly
      the versions appended so far, plus what is left of the initial ones. */
  lemma NoVersionLost(cfg: Config, run: seq<State>, i: nat, r: nat)
    requires IsRun(cfg, run) && i < |run| && r < |cfg.init|
    ensures var s := run[i];
            && Shape(cfg, s) && s.cut[r] <= |cfg.init[r]| && Sorted(s.rows[r])
            && multiset(s.rows[r]) + MultiSum(HoldsSeq(s.bufs, s.pcs, s.bufPos[r], r))
               == multiset(cfg.init[r][s.cut[r]..]) + s.begun[r]
  {
    RunInv(cfg, run, i);
    hide IsRun, HeadsOk, PairsOk, SlotsOk, BufsOk, PcsOk, MultiSum;
  }

  /** A bit of a core's bitmap is set exactly when the buffer at that position holds something. */
  lemma BitmapIsExact(cfg: Config, run: seq<State>, i: nat, c: nat, p: nat)
    requires IsRun(cfg, run) && i < |run| && c < |cfg.zone| && p < cfg.positions
    ensures Shape(cfg, run[i]) && (run[i].bits[c][p] <==> run[i].bufs[c][p] != [])
  {
    RunInv(cfg, run, i);
    hide IsRun, HeadsOk, PairsOk, SlotsOk, PcsOk, RowsOk, CountsOk;
    var s := run[i];
    assert BufOk(cfg.init, s.bufs[c][p], s.bits[c][p], s.rowOf[p]);
  }

  /** Two rows never share a buffer position. */
  lemma PositionsDistinct(cfg: Config, run: seq<State>, i: nat, q: nat, r: nat)
    requires IsRun(cfg, run) && i < |run| && q < |cfg.init| && r < |cfg.init|
    ensures Shape(cfg, run[i])
    ensures run[i].bufPos[q] == run[i].bufPos[r] != -1 ==> q == r
  {
    RunInv(cfg, run, i);
    hide IsRun, HeadsOk, BufsOk, SlotsOk, PcsOk, RowsOk, CountsOk;
  }

  // ---------- when the pool of heads runs out

  lemma {:induction false} HeadCountSame(zone: seq<nat>, heads: seq<Head>, heads': seq<Head>, z: nat)
    requires |heads| == |heads'| && forall h :: 0 <= h < |heads| ==> heads[h].owner == heads'[h].owner
    ensures HeadCount(zone, heads, z) == HeadCount(zone, heads', z)
    decreases |heads|
  {
    if heads != [] { HeadCountSame(zone, heads[..|heads| - 1], heads'[..|heads| - 1], z); }
  }

  lemma ScanHeads(cfg: Config, s: State, s': State, c: nat, a: Action)
    requires Shape(cfg, s) && c < |s.pcs| && s.pcs[c].Scan? && ScanStep(cfg, s, s', c, a)
    ensures s'.heads == s.heads && s'.zonePos == s.zonePos
  {}

  lemma BufferHeads(cfg: Config, s: State, s': State, c: nat, a: Action)
    requires Shape(cfg, s) && c < |s.pcs| && BufferStep(cfg, s, s', c, a)
    ensures s'.heads == s.heads && s'.zonePos == s.zonePos
  {}

  lemma StepZones(cfg: Config, s: State, s': State, c: nat, a: Action)
    requires ConfigOk(cfg) && Step(cfg, s, s', c, a) && ZonesOk(cfg, s.heads, s.zonePos)
    ensures ZonesOk(cfg, s'.heads, s'.zonePos)
  {
    hide ScanStep, BufferStep, ZonesOk;
    if a.Begin? || a == BeginScan {
    } else if s.pcs[c].Scan? {
      ScanHeads(cfg, s, s', c, a);
    } else if BufferStep(cfg, s, s', c, a) {
      BufferHeads(cfg, s, s', c, a);
    } else {
      FindZones(cfg, s, s', c, a);
    }
  }

  lemma FindZones(cfg: Config, s: State, s': State, c: nat, a: Action)
    requires ConfigOk(cfg) && Shape(cfg, s) && c < |s.pcs| && s.pcs[c].Carry? && s.pcs[c].r < |cfg.init|
    requires FindStep(cfg, s, s', c, a) && ZonesOk(cfg, s.heads, s.zonePos)
    ensures ZonesOk(cfg, s'.heads, s'.zonePos)
  {
    if a == NewHead {
      assert s'.heads[..|s.heads|] == s.heads;
    } else if a == Advance {
      forall z: nat ensures HeadCount(cfg.zone, s.heads, z) == HeadCount(cfg.zone, s'.heads, z) {
        HeadCountSame(cfg.zone, s.heads, s'.heads, z);
      }
    } else {
      assert s'.heads == s.heads && s'.zonePos == s.zonePos;
    }
  }

  lemma {:induction false} RunZones(cfg: Config, run: seq<State>, i: nat)
    requires IsRun(cfg, run) && i < |run|
    ensures ZonesOk(cfg, run[i].heads, run[i].zonePos)
  {
    hide Step, ZonesOk;
    if i > 0 {
      RunZones(cfg, run, i - 1);
      assert Next(cfg, run[i - 1], run[i]);
      var c: nat, a: Action :| Step(cfg, run[i - 1], run[i], c, a);
      StepZones(cfg, run[i - 1], run[i], c, a);
    }
  }

  /** A core needs a new head: its row has no position and its current head is used up. */
  predicate NeedsHead(cfg: Config, s: State, c: nat)
    requires Shape(cfg, s) && c < |s.pcs|
  {
    && s.pcs[c].Carry? && s.pcs[c].at == Install && s.pcs[c].r < |s.bufPos| && s.bufPos[s.pcs[c].r] == -1
    && s.heads[s.cur[c]].pos >= MAX_POS
  }

  /** A core that needs a head crashes if and only if its zone has given out span / MAX_POS heads,
      as many as its pool holds. */
  lemma CrashesExactly(cfg: Config, run: seq<State>, i: nat, c: nat)
    requires IsRun(cfg, run) && i < |run| && c < |cfg.zone| && Shape(cfg, run[i]) && Alive(run[i].pcs)
    ensures (exists s' :: Step(cfg, run[i], s', c, NoHead)) <==>
              NeedsHead(cfg, run[i], c) && HeadCount(cfg.zone, run[i].heads, cfg.zone[c]) >= cfg.span / MAX_POS
  {
    RunZones(cfg, run, i);
    var s := run[i];
    var z := cfg.zone[c];
    assert s.zonePos[z] == MAX_POS * HeadCount(cfg.zone, s.heads, z);
    if NeedsHead(cfg, s, c) && HeadCount(cfg.zone, s.heads, z) >= cfg.span / MAX_POS {
      assert Step(cfg, s, s.(pcs := s.pcs[c := s.pcs[c].(at := Crashed)]), c, NoHead);
    }
  }

  /** Before that it gets its head. */
  lemma GetsHeadExactly(cfg: Config, run: seq<State>, i: nat, c: nat)
    requires IsRun(cfg, run) && i < |run| && c < |cfg.zone| && Shape(cfg, run[i]) && Alive(run[i].pcs)
    requires NeedsHead(cfg, run[i], c)
    ensures (exists s' :: Step(cfg, run[i], s', c, NewHead)) <==>
              HeadCount(cfg.zone, run[i].heads, cfg.zone[c]) < cfg.span / MAX_POS
  {
    RunZones(cfg, run, i);
    var s := run[i];
    var z := cfg.zone[c];
    assert s.zonePos[z] == MAX_POS * HeadCount(cfg.zone, s.heads, z);
    if HeadCount(cfg.zone, s.heads, z) < cfg.span / MAX_POS {
      assert Step(cfg, s, s.(heads := s.heads + [Head(c, cfg.zoneBase[z] + s.zonePos[z], 0, s.cur[c])],
                             cur := s.cur[c := |s.heads|],
                             zonePos := s.zonePos[z := s.zonePos[z] + MAX_POS]), c, NewHead);
    }
  }
}
