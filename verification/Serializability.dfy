/** The execution phase of one epoch over multi-version rows: any interleaving of the
    transactions, each reading through ReadSlot (and waiting while the slot is pending) and
    writing through WriteSlot, gives what running them one by one in serial-id order gives. */
module Serializability {
  import opened Sums
  import opened VersionSeq
  import opened RowLookup

  /** A write stores a value computed from everything the transaction has read so far. */
  datatype Op = Read(key: nat) | Write(key: nat, f: seq<nat> -> nat)

  datatype Txn = Txn(sid: nat, ops: seq<Op>)

  // ---------- the serial reference: one transaction after the other on a plain store

  function ReadsUpTo(ops: seq<Op>, n: nat, db: seq<nat>): seq<nat>
    requires n <= |ops| && KeysBelow(ops, |db|)
  {
    if n == 0 then []
    else if ops[n - 1].Read? then ReadsUpTo(ops, n - 1, db) + [db[ops[n - 1].key]]
    else ReadsUpTo(ops, n - 1, db)
  }

  /** A read inside a transaction sees the store from before the transaction. */
  function RunOps(ops: seq<Op>, n: nat, db: seq<nat>): (r: seq<nat>)
    requires n <= |ops| && KeysBelow(ops, |db|)
    ensures |r| == |db|
  {
    if n == 0 then db
    else
      var before := RunOps(ops, n - 1, db);
      if ops[n - 1].Write? then before[ops[n - 1].key := ops[n - 1].f(ReadsUpTo(ops, n - 1, db))]
      else before
  }

  predicate KeysBelow(ops: seq<Op>, n: nat) {
    forall i :: 0 <= i < |ops| ==> ops[i].key < n
  }

  ghost predicate KeysOk(batch: seq<Txn>, n: nat) {
    forall t :: 0 <= t < |batch| ==> KeysBelow(batch[t].ops, n)
  }

  /** The store after the first `t` transactions of the batch. */
  ghost function Serial(batch: seq<Txn>, init: seq<nat>, t: nat): (r: seq<nat>)
    requires t <= |batch| && KeysOk(batch, |init|)
    ensures |r| == |init|
  {
    if t == 0 then init
    else RunOps(batch[t - 1].ops, |batch[t - 1].ops|, Serial(batch, init, t - 1))
  }

  predicate WritesAt(ops: seq<Op>, key: nat, i: nat) {
    i < |ops| && ops[i].Write? && ops[i].key == key
  }

  ghost predicate Writes(ops: seq<Op>, key: nat) {
    exists i :: 0 <= i < |ops| && WritesAt(ops, key, i)
  }

  ghost predicate WritesOnce(ops: seq<Op>) {
    forall i, j :: 0 <= i < |ops| && 0 <= j < |ops| && ops[i].Write? && ops[j].Write? && ops[i].key == ops[j].key
      ==> i == j
  }

  lemma {:induction false} RunOpsKeeps(ops: seq<Op>, n: nat, db: seq<nat>, key: nat)
    requires n <= |ops| && KeysBelow(ops, |db|) && key < |db|
    requires forall i :: 0 <= i < n ==> !WritesAt(ops, key, i)
    ensures RunOps(ops, n, db)[key] == db[key]
  {
    if n > 0 {
      assert !WritesAt(ops, key, n - 1);
      RunOpsKeeps(ops, n - 1, db, key);
    }
  }

  lemma {:induction false} RunOpsWrites(ops: seq<Op>, n: nat, db: seq<nat>, key: nat, i: nat)
    requires n <= |ops| && KeysBelow(ops, |db|) && key < |db| && WritesOnce(ops)
    requires i < n && WritesAt(ops, key, i)
    ensures RunOps(ops, n, db)[key] == ops[i].f(ReadsUpTo(ops, i, db))
  {
    if i < n - 1 {
      RunOpsWrites(ops, n - 1, db, key, i);
      assert !WritesAt(ops, key, n - 1);
    }
  }

  /** Transactions that do not write a key leave it alone. */
  lemma {:induction false} SerialKeeps(batch: seq<Txn>, init: seq<nat>, a: nat, b: nat, key: nat)
    requires a <= b <= |batch| && KeysOk(batch, |init|) && key < |init|
    requires forall t :: a <= t < b ==> !Writes(batch[t].ops, key)
    ensures Serial(batch, init, b)[key] == Serial(batch, init, a)[key]
    decreases b
  {
    if a < b {
      SerialKeeps(batch, init, a, b - 1, key);
      var ops := batch[b - 1].ops;
      forall i | 0 <= i < |ops| ensures !WritesAt(ops, key, i) {}
      RunOpsKeeps(ops, |ops|, Serial(batch, init, b - 1), key);
    }
  }

  // ---------- the epoch: transactions and the rows as the append phase left them

  /** `base[k]` counts the versions of row `k` from earlier epochs; `init[k]` is its value then. */
  datatype Plan = Plan(batch: seq<Txn>, rows: seq<Row>, base: seq<nat>, init: seq<nat>)

  ghost predicate IsSid(batch: seq<Txn>, word: nat) {
    exists t :: 0 <= t < |batch| && batch[t].sid == word
  }

  /** Transactions in serial-id order; each writes a row at most once, only real objects, and
      no object word equals a serial id of the batch. */
  ghost predicate BatchOk(batch: seq<Txn>, n: nat) {
    && KeysOk(batch, n)
    && (forall i, j :: 0 <= i < j < |batch| ==> batch[i].sid < batch[j].sid)
    && (forall t :: 0 <= t < |batch| ==> WritesOnce(batch[t].ops))
    && (forall t, i, v: seq<nat> :: 0 <= t < |batch| && 0 <= i < |batch[t].ops| && batch[t].ops[i].Write? ==>
          ObjectOk(batch, batch[t].ops[i].f(v)))
  }

  ghost predicate ObjectOk(batch: seq<Txn>, word: nat) {
    !IsPendingVal(word) && !IsSid(batch, word)
  }

  /** What the append phase leaves in row `k`: earlier versions written, then one pending slot
      for each transaction that will write the row, and nothing else. */
  ghost predicate RowOk(p: Plan, k: nat)
    requires k < |p.rows| == |p.base| == |p.init|
  {
    var row, base := p.rows[k], p.base[k];
    && row.Valid() && base <= row.size && row.curStart <= base
    && (forall j, t :: 0 <= j < base && 0 <= t < |p.batch| ==> row.versions[j] < p.batch[t].sid)
    && (base > 0 ==> row.objects[base - 1] == p.init[k] && !IsPendingVal(p.init[k]))
    && (forall j :: base <= j < row.size ==> Owned(p, k, j))
    && (forall t :: 0 <= t < |p.batch| && Writes(p.batch[t].ops, k) ==> HasSlot(p, k, t))
    && (forall i, j :: base <= i < j < row.size ==> row.versions[i] < row.versions[j])
    && (forall j :: base <= j < row.size ==> IsPendingVal(row.objects[j]))
    && !IsSid(p.batch, row.objects[0])
    && (row.size < |row.versions| ==> !IsSid(p.batch, row.versions[row.size]))
  }

  /** Slot `j` of row `k` belongs to transaction `t`. */
  ghost predicate SlotOf(p: Plan, k: nat, j: nat, t: nat)
    requires k < |p.rows| == |p.base|
  {
    && t < |p.batch| && p.base[k] <= j < p.rows[k].size <= |p.rows[k].versions|
    && p.rows[k].versions[j] == p.batch[t].sid && Writes(p.batch[t].ops, k)
  }

  ghost predicate Owned(p: Plan, k: nat, j: nat)
    requires k < |p.rows| == |p.base|
  {
    exists t :: SlotOf(p, k, j, t)
  }

  ghost predicate HasSlot(p: Plan, k: nat, t: nat)
    requires k < |p.rows| == |p.base|
  {
    exists j :: SlotOf(p, k, j, t)
  }

  /** A transaction reads only rows that have a version before it. */
  ghost predicate ReadsExist(p: Plan) {
    forall t, i :: 0 <= t < |p.batch| && 0 <= i < |p.batch[t].ops| && p.batch[t].ops[i].Read? ==>
      var k := p.batch[t].ops[i].key;
      k < |p.rows| && p.rows[k].versions != [] && p.rows[k].versions[0] < p.batch[t].sid
  }

  ghost predicate PlanOk(p: Plan) {
    && |p.rows| == |p.base| == |p.init|
    && BatchOk(p.batch, |p.rows|)
    && (forall k :: 0 <= k < |p.rows| ==> RowOk(p, k))
    && ReadsExist(p)
  }

  // ---------- execution as steps

  datatype Thread = Thread(pc: nat, seen: seq<nat>)

  datatype State = State(rows: seq<Row>, threads: seq<Thread>)

  ghost predicate Init(p: Plan, s: State) {
    && s.rows == p.rows
    && s.threads == seq(|p.batch|, i => Thread(0, []))
  }

  /** Transaction `t` performs its next operation. A read of a pending slot is not a step. */
  ghost predicate Exec(p: Plan, s: State, s': State, t: nat) {
    && |s.threads| == |p.batch| && t < |p.batch| && s.threads[t].pc < |p.batch[t].ops|
    && var th := s.threads[t];
       var op := p.batch[t].ops[th.pc];
       && op.key < |s.rows| && CanSearch(s.rows[op.key])
       && var row := s.rows[op.key];
          if op.Read? then
            && row.ReadSlot(p.batch[t].sid).At?
            && var pos := row.ReadSlot(p.batch[t].sid).pos;
               && pos < |row.objects| && !IsPendingVal(row.objects[pos])
               && s' == s.(threads := s.threads[t := Thread(th.pc + 1, th.seen + [row.objects[pos]])])
          else
            && row.WriteSlot(p.batch[t].sid).At?
            && var pos := row.WriteSlot(p.batch[t].sid).pos;
               && pos < |row.objects|
               && s' == State(s.rows[op.key := row.(objects := row.objects[pos := op.f(th.seen)])],
                              s.threads[t := Thread(th.pc + 1, th.seen)])
  }

  ghost predicate CanSearch(row: Row) {
    |row.versions| == |row.objects| && 0 < row.size <= |row.versions| && -1 <= row.latest < row.size
      && row.curStart <= row.size
  }

  /** The hint of row `k` changes, to anything at all: writers race to raise it. */
  ghost predicate MoveHint(s: State, s': State, k: nat, latest: int) {
    && k < |s.rows| && -1 <= latest < s.rows[k].size
    && s' == s.(rows := s.rows[k := s.rows[k].(latest := latest)])
  }

  ghost predicate Next(p: Plan, s: State, s': State) {
    (exists t :: Exec(p, s, s', t)) || (exists k, latest :: MoveHint(s, s', k, latest))
  }

  ghost predicate IsRun(p: Plan, run: seq<State>) {
    && run != [] && Init(p, run[0])
    && forall i :: 0 <= i < |run| - 1 ==> Next(p, run[i], run[i + 1])
  }

  // ---------- what every step keeps

  /** Only objects and hints of a row change, and a slot holds the serial value of its owner
      exactly when the owner has passed its write. */
  ghost predicate RowInv(p: Plan, s: State, k: nat)
    requires PlanOk(p) && k < |p.rows| == |s.rows| && |s.threads| == |p.batch| && RowOk(p, k)
  {
    var row, row0, base := s.rows[k], p.rows[k], p.base[k];
    && row.versions == row0.versions && row.size == row0.size && row.curStart == row0.curStart
    && |row.objects| == |row0.objects| && -1 <= row.latest < row.size
    && (base > 0 ==> row.objects[base - 1] == p.init[k])
    && !IsSid(p.batch, row.objects[0])
    && forall j, t :: SlotOf(p, k, j, t) ==> SlotInv(p, s, k, j, t)
  }

  ghost predicate SlotInv(p: Plan, s: State, k: nat, j: nat, t: nat)
    requires PlanOk(p) && k < |p.rows| == |s.rows| && |s.threads| == |p.batch| && RowOk(p, k)
    requires SlotOf(p, k, j, t) && |s.rows[k].objects| == |p.rows[k].objects|
  {
    var obj := s.rows[k].objects[j];
    if Past(p, s, k, t) then !IsPendingVal(obj) && obj == Serial(p.batch, p.init, t + 1)[k]
    else IsPendingVal(obj)
  }

  /** Transaction `t` has executed its write to row `k`. */
  ghost predicate Past(p: Plan, s: State, k: nat, t: nat)
    requires t < |p.batch| == |s.threads|
  {
    exists i :: 0 <= i < s.threads[t].pc && WritesAt(p.batch[t].ops, k, i)
  }

  ghost predicate ThreadInv(p: Plan, s: State, t: nat)
    requires PlanOk(p) && t < |p.batch| == |s.threads|
  {
    && s.threads[t].pc <= |p.batch[t].ops|
    && s.threads[t].seen == ReadsUpTo(p.batch[t].ops, s.threads[t].pc, Serial(p.batch, p.init, t))
  }

  ghost predicate Inv(p: Plan, s: State)
    requires PlanOk(p)
  {
    && |s.rows| == |p.rows| && |s.threads| == |p.batch|
    && (forall k :: 0 <= k < |s.rows| ==> RowInv(p, s, k))
    && (forall t :: 0 <= t < |s.threads| ==> ThreadInv(p, s, t))
  }

  lemma InitInv(p: Plan, s: State)
    requires PlanOk(p) && Init(p, s)
    ensures Inv(p, s)
  {
    forall k | 0 <= k < |p.rows| ensures RowInv(p, s, k) {
      assert RowOk(p, k);
    }
  }

  /** `pos` is the last version of the row below `sid`. */
  ghost predicate LastBelow(row: Row, sid: nat, pos: nat) {
    && pos < row.size <= |row.versions| && row.versions[pos] < sid
    && forall j :: pos < j < row.size ==> sid <= row.versions[j]
  }

  /** In any state a read of transaction `t` looks at the last version before it. */
  lemma ReadFinds(p: Plan, s: State, k: nat, t: nat) returns (pos: nat)
    requires PlanOk(p) && Inv(p, s) && k < |p.rows| && t < |p.batch|
    requires p.rows[k].versions != [] && p.rows[k].versions[0] < p.batch[t].sid
    ensures CanSearch(s.rows[k]) && s.rows[k].ReadSlot(p.batch[t].sid) == At(pos)
    ensures LastBelow(s.rows[k], p.batch[t].sid, pos)
  {
    assert RowOk(p, k) && RowInv(p, s, k);
    var row, sid := s.rows[k], p.batch[t].sid;
    ReadSlotCorrect(row, sid);
    var ids := row.versions[..row.size];
    BelowIsLowerBound(ids, sid);
    var b := Below(ids, sid);
    assert ids[0] == row.versions[0];
    pos := b - 1;
    assert ids[pos] == row.versions[pos];
    forall j | pos < j < row.size ensures sid <= row.versions[j] {
      assert row.versions[j] == ids[j];
    }
  }

  lemma SidOrder(batch: seq<Txn>, n: nat, a: nat, b: nat)
    requires BatchOk(batch, n) && a < |batch| && b < |batch|
    ensures batch[a].sid < batch[b].sid <==> a < b
  {
    assert a < b ==> batch[a].sid < batch[b].sid;
    assert b < a ==> batch[b].sid < batch[a].sid;
  }

  /** The last version before transaction `t` is from before the epoch, or it belongs to the
      last earlier writer; either way its value is the serial one. */
  lemma LastBelowIsSerial(p: Plan, k: nat, t: nat, pos: nat) returns (writer: int)
    requires PlanOk(p) && k < |p.rows| && t < |p.batch| && LastBelow(p.rows[k], p.batch[t].sid, pos)
    ensures -1 <= writer < t
    ensures writer == -1 ==> pos + 1 == p.base[k] && Serial(p.batch, p.init, t)[k] == p.init[k]
    ensures writer >= 0 ==> SlotOf(p, k, pos, writer)
                            && Serial(p.batch, p.init, t)[k] == Serial(p.batch, p.init, writer + 1)[k]
  {
    hide Serial, KeysOk, WritesOnce, IsSid;
    assert RowOk(p, k);
    forall j: nat, u: nat | SlotOf(p, k, j, u) && u < t ensures j <= pos {
      SidOrder(p.batch, |p.rows|, u, t);
    }
    EarlierWriters(p, k, t, pos);
    if pos < p.base[k] {
      assert p.rows[k].versions[p.base[k] - 1] < p.batch[t].sid;
      writer := -1;
    } else {
      assert Owned(p, k, pos);
      var w: nat :| SlotOf(p, k, pos, w);
      SidOrder(p.batch, |p.rows|, w, t);
      writer := w;
    }
    SerialKeeps(p.batch, p.init, writer + 1, t, k);
    SerialStart(p.batch, p.init);
  }

  /** If the slots of the first `t` transactions end at `pos`, its owner is their last writer. */
  lemma EarlierWriters(p: Plan, k: nat, t: nat, pos: nat)
    requires PlanOk(p) && k < |p.rows| && t <= |p.batch|
    requires forall j: nat, u: nat :: SlotOf(p, k, j, u) && u < t ==> j <= pos
    ensures forall u :: 0 <= u < t && Writes(p.batch[u].ops, k) ==> p.base[k] <= pos
    ensures forall u, w: nat :: 0 <= u < t && Writes(p.batch[u].ops, k) && SlotOf(p, k, pos, w) ==> u <= w
  {
    assert RowOk(p, k);
    forall u | 0 <= u < t && Writes(p.batch[u].ops, k)
      ensures p.base[k] <= pos && forall w: nat :: SlotOf(p, k, pos, w) ==> u <= w
    {
      assert HasSlot(p, k, u);
      var j: nat :| SlotOf(p, k, j, u);
      forall w: nat | SlotOf(p, k, pos, w) ensures u <= w {
        SidOrder(p.batch, |p.rows|, w, u);
      }
    }
  }

  lemma SerialStart(batch: seq<Txn>, init: seq<nat>)
    requires KeysOk(batch, |init|)
    ensures Serial(batch, init, 0) == init
  {}

  /** In any state a write of transaction `t` goes to its own slot. */
  lemma WriteFinds(p: Plan, s: State, k: nat, t: nat) returns (pos: nat)
    requires PlanOk(p) && Inv(p, s) && k < |p.rows| && t < |p.batch| && Writes(p.batch[t].ops, k)
    ensures CanSearch(s.rows[k]) && s.rows[k].WriteSlot(p.batch[t].sid) == At(pos)
    ensures SlotOf(p, k, pos, t)
  {
    assert RowOk(p, k) && RowInv(p, s, k) && HasSlot(p, k, t);
    pos :| SlotOf(p, k, pos, t);
    var row, sid := s.rows[k], p.batch[t].sid;
    var ids := row.versions[..row.size];
    forall j | 0 <= j < |ids| && ids[j] == sid ensures j == pos {
      assert ids[j] == row.versions[j];
    }
    assert OnlyAt(ids, sid, pos);
    assert IsSid(p.batch, sid);
    WriteSlotCorrect(row, sid, pos);
  }

  // ---------- every step keeps the invariant

  lemma MoveHintKeepsInv(p: Plan, s: State, s': State, k: nat, latest: int)
    requires PlanOk(p) && Inv(p, s) && MoveHint(s, s', k, latest)
    ensures Inv(p, s')
  {
    forall i | 0 <= i < |s'.rows| ensures RowInv(p, s', i) {
      assert RowInv(p, s, i);
      forall j, t | SlotOf(p, i, j, t) ensures SlotInv(p, s', i, j, t) {
        assert SlotInv(p, s, i, j, t);
        assert Past(p, s', i, t) == Past(p, s, i, t);
      }
    }
    forall t | 0 <= t < |s'.threads| ensures ThreadInv(p, s', t) {
      assert ThreadInv(p, s, t);
    }
  }

  lemma NotPastIsUnfinished(p: Plan, s: State, k: nat, t: nat)
    requires t < |p.batch| == |s.threads| && Writes(p.batch[t].ops, k)
    ensures Past(p, s, k, t) || s.threads[t].pc < |p.batch[t].ops|
  {}

  /** The value seen by a read that goes through is the serial one. */
  lemma ReadIsSerial(p: Plan, s: State, k: nat, t: nat, pos: nat)
    requires PlanOk(p) && Inv(p, s) && k < |p.rows| && t < |p.batch|
    requires LastBelow(s.rows[k], p.batch[t].sid, pos) && pos < |s.rows[k].objects|
    ensures !IsPendingVal(s.rows[k].objects[pos]) ==> s.rows[k].objects[pos] == Serial(p.batch, p.init, t)[k]
    ensures IsPendingVal(s.rows[k].objects[pos]) ==> exists u :: 0 <= u < t && s.threads[u].pc < |p.batch[u].ops|
  {
    hide Serial, ReadsUpTo, BatchOk, ReadsExist, IsSid, IsPendingVal;
    assert RowOk(p, k) && RowInv(p, s, k);
    var writer := LastBelowIsSerial(p, k, t, pos);
    if writer >= 0 {
      assert SlotInv(p, s, k, pos, writer);
      NotPastIsUnfinished(p, s, k, writer);
    }
  }

  lemma ReadKeepsInv(p: Plan, s: State, s': State, t: nat)
    requires PlanOk(p) && Inv(p, s) && Exec(p, s, s', t)
    requires p.batch[t].ops[s.threads[t].pc].Read?
    ensures Inv(p, s')
  {
    var th := s.threads[t];
    var k := p.batch[t].ops[th.pc].key;
    assert p.rows[k].versions != [] && p.rows[k].versions[0] < p.batch[t].sid;
    var pos := ReadFinds(p, s, k, t);
    ReadIsSerial(p, s, k, t, pos);
    assert ThreadInv(p, s, t);
    forall u | 0 <= u < |s'.threads| ensures ThreadInv(p, s', u) {
      assert ThreadInv(p, s, u);
    }
    forall i | 0 <= i < |s'.rows| ensures RowInv(p, s', i) {
      assert RowInv(p, s, i);
      forall j, u | SlotOf(p, i, j, u) ensures SlotInv(p, s', i, j, u) {
        assert SlotInv(p, s, i, j, u);
        PastAfter(p, s, s', t, i, u);
      }
    }
  }

  /** One operation of `t` only moves `t` past a write, and only past the one it performs. */
  lemma PastAfter(p: Plan, s: State, s': State, t: nat, k: nat, u: nat)
    requires |s.threads| == |s'.threads| == |p.batch| && t < |p.batch| && u < |p.batch|
    requires s'.threads[t].pc == s.threads[t].pc + 1 && s.threads[t].pc < |p.batch[t].ops|
    requires forall v :: 0 <= v < |p.batch| && v != t ==> s'.threads[v] == s.threads[v]
    ensures Past(p, s', k, u) <==> Past(p, s, k, u) || (u == t && WritesAt(p.batch[t].ops, k, s.threads[t].pc))
  {
    if u == t && WritesAt(p.batch[t].ops, k, s.threads[t].pc) {
      assert 0 <= s.threads[t].pc < s'.threads[t].pc;
    }
  }

  /** The value a write stores is what the serial execution has in the row after `t`. */
  lemma WriteIsSerial(p: Plan, s: State, t: nat)
    requires PlanOk(p) && t < |p.batch| == |s.threads| && ThreadInv(p, s, t) && s.threads[t].pc < |p.batch[t].ops|
    requires p.batch[t].ops[s.threads[t].pc].Write?
    ensures var op := p.batch[t].ops[s.threads[t].pc];
            var value := op.f(s.threads[t].seen);
            value == Serial(p.batch, p.init, t + 1)[op.key] && ObjectOk(p.batch, value)
  {
    var ops, pc := p.batch[t].ops, s.threads[t].pc;
    assert WritesAt(ops, ops[pc].key, pc);
    RunOpsWrites(ops, |ops|, Serial(p.batch, p.init, t), ops[pc].key, pc);
  }

  lemma WriteKeepsRow(p: Plan, s: State, s': State, t: nat, pos: nat, k: nat)
    requires PlanOk(p) && Inv(p, s) && Exec(p, s, s', t) && k < |p.rows|
    requires p.batch[t].ops[s.threads[t].pc].Write?
    requires SlotOf(p, p.batch[t].ops[s.threads[t].pc].key, pos, t)
    requires s.rows[p.batch[t].ops[s.threads[t].pc].key].WriteSlot(p.batch[t].sid) == At(pos)
    ensures RowInv(p, s', k)
  {
    hide Serial, ReadsUpTo, BatchOk, ReadsExist, Row.WriteSlot, Row.ReadSlot, IsSid, IsPendingVal;
    var op := p.batch[t].ops[s.threads[t].pc];
    assert RowOk(p, k) && RowInv(p, s, k) && ThreadInv(p, s, t);
    WriteIsSerial(p, s, t);
    forall j: nat, u: nat | SlotOf(p, k, j, u) ensures SlotInv(p, s', k, j, u) {
      assert SlotInv(p, s, k, j, u);
      PastAfter(p, s, s', t, k, u);
      if k == op.key { SlotsApart(p, k, pos, t, j, u); }
    }
  }

  lemma WriteKeepsInv(p: Plan, s: State, s': State, t: nat)
    requires PlanOk(p) && Inv(p, s) && Exec(p, s, s', t)
    requires p.batch[t].ops[s.threads[t].pc].Write?
    ensures Inv(p, s')
  {
    hide Serial, BatchOk, ReadsExist, Row.WriteSlot, Row.ReadSlot, IsSid, IsPendingVal, RowInv, SlotOf;
    var th := s.threads[t];
    var op := p.batch[t].ops[th.pc];
    assert WritesAt(p.batch[t].ops, op.key, th.pc);
    var pos := WriteFinds(p, s, op.key, t);
    forall u | 0 <= u < |s'.threads| ensures ThreadInv(p, s', u) {
      assert ThreadInv(p, s, u);
    }
    forall k | 0 <= k < |s'.rows| ensures RowInv(p, s', k) {
      assert RowOk(p, k);
      WriteKeepsRow(p, s, s', t, pos, k);
    }
  }

  /** Two transactions never share a slot. */
  lemma SlotsApart(p: Plan, k: nat, i: nat, t: nat, j: nat, u: nat)
    requires PlanOk(p) && k < |p.rows| && SlotOf(p, k, i, t) && SlotOf(p, k, j, u)
    ensures i == j <==> t == u
  {
    assert RowOk(p, k);
    SidOrder(p.batch, |p.rows|, t, u);
    SidOrder(p.batch, |p.rows|, u, t);
  }

  lemma NextKeepsInv(p: Plan, s: State, s': State)
    requires PlanOk(p) && Inv(p, s) && Next(p, s, s')
    ensures Inv(p, s')
  {
    if t: nat :| Exec(p, s, s', t) {
      if p.batch[t].ops[s.threads[t].pc].Read? { ReadKeepsInv(p, s, s', t); } else { WriteKeepsInv(p, s, s', t); }
    } else {
      var k: nat, latest: int :| MoveHint(s, s', k, latest);
      MoveHintKeepsInv(p, s, s', k, latest);
    }
  }

  lemma {:induction false} RunInv(p: Plan, run: seq<State>, i: nat)
    requires PlanOk(p) && IsRun(p, run) && i < |run|
    ensures Inv(p, run[i])
  {
    if i == 0 {
      InitInv(p, run[0]);
    } else {
      RunInv(p, run, i - 1);
      NextKeepsInv(p, run[i - 1], run[i]);
    }
  }

  // ---------- the theorems

  ghost predicate Finished(p: Plan, s: State, t: nat)
    requires t < |p.batch| == |s.threads|
  {
    s.threads[t].pc == |p.batch[t].ops|
  }

  /** Serializability of reads: at every point of every run a transaction has read exactly
      what the serial execution lets it read. */
  lemma ReadsAreSerial(p: Plan, run: seq<State>, i: nat, t: nat)
    requires PlanOk(p) && IsRun(p, run) && i < |run| && t < |p.batch|
    ensures |run[i].threads| == |p.batch| && run[i].threads[t].pc <= |p.batch[t].ops|
    ensures run[i].threads[t].seen == ReadsUpTo(p.batch[t].ops, run[i].threads[t].pc, Serial(p.batch, p.init, t))
  {
    RunInv(p, run, i);
    assert ThreadInv(p, run[i], t);
  }

  /** Serializability of writes: a slot is pending until its owner's write, and from then on
      holds what the serial execution has in that row after the owner. */
  lemma SlotsAreSerial(p: Plan, run: seq<State>, i: nat, k: nat, j: nat, t: nat)
    requires PlanOk(p) && IsRun(p, run) && i < |run| && k < |p.rows| && SlotOf(p, k, j, t)
    ensures |run[i].rows| == |p.rows| && |run[i].threads| == |p.batch| && j < |run[i].rows[k].objects|
    ensures IsPendingVal(run[i].rows[k].objects[j]) <==> !Past(p, run[i], k, t)
    ensures Past(p, run[i], k, t) ==> run[i].rows[k].objects[j] == Serial(p.batch, p.init, t + 1)[k]
  {
    RunInv(p, run, i);
    assert RowOk(p, k) && RowInv(p, run[i], k);
    assert SlotInv(p, run[i], k, j, t);
  }

  /** Progress: the first unfinished transaction always has a step, so no run gets stuck. */
  lemma FirstUnfinishedRuns(p: Plan, run: seq<State>, i: nat, t: nat) returns (s': State)
    requires PlanOk(p) && IsRun(p, run) && i < |run| && t < |p.batch| == |run[i].threads|
    requires !Finished(p, run[i], t) && forall u :: 0 <= u < t ==> Finished(p, run[i], u)
    ensures Exec(p, run[i], s', t)
  {
    hide Serial, ReadsUpTo, WritesOnce;
    RunInv(p, run, i);
    var s := run[i];
    assert ThreadInv(p, s, t);
    var th := s.threads[t];
    var op := p.batch[t].ops[th.pc];
    assert RowOk(p, op.key) && RowInv(p, s, op.key);
    var row := s.rows[op.key];
    if op.Read? {
      var pos := ReadFinds(p, s, op.key, t);
      ReadIsSerial(p, s, op.key, t, pos);
      forall u | 0 <= u < t ensures s.threads[u].pc == |p.batch[u].ops| {
        assert Finished(p, s, u);
      }
      s' := s.(threads := s.threads[t := Thread(th.pc + 1, th.seen + [row.objects[pos]])]);
    } else {
      assert WritesAt(p.batch[t].ops, op.key, th.pc);
      var pos := WriteFinds(p, s, op.key, t);
      s' := State(s.rows[op.key := row.(objects := row.objects[pos := op.f(th.seen)])],
                  s.threads[t := Thread(th.pc + 1, th.seen)]);
    }
  }

  lemma FinishedIsPast(p: Plan, s: State, k: nat, t: nat)
    requires t < |p.batch| == |s.threads| && Finished(p, s, t) && Writes(p.batch[t].ops, k)
    ensures Past(p, s, k, t)
  {}

  /** Once all have finished, the newest version of every row holds the serial outcome. */
  lemma FinalRowsAreSerial(p: Plan, run: seq<State>, i: nat, k: nat)
    requires PlanOk(p) && IsRun(p, run) && i < |run| && k < |p.rows|
    requires |run[i].threads| == |p.batch| && forall t :: 0 <= t < |p.batch| ==> Finished(p, run[i], t)
    ensures |run[i].rows| == |p.rows| && 0 < run[i].rows[k].size <= |run[i].rows[k].objects|
    ensures run[i].rows[k].objects[run[i].rows[k].size - 1] == Serial(p.batch, p.init, |p.batch|)[k]
  {
    hide Serial, ReadsUpTo, ReadsExist, IsSid, IsPendingVal, Past, KeysOk, WritesOnce, ObjectOk;
    RunInv(p, run, i);
    var s := run[i];
    assert RowOk(p, k) && RowInv(p, s, k);
    var last: nat := p.rows[k].size - 1;
    var writer: int := -1;
    if p.base[k] <= last {
      assert Owned(p, k, last);
      var w: nat :| SlotOf(p, k, last, w);
      writer := w;
      FinishedIsPast(p, s, k, w);
      assert SlotInv(p, s, k, last, w);
    }
    EarlierWriters(p, k, |p.batch|, last);
    SerialKeeps(p.batch, p.init, writer + 1, |p.batch|, k);
    SerialStart(p.batch, p.init);
  }

  // ---------- every run can be completed

  function OpsLeft(p: Plan, s: State): (r: seq<int>)
    requires |s.threads| == |p.batch|
    ensures |r| == |p.batch|
  {
    seq(|p.batch|, t requires 0 <= t < |p.batch| => |p.batch[t].ops| - s.threads[t].pc)
  }

  lemma ExecLowers(p: Plan, s: State, s': State, t: nat)
    requires Exec(p, s, s', t)
    ensures |s.threads| == |s'.threads| == |p.batch| && Sum(OpsLeft(p, s')) == Sum(OpsLeft(p, s)) - 1
  {
    SumChange(OpsLeft(p, s), OpsLeft(p, s'), t);
  }

  lemma LeftOver(p: Plan, run: seq<State>, i: nat)
    requires PlanOk(p) && IsRun(p, run) && i < |run|
    ensures |run[i].threads| == |p.batch| && Sum(OpsLeft(p, run[i])) >= 0
  {
    RunInv(p, run, i);
    var s := run[i];
    forall t | 0 <= t < |p.batch| ensures OpsLeft(p, s)[t] >= 0 {
      assert ThreadInv(p, s, t);
    }
    SumNonNegative(OpsLeft(p, s));
  }

  lemma {:induction false} FirstUnfinished(p: Plan, s: State, n: nat) returns (t: nat)
    requires n <= |p.batch| == |s.threads|
    ensures t <= n && (t < n ==> !Finished(p, s, t)) && forall u :: 0 <= u < t ==> Finished(p, s, u)
  {
    if n == 0 {
      t := 0;
    } else {
      t := FirstUnfinished(p, s, n - 1);
      if t == n - 1 && Finished(p, s, t) { t := n; }
    }
  }

  ghost predicate AllFinished(p: Plan, s: State) {
    |s.threads| == |p.batch| && forall t :: 0 <= t < |p.batch| ==> Finished(p, s, t)
  }

  lemma {:induction false} FinishFrom(p: Plan, run: seq<State>, left: nat) returns (whole: seq<State>)
    requires PlanOk(p) && IsRun(p, run) && |run[|run| - 1].threads| == |p.batch|
    requires left == Sum(OpsLeft(p, run[|run| - 1]))
    ensures IsRun(p, whole) && run <= whole && AllFinished(p, whole[|whole| - 1])
    decreases left
  {
    hide PlanOk, Init, Exec, OpsLeft, Sum;
    var s := run[|run| - 1];
    var t := FirstUnfinished(p, s, |p.batch|);
    if t == |p.batch| {
      whole := run;
    } else {
      var s' := FirstUnfinishedRuns(p, run, |run| - 1, t);
      assert Next(p, s, s');
      var more := run + [s'];
      ExecLowers(p, s, s', t);
      LeftOver(p, more, |run|);
      whole := FinishFrom(p, more, left - 1);
    }
  }

  /** Whatever has happened so far, the transactions can all be finished, and then every row ends in its
      serial outcome. */
  lemma RunCanFinish(p: Plan, run: seq<State>) returns (whole: seq<State>)
    requires PlanOk(p) && IsRun(p, run)
    ensures IsRun(p, whole) && run <= whole && AllFinished(p, whole[|whole| - 1])
    ensures HoldsDb(whole[|whole| - 1].rows, Serial(p.batch, p.init, |p.batch|))
  {
    hide PlanOk, Init, Exec, OpsLeft, Sum, Serial;
    LeftOver(p, run, |run| - 1);
    whole := FinishFrom(p, run, Sum(OpsLeft(p, run[|run| - 1])));
    RowsFinal(p, whole, |whole| - 1);
  }

  /** The newest version of every row holds that row's value. */
  ghost predicate HoldsDb(rows: seq<Row>, db: seq<nat>) {
    && |rows| == |db|
    && forall k ::
        0 <= k < |rows| ==> 0 < rows[k].size <= |rows[k].objects| && rows[k].objects[rows[k].size - 1] == db[k]
  }

  lemma RowsFinal(p: Plan, run: seq<State>, i: nat)
    requires PlanOk(p) && IsRun(p, run) && i < |run| && AllFinished(p, run[i])
    ensures |p.init| == |p.rows| && KeysOk(p.batch, |p.init|)
    ensures HoldsDb(run[i].rows, Serial(p.batch, p.init, |p.batch|))
  {
    hide IsRun, Serial, Inv;
    RunInv(p, run, i);
    RowsSame(p, run, i);
    forall k | 0 <= k < |p.rows|
      ensures 0 < run[i].rows[k].size <= |run[i].rows[k].objects|
      ensures run[i].rows[k].objects[run[i].rows[k].size - 1] == Serial(p.batch, p.init, |p.batch|)[k]
    {
      FinalRowsAreSerial(p, run, i, k);
    }
  }

  lemma RowsSame(p: Plan, run: seq<State>, i: nat)
    requires PlanOk(p) && IsRun(p, run) && i < |run|
    ensures |run[i].rows| == |p.rows| == |p.init|
  {
    RunInv(p, run, i);
  }
}
