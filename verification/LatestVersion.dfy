/** The latest_version hint of a row under concurrent writers: each writer reads the hint, writes its
    object and raises the hint with a compare-and-swap loop (vhandle.cc). */
module LatestVersion {
  import opened Sums

  /** `pos` is the writer's last view of the hint. */
  datatype Pc = Begin | Offer(pos: int) | Raise(pos: int) | Done

  datatype Writer = Writer(slot: int, pc: Pc)

  datatype State = State(latest: int, writers: seq<Writer>)

  predicate Wrote(w: Writer) {
    w.pc.Raise? || w.pc.Done?
  }

  function Move(s: State, w: nat, latest: int, pc: Pc): State
    requires w < |s.writers|
  {
    State(latest, s.writers[w := s.writers[w].(pc := pc)])
  }

  ghost predicate Step(s: State, s': State, w: nat) {
    && w < |s.writers|
    && var me := s.writers[w];
       match me.pc
       case Begin => s' == Move(s, w, s.latest, Offer(s.latest))
       case Offer(pos) => s' == Move(s, w, s.latest, Raise(pos))
       case Raise(pos) =>
         if me.slot <= pos then s' == Move(s, w, s.latest, Done)
         else if s.latest == pos then s' == Move(s, w, me.slot, Done)
         else s' == Move(s, w, s.latest, Raise(s.latest))
       case Done => false
  }

  ghost predicate Next(s: State, s': State) {
    exists w: nat :: Step(s, s', w)
  }

  ghost predicate IsRun(run: seq<State>) {
    && run != [] && (forall w :: 0 <= w < |run[0].writers| ==> run[0].writers[w].pc == Begin)
    && forall i :: 0 <= i < |run| - 1 ==> Next(run[i], run[i + 1])
  }

  ghost predicate WriterOk(w: Writer, latest: int) {
    match w.pc
    case Begin => true
    case Offer(pos) => pos <= latest
    case Raise(pos) => pos <= latest
    case Done => w.slot <= latest
  }

  /** The hint is where it began or at a slot already written. */
  ghost predicate Written(s: State, first: int) {
    s.latest == first || exists w :: 0 <= w < |s.writers| && Wrote(s.writers[w]) && s.writers[w].slot == s.latest
  }

  ghost predicate Inv(s: State, first: State) {
    && |s.writers| == |first.writers| && first.latest <= s.latest
    && (forall w ::
         0 <= w < |s.writers| ==> WriterOk(s.writers[w], s.latest) && s.writers[w].slot == first.writers[w].slot)
    && Written(s, first.latest)
  }

  lemma StepKeeps(s: State, s': State, first: State)
    requires Inv(s, first) && Next(s, s')
    ensures Inv(s', first) && s.latest <= s'.latest
  {
    var w: nat :| Step(s, s', w);
    assert WriterOk(s.writers[w], s.latest);
    if s'.latest != s.latest {
      assert Wrote(s'.writers[w]) && s'.writers[w].slot == s'.latest;
    } else if s.latest != first.latest {
      var v :| 0 <= v < |s.writers| && Wrote(s.writers[v]) && s.writers[v].slot == s.latest;
      assert Wrote(s'.writers[v]) && s'.writers[v].slot == s'.latest;
    }
  }

  lemma {:induction false} RunInv(run: seq<State>, i: nat)
    requires IsRun(run) && i < |run|
    ensures Inv(run[i], run[0])
  {
    if i > 0 {
      RunInv(run, i - 1);
      StepKeeps(run[i - 1], run[i], run[0]);
    }
  }

  /** The hint never goes back. */
  lemma {:induction false} LatestGrows(run: seq<State>, i: nat, j: nat)
    requires IsRun(run) && i <= j < |run|
    ensures run[i].latest <= run[j].latest
    decreases j - i
  {
    if i < j {
      LatestGrows(run, i, j - 1);
      RunInv(run, j - 1);
      StepKeeps(run[j - 1], run[j], run[0]);
    }
  }

  /** The hint only ever points at a version that has been written. */
  lemma LatestIsWritten(run: seq<State>, i: nat)
    requires IsRun(run) && i < |run|
    ensures Written(run[i], run[0].latest)
  {
    RunInv(run, i);
  }

  /** Once all writers are done the hint is the largest slot written, or where it began. */
  lemma LatestIsMax(run: seq<State>, i: nat)
    requires IsRun(run) && i < |run| && forall w :: 0 <= w < |run[i].writers| ==> run[i].writers[w].pc == Done
    ensures run[0].latest <= run[i].latest && |run[i].writers| == |run[0].writers|
    ensures forall w :: 0 <= w < |run[0].writers| ==> run[0].writers[w].slot <= run[i].latest
    ensures run[i].latest == run[0].latest || exists w ::
                                               0 <= w < |run[0].writers| && run[0].writers[w].slot == run[i].latest
  {
    RunInv(run, i);
    var s := run[i];
    forall w | 0 <= w < |run[0].writers| ensures run[0].writers[w].slot <= s.latest {
      assert WriterOk(s.writers[w], s.latest);
    }
    if s.latest != run[0].latest {
      var w :| 0 <= w < |s.writers| && Wrote(s.writers[w]) && s.writers[w].slot == s.latest;
      assert run[0].writers[w].slot == s.latest;
    }
  }

  /** A compare-and-swap fails only because the hint has grown since it was last seen. */
  lemma FailureMeansGrowth(run: seq<State>, i: nat, w: nat)
    requires IsRun(run) && i < |run| && w < |run[i].writers| && run[i].writers[w].pc.Raise?
    requires run[i].writers[w].pc.pos != run[i].latest
    ensures run[i].writers[w].pc.pos < run[i].latest
  {
    RunInv(run, i);
    assert WriterOk(run[i].writers[w], run[i].latest);
  }

  // ---------- every writer gets done

  /** A writer that is not done has a step. */
  lemma WriterCanGo(s: State, w: nat)
    requires w < |s.writers| && s.writers[w].pc != Done
    ensures exists s' :: Step(s, s', w)
  {
    var me := s.writers[w];
    match me.pc
    case Begin => assert Step(s, Move(s, w, s.latest, Offer(s.latest)), w);
    case Offer(pos) => assert Step(s, Move(s, w, s.latest, Raise(pos)), w);
    case Raise(pos) =>
      if me.slot <= pos {
        assert Step(s, Move(s, w, s.latest, Done), w);
      } else if s.latest == pos {
        assert Step(s, Move(s, w, me.slot, Done), w);
      } else {
        assert Step(s, Move(s, w, s.latest, Raise(s.latest)), w);
      }
  }

  /** Its next compare-and-swap will fail. */
  predicate Stale(w: Writer, latest: int) {
    w.pc.Raise? && w.pc.pos < w.slot && w.pc.pos != latest
  }

  /** A writer that raises the hint pays for all that become stale. */
  function Rank(w: Writer, latest: int, n: nat): int {
    match w.pc
    case Begin => n + 3
    case Offer(_) => n + 2
    case Raise(_) => if Stale(w, latest) then n + 1 else n
    case Done => 0
  }

  function Ranks(s: State): (r: seq<int>)
    ensures |r| == |s.writers|
  {
    seq(|s.writers|, w requires 0 <= w < |s.writers| => Rank(s.writers[w], s.latest, |s.writers|))
  }

  lemma StepLowers(s: State, s': State, w: nat)
    requires Step(s, s', w)
    ensures 0 <= Sum(Ranks(s')) < Sum(Ranks(s))
  {
    var n, a, b := |s.writers|, Ranks(s), Ranks(s');
    assert forall v :: 0 <= v < n && v != w ==> s'.writers[v] == s.writers[v];
    if s'.latest == s.latest {
      hide Sum;
      SumChange(a, b, w);
    } else {
      assert b[w] == 0 && a[w] == n;
      var more := seq(n, v requires 0 <= v < n => if v == w then 0 else a[v] + 1);
      hide Sum;
      SumMonotone(b, more);
      PlusOne(a, w, more);
    }
    hide Step;
    SumNonNegative(b);
  }

  /** One more for everybody but one, who gives up all he has. */
  lemma PlusOne(a: seq<int>, w: nat, more: seq<int>)
    requires w < |a| == |more| && forall v :: 0 <= v < |a| ==> more[v] == if v == w then 0 else a[v] + 1
    ensures Sum(more) == Sum(a) + |a| - 1 - a[w]
  {
    var up := seq(|a|, v requires 0 <= v < |a| => a[v] + 1);
    UpOne(a, up);
    SumChange(up, more, w);
  }

  lemma {:induction false} UpOne(a: seq<int>, up: seq<int>)
    requires |a| == |up| && forall v :: 0 <= v < |a| ==> up[v] == a[v] + 1
    ensures Sum(up) == Sum(a) + |a|
  {
    if a != [] { UpOne(a[..|a| - 1], up[..|a| - 1]); }
  }

  /** A run has only so many steps, failed ones included. */
  lemma {:induction false} RunIsShort(run: seq<State>, i: nat)
    requires IsRun(run) && i < |run|
    ensures i + Sum(Ranks(run[i])) <= Sum(Ranks(run[0])) && 0 <= Sum(Ranks(run[i]))
  {
    if i == 0 {
      SumNonNegative(Ranks(run[0]));
    } else {
      RunIsShort(run, i - 1);
      var w: nat :| Step(run[i - 1], run[i], w);
      hide Ranks, Sum, Step;
      StepLowers(run[i - 1], run[i], w);
    }
  }

  /** When nobody can go on all writers are done, so the hint is where `LatestIsMax` says. */
  lemma StuckMeansDone(run: seq<State>, i: nat, w: nat)
    requires IsRun(run) && i < |run| && w < |run[i].writers| && forall s' :: !Next(run[i], s')
    ensures run[i].writers[w].pc == Done
  {
    if run[i].writers[w].pc != Done {
      WriterCanGo(run[i], w);
      var s' :| Step(run[i], s', w);
      assert Next(run[i], s');
    }
  }
}
