/** No call on the hash chain waits for ever: every call that has not returned has a step, or waits for
    the one that is filling the first entry, and only finitely many steps are left. */
module HashProgress {
  import opened Sums
  import opened HashChain

  /** While the bucket is being initialized some call is at it. */
  ghost predicate FillerOk(s: State) {
    |s.entries| > 0 && (s.entries[0].next == INITING ==> exists c :: 0 <= c < |s.calls| && Filling(s.calls[c].pc))
  }

  lemma StepFiller(s: State, s': State, c: nat, a: Action)
    requires Inv(s) && FillerOk(s) && Step(s, s', c, a)
    ensures FillerOk(s')
  {
    assert CallOk(s.entries, s.chain, s.creators, s.calls[c], c);
    hide PrivateOk, CreatorsOk, ChainOk;
    if s'.entries[0].next == INITING {
      if a == Claim && s.entries[0].next == UNINIT {
        assert Filling(s'.calls[c].pc);
      } else {
        FirstStays(s, s', c, a);
        var d :| 0 <= d < |s.calls| && Filling(s.calls[d].pc);
        assert Filling(s'.calls[d].pc);
      }
    }
  }

  lemma FirstStays(s: State, s': State, c: nat, a: Action)
    requires Inv(s) && Step(s, s', c, a) && s'.entries != [] && s'.entries[0].next == INITING
    requires !(a == Claim && s.entries[0].next == UNINIT)
    ensures s.entries[0].next == INITING && a != Publish
  {
    assert CallOk(s.entries, s.chain, s.creators, s.calls[c], c);
    hide CreatorsOk;
  }

  lemma {:induction false} RunFiller(run: seq<State>, i: nat)
    requires IsRun(run) && i < |run|
    ensures FillerOk(run[i])
  {
    if i > 0 {
      RunFiller(run, i - 1);
      RunInv(run, i - 1);
      assert Next(run[i - 1], run[i]);
      var c: nat, a :| Step(run[i - 1], run[i], c, a);
      hide IsRun, Inv, Step;
      StepFiller(run[i - 1], run[i], c, a);
    }
  }

  ghost predicate CanGo(s: State, c: nat) {
    exists s', a :: Step(s, s', c, a)
  }

  /** A call that has not returned has a step, unless it waits for the first entry to be filled. */
  lemma OwnStep(s: State, c: nat)
    requires Inv(s) && c < |s.calls| && !s.calls[c].pc.Done?
    ensures CanGo(s, c) || (s.calls[c].pc == AwaitFirst && s.entries != [] && s.entries[0].next == INITING)
  {
    var me := s.calls[c];
    assert CallOk(s.entries, s.chain, s.creators, me, c);
    hide CreatorsOk;
    match me.pc
    case Start =>
      var pc := if s.entries[0].next != UNINIT then AwaitFirst
                else if me.create then ClaimFirst else Done(END, false);
      assert Step(s, s.(calls := s.calls[c := me.(pc := pc, began := |s.chain|)]), c, Begin);
    case ClaimFirst =>
      if s.entries[0].next == UNINIT {
        assert Step(s, s.(entries := s.entries[0 := s.entries[0].(next := INITING)],
                          calls := s.calls[c := me.(pc := FillFirst)]), c, Claim);
      } else {
        assert Step(s, s.(calls := s.calls[c := me.(pc := AwaitFirst)]), c, Claim);
      }
    case FillFirst =>
      assert Step(s, s.(entries := s.entries[0 := s.entries[0].(key := me.key)],
                        calls := s.calls[c := me.(pc := PublishFirst)]), c, Fill);
    case PublishFirst =>
      assert Step(s, State(s.entries[0 := s.entries[0].(next := END)], s.calls[c := me.(pc := Done(0, true))],
                           s.chain + [0], s.creators + [c]), c, Publish);
    case AwaitFirst =>
      if s.entries[0].next != INITING {
        assert Step(s, s.(calls := s.calls[c := me.(pc := Walk(0), passed := 0)]), c, Await);
      }
    case Walk(p) => WalkStep(s, c);
    case Attach => AttachStep(s, c);
  }

  lemma WalkStep(s: State, c: nat)
    requires Inv(s) && c < |s.calls| && s.calls[c].pc.Walk?
    ensures CanGo(s, c)
  {
    var me := s.calls[c];
    assert CallOk(s.entries, s.chain, s.creators, me, c);
    hide CreatorsOk;
    var p := me.pc.p;
    if p != END {
      var here := s.entries[p];
      if here.key == me.key {
        assert Step(s, s.(calls := s.calls[c := me.(pc := Done(p, false))]), c, Visit);
      } else {
        assert Step(s, s.(calls := s.calls[c := me.(pc := Walk(here.next), parent := p, passed := me.passed + 1)]), c,
                    Visit);
      }
    } else if !me.create {
      assert Step(s, s.(calls := s.calls[c := me.(pc := Done(END, false))]), c, Allocate);
    } else if me.mine == END {
      assert Step(s, s.(entries := s.entries + [Entry(me.key, END)],
                        calls := s.calls[c := me.(pc := Attach, mine := |s.entries|)]), c, Allocate);
    } else {
      assert Step(s, s.(calls := s.calls[c := me.(pc := Attach)]), c, Allocate);
    }
  }

  lemma AttachStep(s: State, c: nat)
    requires Inv(s) && c < |s.calls| && s.calls[c].pc == Attach
    ensures CanGo(s, c)
  {
    var me := s.calls[c];
    assert CallOk(s.entries, s.chain, s.creators, me, c) && Holds(me);
    hide CreatorsOk;
    if s.entries[me.parent].next == END {
      assert Step(s, State(s.entries[me.parent := s.entries[me.parent].(next := me.mine)],
                           s.calls[c := me.(pc := Done(me.mine, true))], s.chain + [me.mine], s.creators + [c]), c,
                  CompareExchange);
    } else {
      assert Step(s, s.(calls := s.calls[c := me.(pc := Walk(s.entries[me.parent].next))]), c, CompareExchange);
    }
  }

  /** As long as a call has not returned, it or the call that fills the first entry has a step. */
  lemma NeverStuck(run: seq<State>, i: nat, c: nat)
    requires IsRun(run) && i < |run| && c < |run[i].calls| && !run[i].calls[c].pc.Done?
    ensures CanGo(run[i], c) || exists d: nat :: d < |run[i].calls| && Filling(run[i].calls[d].pc) && CanGo(run[i], d)
  {
    RunInv(run, i);
    RunFiller(run, i);
    hide IsRun, Inv;
    OwnStep(run[i], c);
    if !CanGo(run[i], c) {
      var d: nat :| d < |run[i].calls| && Filling(run[i].calls[d].pc);
      OwnStep(run[i], d);
    }
  }

  // ---------- how many steps are left

  /** Steps left for a call when the chain can have `n` entries. */
  function Rank(me: Call, n: nat): int {
    match me.pc
    case Start => 4 * n + 9
    case ClaimFirst => 4 * n + 8
    case FillFirst => 4 * n + 7
    case PublishFirst => 4 * n + 6
    case AwaitFirst => 4 * n + 5
    case Walk(p) => 4 * (n - me.passed) + if p == END then 3 else 1
    case Attach => 4 * (n - me.passed) + 2
    case Done(_, _) => 0
  }

  function Ranks(calls: seq<Call>): (r: seq<int>)
    ensures |r| == |calls|
  {
    seq(|calls|, c requires 0 <= c < |calls| => Rank(calls[c], |calls|))
  }

  lemma {:induction false} DistinctFit(s: seq<nat>, n: nat)
    requires (forall i :: 0 <= i < |s| ==> s[i] < n) && (forall i, j :: 0 <= i < j < |s| ==> s[i] != s[j])
    ensures |s| <= n
    decreases n
  {
    if s != [] {
      assert s[0] < n;
      if k: nat :| k < |s| && s[k] == n - 1 {
        var t := s[..k] + s[k + 1..];
        assert forall i :: 0 <= i < |t| ==> t[i] == s[if i < k then i else i + 1];
        DistinctFit(t, n - 1);
      } else {
        DistinctFit(s, n - 1);
      }
    }
  }

  /** There are no more entries than calls that have created one. */
  lemma ChainFits(s: State)
    requires Inv(s)
    ensures |s.chain| <= |s.calls|
  {
    forall i, j | 0 <= i < j < |s.creators| ensures s.creators[i] != s.creators[j] {
      assert s.chain[i] != s.chain[j];
    }
    DistinctFit(s.creators, |s.calls|);
  }

  lemma RankPositive(s: State, c: nat)
    requires Inv(s) && c < |s.calls|
    ensures Rank(s.calls[c], |s.calls|) >= 0
    ensures !s.calls[c].pc.Done? ==> Rank(s.calls[c], |s.calls|) > 0
  {
    ChainFits(s);
    assert CallOk(s.entries, s.chain, s.creators, s.calls[c], c);
  }

  /** The step of a call lowers its own rank and leaves the others alone. */
  lemma StepMoves(s: State, s': State, c: nat, a: Action)
    requires Inv(s) && Step(s, s', c, a)
    ensures c < |s.calls| == |s'.calls| && Rank(s'.calls[c], |s.calls|) < Rank(s.calls[c], |s.calls|)
    ensures forall d :: 0 <= d < |s.calls| && d != c ==> s'.calls[d] == s.calls[d]
  {
    hide Inv;
    PassedFits(s, c);
    if a == CompareExchange { RetryGoesOn(s, c); }
  }

  lemma PassedFits(s: State, c: nat)
    requires Inv(s) && c < |s.calls|
    ensures Rank(s.calls[c], |s.calls|) >= 0
    ensures s.calls[c].pc.Walk? || s.calls[c].pc == Attach ==> s.calls[c].passed <= |s.calls|
    ensures s.calls[c].pc.Walk? && s.calls[c].pc.p != END ==> s.calls[c].passed < |s.calls|
  {
    ChainFits(s);
    assert CallOk(s.entries, s.chain, s.creators, s.calls[c], c);
  }

  /** A lost compare-exchange means the chain has gone on behind the parent. */
  lemma RetryGoesOn(s: State, c: nat)
    requires Inv(s) && c < |s.calls| && s.calls[c].pc == Attach
    ensures 0 <= s.calls[c].parent < |s.entries| && s.entries[s.calls[c].parent].next >= END
  {
    assert CallOk(s.entries, s.chain, s.creators, s.calls[c], c);
    assert Follows(s.entries, s.chain, s.calls[c].passed - 1);
  }

  lemma StepLowers(s: State, s': State, c: nat, a: Action)
    requires Inv(s) && Step(s, s', c, a)
    ensures 0 <= Sum(Ranks(s'.calls)) < Sum(Ranks(s.calls))
  {
    StepMoves(s, s', c, a);
    StepKeepsInv(s, s', c, a);
    forall d | 0 <= d < |s'.calls| ensures Rank(s'.calls[d], |s'.calls|) >= 0 { RankPositive(s', d); }
    hide Inv, Step, Rank, Sum;
    SumChange(Ranks(s.calls), Ranks(s'.calls), c);
    SumNonNegative(Ranks(s'.calls));
  }

  /** A run has at most as many steps as the ranks at its start say. */
  lemma {:induction false} RunIsShort(run: seq<State>, i: nat)
    requires IsRun(run) && i < |run|
    ensures i + Sum(Ranks(run[i].calls)) <= Sum(Ranks(run[0].calls)) && 0 <= Sum(Ranks(run[i].calls))
  {
    if i == 0 {
      RunInv(run, 0);
      forall d | 0 <= d < |run[0].calls| ensures Rank(run[0].calls[d], |run[0].calls|) >= 0 { RankPositive(run[0], d); }
      SumNonNegative(Ranks(run[0].calls));
    } else {
      RunIsShort(run, i - 1);
      RunInv(run, i - 1);
      assert Next(run[i - 1], run[i]);
      var c: nat, a :| Step(run[i - 1], run[i], c, a);
      hide Inv, Step, Ranks, Sum, IsRun;
      StepLowers(run[i - 1], run[i], c, a);
    }
  }

  /** When nothing can go on every call has returned. */
  lemma StuckMeansReturned(run: seq<State>, i: nat, c: nat)
    requires IsRun(run) && i < |run| && c < |run[i].calls| && forall d: nat :: !CanGo(run[i], d)
    ensures run[i].calls[c].pc.Done?
  {
    if !run[i].calls[c].pc.Done? { NeverStuck(run, i, c); }
  }
}
