/** One bucket of the lock-free hash index of hashtable_index_impl.cc, as atomic steps of any
    number of SearchOrCreate and Search calls. Entry 0 is the one embedded in the table. */
module HashChain {

  type Key = nat

  const END: int := -1      // kNextForEnd
  const INITING: int := -2  // kNextForInitializing
  const UNINIT: int := -3   // kNextForUninitialized

  datatype Entry = Entry(key: Key, next: int)

  datatype Pc =
    | Start
    | ClaimFirst                 // saw the bucket uninitialized
    | FillFirst                  // won the bucket, about to write the first key
    | PublishFirst               // about to store kNextForEnd
    | AwaitFirst                 // spinning while the bucket is being initialized
    | Walk(p: int)               // at entry p, or at the end of the chain
    | Attach                     // holds a private entry, about to compare-exchange parent->next
    | Done(row: int, created: bool)

  /** A call: its key, whether it may create, its program counter and its locals `parent` and
      `newentry` (END for none). For the proof it also records how many chain entries it has
      passed and how long the chain was when it began. */
  datatype Call = Call(key: Key, create: bool, pc: Pc, parent: int, mine: int, passed: nat, began: nat)

  /** `chain` lists the entries from the first to the one whose next is the end; `creators[i]`
      is the call that put `chain[i]` there. */
  datatype State = State(entries: seq<Entry>, calls: seq<Call>, chain: seq<nat>, creators: seq<nat>)

  ghost predicate Init(s: State) {
    && |s.entries| == 1 && s.entries[0].next == UNINIT && s.chain == [] && s.creators == []
    && forall c :: 0 <= c < |s.calls| ==> s.calls[c].pc == Start && s.calls[c].mine == END && s.calls[c].began == 0
  }

  datatype Action = Begin | Claim | Fill | Publish | Await | Visit | Allocate | CompareExchange

  ghost predicate Step(s: State, s': State, c: nat, a: Action) {
    c < |s.calls| && |s.entries| > 0 &&
    var me := s.calls[c];
    match a
    case Begin =>
      me.pc == Start &&
      var pc := if s.entries[0].next != UNINIT then AwaitFirst
                else if me.create then ClaimFirst else Done(END, false);
      s' == s.(calls := s.calls[c := me.(pc := pc, began := |s.chain|)])
    case Claim =>
      me.pc == ClaimFirst &&
      if s.entries[0].next == UNINIT then
        s' == s.(entries := s.entries[0 := s.entries[0].(next := INITING)], calls := s.calls[c := me.(pc := FillFirst)])
      else
        s' == s.(calls := s.calls[c := me.(pc := AwaitFirst)])
    case Fill =>
      me.pc == FillFirst &&
      s' == s.(entries := s.entries[0 := s.entries[0].(key := me.key)], calls := s.calls[c := me.(pc := PublishFirst)])
    case Publish =>
      me.pc == PublishFirst &&
      s' == State(s.entries[0 := s.entries[0].(next := END)], s.calls[c := me.(pc := Done(0, true))],
                  s.chain + [0], s.creators + [c])
    case Await =>
      me.pc == AwaitFirst && s.entries[0].next != INITING &&
      s' == s.(calls := s.calls[c := me.(pc := Walk(0), passed := 0)])
    case Visit =>
      me.pc.Walk? && 0 <= me.pc.p < |s.entries| &&
      var here := s.entries[me.pc.p];
      if here.key == me.key then
        s' == s.(calls := s.calls[c := me.(pc := Done(me.pc.p, false))])
      else
        s' == s.(calls := s.calls[c := me.(pc := Walk(here.next), parent := me.pc.p, passed := me.passed + 1)])
    case Allocate =>
      me.pc == Walk(END) &&
      if !me.create then
        s' == s.(calls := s.calls[c := me.(pc := Done(END, false))])
      else if me.mine == END then
        s' == s.(entries := s.entries + [Entry(me.key, END)],
                 calls := s.calls[c := me.(pc := Attach, mine := |s.entries|)])
      else
        s' == s.(calls := s.calls[c := me.(pc := Attach)])
    case CompareExchange =>
      me.pc == Attach && 0 <= me.parent < |s.entries| && 0 <= me.mine < |s.entries| &&
      if s.entries[me.parent].next == END then
        s' == State(s.entries[me.parent := s.entries[me.parent].(next := me.mine)],
                    s.calls[c := me.(pc := Done(me.mine, true))], s.chain + [me.mine], s.creators + [c])
      else
        s' == s.(calls := s.calls[c := me.(pc := Walk(s.entries[me.parent].next))])
  }

  ghost predicate Next(s: State, s': State) {
    exists c, a :: Step(s, s', c, a)
  }

  ghost predicate IsRun(run: seq<State>) {
    && run != [] && Init(run[0])
    && forall i :: 0 <= i < |run| - 1 ==> Next(run[i], run[i + 1])
  }

  // ---------- the invariant

  /** The chain is what following the pointers gives, and its keys are distinct. */
  ghost predicate ChainOk(es: seq<Entry>, chain: seq<nat>) {
    && (forall i :: 0 <= i < |chain| ==> chain[i] < |es|)
    && (chain != [] ==> chain[0] == 0)
    && (forall i :: 0 <= i < |chain| ==> Follows(es, chain, i))
    && (forall i, j :: 0 <= i < j < |chain| ==> chain[i] != chain[j])
    && (forall i, j :: 0 <= i < j < |chain| ==> es[chain[i]].key != es[chain[j]].key)
  }

  ghost predicate Follows(es: seq<Entry>, chain: seq<nat>, i: nat)
    requires i < |chain| && chain[i] < |es|
  {
    es[chain[i]].next == if i + 1 < |chain| then chain[i + 1] else END
  }

  /** The first entry's word says how far the bucket is, and one call at most is filling it. */
  ghost predicate FirstOk(es: seq<Entry>, chain: seq<nat>, calls: seq<Call>) {
    && |es| > 0
    && (chain == [] <==> es[0].next == UNINIT || es[0].next == INITING)
    && (forall c :: 0 <= c < |calls| && Filling(calls[c].pc) ==> es[0].next == INITING)
    && (forall c, d :: 0 <= c < |calls| && 0 <= d < |calls| && Filling(calls[c].pc) && Filling(calls[d].pc) ==> c == d)
  }

  predicate Filling(pc: Pc) { pc == FillFirst || pc == PublishFirst }

  /** A private entry is in the hands of one call and not in the chain. */
  ghost predicate PrivateOk(es: seq<Entry>, chain: seq<nat>, calls: seq<Call>) {
    && (forall c :: 0 <= c < |calls| && Holds(calls[c]) ==>
          0 < calls[c].mine < |es| && es[calls[c].mine] == Entry(calls[c].key, END) && !Member(chain, calls[c].mine))
    && (forall c, d ::
          0 <= c < |calls| && 0 <= d < |calls| && c != d && Holds(calls[c]) && Holds(calls[d]) ==>
            calls[c].mine != calls[d].mine)
  }

  ghost predicate Member(chain: seq<nat>, e: int) { exists i :: 0 <= i < |chain| && chain[i] == e }

  predicate Holds(call: Call) { call.mine != END && !call.pc.Done? }

  /** The keys of the first `n` entries of the chain all differ from `key`. */
  ghost predicate Passed(es: seq<Entry>, chain: seq<nat>, n: nat, key: Key) {
    n <= |chain| && forall i :: 0 <= i < n ==> chain[i] < |es| && es[chain[i]].key != key
  }

  ghost predicate CallOk(es: seq<Entry>, chain: seq<nat>, creators: seq<nat>, me: Call, c: nat)
    requires |es| > 0
  {
    && me.began <= |chain|
    && match me.pc
       case Start => me.mine == END
       case ClaimFirst => me.mine == END && me.create
       case FillFirst => me.mine == END && me.create
       case PublishFirst => me.mine == END && me.create && es[0].key == me.key
       case AwaitFirst => me.mine == END && es[0].next != UNINIT
       case Walk(p) =>
         && Passed(es, chain, me.passed, me.key)
         && (p == END || (me.passed < |chain| && p == chain[me.passed]))
         && (p == END ==> AtEnd(chain, me))
         && (me.mine != END ==> me.create && AtLeastOne(chain, me))
       case Attach => me.create && me.mine != END && Passed(es, chain, me.passed, me.key) && AtEnd(chain, me)
       case Done(row, created) =>
         && (created ==> me.create && CreatedBy(chain, creators, row, c))
         && (row == END ==> !me.create && Passed(es, chain, me.began, me.key))
         && (row != END ==> InChain(es, chain, row, me.key))
  }

  ghost predicate AtLeastOne(chain: seq<nat>, me: Call) {
    0 < me.passed <= |chain| && me.parent == chain[me.passed - 1]
  }

  /** The call stands behind its parent, and has passed everything that was there when it began. */
  ghost predicate AtEnd(chain: seq<nat>, me: Call) {
    AtLeastOne(chain, me) && me.began <= me.passed
  }

  ghost predicate CreatedBy(chain: seq<nat>, creators: seq<nat>, row: int, c: nat) {
    exists i :: 0 <= i < |chain| && i < |creators| && chain[i] == row && creators[i] == c
  }

  ghost predicate InChain(es: seq<Entry>, chain: seq<nat>, row: int, key: Key) {
    exists i :: 0 <= i < |chain| && chain[i] == row && chain[i] < |es| && es[chain[i]].key == key
  }

  /** Every chain entry was put there by its own call, which has reported so. */
  ghost predicate CreatorsOk(chain: seq<nat>, creators: seq<nat>, calls: seq<Call>) {
    && |creators| == |chain|
    && (forall i :: 0 <= i < |creators| ==> creators[i] < |calls| && calls[creators[i]].pc == Done(chain[i], true))
  }

  ghost predicate Inv(s: State) {
    && ChainOk(s.entries, s.chain)
    && FirstOk(s.entries, s.chain, s.calls)
    && PrivateOk(s.entries, s.chain, s.calls)
    && CreatorsOk(s.chain, s.creators, s.calls)
    && forall c :: 0 <= c < |s.calls| ==> CallOk(s.entries, s.chain, s.creators, s.calls[c], c)
  }

  // ---------- every step keeps the invariant

  /** What a step may do to the shared state: the chain grows at its end, and the keys of its
      entries stay. */
  ghost predicate Grows(s: State, s': State) {
    && 0 < |s.entries| <= |s'.entries|
    && s.chain <= s'.chain && s.creators <= s'.creators
    && (forall i ::
         0 <= i < |s.chain| ==> s.chain[i] < |s.entries| && s'.entries[s.chain[i]].key == s.entries[s.chain[i]].key)
    && (s.entries[0].next != UNINIT ==> s'.entries[0].next != UNINIT)
  }

  lemma CallFrame(s: State, s': State, me: Call, c: nat)
    requires Grows(s, s') && CallOk(s.entries, s.chain, s.creators, me, c)
    requires me.pc == PublishFirst ==> s'.entries[0].key == s.entries[0].key
    ensures CallOk(s'.entries, s'.chain, s'.creators, me, c)
  {
    forall n, key | Passed(s.entries, s.chain, n, key) ensures Passed(s'.entries, s'.chain, n, key) {
      assert forall i :: 0 <= i < n ==> s'.chain[i] == s.chain[i];
    }
    if me.pc.Done? {
      if me.pc.created {
        var i :| 0 <= i < |s.chain| && i < |s.creators| && s.chain[i] == me.pc.row && s.creators[i] == c;
        assert s'.chain[i] == s.chain[i] && s'.creators[i] == s.creators[i];
      }
      if me.pc.row != END {
        var i :| 0 <= i < |s.chain| && s.chain[i] == me.pc.row && s.chain[i] < |s.entries|
          && s.entries[s.chain[i]].key == me.key;
        assert s'.chain[i] == s.chain[i];
      }
    }
  }

  /** The calls other than `c` are not disturbed. */
  lemma OthersKeep(s: State, s': State, c: nat)
    requires Inv(s) && Grows(s, s') && c < |s.calls| == |s'.calls|
    requires forall d :: 0 <= d < |s.calls| && d != c ==> s'.calls[d] == s.calls[d]
    requires s'.entries[0].key == s.entries[0].key || s.calls[c].pc == FillFirst
    requires CallOk(s'.entries, s'.chain, s'.creators, s'.calls[c], c)
    ensures forall d :: 0 <= d < |s'.calls| ==> CallOk(s'.entries, s'.chain, s'.creators, s'.calls[d], d)
  {
    forall d | 0 <= d < |s'.calls| ensures CallOk(s'.entries, s'.chain, s'.creators, s'.calls[d], d) {
      if d != c {
        assert Filling(s.calls[d].pc) && Filling(s.calls[c].pc) ==> c == d;
        hide CallOk;
        CallFrame(s, s', s.calls[d], d);
      }
    }
  }

  /** Steps that only move call `c` along. */
  lemma QuietKeeps(s: State, s': State, c: nat)
    requires Inv(s) && c < |s.calls| && |s'.calls| == |s.calls|
    requires s' == s.(calls := s.calls[c := s'.calls[c]])
    requires !s.calls[c].pc.Done? && !Filling(s'.calls[c].pc)
    requires s'.calls[c].key == s.calls[c].key && s'.calls[c].mine == s.calls[c].mine
    requires CallOk(s'.entries, s'.chain, s'.creators, s'.calls[c], c)
    ensures Inv(s')
  {
    hide CallOk, ChainOk;
    OthersKeep(s, s', c) by { hide Holds; assert Inv(s); PrefixRefl(s); }
    assert forall d ::
            0 <= d < |s'.calls| && Holds(s'.calls[d]) ==>
              Holds(s.calls[d]) && s'.calls[d].mine == s.calls[d].mine && s'.calls[d].key == s.calls[d].key;
  }

  lemma PrefixRefl(s: State)
    requires Inv(s)
    ensures Grows(s, s)
  {}

  lemma BeginKeeps(s: State, s': State, c: nat)
    requires Inv(s) && Step(s, s', c, Begin)
    ensures Inv(s')
  {
    assert CallOk(s.entries, s.chain, s.creators, s.calls[c], c);
    QuietKeeps(s, s', c);
  }

  lemma AwaitKeeps(s: State, s': State, c: nat)
    requires Inv(s) && Step(s, s', c, Await)
    ensures Inv(s')
  {
    assert CallOk(s.entries, s.chain, s.creators, s.calls[c], c);
    QuietKeeps(s, s', c);
  }

  lemma VisitKeeps(s: State, s': State, c: nat)
    requires Inv(s) && Step(s, s', c, Visit)
    ensures Inv(s')
  {
    VisitCall(s, s', c);
    hide CallOk, ChainOk, FirstOk, PrivateOk, CreatorsOk;
    QuietKeeps(s, s', c);
  }

  lemma VisitCall(s: State, s': State, c: nat)
    requires Inv(s) && Step(s, s', c, Visit)
    ensures CallOk(s.entries, s.chain, s.creators, s'.calls[c], c)
  {
    hide PrivateOk, CreatorsOk, FirstOk;
    assert CallOk(s.entries, s.chain, s.creators, s.calls[c], c);
    var me := s.calls[c];
    assert me.pc.p == s.chain[me.passed] && Follows(s.entries, s.chain, me.passed);
    if s.entries[me.pc.p].key == me.key {
      assert InChain(s.entries, s.chain, me.pc.p, me.key);
    }
  }

  lemma ClaimKeeps(s: State, s': State, c: nat)
    requires Inv(s) && Step(s, s', c, Claim)
    ensures Inv(s')
  {
    assert CallOk(s.entries, s.chain, s.creators, s.calls[c], c);
    if s.entries[0].next == UNINIT {
      assert s.chain == [];
      OthersKeep(s, s', c);
      hide CallOk;
      assert forall d :: 0 <= d < |s'.calls| && Holds(s'.calls[d]) ==> Holds(s.calls[d]);
    } else {
      QuietKeeps(s, s', c);
    }
  }

  lemma FillKeeps(s: State, s': State, c: nat)
    requires Inv(s) && Step(s, s', c, Fill)
    ensures Inv(s')
  {
    assert CallOk(s.entries, s.chain, s.creators, s.calls[c], c);
    assert s.chain == [];
    OthersKeep(s, s', c);
    hide CallOk;
    assert forall d :: 0 <= d < |s'.calls| && Holds(s'.calls[d]) ==> Holds(s.calls[d]);
  }

  lemma PublishKeeps(s: State, s': State, c: nat)
    requires Inv(s) && Step(s, s', c, Publish)
    ensures Inv(s')
  {
    assert CallOk(s.entries, s.chain, s.creators, s.calls[c], c);
    assert s.chain == [] && s.creators == [];
    assert s'.chain == [0] && s'.creators == [c];
    assert CreatedBy(s'.chain, s'.creators, 0, c) by { assert s'.chain[0] == 0 && s'.creators[0] == c; }
    assert InChain(s'.entries, s'.chain, 0, s.calls[c].key) by { assert s'.chain[0] == 0; }
    assert Follows(s'.entries, s'.chain, 0);
    OthersKeep(s, s', c);
    hide CallOk;
    assert forall d :: 0 <= d < |s'.calls| && Holds(s'.calls[d]) ==> Holds(s.calls[d]) && s.calls[d].mine > 0;
  }

  lemma AllocateKeeps(s: State, s': State, c: nat)
    requires Inv(s) && Step(s, s', c, Allocate)
    ensures Inv(s')
  {
    hide ChainOk, PrivateOk, CallOk, Grows;
    AllocateCall(s, s', c);
    if s.calls[c].create && s.calls[c].mine == END {
      AllocateGrows(s, s', c);
      NewIsPrivate(s, s', c);
      OthersKeep(s, s', c);
    } else {
      QuietKeeps(s, s', c);
    }
  }

  lemma AllocateCall(s: State, s': State, c: nat)
    requires Inv(s) && Step(s, s', c, Allocate)
    ensures |s'.entries| > 0 && CallOk(s'.entries, s'.chain, s'.creators, s'.calls[c], c)
  {
    hide PrivateOk, CreatorsOk, FirstOk, ChainOk;
    assert CallOk(s.entries, s.chain, s.creators, s.calls[c], c);
  }

  lemma AllocateGrows(s: State, s': State, c: nat)
    requires Inv(s) && Step(s, s', c, Allocate)
    ensures Grows(s, s') && ChainOk(s'.entries, s'.chain)
  {
    hide PrivateOk, CreatorsOk, CallOk;
    ChainKept(s.entries, s'.entries, s.chain);
  }

  /** A chain is not affected by changes elsewhere. */
  lemma ChainKept(es: seq<Entry>, es': seq<Entry>, chain: seq<nat>)
    requires ChainOk(es, chain) && |es| <= |es'| && forall i :: 0 <= i < |chain| ==> es'[chain[i]] == es[chain[i]]
    ensures ChainOk(es', chain)
  {
    forall i | 0 <= i < |chain| ensures Follows(es', chain, i) {
      assert Follows(es, chain, i);
    }
  }

  lemma NewIsPrivate(s: State, s': State, c: nat)
    requires Inv(s) && c < |s.calls| && s.calls[c].mine == END && s'.chain == s.chain
    requires s'.entries == s.entries + [Entry(s.calls[c].key, END)]
    requires s'.calls == s.calls[c := s.calls[c].(pc := Attach, mine := |s.entries|)]
    ensures PrivateOk(s'.entries, s'.chain, s'.calls)
  {
    forall d | 0 <= d < |s'.calls| && d != c && Holds(s'.calls[d])
      ensures Holds(s.calls[d]) && s.calls[d].mine < |s.entries|
    {}
  }

  lemma CompareExchangeKeeps(s: State, s': State, c: nat)
    requires Inv(s) && Step(s, s', c, CompareExchange)
    ensures Inv(s')
  {
    hide ChainOk, PrivateOk, CallOk, Grows, Passed;
    AttachPlace(s, c);
    if s.entries[s.calls[c].parent].next == END {
      AttachKeepsChain(s, s', c);
      AttachKeepsPrivate(s, s', c);
      AttachedCall(s, s', c);
      OthersKeep(s, s', c);
    } else {
      RetryCall(s, s', c);
      QuietKeeps(s, s', c);
    }
  }

  lemma RetryCall(s: State, s': State, c: nat)
    requires Inv(s) && Step(s, s', c, CompareExchange) && s.entries[s.calls[c].parent].next != END
    ensures CallOk(s.entries, s.chain, s.creators, s'.calls[c], c)
  {
    AttachPlace(s, c);
    hide ChainOk, PrivateOk, CreatorsOk, FirstOk;
    assert CallOk(s.entries, s.chain, s.creators, s.calls[c], c);
  }

  /** A call about to attach stands behind its parent: the word it compares with the end is
      that of the next chain entry. */
  lemma AttachPlace(s: State, c: nat)
    requires Inv(s) && c < |s.calls| && s.calls[c].pc == Attach
    ensures var me := s.calls[c];
            && 0 < me.passed <= |s.chain| && me.parent == s.chain[me.passed - 1] && 0 <= me.parent < |s.entries|
            && Member(s.chain, me.parent) && Holds(me) && me.mine < |s.entries|
            && s.entries[me.parent].next == (if me.passed < |s.chain| then s.chain[me.passed] else END)
            && (s.entries[me.parent].next == END <==> me.passed == |s.chain|)
  {
    hide CreatorsOk, FirstOk;
    assert CallOk(s.entries, s.chain, s.creators, s.calls[c], c);
    assert Follows(s.entries, s.chain, s.calls[c].passed - 1);
  }

  lemma AttachedCall(s: State, s': State, c: nat)
    requires Inv(s) && Step(s, s', c, CompareExchange) && s.entries[s.calls[c].parent].next == END
    requires s'.entries[s.calls[c].mine] == Entry(s.calls[c].key, END)
    ensures CallOk(s'.entries, s'.chain, s'.creators, s'.calls[c], c)
  {
    hide PrivateOk, FirstOk, ChainOk;
    var me, n := s.calls[c], |s.chain|;
    assert CallOk(s.entries, s.chain, s.creators, me, c);
    assert s'.chain[n] == me.mine && s'.creators[n] == c;
    assert CreatedBy(s'.chain, s'.creators, me.mine, c);
    assert InChain(s'.entries, s'.chain, me.mine, me.key);
  }

  lemma AttachKeepsChain(s: State, s': State, c: nat)
    requires Inv(s) && Step(s, s', c, CompareExchange) && s.entries[s.calls[c].parent].next == END
    requires s.calls[c].passed == |s.chain| > 0
    ensures ChainOk(s'.entries, s'.chain) && s'.entries[0].key == s.entries[0].key
    ensures s'.entries[s.calls[c].mine] == Entry(s.calls[c].key, END)
    ensures Grows(s, s')
  {
    var me := s.calls[c];
    assert CallOk(s.entries, s.chain, s.creators, me, c);
    assert Holds(me) && !Member(s.chain, me.mine);
    hide CallOk, FirstOk, CreatorsOk;
    ChainExtended(s.entries, s.chain, me.mine);
  }

  /** Linking an entry with a new key behind the last one makes the chain one longer. */
  lemma ChainExtended(es: seq<Entry>, chain: seq<nat>, e: nat)
    requires ChainOk(es, chain) && chain != [] && e < |es| && es[e].next == END && !Member(chain, e)
    requires Passed(es, chain, |chain|, es[e].key)
    ensures ChainOk(es[chain[|chain| - 1] := es[chain[|chain| - 1]].(next := e)], chain + [e])
  {
    var last := chain[|chain| - 1];
    var es', chain' := es[last := es[last].(next := e)], chain + [e];
    assert forall x :: 0 <= x < |es| ==> es'[x].key == es[x].key;
    forall i | 0 <= i < |chain'| ensures Follows(es', chain', i) {
      if i < |chain| { assert Follows(es, chain, i); }
    }
  }

  lemma AttachKeepsPrivate(s: State, s': State, c: nat)
    requires Inv(s) && Step(s, s', c, CompareExchange) && s.entries[s.calls[c].parent].next == END
    requires Member(s.chain, s.calls[c].parent) && Holds(s.calls[c])
    ensures PrivateOk(s'.entries, s'.chain, s'.calls)
  {
    forall d | 0 <= d < |s'.calls| && Holds(s'.calls[d])
      ensures 0 < s'.calls[d].mine < |s'.entries| && s'.entries[s'.calls[d].mine] == Entry(s'.calls[d].key, END)
      ensures !Member(s'.chain, s'.calls[d].mine)
    {
      assert d != c && Holds(s.calls[d]) && !Member(s.chain, s.calls[d].mine);
      assert s.calls[d].mine != s.calls[c].mine;
    }
  }

  lemma StepKeepsInv(s: State, s': State, c: nat, a: Action)
    requires Inv(s) && Step(s, s', c, a)
    ensures Inv(s')
  {
    match a
    case Begin => BeginKeeps(s, s', c);
    case Claim => ClaimKeeps(s, s', c);
    case Fill => FillKeeps(s, s', c);
    case Publish => PublishKeeps(s, s', c);
    case Await => AwaitKeeps(s, s', c);
    case Visit => VisitKeeps(s, s', c);
    case Allocate => AllocateKeeps(s, s', c);
    case CompareExchange => CompareExchangeKeeps(s, s', c);
  }

  lemma {:induction false} RunInv(run: seq<State>, i: nat)
    requires IsRun(run) && i < |run|
    ensures Inv(run[i])
  {
    if i > 0 {
      RunInv(run, i - 1);
      assert Next(run[i - 1], run[i]);
      var c: nat, a :| Step(run[i - 1], run[i], c, a);
      StepKeepsInv(run[i - 1], run[i], c, a);
    }
  }

  // ---------- the theorems

  /** The keys along the chain are distinct, in every state of every run. */
  lemma KeysStayDistinct(run: seq<State>, n: nat, i: nat, j: nat)
    requires IsRun(run) && n < |run| && i < j < |run[n].chain|
    ensures run[n].chain[i] < |run[n].entries| && run[n].chain[j] < |run[n].entries|
    ensures run[n].entries[run[n].chain[i]].key != run[n].entries[run[n].chain[j]].key
  {
    RunInv(run, n);
  }

  /** All calls for a key that return a row return the same row. */
  lemma SameRow(run: seq<State>, n: nat, c: nat, d: nat)
    requires IsRun(run) && n < |run| && c < |run[n].calls| && d < |run[n].calls|
    requires run[n].calls[c].pc.Done? && run[n].calls[d].pc.Done? && run[n].calls[c].key == run[n].calls[d].key
    requires run[n].calls[c].pc.row != END && run[n].calls[d].pc.row != END
    ensures run[n].calls[c].pc.row == run[n].calls[d].pc.row
  {
    RunInv(run, n);
    var s := run[n];
    assert CallOk(s.entries, s.chain, s.creators, s.calls[c], c);
    assert CallOk(s.entries, s.chain, s.creators, s.calls[d], d);
  }

  /** SearchOrCreate always returns a row, and a call has reported creating it. */
  lemma SomeoneCreated(run: seq<State>, n: nat, c: nat) returns (d: nat)
    requires IsRun(run) && n < |run| && c < |run[n].calls| && run[n].calls[c].pc.Done?
    requires run[n].calls[c].create || run[n].calls[c].pc.row != END
    ensures d < |run[n].calls| && run[n].calls[d].create
    ensures run[n].calls[d].pc == Done(run[n].calls[c].pc.row, true) && run[n].calls[d].key == run[n].calls[c].key
  {
    RunInv(run, n);
    var s := run[n];
    var i := DonePlace(s, c);
    hide PrivateOk, FirstOk, CallOk, ChainOk;
    d := s.creators[i];
    CreatorKey(s, i);
  }

  lemma DonePlace(s: State, c: nat) returns (i: nat)
    requires Inv(s) && c < |s.calls| && s.calls[c].pc.Done? && (s.calls[c].create || s.calls[c].pc.row != END)
    ensures i < |s.chain| && s.chain[i] == s.calls[c].pc.row && s.chain[i] < |s.entries|
            && s.entries[s.chain[i]].key == s.calls[c].key
  {
    hide PrivateOk, FirstOk, ChainOk, CreatorsOk;
    assert CallOk(s.entries, s.chain, s.creators, s.calls[c], c);
    i :| 0 <= i < |s.chain| && s.chain[i] == s.calls[c].pc.row && s.chain[i] < |s.entries|
      && s.entries[s.chain[i]].key == s.calls[c].key;
  }

  lemma CreatorKey(s: State, i: nat)
    requires Inv(s) && i < |s.chain| && i < |s.creators| && s.creators[i] < |s.calls|
             && s.calls[s.creators[i]].pc == Done(s.chain[i], true)
    ensures s.chain[i] < |s.entries| && s.calls[s.creators[i]].create
            && s.calls[s.creators[i]].key == s.entries[s.chain[i]].key
  {
    var d := s.creators[i];
    assert s.calls[d].create by { assert CallOk(s.entries, s.chain, s.creators, s.calls[d], d); }
    var j := DonePlace(s, d);
    hide PrivateOk, FirstOk, CallOk, CreatorsOk;
  }

  /** No two calls report creating a row for the same key. */
  lemma OneCreator(run: seq<State>, n: nat, d: nat, e: nat)
    requires IsRun(run) && n < |run| && d < |run[n].calls| && e < |run[n].calls|
    requires run[n].calls[d].pc.Done? && run[n].calls[d].pc.created
    requires run[n].calls[e].pc.Done? && run[n].calls[e].pc.created
    requires run[n].calls[d].key == run[n].calls[e].key
    ensures d == e
  {
    RunInv(run, n);
    var s := run[n];
    hide PrivateOk, FirstOk;
    CreatedPlace(s, d);
    CreatedPlace(s, e);
  }

  lemma CreatedPlace(s: State, c: nat)
    requires Inv(s) && c < |s.calls| && s.calls[c].pc.Done? && s.calls[c].pc.created
    ensures exists i :: 0 <= i < |s.chain| && i < |s.creators| && s.creators[i] == c
                        && s.chain[i] < |s.entries| && s.entries[s.chain[i]].key == s.calls[c].key
  {
    hide PrivateOk, FirstOk, CreatorsOk;
    assert CallOk(s.entries, s.chain, s.creators, s.calls[c], c);
    var i :| 0 <= i < |s.chain| && i < |s.creators| && s.chain[i] == s.calls[c].pc.row && s.creators[i] == c;
    var j :| 0 <= j < |s.chain| && s.chain[j] == s.calls[c].pc.row && s.chain[j] < |s.entries|
      && s.entries[s.chain[j]].key == s.calls[c].key;
    assert i == j;
  }

  lemma MissedAll(s: State, c: nat)
    requires Inv(s) && c < |s.calls| && s.calls[c].pc.Done? && s.calls[c].pc.row == END
    ensures !s.calls[c].create && Passed(s.entries, s.chain, s.calls[c].began, s.calls[c].key)
  {
    assert CallOk(s.entries, s.chain, s.creators, s.calls[c], c);
  }

  /** The chain only grows, and what is in it keeps its key. */
  lemma StepGrows(s: State, s': State, c: nat, a: Action)
    requires Inv(s) && Step(s, s', c, a)
    ensures Grows(s, s')
  {
    assert CallOk(s.entries, s.chain, s.creators, s.calls[c], c);
    if a == Publish {
      assert s.chain == [];
    } else if a == CompareExchange && s.entries[s.calls[c].parent].next == END {
      assert s'.chain[..|s.chain|] == s.chain && s'.creators[..|s.creators|] == s.creators;
    } else {
      assert s.chain <= s.chain && s.creators <= s.creators;
    }
  }

  /** The chain had at most `began` entries whenever the call had not begun. */
  lemma {:induction false} BeganLater(run: seq<State>, j: nat, n: nat, c: nat)
    requires IsRun(run) && j <= n < |run| && c < |run[j].calls| && run[j].calls[c].pc == Start
    ensures c < |run[n].calls| && run[n].calls[c].key == run[j].calls[c].key
    ensures run[n].calls[c].pc != Start ==> |run[j].chain| <= run[n].calls[c].began
    ensures run[j].chain <= run[n].chain
    ensures forall i :: 0 <= i < |run[j].chain| ==>
              && run[j].chain[i] < |run[j].entries| && run[j].chain[i] < |run[n].entries|
              && run[n].entries[run[j].chain[i]].key == run[j].entries[run[j].chain[i]].key
    decreases n
  {
    hide Inv, Step, Init;
    RunInv(run, j);
    if n == j {
      ChainInside(run[j]);
      assert run[j].chain <= run[j].chain;
    } else {
      BeganLater(run, j, n - 1, c);
      RunInv(run, n - 1);
      assert Next(run[n - 1], run[n]);
      var d: nat, a :| Step(run[n - 1], run[n], d, a);
      StepGrows(run[n - 1], run[n], d, a);
      BeganOnce(run[n - 1], run[n], d, a, c);
      forall i | 0 <= i < |run[j].chain| ensures run[j].chain[i] == run[n - 1].chain[i] {}
    }
  }

  lemma ChainInside(s: State)
    requires Inv(s)
    ensures forall i :: 0 <= i < |s.chain| ==> s.chain[i] < |s.entries|
  {}

  lemma BeganOnce(s: State, s': State, d: nat, a: Action, c: nat)
    requires Step(s, s', d, a) && c < |s.calls|
    ensures |s'.calls| == |s.calls| && s'.calls[c].key == s.calls[c].key
    ensures s'.calls[c].pc != Start ==>
              s'.calls[c].began == if s.calls[c].pc == Start then |s.chain| else s.calls[c].began
  {}

  /** A Search that finds nothing was right: no entry had its key at any time before it began. */
  lemma SearchMissIsJustified(run: seq<State>, j: nat, n: nat, c: nat, i: nat)
    requires IsRun(run) && j <= n < |run| && c < |run[j].calls| && run[j].calls[c].pc == Start
    requires c < |run[n].calls| && run[n].calls[c].pc.Done? && run[n].calls[c].pc.row == END && i < |run[j].chain|
    ensures run[j].chain[i] < |run[j].entries| && run[j].entries[run[j].chain[i]].key != run[j].calls[c].key
    ensures !run[n].calls[c].create
  {
    BeganLater(run, j, n, c);
    RunInv(run, n);
    MissedAll(run[n], c);
    hide IsRun, Inv;
    assert run[n].chain[i] == run[j].chain[i];
  }
}
