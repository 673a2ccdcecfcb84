/** The MCS spin lock of util/locks.cc as atomic steps of any number of clients. A client is
    one acquisition with its own fresh QNode, so a QNode and its client share a number. */
module McsLock {
  import opened Sums

  datatype Pc =
    | Idle        // before Lock or TryLock
    | Rejected    // TryLock failed
    | Linking     // Lock: exchanged the tail, about to set last->next
    | Waiting     // Lock: spinning on qnode->done
    | Holding     // owns the lock
    | Releasing   // Unlock: saw no successor, about to compare-exchange the tail
    | AwaitNext   // Unlock: lost that race, spinning on qnode->next
    | Handing     // Unlock: about to set next->done
    | Gone        // Unlock has returned

  /** A client's program counter and local `last`, and the two cells of its QNode. */
  datatype Client = Client(pc: Pc, last: int, next: int, done: bool)

  const NULL: int := -1

  /** `exchanged` logs the clients in the order they put themselves at the tail, `owners` in
      the order they came to own the lock. */
  datatype State = State(tail: int, clients: seq<Client>, exchanged: seq<nat>, owners: seq<nat>)

  datatype Action = Exchange | TryLock | Link | Spin | BeginUnlock | SwingTail | SeeNext | HandOver

  ghost predicate Init(s: State) {
    && s.tail == NULL && s.exchanged == [] && s.owners == []
    && forall c :: 0 <= c < |s.clients| ==> s.clients[c] == Client(Idle, NULL, NULL, false)
  }

  /** The step `a` of client `c`; it is not enabled where the client is not at `a` or has to keep spinning. */
  ghost predicate Step(s: State, s': State, c: nat, a: Action) {
    c < |s.clients| &&
    var me := s.clients[c];
    match a
    case Exchange =>
      me.pc == Idle &&
      if s.tail == NULL then
        s' == State(c, s.clients[c := me.(pc := Holding)], s.exchanged + [c], s.owners + [c])
      else
        s' == State(c, s.clients[c := me.(pc := Linking, last := s.tail)], s.exchanged + [c], s.owners)
    case TryLock =>
      me.pc == Idle &&
      if s.tail == NULL then
        s' == State(c, s.clients[c := me.(pc := Holding)], s.exchanged + [c], s.owners + [c])
      else
        s' == s.(clients := s.clients[c := me.(pc := Rejected)])
    case Link =>
      me.pc == Linking && 0 <= me.last < |s.clients| && me.last != c &&
      s' == s.(clients := s.clients[c := me.(pc := Waiting)][me.last := s.clients[me.last].(next := c)])
    case Spin =>
      me.pc == Waiting && me.done &&
      s' == s.(clients := s.clients[c := me.(pc := Holding)], owners := s.owners + [c])
    case BeginUnlock =>
      me.pc == Holding &&
      s' == s.(clients := s.clients[c := me.(pc := if me.next == NULL then Releasing else Handing)])
    case SwingTail =>
      me.pc == Releasing &&
      if s.tail == c then s' == s.(tail := NULL, clients := s.clients[c := me.(pc := Gone)])
      else s' == s.(clients := s.clients[c := me.(pc := AwaitNext)])
    case SeeNext =>
      me.pc == AwaitNext && me.next != NULL &&
      s' == s.(clients := s.clients[c := me.(pc := Handing)])
    case HandOver =>
      me.pc == Handing && 0 <= me.next < |s.clients| && me.next != c &&
      s' == s.(clients := s.clients[c := me.(pc := Gone)][me.next := s.clients[me.next].(done := true)])
  }

  /** The QNodes whose cells the step `a` of client `c` reads or writes. */
  function Touches(s: State, c: nat, a: Action): set<int>
    requires c < |s.clients|
  {
    match a
    case Exchange => {}
    case TryLock => {}
    case Link => {s.clients[c].last}
    case Spin => {c}
    case BeginUnlock => {c}
    case SwingTail => {}
    case SeeNext => {c}
    case HandOver => {c, s.clients[c].next}
  }

  ghost predicate Next(s: State, s': State) {
    exists c, a :: Step(s, s', c, a)
  }

  ghost predicate IsRun(run: seq<State>) {
    && run != [] && Init(run[0])
    && forall i :: 0 <= i < |run| - 1 ==> Next(run[i], run[i + 1])
  }

  // ---------- the queue behind the pointers

  predicate Queued(pc: Pc) {
    pc == Linking || pc == Waiting || Owns(pc)
  }

  predicate Owns(pc: Pc) {
    pc == Holding || pc == Releasing || pc == AwaitNext || pc == Handing
  }

  /** `n` clients have left; the others stand in `exchanged[n..]`, the head owning the lock or
      told that it does. */
  ghost predicate InvAt(s: State, n: nat) {
    && Order(s.tail, s.exchanged, |s.clients|, n)
    && Left(s.clients, s.exchanged, n)
    && Outside(s.clients, s.exchanged)
    && Places(s.clients, s.exchanged, n)
    && s.owners == s.exchanged[..n] + (if HeadOwns(s.clients, s.exchanged, n) then [s.exchanged[n]] else [])
  }

  ghost predicate Order(tail: int, ex: seq<nat>, count: nat, n: nat) {
    && n <= |ex|
    && (forall i :: 0 <= i < |ex| ==> ex[i] < count)
    && (forall i, j :: 0 <= i < j < |ex| ==> ex[i] != ex[j])
    && tail == (if n == |ex| then NULL else ex[|ex| - 1])
  }

  ghost predicate Left(cs: seq<Client>, ex: seq<nat>, n: nat) {
    forall i :: 0 <= i < n && i < |ex| ==> ex[i] < |cs| && cs[ex[i]].pc == Gone
  }

  ghost predicate Outside(cs: seq<Client>, ex: seq<nat>) {
    forall c :: 0 <= c < |cs| ==> Joined(ex, c) || Fresh(cs[c])
  }

  ghost predicate Joined(ex: seq<nat>, c: nat) {
    exists i :: 0 <= i < |ex| && ex[i] == c
  }

  ghost predicate Fresh(c: Client) {
    (c.pc == Idle || c.pc == Rejected) && c.next == NULL && !c.done
  }

  ghost predicate Places(cs: seq<Client>, ex: seq<nat>, n: nat) {
    forall i :: n <= i < |ex| ==> PlaceOk(cs, ex, n, i)
  }

  /** The client at place `i` of the queue, seen together with its successor. */
  ghost predicate PlaceOk(cs: seq<Client>, ex: seq<nat>, n: nat, i: nat) {
    && n <= i < |ex| && ex[i] < |cs|
    && var me := cs[ex[i]];
       && (if i == n then Owns(me.pc) || (me.pc == Waiting && me.done)
           else (me.pc == Linking || me.pc == Waiting) && !me.done)
       && (me.pc == Linking ==> i > 0 && me.last == ex[i - 1])
       && me.next == (if Linked(cs, ex, i + 1) then ex[i + 1] else NULL)
       && (me.pc == AwaitNext ==> i + 1 < |ex|)
       && (me.pc == Handing ==> me.next != NULL)
  }

  /** Place `i` is taken and its predecessor's `next` has been set. */
  ghost predicate Linked(cs: seq<Client>, ex: seq<nat>, i: nat) {
    i < |ex| && ex[i] < |cs| && cs[ex[i]].pc != Linking
  }

  ghost predicate HeadOwns(cs: seq<Client>, ex: seq<nat>, n: nat) {
    n < |ex| && ex[n] < |cs| && Owns(cs[ex[n]].pc)
  }

  ghost predicate Inv(s: State) {
    exists n :: InvAt(s, n)
  }

  // ---------- every step keeps the invariant

  /** Where a queued client stands. */
  lemma PlaceOf(s: State, n: nat, c: nat) returns (i: nat)
    requires InvAt(s, n) && c < |s.clients| && Queued(s.clients[c].pc)
    ensures n <= i < |s.exchanged| && s.exchanged[i] == c && PlaceOk(s.clients, s.exchanged, n, i)
    ensures s.clients[c].pc == Linking ==> i > n
    ensures Owns(s.clients[c].pc) || (s.clients[c].pc == Waiting && s.clients[c].done) ==> i == n
  {
    assert Joined(s.exchanged, c);
    i :| 0 <= i < |s.exchanged| && s.exchanged[i] == c;
  }

  /** A place is undisturbed while its client and its successor's link are. */
  lemma PlaceFrame(cs: seq<Client>, cs': seq<Client>, ex: seq<nat>, n: nat, i: nat)
    requires |cs'| == |cs| && PlaceOk(cs, ex, n, i) && cs'[ex[i]] == cs[ex[i]]
    requires Linked(cs', ex, i + 1) <==> Linked(cs, ex, i + 1)
    ensures PlaceOk(cs', ex, n, i)
  {}

  /** Changing the client at place `k`, which has not left, concerns nobody else unless its
      linking changes. */
  lemma OneChanges(cs: seq<Client>, ex: seq<nat>, n: nat, k: nat, me: Client, tail: int)
    requires Order(tail, ex, |cs|, n) && Left(cs, ex, n) && Outside(cs, ex) && Places(cs, ex, n)
    requires n <= k < |ex| && (me.pc == Linking <==> cs[ex[k]].pc == Linking)
    ensures var cs' := cs[ex[k] := me];
            && Left(cs', ex, n) && Outside(cs', ex)
            && forall i :: n <= i < |ex| && i != k ==> PlaceOk(cs', ex, n, i)
  {
    hide PlaceOk, Fresh;
    var cs' := cs[ex[k] := me];
    assert Joined(ex, ex[k]);
    forall i | n <= i < |ex| && i != k ensures PlaceOk(cs', ex, n, i) {
      PlaceFrame(cs, cs', ex, n, i);
    }
  }

  lemma RejectKeeps(s: State, s': State, n: nat, c: nat)
    requires InvAt(s, n) && Step(s, s', c, TryLock) && s.tail != NULL
    ensures InvAt(s', n)
  {
    OutsiderChanges(s.clients, s.exchanged, n, c, s.clients[c].(pc := Rejected), s.tail);
    assert !Queued(s.clients[c].pc) && s.clients[c].pc != Gone;
  }

  /** A client that has not joined is at no place. */
  lemma OutsiderChanges(cs: seq<Client>, ex: seq<nat>, n: nat, c: nat, me: Client, tail: int)
    requires Order(tail, ex, |cs|, n) && Left(cs, ex, n) && Outside(cs, ex) && Places(cs, ex, n)
    requires c < |cs| && cs[c].pc == Idle
    ensures !Joined(ex, c) && Fresh(cs[c])
    ensures var cs' := cs[c := me];
            && Left(cs', ex, n) && Places(cs', ex, n) && (HeadOwns(cs', ex, n) <==> HeadOwns(cs, ex, n))
            && (Fresh(me) ==> Outside(cs', ex))
  {
    forall i | 0 <= i < |ex| ensures ex[i] != c {
      assert i >= n ==> PlaceOk(cs, ex, n, i);
    }
    hide PlaceOk;
    var cs' := cs[c := me];
    forall i | n <= i < |ex| ensures PlaceOk(cs', ex, n, i) {
      PlaceFrame(cs, cs', ex, n, i);
    }
  }

  /** A newcomer that is not linked yet disturbs no place. */
  lemma NewcomerFrame(cs: seq<Client>, ex: seq<nat>, n: nat, c: nat, i: nat)
    requires PlaceOk(cs, ex, n, i) && c < |cs| && cs[c].pc == Linking
    ensures PlaceOk(cs, ex + [c], n, i)
  {}

  /** The tail exchange of Lock; TryLock on a free lock does the same. */
  lemma EnterKeeps(s: State, s': State, n: nat, c: nat)
    requires InvAt(s, n) && Step(s, s', c, Exchange)
    ensures InvAt(s', n)
  {
    var ex := s.exchanged;
    var me := s'.clients[c];
    OutsiderChanges(s.clients, ex, n, c, me, s.tail);
    assert s'.clients == s.clients[c := me];
    JoinKeeps(s'.clients, ex, n, c, s.clients);
    OrderJoin(s.tail, ex, |s.clients|, n, c);
    assert PlaceOk(s'.clients, ex + [c], n, |ex|);
    assert Places(s'.clients, ex + [c], n) by { hide PlaceOk; }
    hide Order, Left, Outside, Places, PlaceOk;
    assert (ex + [c])[..n] == ex[..n];
    assert n < |ex| ==> (ex + [c])[n] == ex[n];
  }

  lemma OrderJoin(tail: int, ex: seq<nat>, count: nat, n: nat, c: nat)
    requires Order(tail, ex, count, n) && c < count && !Joined(ex, c)
    ensures Order(c, ex + [c], count, n)
  {
    forall i, j | 0 <= i < j < |ex + [c]| ensures (ex + [c])[i] != (ex + [c])[j] {
      assert ex[i] != c;
    }
  }

  lemma JoinKeeps(cs: seq<Client>, ex: seq<nat>, n: nat, c: nat, before: seq<Client>)
    requires n <= |ex| && c < |cs| && |before| == |cs| && Left(cs, ex, n) && Places(cs, ex, n)
    requires Outside(before, ex) && cs == before[c := cs[c]]
    requires n == |ex| || cs[c].pc == Linking
    ensures Left(cs, ex + [c], n) && Outside(cs, ex + [c])
    ensures forall i :: n <= i < |ex| ==> PlaceOk(cs, ex + [c], n, i)
  {
    hide PlaceOk, Fresh;
    forall d | 0 <= d < |cs| ensures Joined(ex + [c], d) || Fresh(cs[d]) {
      if Joined(ex, d) {
        var i :| 0 <= i < |ex| && ex[i] == d;
        assert (ex + [c])[i] == d;
      } else if d == c {
        assert (ex + [c])[|ex|] == c;
      }
    }
    forall i | n <= i < |ex| ensures PlaceOk(cs, ex + [c], n, i) {
      NewcomerFrame(cs, ex, n, c, i);
    }
  }

  lemma LinkKeeps(s: State, s': State, n: nat, c: nat)
    requires InvAt(s, n) && Step(s, s', c, Link)
    ensures InvAt(s', n)
  {
    var i := PlaceOf(s, n, c);
    var ex, cs := s.exchanged, s.clients;
    assert PlaceOk(cs, ex, n, i - 1);
    var mid := cs[ex[i - 1] := cs[ex[i - 1]].(next := c)];
    assert s'.clients == mid[c := cs[c].(pc := Waiting)];
    LinkFrame(cs, s'.clients, ex, n, i, s.tail);
    assert Linked(s'.clients, ex, i);
    assert PlaceOk(s'.clients, ex, n, i) by {
      assert Linked(s'.clients, ex, i + 1) <==> Linked(cs, ex, i + 1);
    }
    assert PlaceOk(s'.clients, ex, n, i - 1);
  }

  lemma LinkFrame(cs: seq<Client>, cs': seq<Client>, ex: seq<nat>, n: nat, i: nat, tail: int)
    requires Order(tail, ex, |cs|, n) && Left(cs, ex, n) && Outside(cs, ex) && Places(cs, ex, n)
    requires n < i < |ex| && |cs'| == |cs|
    requires forall d :: 0 <= d < |cs| && d != ex[i] && d != ex[i - 1] ==> cs'[d] == cs[d]
    requires cs'[ex[i - 1]].pc == cs[ex[i - 1]].pc
    ensures Left(cs', ex, n) && Outside(cs', ex) && (HeadOwns(cs', ex, n) <==> HeadOwns(cs, ex, n))
    ensures forall j :: n <= j < |ex| && j != i && j != i - 1 ==> PlaceOk(cs', ex, n, j)
  {
    hide PlaceOk, Fresh;
    assert Joined(ex, ex[i]) && Joined(ex, ex[i - 1]);
    forall j | n <= j < |ex| && j != i && j != i - 1 ensures PlaceOk(cs', ex, n, j) {
      PlaceFrame(cs, cs', ex, n, j);
    }
  }

  /** The steps of the head of the queue that keep it there. */
  lemma HeadMoves(s: State, s': State, n: nat, c: nat, a: Action)
    requires InvAt(s, n) && Step(s, s', c, a)
    requires a == Spin || a == BeginUnlock || a == SeeNext || (a == SwingTail && s.tail != c)
    ensures InvAt(s', n)
  {
    var i := PlaceOf(s, n, c);
    var me := s'.clients[c];
    OneChanges(s.clients, s.exchanged, n, n, me, s.tail);
    assert s'.clients == s.clients[c := me];
    assert PlaceOk(s'.clients, s.exchanged, n, n) by {
      assert Linked(s'.clients, s.exchanged, n + 1) <==> Linked(s.clients, s.exchanged, n + 1);
    }
  }

  lemma SwingKeeps(s: State, s': State, n: nat, c: nat)
    requires InvAt(s, n) && Step(s, s', c, SwingTail) && s.tail == c
    ensures InvAt(s', n + 1)
  {
    var i := PlaceOf(s, n, c);
    OneChanges(s.clients, s.exchanged, n, n, s'.clients[c], s.tail);
    assert s.exchanged[|s.exchanged| - 1] == c;
    assert s'.exchanged[..n + 1] == s.exchanged[..n] + [c];
  }

  lemma HandKeeps(s: State, s': State, n: nat, c: nat)
    requires InvAt(s, n) && Step(s, s', c, HandOver)
    ensures InvAt(s', n + 1)
  {
    var i := PlaceOf(s, n, c);
    var ex, cs, m := s.exchanged, s.clients, n + 1;
    assert ex[m] == cs[c].next && PlaceOk(cs, ex, n, m);
    HandFrame(cs, s'.clients, ex, n, m, s.tail);
    assert Linked(s'.clients, ex, m + 1) <==> Linked(cs, ex, m + 1);
    assert PlaceOk(s'.clients, ex, m, m);
    hide Left, Outside, PlaceOk;
    assert s'.exchanged[..m] == ex[..n] + [c];
  }

  lemma HandFrame(cs: seq<Client>, cs': seq<Client>, ex: seq<nat>, n: nat, m: nat, tail: int)
    requires Order(tail, ex, |cs|, n) && Left(cs, ex, n) && Outside(cs, ex) && Places(cs, ex, n)
    requires n + 1 == m < |ex| && |cs'| == |cs| && cs'[ex[n]].pc == Gone
    requires forall d :: 0 <= d < |cs| && d != ex[n] && d != ex[m] ==> cs'[d] == cs[d]
    ensures Left(cs', ex, m) && Outside(cs', ex)
    ensures forall j :: m < j < |ex| ==> PlaceOk(cs', ex, m, j)
  {
    assert Joined(ex, ex[n]) && Joined(ex, ex[m]);
    forall j | m < j < |ex| ensures PlaceOk(cs', ex, m, j) {
      assert PlaceOk(cs, ex, n, j);
      assert Linked(cs', ex, j + 1) <==> Linked(cs, ex, j + 1);
    }
  }

  lemma StepKeepsInv(s: State, s': State, n: nat, c: nat, a: Action)
    requires InvAt(s, n) && Step(s, s', c, a)
    ensures InvAt(s', n) || InvAt(s', n + 1)
  {
    match a
    case Exchange => EnterKeeps(s, s', n, c);
    case TryLock => if s.tail == NULL { EnterKeeps(s, s', n, c); } else { RejectKeeps(s, s', n, c); }
    case Link => LinkKeeps(s, s', n, c);
    case SwingTail => if s.tail == c { SwingKeeps(s, s', n, c); } else { HeadMoves(s, s', n, c, a); }
    case HandOver => HandKeeps(s, s', n, c);
    case _ => HeadMoves(s, s', n, c, a);
  }

  lemma {:induction false} RunInv(run: seq<State>, i: nat)
    requires IsRun(run) && i < |run|
    ensures Inv(run[i])
  {
    if i == 0 {
      assert InvAt(run[0], 0);
    } else {
      RunInv(run, i - 1);
      assert Next(run[i - 1], run[i]);
      var n: nat :| InvAt(run[i - 1], n);
      var c: nat, a :| Step(run[i - 1], run[i], c, a);
      StepKeepsInv(run[i - 1], run[i], n, c, a);
    }
  }

  // ---------- the theorems

  /** Mutual exclusion: in every state of every run at most one client owns the lock. */
  lemma MutualExclusion(run: seq<State>, i: nat, c: nat, d: nat)
    requires IsRun(run) && i < |run| && c < |run[i].clients| && d < |run[i].clients|
    requires Owns(run[i].clients[c].pc) && Owns(run[i].clients[d].pc)
    ensures c == d
  {
    RunInv(run, i);
    var n: nat :| InvAt(run[i], n);
    var j := PlaceOf(run[i], n, c);
    var k := PlaceOf(run[i], n, d);
  }

  /** First come, first served: the lock is owned in the order of the tail exchanges. */
  lemma OwnershipFollowsExchange(run: seq<State>, i: nat)
    requires IsRun(run) && i < |run|
    ensures run[i].owners <= run[i].exchanged
  {
    RunInv(run, i);
    var n: nat :| InvAt(run[i], n);
  }

  /** Once Unlock has returned, no later step of another client touches the QNode. */
  lemma NodeIsFreeAfterUnlock(run: seq<State>, i: nat, d: nat, c: nat, a: Action, s': State)
    requires IsRun(run) && i < |run| && d < |run[i].clients| && run[i].clients[d].pc == Gone
    requires Step(run[i], s', c, a)
    ensures c != d && d !in Touches(run[i], c, a) && s'.clients[d] == run[i].clients[d]
  {
    RunInv(run, i);
    var s := run[i];
    var n: nat :| InvAt(s, n);
    if a == Link {
      var p := PlaceOf(s, n, c);
      assert PlaceOk(s.clients, s.exchanged, n, p - 1);
    } else if a == HandOver {
      var p := PlaceOf(s, n, c);
      assert PlaceOk(s.clients, s.exchanged, n, p + 1);
    }
  }

  /** A returned client stays returned, so its QNode may be reused or freed for good. */
  lemma {:induction false} GoneForever(run: seq<State>, i: nat, j: nat, d: nat)
    requires IsRun(run) && i <= j < |run| && d < |run[i].clients| && run[i].clients[d].pc == Gone
    ensures d < |run[j].clients| && run[j].clients[d] == run[i].clients[d]
    decreases j
  {
    if i < j {
      GoneForever(run, i, j - 1, d);
      assert Next(run[j - 1], run[j]);
      var c: nat, a :| Step(run[j - 1], run[j], c, a);
      NodeIsFreeAfterUnlock(run, j - 1, d, c, a, run[j]);
    }
  }

  /** The queue never gets stuck: while anyone is queued, someone other than a client inside
      the critical section has a step, or the head is inside the critical section. */
  lemma NeverStuck(run: seq<State>, i: nat) returns (c: nat, a: Action, s': State)
    requires IsRun(run) && i < |run| && run[i].tail != NULL
    ensures Step(run[i], s', c, a) && Queued(run[i].clients[c].pc)
  {
    RunInv(run, i);
    var s := run[i];
    var n: nat :| InvAt(s, n);
    c := s.exchanged[n];
    var me := s.clients[c];
    assert PlaceOk(s.clients, s.exchanged, n, n);
    match me.pc
    case Waiting =>
      a, s' := Spin, s.(clients := s.clients[c := me.(pc := Holding)], owners := s.owners + [c]);
    case Holding =>
      a, s' := BeginUnlock, s.(clients := s.clients[c := me.(pc := if me.next == NULL then Releasing else Handing)]);
    case Releasing =>
      a := SwingTail;
      s' := if s.tail == c then s.(tail := NULL, clients := s.clients[c := me.(pc := Gone)])
            else s.(clients := s.clients[c := me.(pc := AwaitNext)]);
    case AwaitNext =>
      if me.next != NULL {
        a, s' := SeeNext, s.(clients := s.clients[c := me.(pc := Handing)]);
      } else {
        c := s.exchanged[n + 1];
        assert PlaceOk(s.clients, s.exchanged, n, n + 1);
        var you := s.clients[c];
        a, s' := Link, s.(clients := s.clients[c := you.(pc := Waiting)][you.last := s.clients[you.last].(next := c)]);
      }
    case Handing =>
      a, s' := HandOver, s.(clients := s.clients[c := me.(pc := Gone)][me.next := s.clients[me.next].(done := true)]);
  }

  /** The tail is set exactly while somebody is queued. */
  lemma TailMeansQueued(run: seq<State>, i: nat)
    requires IsRun(run) && i < |run|
    ensures run[i].tail == NULL <==> forall d :: 0 <= d < |run[i].clients| ==> !Queued(run[i].clients[d].pc)
  {
    RunInv(run, i);
    var s := run[i];
    var n: nat :| InvAt(s, n);
    hide IsRun;
    if s.tail == NULL {
      forall d: nat | d < |s.clients| ensures !Queued(s.clients[d].pc) {
        if Queued(s.clients[d].pc) { var k := PlaceOf(s, n, d); }
      }
    } else {
      assert PlaceOk(s.clients, s.exchanged, n, n);
      assert Queued(s.clients[s.exchanged[n]].pc);
    }
  }

  /** TryLock fails only while another client is queued. */
  lemma RejectedOnlyIfTaken(run: seq<State>, i: nat, c: nat)
    requires IsRun(run) && i + 1 < |run| && c < |run[i].clients| == |run[i + 1].clients|
    requires run[i].clients[c].pc == Idle && run[i + 1].clients[c].pc == Rejected
    ensures exists d: nat :: d < |run[i].clients| && d != c && Queued(run[i].clients[d].pc)
  {
    TailMeansQueued(run, i);
    assert Next(run[i], run[i + 1]);
    var b: nat, a :| Step(run[i], run[i + 1], b, a);
    hide IsRun;
  }

  /** On a free lock TryLock and Lock are both enabled and both end up owning it. */
  lemma FreeLockIsTaken(run: seq<State>, i: nat, c: nat, a: Action)
    requires IsRun(run) && i < |run| && c < |run[i].clients| && run[i].clients[c].pc == Idle
    requires forall d :: 0 <= d < |run[i].clients| ==> !Queued(run[i].clients[d].pc)
    requires a == TryLock || a == Exchange
    ensures exists s' :: Step(run[i], s', c, a)
    ensures forall s' :: Step(run[i], s', c, a) ==> c < |s'.clients| && Owns(s'.clients[c].pc)
  {
    TailMeansQueued(run, i);
    var s := run[i];
    assert Step(s, State(c, s.clients[c := s.clients[c].(pc := Holding)], s.exchanged + [c], s.owners + [c]), c, a);
  }

  // ---------- everyone is served

  function Rank(pc: Pc): int {
    match pc
    case Idle => 7
    case Linking => 6
    case Waiting => 5
    case Holding => 4
    case Releasing => 3
    case AwaitNext => 2
    case Handing => 1
    case Rejected => 0
    case Gone => 0
  }

  function Ranks(cs: seq<Client>): (r: seq<int>)
    ensures |r| == |cs|
  {
    seq(|cs|, c requires 0 <= c < |cs| => Rank(cs[c].pc))
  }

  lemma StepMoves(s: State, s': State, c: nat, a: Action)
    requires Step(s, s', c, a)
    ensures c < |s.clients| == |s'.clients| && Rank(s'.clients[c].pc) < Rank(s.clients[c].pc)
    ensures forall d :: 0 <= d < |s.clients| && d != c ==> s'.clients[d].pc == s.clients[d].pc
  {}

  /** Every step brings its client nearer to the end, so the clients take only so many steps. */
  lemma StepLowers(s: State, s': State, c: nat, a: Action)
    requires Step(s, s', c, a)
    ensures 0 <= Sum(Ranks(s'.clients)) < Sum(Ranks(s.clients))
  {
    StepMoves(s, s', c, a);
    hide Step, Sum;
    SumChange(Ranks(s.clients), Ranks(s'.clients), c);
    SumNonNegative(Ranks(s'.clients));
  }

  lemma {:induction false} RunIsShort(run: seq<State>, i: nat)
    requires IsRun(run) && i < |run|
    ensures i + Sum(Ranks(run[i].clients)) <= Sum(Ranks(run[0].clients))
    ensures 0 <= Sum(Ranks(run[i].clients))
  {
    hide Ranks, Sum, Step;
    if i == 0 {
      RanksPositive(run[0].clients);
    } else {
      RunIsShort(run, i - 1);
      assert Next(run[i - 1], run[i]);
      var c: nat, a :| Step(run[i - 1], run[i], c, a);
      StepLowers(run[i - 1], run[i], c, a);
    }
  }

  lemma RanksPositive(cs: seq<Client>)
    ensures Sum(Ranks(cs)) >= 0
  {
    SumNonNegative(Ranks(cs));
  }

  lemma IdleCanGo(s: State, c: nat)
    requires c < |s.clients| && s.clients[c].pc == Idle
    ensures exists s' :: Step(s, s', c, Exchange)
  {
    var me := s.clients[c];
    if s.tail == NULL {
      assert Step(s, State(c, s.clients[c := me.(pc := Holding)], s.exchanged + [c], s.owners + [c]), c, Exchange);
    } else {
      var clients := s.clients[c := me.(pc := Linking, last := s.tail)];
      assert Step(s, State(c, clients, s.exchanged + [c], s.owners), c, Exchange);
    }
  }

  /** When nobody has a step left every client has had the lock and given it back, or was turned away. */
  lemma StuckMeansServed(run: seq<State>, i: nat, c: nat)
    requires IsRun(run) && i < |run| && c < |run[i].clients| && forall s', d, a :: !Step(run[i], s', d, a)
    ensures run[i].clients[c].pc == Gone || run[i].clients[c].pc == Rejected
    ensures run[i].clients[c].pc == Gone <==> c in run[i].owners
  {
    RunInv(run, i);
    var s := run[i];
    var n: nat :| InvAt(s, n);
    assert s.tail == NULL by {
      if s.tail != NULL { var d, a, s' := NeverStuck(run, i); }
    }
    hide IsRun;
    assert s.clients[c].pc != Idle by {
      if s.clients[c].pc == Idle { IdleCanGo(s, c); }
    }
    assert s.owners == s.exchanged;
    assert Joined(s.exchanged, c) || Fresh(s.clients[c]);
  }
}
