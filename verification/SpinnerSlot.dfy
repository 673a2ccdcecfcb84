/** The wake-up protocol of SpinnerSlot in vhandle_sync.cc. A pending object word carries the
    waiting cores as cleared bits of its lower half; whoever installs the object notifies
    them through one `done` flag per core. Words are modelled by the set of their one-bits. */
module SpinnerSlot {

  type Word = set<nat>

  /** The one-bits of kPendingValue >> 32, that is of 0xFE1FE190, in their places. */
  const MAGIC: Word := {36, 39, 40, 45, 46, 47, 48, 49, 50, 51, 52, 57, 58, 59, 60, 61, 62, 63}

  const NR_SLOTS: nat := 32

  function Upper(w: Word): Word { set b | b in w && b >= 32 }

  /** RowLookup.IsPendingVal on words as sets of bits. */
  predicate IsPendingWord(w: Word) { Upper(w) == MAGIC }

  /** mask - (oldval & mask) with mask == 2^32 - 1: the cores to notify. */
  function Bitmap(word: Word): (r: set<nat>)
    ensures forall b: nat :: b in r <==> b < 32 && b !in word
  {
    set b: nat | b < 32 && b !in word
  }

  /** __builtin_ctzll */
  predicate IsLowest(bitmap: set<nat>, idx: nat) {
    idx in bitmap && forall b :: b in bitmap ==> idx <= b
  }

  lemma LowestExists(bitmap: set<nat>) returns (idx: nat)
    requires bitmap != {}
    ensures IsLowest(bitmap, idx)
  {
    var x :| x in bitmap;
    if bitmap == {x} {
      idx := x;
    } else {
      var rest := LowestExists(bitmap - {x});
      idx := if x < rest then x else rest;
      assert bitmap == (bitmap - {x}) + {x};
    }
  }

  /** bitmap & ~(1 << idx): the literal is a signed int, so for idx == 31 the complement has
      no sign bit to extend and every higher bit goes as well. */
  function ClearBit(bitmap: set<nat>, idx: nat): (r: set<nat>)
    requires idx < 32
  {
    if idx < 31 then bitmap - {idx} else set b | b in bitmap && b < 31
  }

  /** Registering core `c` with `val & ~(1ULL << c)` leaves the word pending and makes the core
      one of those to notify exactly when the core number is below 32. */
  lemma RegisterWorks(w: Word, c: nat)
    requires IsPendingWord(w)
    ensures IsPendingWord(w - {c}) && c in Bitmap(w - {c}) <==> c < 32
  {
    if c < 32 {
      assert Upper(w - {c}) == Upper(w);
    }
  }

  /** SpinnerSlot::Notify: sets the flag of exactly the cores in the bitmap. */
  method Notify(done: array<bool>, bitmap: set<nat>)
    requires done.Length == NR_SLOTS && forall b :: b in bitmap ==> b < 32
    modifies done
    ensures forall i :: 0 <= i < NR_SLOTS ==> done[i] == (old(done[i]) || i in bitmap)
  {
    var left := bitmap;
    while left != {}
      invariant left <= bitmap
      invariant forall i :: 0 <= i < NR_SLOTS ==> done[i] == (old(done[i]) || i in bitmap - left)
      decreases |left|
    {
      ghost var low := LowestExists(left);
      var idx: nat :| idx in left && IsLowest(left, idx);
      done[idx] := true;
      assert ClearBit(left, idx) == left - {idx};
      left := ClearBit(left, idx);
    }
  }

  // ---------- the protocol as steps of up to 32 cores over any number of object words

  datatype Pc =
    | Idle
    | Arrived(addr: nat, seen: Word)             // WaitForData: about to compare-and-swap
    | Spinning(addr: nat)                       // Spin: registered, watching its flag
    | Clearing(addr: nat)                       // Spin: saw the flag, about to reset it
    | Rereading(addr: nat)                      // WaitForData: about to load the word again
    | Returned(addr: nat, val: Word)            // WaitForData has returned
    | Offering(addr: nat, obj: Word, seen: Word) // OfferData: about to compare-and-swap
    | Notifying(left: set<nat>)                 // Notify: bits still to do

  datatype State = State(words: seq<Word>, done: seq<bool>, cores: seq<Pc>)

  datatype Action =
    | Wait(a: nat) | Register | Wake | Clear | Reread | Leave
    | Offer(target: nat, obj: Word) | Install | NotifyOne(idx: nat) | EndNotify
    | Stale // the flag is found set although nobody notified: left over from an earlier wait

  ghost predicate Init(s: State) {
    && |s.done| == NR_SLOTS && |s.cores| <= NR_SLOTS
    && forall c :: 0 <= c < |s.cores| ==> s.cores[c] == Idle
  }

  function AfterLoad(a: nat, w: Word): Pc {
    if IsPendingWord(w) then Arrived(a, w) else Returned(a, w)
  }

  ghost predicate Step(s: State, s': State, c: nat, act: Action) {
    c < |s.cores| && |s.done| == NR_SLOTS && |s.cores| <= NR_SLOTS &&
    var me := s.cores[c];
    match act
    case Wait(a) =>
      me == Idle && a < |s.words| && s' == s.(cores := s.cores[c := AfterLoad(a, s.words[a])])
    case Register =>
      me.Arrived? && me.addr < |s.words| &&
      if s.words[me.addr] == me.seen then
        s' == s.(words := s.words[me.addr := me.seen - {c}], cores := s.cores[c := Spinning(me.addr)])
      else
        s' == s.(cores := s.cores[c := AfterLoad(me.addr, s.words[me.addr])])
    case Wake =>
      me.Spinning? && s.done[c] && s' == s.(cores := s.cores[c := Clearing(me.addr)])
    case Clear =>
      me.Clearing? && s' == s.(done := s.done[c := false], cores := s.cores[c := Rereading(me.addr)])
    case Reread =>
      me.Rereading? && me.addr < |s.words| && s' == s.(cores := s.cores[c := AfterLoad(me.addr, s.words[me.addr])])
    case Leave =>
      me.Returned? && s' == s.(cores := s.cores[c := Idle])
    case Offer(a, obj) =>
      me == Idle && a < |s.words| && !IsPendingWord(obj)
        && s' == s.(cores := s.cores[c := Offering(a, obj, s.words[a])])
    case Install =>
      me.Offering? && me.addr < |s.words| &&
      if s.words[me.addr] == me.seen then
        s' == s.(words := s.words[me.addr := me.obj], cores := s.cores[c := Notifying(Bitmap(me.seen))])
      else
        s' == s.(cores := s.cores[c := me.(seen := s.words[me.addr])])
    case NotifyOne(idx) =>
      me.Notifying? && IsLowest(me.left, idx) && idx < 32 &&
      s' == s.(done := s.done[idx := true], cores := s.cores[c := Notifying(ClearBit(me.left, idx))])
    case EndNotify =>
      me.Notifying? && me.left == {} && s' == s.(cores := s.cores[c := Idle])
    case Stale =>
      s' == s.(done := s.done[c := true])
  }

  ghost predicate Next(s: State, s': State) {
    exists c, act :: Step(s, s', c, act)
  }

  ghost predicate IsRun(run: seq<State>) {
    && run != [] && Init(run[0])
    && forall i :: 0 <= i < |run| - 1 ==> Next(run[i], run[i + 1])
  }

  /** Somebody still has the bit of core `c` to notify. */
  ghost predicate InBitmap(s: State, c: nat) {
    exists n :: 0 <= n < |s.cores| && s.cores[n].Notifying? && c in s.cores[n].left
  }

  ghost predicate CoreInv(s: State, c: nat)
    requires c < |s.cores| <= |s.done|
  {
    match s.cores[c]
    case Arrived(a, seen) => a < |s.words| && IsPendingWord(seen)
    case Spinning(a) => a < |s.words| &&
      ((IsPendingWord(s.words[a]) && c !in s.words[a]) || s.done[c] || InBitmap(s, c))
    case Clearing(a) => a < |s.words|
    case Rereading(a) => a < |s.words|
    case Returned(a, val) => a < |s.words| && !IsPendingWord(val) && !IsPendingWord(s.words[a])
    case Offering(a, obj, _) => a < |s.words| && !IsPendingWord(obj)
    case Notifying(left) => forall b :: b in left ==> b < 32
    case Idle => true
  }

  ghost predicate Inv(s: State) {
    && |s.done| == NR_SLOTS && |s.cores| <= NR_SLOTS
    && forall c :: 0 <= c < |s.cores| ==> CoreInv(s, c)
  }

  /** What a step may do to the words, flags and bitmaps that other cores rely on. */
  ghost predicate Harmless(s: State, s': State, c: nat) {
    && |s'.words| == |s.words| && |s'.done| == |s.done| && c < |s.cores| == |s'.cores| <= |s.done|
    && (forall d :: 0 <= d < |s.cores| && d != c ==> s'.cores[d] == s.cores[d])
    && (forall a :: 0 <= a < |s.words| && !IsPendingWord(s.words[a]) ==> !IsPendingWord(s'.words[a]))
    && (forall d :: 0 <= d < |s.done| && d != c && s.done[d] ==> s'.done[d])
    && (forall a, d :: 0 <= a < |s.words| && 0 <= d < |s.cores| && IsPendingWord(s.words[a]) && d !in s.words[a] ==>
          (IsPendingWord(s'.words[a]) && d !in s'.words[a]) || InBitmap(s', d))
    && (forall d :: 0 <= d < |s.cores| && InBitmap(s, d) ==> InBitmap(s', d) || s'.done[d])
  }

  lemma HarmlessKeepsOthers(s: State, s': State, c: nat)
    requires Inv(s) && Harmless(s, s', c) && CoreInv(s', c)
    ensures Inv(s')
  {
    hide IsPendingWord, InBitmap;
    forall d | 0 <= d < |s'.cores| ensures CoreInv(s', d) {
      if d != c { assert CoreInv(s, d); }
    }
  }

  /** Steps that leave every word and flag alone and hold no bitmap. */
  lemma QuietKeeps(s: State, s': State, c: nat)
    requires Inv(s) && c < |s.cores| == |s'.cores| && s' == s.(cores := s.cores[c := s'.cores[c]])
    requires s.cores[c].Notifying? ==> s.cores[c].left == {}
    requires CoreInv(s', c)
    ensures Inv(s')
  {
    hide IsPendingWord;
    BitmapKept(s, s', c);
    HarmlessKeepsOthers(s, s', c);
  }

  /** The bitmaps of the other cores are still there. */
  lemma BitmapKept(s: State, s': State, c: nat)
    requires |s'.cores| == |s.cores| && c < |s.cores|
    requires forall d :: 0 <= d < |s.cores| && d != c ==> s'.cores[d] == s.cores[d]
    requires s.cores[c].Notifying? ==> s.cores[c].left == {}
    ensures forall d :: InBitmap(s, d) ==> InBitmap(s', d)
  {
    forall d: nat | InBitmap(s, d) ensures InBitmap(s', d) {
      var n :| 0 <= n < |s.cores| && s.cores[n].Notifying? && d in s.cores[n].left;
      assert s'.cores[n].Notifying? && d in s'.cores[n].left;
    }
  }

  lemma RegisterKeeps(s: State, s': State, c: nat)
    requires Inv(s) && Step(s, s', c, Register) && s.words[s.cores[c].addr] == s.cores[c].seen
    ensures Inv(s')
  {
    assert CoreInv(s, c);
    RegisterWorks(s.cores[c].seen, c);
    hide IsPendingWord;
    BitmapKept(s, s', c);
    HarmlessKeepsOthers(s, s', c);
  }

  lemma ClearKeeps(s: State, s': State, c: nat)
    requires Inv(s) && Step(s, s', c, Clear)
    ensures Inv(s')
  {
    hide IsPendingWord;
    assert CoreInv(s, c);
    BitmapKept(s, s', c);
    HarmlessKeepsOthers(s, s', c);
  }

  lemma StaleKeeps(s: State, s': State, c: nat)
    requires Inv(s) && Step(s, s', c, Stale)
    ensures Inv(s')
  {
    hide IsPendingWord;
    assert CoreInv(s, c);
    forall d: nat | InBitmap(s, d) ensures InBitmap(s', d) {
      var n :| 0 <= n < |s.cores| && s.cores[n].Notifying? && d in s.cores[n].left;
      assert s'.cores[n].Notifying? && d in s'.cores[n].left;
    }
    HarmlessKeepsOthers(s, s', c);
  }

  lemma InstallKeeps(s: State, s': State, c: nat)
    requires Inv(s) && Step(s, s', c, Install) && s.words[s.cores[c].addr] == s.cores[c].seen
    ensures Inv(s')
  {
    hide IsPendingWord;
    assert CoreInv(s, c);
    var addr := s.cores[c].addr;
    BitmapKept(s, s', c);
    forall d: nat | d < |s.cores| && d !in s.words[addr] ensures InBitmap(s', d) {
      assert s'.cores[c].Notifying? && d in s'.cores[c].left;
    }
    HarmlessKeepsOthers(s, s', c);
  }

  lemma NotifyKeeps(s: State, s': State, c: nat, idx: nat)
    requires Inv(s) && Step(s, s', c, NotifyOne(idx))
    ensures Inv(s')
  {
    hide IsPendingWord;
    assert CoreInv(s, c);
    var left := s.cores[c].left;
    assert ClearBit(left, idx) == left - {idx};
    forall d: nat | d < |s.cores| && InBitmap(s, d) ensures InBitmap(s', d) || s'.done[d] {
      var n :| 0 <= n < |s.cores| && s.cores[n].Notifying? && d in s.cores[n].left;
      if d != idx { assert s'.cores[n].Notifying? && d in s'.cores[n].left; }
    }
    HarmlessKeepsOthers(s, s', c);
  }

  lemma StepKeepsInv(s: State, s': State, c: nat, act: Action)
    requires Inv(s) && Step(s, s', c, act)
    ensures Inv(s')
  {
    hide IsPendingWord;
    assert CoreInv(s, c);
    match act
    case Register =>
      if s.words[s.cores[c].addr] == s.cores[c].seen { RegisterKeeps(s, s', c); } else { QuietKeeps(s, s', c); }
    case Install =>
      if s.words[s.cores[c].addr] == s.cores[c].seen { InstallKeeps(s, s', c); } else { QuietKeeps(s, s', c); }
    case Clear => ClearKeeps(s, s', c);
    case Stale => StaleKeeps(s, s', c);
    case NotifyOne(idx) => NotifyKeeps(s, s', c, idx);
    case _ => QuietKeeps(s, s', c);
  }

  lemma {:induction false} RunInv(run: seq<State>, i: nat)
    requires IsRun(run) && i < |run|
    ensures Inv(run[i])
  {
    if i > 0 {
      RunInv(run, i - 1);
      assert Next(run[i - 1], run[i]);
      var c: nat, act :| Step(run[i - 1], run[i], c, act);
      StepKeepsInv(run[i - 1], run[i], c, act);
    }
  }

  // ---------- the theorems

  /** No lost wake-up: a core spinning on a word that is no longer pending has its flag set or
      is still in some notifier's bitmap. */
  lemma NoLostWakeup(run: seq<State>, i: nat, c: nat)
    requires IsRun(run) && i < |run| && c < |run[i].cores| && run[i].cores[c].Spinning?
    ensures run[i].cores[c].addr < |run[i].words| && c < |run[i].done|
    ensures !IsPendingWord(run[i].words[run[i].cores[c].addr]) ==> run[i].done[c] || InBitmap(run[i], c)
  {
    RunInv(run, i);
    assert CoreInv(run[i], c);
  }

  /** Hence a waiter can only be stuck on a word that is still pending: once the object is
      installed and every notifier is through, the waiter has a step. */
  lemma WaiterCanGo(run: seq<State>, i: nat, c: nat)
    requires IsRun(run) && i < |run| && c < |run[i].cores| && run[i].cores[c].Spinning?
    requires run[i].cores[c].addr < |run[i].words| && !IsPendingWord(run[i].words[run[i].cores[c].addr])
    requires forall n :: 0 <= n < |run[i].cores| ==> !run[i].cores[n].Notifying?
    ensures Step(run[i], run[i].(cores := run[i].cores[c := Clearing(run[i].cores[c].addr)]), c, Wake)
  {
    RunInv(run, i);
    NoLostWakeup(run, i, c);
  }

  /** WaitForData returns only on a word that is not pending, and it stays that way, whatever
      stale flags were met on the way. */
  lemma ReturnsOnlyWhenReady(run: seq<State>, i: nat, c: nat)
    requires IsRun(run) && i < |run| && c < |run[i].cores| && run[i].cores[c].Returned?
    ensures run[i].cores[c].addr < |run[i].words|
    ensures !IsPendingWord(run[i].cores[c].val) && !IsPendingWord(run[i].words[run[i].cores[c].addr])
  {
    RunInv(run, i);
    assert CoreInv(run[i], c);
  }

  // ---------- what a waiter gets

  /** In step `j` somebody begins to offer `obj` for word `a`. */
  ghost predicate OfferedAt(run: seq<State>, j: nat, a: nat, obj: Word) {
    j + 1 < |run| && Offers(run[j], run[j + 1], a, obj)
  }

  ghost predicate Offers(s: State, s': State, a: nat, obj: Word) {
    exists c: nat :: Step(s, s', c, Offer(a, obj))
  }

  /** Somebody has offered `obj` for word `a` before state `i`. */
  ghost predicate Offered(run: seq<State>, i: nat, a: nat, obj: Word) {
    exists j: nat :: j < i && OfferedAt(run, j, a, obj)
  }

  /** Where a value of word `a` can come from. */
  ghost predicate ComesFrom(run: seq<State>, i: nat, a: nat, w: Word)
    requires run != []
  {
    IsPendingWord(w) || (a < |run[0].words| && w == run[0].words[a]) || Offered(run, i, a, w)
  }

  ghost predicate CoreComes(run: seq<State>, i: nat, pc: Pc)
    requires run != []
  {
    && (pc.Offering? ==> Offered(run, i, pc.addr, pc.obj))
    && (pc.Returned? ==> ComesFrom(run, i, pc.addr, pc.val))
  }

  ghost predicate AllCome(run: seq<State>, i: nat)
    requires i < |run|
  {
    && (forall a :: 0 <= a < |run[i].words| ==> ComesFrom(run, i, a, run[i].words[a]))
    && (forall c :: 0 <= c < |run[i].cores| ==> CoreComes(run, i, run[i].cores[c]))
  }

  lemma OfferedStays(run: seq<State>, i: nat, a: nat, w: Word)
    requires Offered(run, i, a, w)
    ensures Offered(run, i + 1, a, w)
  {
    var j: nat :| j < i && OfferedAt(run, j, a, w);
    assert j < i + 1 && OfferedAt(run, j, a, w);
  }

  lemma ComesStays(run: seq<State>, i: nat, a: nat, w: Word)
    requires run != [] && ComesFrom(run, i, a, w)
    ensures ComesFrom(run, i + 1, a, w)
  {
    hide IsPendingWord, Offered;
    if Offered(run, i, a, w) { OfferedStays(run, i, a, w); }
  }

  /** The word at an address after a step. */
  lemma WordComes(run: seq<State>, i: nat, c: nat, act: Action, a: nat)
    requires i + 1 < |run| && Inv(run[i]) && AllCome(run, i) && Step(run[i], run[i + 1], c, act)
    requires a < |run[i + 1].words|
    ensures ComesFrom(run, i + 1, a, run[i + 1].words[a])
  {
    var s, s' := run[i], run[i + 1];
    assert CoreInv(s, c) && CoreComes(run, i, s.cores[c]);
    hide Offered, InBitmap;
    if s'.words[a] == s.words[a] {
      ComesStays(run, i, a, s.words[a]);
    } else if act == Register {
      RegisterWorks(s.cores[c].seen, c);
    } else {
      assert act == Install && a == s.cores[c].addr;
      OfferedStays(run, i, a, s.cores[c].obj);
    }
  }

  /** What a core holds after a step. */
  lemma CoreComesOn(run: seq<State>, i: nat, c: nat, act: Action, d: nat)
    requires i + 1 < |run| && Inv(run[i]) && AllCome(run, i) && Step(run[i], run[i + 1], c, act)
    requires d < |run[i + 1].cores|
    ensures CoreComes(run, i + 1, run[i + 1].cores[d])
  {
    var s, s' := run[i], run[i + 1];
    assert CoreInv(s, c) && CoreComes(run, i, s.cores[c]) && CoreComes(run, i, s.cores[d]);
    hide Offered, InBitmap, IsPendingWord;
    var pc := s'.cores[d];
    if act.Offer? && d == c {
      assert OfferedAt(run, i, act.target, act.obj);
      OfferedNow(run, i, act.target, act.obj);
    } else if pc.Offering? {
      OfferedStays(run, i, pc.addr, pc.obj);
    } else if pc.Returned? {
      ComesStays(run, i, pc.addr, pc.val);
    }
  }

  lemma OfferedNow(run: seq<State>, i: nat, a: nat, obj: Word)
    requires OfferedAt(run, i, a, obj)
    ensures Offered(run, i + 1, a, obj)
  {}

  lemma {:induction false} RunComes(run: seq<State>, i: nat)
    requires IsRun(run) && i < |run|
    ensures AllCome(run, i)
  {
    hide ComesFrom, CoreComes, Step;
    if i == 0 {
      StartComes(run);
    } else {
      RunComes(run, i - 1);
      RunInv(run, i - 1);
      assert Next(run[i - 1], run[i]);
      var c: nat, act :| Step(run[i - 1], run[i], c, act);
      hide Inv, Next;
      forall a | 0 <= a < |run[i].words| ensures ComesFrom(run, i, a, run[i].words[a]) {
        WordComes(run, i - 1, c, act, a);
      }
      forall d | 0 <= d < |run[i].cores| ensures CoreComes(run, i, run[i].cores[d]) {
        CoreComesOn(run, i - 1, c, act, d);
      }
    }
  }

  lemma StartComes(run: seq<State>)
    requires IsRun(run)
    ensures AllCome(run, 0)
  {
    hide Offered, IsPendingWord;
  }

  lemma {:induction false} WordsStay(run: seq<State>, i: nat)
    requires IsRun(run) && i < |run|
    ensures |run[i].words| == |run[0].words|
  {
    if i > 0 {
      WordsStay(run, i - 1);
      assert Next(run[i - 1], run[i]);
    }
  }

  /** A word that was pending and is so no more holds an object offered for it. */
  lemma InstalledIsOffered(run: seq<State>, i: nat, a: nat)
    requires IsRun(run) && i < |run| && a < |run[0].words| && IsPendingWord(run[0].words[a])
    ensures a < |run[i].words|
    ensures !IsPendingWord(run[i].words[a]) ==> Offered(run, i, a, run[i].words[a])
  {
    WordsStay(run, i);
    RunComes(run, i);
    hide IsRun, Offered;
    assert ComesFrom(run, i, a, run[i].words[a]);
  }

  /** Word `a` is offered an object at most once. */
  ghost predicate OfferedOnce(run: seq<State>, a: nat) {
    forall j: nat, k: nat, obj: Word, other: Word ::
      OfferedAt(run, j, a, obj) && OfferedAt(run, k, a, other) ==> j == k
  }

  lemma OneObject(run: seq<State>, j: nat, a: nat, obj: Word, other: Word)
    requires OfferedAt(run, j, a, obj) && OfferedAt(run, j, a, other)
    ensures obj == other
  {
    var c: nat :| Step(run[j], run[j + 1], c, Offer(a, obj));
    var d: nat :| Step(run[j], run[j + 1], d, Offer(a, other));
    assert run[j + 1].cores[c] == Offering(a, obj, run[j].words[a]);
    assert run[j + 1].cores[d] == Offering(a, other, run[j].words[a]);
  }

  /** WaitForData on a word that was pending returns an object offered for it; the one in the word, if
      it is offered one only. */
  lemma ReturnsTheObject(run: seq<State>, i: nat, c: nat)
    requires IsRun(run) && i < |run| && c < |run[i].cores| && run[i].cores[c].Returned?
    requires run[i].cores[c].addr < |run[0].words| && IsPendingWord(run[0].words[run[i].cores[c].addr])
    ensures Offered(run, i, run[i].cores[c].addr, run[i].cores[c].val)
    ensures run[i].cores[c].addr < |run[i].words|
    ensures OfferedOnce(run, run[i].cores[c].addr) ==> run[i].cores[c].val == run[i].words[run[i].cores[c].addr]
  {
    var a, val := run[i].cores[c].addr, run[i].cores[c].val;
    ReturnsOnlyWhenReady(run, i, c);
    RunComes(run, i);
    InstalledIsOffered(run, i, a);
    assert CoreComes(run, i, run[i].cores[c]);
    hide IsRun, OfferedAt;
    if OfferedOnce(run, a) {
      var word := run[i].words[a];
      var j: nat :| j < i && OfferedAt(run, j, a, val);
      var k: nat :| k < i && OfferedAt(run, k, a, word);
      assert j == k;
      OneObject(run, j, a, val, word);
    }
  }

  // ---------- nobody is stuck

  ghost predicate CanGo(s: State, c: nat) {
    exists s', act :: Step(s, s', c, act) && !act.Stale?
  }

  /** The core spins on a pending word whose installer will notify it. */
  ghost predicate IsRegistered(s: State, c: nat) {
    && c < |s.cores| && s.cores[c].Spinning? && s.cores[c].addr < |s.words|
    && IsPendingWord(s.words[s.cores[c].addr]) && c in Bitmap(s.words[s.cores[c].addr])
  }

  /** A core has a step of its own, unless it spins and its flag is not set; then the word is pending and
      it is registered there, or some other core is about to set the flag and has a step. */
  lemma EveryoneCanGo(run: seq<State>, i: nat, c: nat)
    requires IsRun(run) && i < |run| && c < |run[i].cores| && (run[i].cores[c] == Idle ==> run[i].words != [])
    ensures c < |run[i].done|
    ensures CanGo(run[i], c) <==> !(run[i].cores[c].Spinning? && !run[i].done[c])
    ensures !CanGo(run[i], c) ==>
              || IsRegistered(run[i], c)
              || (exists n: nat :: n < |run[i].cores| && run[i].cores[n].Notifying? && c in run[i].cores[n].left
                                   && CanGo(run[i], n))
  {
    RunInv(run, i);
    hide IsRun;
    OwnStep(run[i], c);
    assert CoreInv(run[i], c);
    if InBitmap(run[i], c) {
      var n: nat :| n < |run[i].cores| && run[i].cores[n].Notifying? && c in run[i].cores[n].left;
      OwnStep(run[i], n);
    }
  }

  lemma OwnStep(s: State, c: nat)
    requires Inv(s) && c < |s.cores| && (s.cores[c] == Idle ==> s.words != [])
    ensures CanGo(s, c) <==> !(s.cores[c].Spinning? && !s.done[c])
  {
    assert CoreInv(s, c);
    hide InBitmap, IsPendingWord;
    var me := s.cores[c];
    match me
    case Idle => assert Step(s, s.(cores := s.cores[c := AfterLoad(0, s.words[0])]), c, Wait(0));
    case Arrived(a, seen) =>
      if s.words[a] == seen {
        assert Step(s, s.(words := s.words[a := seen - {c}], cores := s.cores[c := Spinning(a)]), c, Register);
      } else {
        assert Step(s, s.(cores := s.cores[c := AfterLoad(a, s.words[a])]), c, Register);
      }
    case Spinning(a) => if s.done[c] { assert Step(s, s.(cores := s.cores[c := Clearing(a)]), c, Wake); }
    case Clearing(a) =>
      assert Step(s, s.(done := s.done[c := false], cores := s.cores[c := Rereading(a)]), c, Clear);
    case Rereading(a) => assert Step(s, s.(cores := s.cores[c := AfterLoad(a, s.words[a])]), c, Reread);
    case Returned(a, val) => assert Step(s, s.(cores := s.cores[c := Idle]), c, Leave);
    case Offering(a, obj, seen) =>
      if s.words[a] == seen {
        assert Step(s, s.(words := s.words[a := obj], cores := s.cores[c := Notifying(Bitmap(seen))]), c, Install);
      } else {
        assert Step(s, s.(cores := s.cores[c := Offering(a, obj, s.words[a])]), c, Install);
      }
    case Notifying(left) =>
      if left == {} {
        assert Step(s, s.(cores := s.cores[c := Idle]), c, EndNotify);
      } else {
        var idx := LowestExists(left);
        var s' := s.(done := s.done[idx := true], cores := s.cores[c := Notifying(ClearBit(left, idx))]);
        assert Step(s, s', c, NotifyOne(idx));
      }
  }
}
