/** Intrusive free lists through chunk memory, as the cross-core allocator of mem.h keeps them. */
module ChunkLists {

  /** Where a chunk is: handed out, in its home pool, on the list of chunks of core `home` freed by
      core `from`, or consolidated for reuse by `home`. */
  datatype Place = Used | Home(c: nat) | Freed(from: nat, home: nat) | Ready(home: nat, from: nat)

  /** One cell per list: pool head, free_lists[from][home] and heads[from] of core `home`. */
  datatype Cells<T> = Cells(pool: seq<T>, freed: seq<seq<T>>, ready: seq<seq<T>>)

  predicate InRange(p: Place, n: nat) {
    match p
    case Used => false
    case Home(c) => c < n
    case Freed(from, home) => from < n && home < n
    case Ready(home, from) => home < n && from < n
  }

  predicate CellsOk<T>(cells: Cells<T>, n: nat) {
    && |cells.pool| == |cells.freed| == |cells.ready| == n
    && (forall i :: 0 <= i < n ==> |cells.freed[i]| == n)
    && (forall i :: 0 <= i < n ==> |cells.ready[i]| == n)
  }

  function At<T>(cells: Cells<T>, n: nat, p: Place): T
    requires CellsOk(cells, n) && InRange(p, n)
  {
    match p
    case Home(c) => cells.pool[c]
    case Freed(from, home) => cells.freed[from][home]
    case Ready(home, from) => cells.ready[home][from]
  }

  function Put<T>(cells: Cells<T>, n: nat, p: Place, x: T): (r: Cells<T>)
    requires CellsOk(cells, n) && InRange(p, n)
    ensures CellsOk(r, n)
    ensures forall q :: InRange(q, n) ==> At(r, n, q) == if q == p then x else At(cells, n, q)
  {
    match p
    case Home(c) => cells.(pool := cells.pool[c := x])
    case Freed(from, home) => cells.(freed := cells.freed[from := cells.freed[from][home := x]])
    case Ready(home, from) => cells.(ready := cells.ready[home := cells.ready[home][from := x]])
  }

  /** Following `next` from `head` visits exactly `list`, each chunk once. */
  ghost predicate IsList(next: seq<nat>, head: nat, list: seq<nat>)
    decreases |list|
  {
    if list == [] then head == 0
    else head == list[0] && 0 < head < |next| && head !in list[1..] && IsList(next, next[head], list[1..])
  }

  /** A write outside the list leaves it as it is. */
  lemma {:induction false} ListFrame(next: seq<nat>, head: nat, list: seq<nat>, x: nat, to: nat)
    requires IsList(next, head, list) && x < |next| && x !in list
    ensures IsList(next[x := to], head, list)
    decreases |list|
  {
    if list != [] { ListFrame(next, next[head], list[1..], x, to); }
  }

  /** Linking the last chunk of one list to the head of another joins them. */
  lemma {:induction false} ListJoin(next: seq<nat>, head: nat, list: seq<nat>, head2: nat, list2: seq<nat>)
    requires list != [] && IsList(next, head, list) && IsList(next, head2, list2)
    requires forall x :: x in list ==> x !in list2
    ensures list[|list| - 1] < |next| && IsList(next[list[|list| - 1] := head2], head, list + list2)
    decreases |list|
  {
    var rest := list[1..];
    assert list == [head] + rest && 0 < head < |next| && head !in rest && IsList(next, next[head], rest);
    hide IsList;
    if rest == [] {
      ListFrame(next, head2, list2, head, head2);
      ListCons(next[head := head2], head, list2);
    } else {
      ListJoin(next, next[head], rest, head2, list2);
      var t := list[|list| - 1];
      assert rest[|rest| - 1] == t && t in rest;
      ListCons(next[t := head2], head, rest + list2);
      assert [head] + (rest + list2) == list + list2;
    }
  }

  lemma ListCons(next: seq<nat>, head: nat, tail: seq<nat>)
    requires 0 < head < |next| && head !in tail && IsList(next, next[head], tail)
    ensures IsList(next, head, [head] + tail)
  {
    assert ([head] + tail)[1..] == tail;
  }

  /** A list of place `p` holds exactly the chunks whose place is `p`. */
  ghost predicate HoldsAll(place: seq<Place>, list: seq<nat>, p: Place) {
    && (forall x :: x in list ==> x < |place| && place[x] == p)
    && (forall x :: 0 < x < |place| && place[x] == p ==> x in list)
  }

  ghost predicate ListOk(next: seq<nat>, heads: Cells<nat>, lists: Cells<seq<nat>>, place: seq<Place>, n: nat, p: Place)
    requires CellsOk(heads, n) && CellsOk(lists, n) && InRange(p, n)
  {
    IsList(next, At(heads, n, p), At(lists, n, p)) && HoldsAll(place, At(lists, n, p), p)
  }

  /** Every chunk is in use or on the one list of its place. */
  ghost predicate Consistent(n: nat, next: seq<nat>, heads: Cells<nat>, lists: Cells<seq<nat>>, place: seq<Place>) {
    && CellsOk(heads, n) && CellsOk(lists, n) && |place| == |next| > 0 && place[0] == Used
    && (forall p :: InRange(p, n) ==> ListOk(next, heads, lists, place, n, p))
    && (forall x :: 0 < x < |place| ==> place[x] == Used || InRange(place[x], n))
  }

  lemma AtList(n: nat, next: seq<nat>, heads: Cells<nat>, lists: Cells<seq<nat>>, place: seq<Place>, p: Place)
    requires Consistent(n, next, heads, lists, place) && InRange(p, n)
    ensures ListOk(next, heads, lists, place, n, p)
  {
    hide ListOk;
  }

  // ---------- taking the head of a list

  lemma PopHere(next: seq<nat>, list: seq<nat>, place: seq<Place>, p: Place)
    requires list != [] && IsList(next, list[0], list) && HoldsAll(place, list, p) && |place| == |next| && p != Used
    ensures IsList(next, next[list[0]], list[1..]) && HoldsAll(place[list[0] := Used], list[1..], p)
  {
    var x, rest := list[0], list[1..];
    assert list == [x] + rest && x !in rest;
    hide IsList;
    assert forall y :: y in list <==> y == x || y in rest;
  }

  lemma PopElsewhere(list: seq<nat>, place: seq<Place>, p: Place, x: nat, to: Place)
    requires HoldsAll(place, list, p) && x < |place| && place[x] != p && to != p
    ensures HoldsAll(place[x := to], list, p)
  {}

  lemma PopKeeps(n: nat, next: seq<nat>, heads: Cells<nat>, lists: Cells<seq<nat>>, place: seq<Place>, p: Place)
    requires Consistent(n, next, heads, lists, place) && InRange(p, n) && At(lists, n, p) != []
    ensures var list := At(lists, n, p);
            && 0 < list[0] < |next| && place[list[0]] == p
            && Consistent(n, next, Put(heads, n, p, next[list[0]]), Put(lists, n, p, list[1..]), place[list[0] := Used])
  {
    var list := At(lists, n, p);
    AtList(n, next, heads, lists, place, p);
    var x := list[0];
    assert x in list;
    PopHere(next, list, place, p);
    var heads', lists', place' := Put(heads, n, p, next[x]), Put(lists, n, p, list[1..]), place[x := Used];
    hide IsList, HoldsAll, At, Put;
    forall q | InRange(q, n) ensures ListOk(next, heads', lists', place', n, q) {
      AtList(n, next, heads, lists, place, q);
      if q != p { PopElsewhere(At(lists, n, q), place, q, x, Used); }
    }
  }

  // ---------- putting a chunk in front of a list

  lemma PushHere(next: seq<nat>, head: nat, list: seq<nat>, place: seq<Place>, p: Place, x: nat)
    requires IsList(next, head, list) && HoldsAll(place, list, p) && |place| == |next| && 0 < x < |next|
             && place[x] != p
    ensures IsList(next[x := head], x, [x] + list) && HoldsAll(place[x := p], [x] + list, p)
  {
    ListFrame(next, head, list, x, head);
    assert ([x] + list)[1..] == list;
  }

  lemma PushElsewhere(next: seq<nat>, head: nat, list: seq<nat>, place: seq<Place>, q: Place, x: nat, to: nat)
    requires IsList(next, head, list) && HoldsAll(place, list, q) && x < |next| == |place| && place[x] != q
    ensures IsList(next[x := to], head, list)
  {
    ListFrame(next, head, list, x, to);
  }

  lemma PushKeeps(n: nat, next: seq<nat>, heads: Cells<nat>, lists: Cells<seq<nat>>, place: seq<Place>, p: Place,
                  x: nat)
    requires Consistent(n, next, heads, lists, place) && InRange(p, n) && 0 < x < |next| && place[x] == Used
    ensures Consistent(n, next[x := At(heads, n, p)], Put(heads, n, p, x), Put(lists, n, p, [x] + At(lists, n, p)),
                       place[x := p])
  {
    var list, head := At(lists, n, p), At(heads, n, p);
    AtList(n, next, heads, lists, place, p);
    PushHere(next, head, list, place, p, x);
    var next', heads', lists', place' := next[x := head], Put(heads, n, p, x), Put(lists, n, p, [x] + list),
      place[x := p];
    hide IsList, HoldsAll, At, Put;
    forall q | InRange(q, n) ensures ListOk(next', heads', lists', place', n, q) {
      AtList(n, next, heads, lists, place, q);
      if q != p {
        PopElsewhere(At(lists, n, q), place, q, x, p);
        PushElsewhere(next, At(heads, n, q), At(lists, n, q), place, q, x, head);
      }
    }
  }

  // ---------- more memory

  lemma {:induction false} ListExtend(next: seq<nat>, more: seq<nat>, head: nat, list: seq<nat>)
    requires IsList(next, head, list)
    ensures IsList(next + more, head, list)
    decreases |list|
  {
    if list != [] { ListExtend(next, more, next[head], list[1..]); }
  }

  /** A new chunk that is in use. */
  lemma ExtendKeeps(n: nat, next: seq<nat>, heads: Cells<nat>, lists: Cells<seq<nat>>, place: seq<Place>)
    requires Consistent(n, next, heads, lists, place)
    ensures Consistent(n, next + [0], heads, lists, place + [Used])
  {
    forall p | InRange(p, n) ensures ListOk(next + [0], heads, lists, place + [Used], n, p) {
      AtList(n, next, heads, lists, place, p);
      ListExtend(next, [0], At(heads, n, p), At(lists, n, p));
      hide IsList;
    }
  }

  lemma NoChunks(n: nat, heads: Cells<nat>, lists: Cells<seq<nat>>)
    requires CellsOk(heads, n) && CellsOk(lists, n)
    requires forall p :: InRange(p, n) ==> At(heads, n, p) == 0 && At(lists, n, p) == []
    ensures Consistent(n, [0], heads, lists, [Used])
  {}

  // ---------- moving a whole list in front of another

  function Moved(place: seq<Place>, p: Place, q: Place): (r: seq<Place>)
    ensures |r| == |place|
  {
    seq(|place|, x requires 0 <= x < |place| => if place[x] == p then q else place[x])
  }

  lemma JoinHere(next: seq<nat>, head: nat, list: seq<nat>, head2: nat, list2: seq<nat>, place: seq<Place>, p: Place,
                 q: Place)
    requires IsList(next, head, list) && HoldsAll(place, list, p) && IsList(next, head2, list2)
             && HoldsAll(place, list2, q)
    requires list != [] && p != q && |place| == |next|
    ensures list[|list| - 1] < |next|
    ensures IsList(next[list[|list| - 1] := head2], head, list + list2)
    ensures HoldsAll(Moved(place, p, q), list + list2, q) && HoldsAll(Moved(place, p, q), [], p)
  {
    ListJoin(next, head, list, head2, list2);
    hide IsList;
  }

  lemma MovedElsewhere(list: seq<nat>, place: seq<Place>, r: Place, p: Place, q: Place)
    requires HoldsAll(place, list, r) && r != p && r != q
    ensures HoldsAll(Moved(place, p, q), list, r)
  {}

  lemma JoinKeeps(n: nat, next: seq<nat>, heads: Cells<nat>, lists: Cells<seq<nat>>, place: seq<Place>, p: Place,
                  q: Place)
    requires Consistent(n, next, heads, lists, place) && InRange(p, n) && InRange(q, n) && p != q
             && At(lists, n, p) != []
    ensures var list := At(lists, n, p);
            && list[|list| - 1] < |next|
            && Consistent(n, next[list[|list| - 1] := At(heads, n, q)], Put(Put(heads, n, q, At(heads, n, p)), n, p, 0),
                          Put(Put(lists, n, q, list + At(lists, n, q)), n, p, []), Moved(place, p, q))
  {
    var list, list2 := At(lists, n, p), At(lists, n, q);
    AtList(n, next, heads, lists, place, p);
    AtList(n, next, heads, lists, place, q);
    JoinHere(next, At(heads, n, p), list, At(heads, n, q), list2, place, p, q);
    var t := list[|list| - 1];
    assert t in list;
    var next' := next[t := At(heads, n, q)];
    var heads' := Put(Put(heads, n, q, At(heads, n, p)), n, p, 0);
    var lists' := Put(Put(lists, n, q, list + list2), n, p, []);
    var place' := Moved(place, p, q);
    assert IsList(next', 0, []);
    hide IsList, HoldsAll, At, Put;
    forall r | InRange(r, n) ensures ListOk(next', heads', lists', place', n, r) {
      AtList(n, next, heads, lists, place, r);
      if r != p && r != q {
        MovedElsewhere(At(lists, n, r), place, r, p, q);
        PushElsewhere(next, At(heads, n, r), At(lists, n, r), place, r, t, At(heads, n, q));
      }
    }
  }
}
