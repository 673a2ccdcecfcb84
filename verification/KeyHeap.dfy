/** The array heap behind the piece scheduler: std::push_heap and std::pop_heap ordered by key. */
module KeyHeap {

  /** `ent` names the hash entry with the pieces of this key. */
  datatype HeapEntry = HeapEntry(key: nat, ent: nat)

  predicate EdgeOk(q: seq<HeapEntry>, k: nat)
    requires 0 < k < |q|
  {
    q[(k - 1) / 2].key <= q[k].key
  }

  predicate IsHeap(q: seq<HeapEntry>) {
    forall k :: 0 < k < |q| ==> EdgeOk(q, k)
  }

  /** Nothing in a heap is below its root. */
  lemma {:induction false} RootIsLeast(q: seq<HeapEntry>, i: nat)
    requires IsHeap(q) && i < |q|
    ensures q[0].key <= q[i].key
  {
    if i > 0 {
      assert EdgeOk(q, i);
      RootIsLeast(q, (i - 1) / 2);
    }
  }

  function Swapped(q: seq<HeapEntry>, i: nat, j: nat): (r: seq<HeapEntry>)
    requires i < |q| && j < |q|
    ensures |r| == |q| && multiset(r) == multiset(q)
  {
    q[i := q[j]][j := q[i]]
  }

  /** Entry `k` is not below the parent of `i`. */
  predicate PastOk(q: seq<HeapEntry>, i: nat, k: nat)
    requires i < |q| && k < |q|
  {
    i > 0 ==> q[(i - 1) / 2].key <= q[k].key
  }

  /** Only the edge above `i` may be out of order. */
  predicate UpOk(q: seq<HeapEntry>, i: nat) {
    && i < |q|
    && (forall k :: 0 < k < |q| && k != i ==> EdgeOk(q, k))
    && (2 * i + 1 < |q| ==> PastOk(q, i, 2 * i + 1))
    && (2 * i + 2 < |q| ==> PastOk(q, i, 2 * i + 2))
  }

  lemma UpStep(q: seq<HeapEntry>, i: nat)
    requires UpOk(q, i) && 0 < i && q[(i - 1) / 2].key > q[i].key
    ensures UpOk(Swapped(q, i, (i - 1) / 2), (i - 1) / 2)
  {
    var p := (i - 1) / 2;
    var r := Swapped(q, i, p);
    forall k | 0 < k < |r| && k != p ensures EdgeOk(r, k) {
      assert k != i ==> EdgeOk(q, k);
    }
    assert p > 0 ==> EdgeOk(q, p);
    forall k | 2 * p + 1 <= k <= 2 * p + 2 && k < |r| ensures PastOk(r, p, k) {
      assert k != i ==> EdgeOk(q, k);
    }
  }

  /** push_heap: the entry at the end moves up to its place. */
  method PushHeap(q: seq<HeapEntry>) returns (r: seq<HeapEntry>)
    requires q != [] && IsHeap(q[..|q| - 1])
    ensures IsHeap(r) && multiset(r) == multiset(q)
  {
    hide Swapped;
    r := q;
    var i := |q| - 1;
    forall k | 0 < k < |q| && k != i ensures EdgeOk(q, k) {
      assert EdgeOk(q[..i], k);
    }
    while i > 0 && r[(i - 1) / 2].key > r[i].key
      invariant 0 <= i < |r| && UpOk(r, i) && multiset(r) == multiset(q)
    {
      UpStep(r, i);
      r, i := Swapped(r, i, (i - 1) / 2), (i - 1) / 2;
    }
    assert i > 0 ==> EdgeOk(r, i);
  }

  /** Only the edges below `i` may be out of order. */
  predicate DownOk(q: seq<HeapEntry>, i: nat) {
    && i < |q|
    && (forall k :: 0 < k < |q| && k != 2 * i + 1 && k != 2 * i + 2 ==> EdgeOk(q, k))
    && (2 * i + 1 < |q| ==> PastOk(q, i, 2 * i + 1))
    && (2 * i + 2 < |q| ==> PastOk(q, i, 2 * i + 2))
  }

  lemma DownStep(q: seq<HeapEntry>, i: nat, c: nat)
    requires DownOk(q, i) && 2 * i + 1 <= c <= 2 * i + 2 && c < |q| && q[c].key < q[i].key
    requires 2 * i + 2 < |q| ==> q[c].key <= q[2 * i + 1].key && q[c].key <= q[2 * i + 2].key
    ensures DownOk(Swapped(q, i, c), c)
  {
    var r := Swapped(q, i, c);
    forall k | 0 < k < |r| && k != 2 * c + 1 && k != 2 * c + 2 ensures EdgeOk(r, k) {
      assert k != 2 * i + 1 && k != 2 * i + 2 ==> EdgeOk(q, k);
    }
    forall k | 2 * c + 1 <= k <= 2 * c + 2 && k < |r| ensures PastOk(r, c, k) {
      assert EdgeOk(q, k);
    }
  }

  /** pop_heap: the root leaves, the last entry takes its place and moves down. */
  method PopHeap(q: seq<HeapEntry>) returns (r: seq<HeapEntry>)
    requires q != [] && IsHeap(q)
    ensures IsHeap(r) && multiset(r) + multiset{q[0]} == multiset(q)
  {
    var n := |q| - 1;
    if n == 0 {
      assert q == [q[0]];
      return [];
    }
    r := q[..n][0 := q[n]];
    PopParts(q);
    r := MoveDown(r);
  }

  /** The root moves down to its place. */
  method MoveDown(q: seq<HeapEntry>) returns (r: seq<HeapEntry>)
    requires DownOk(q, 0)
    ensures IsHeap(r) && multiset(r) == multiset(q)
  {
    hide Swapped;
    r := q;
    var i := 0;
    while 2 * i + 1 < |r|
      invariant 0 <= i < |r| == |q| && DownOk(r, i) && multiset(r) == multiset(q)
      decreases |q| - i
    {
      var c := 2 * i + 1;
      if c + 1 < |r| && r[c + 1].key < r[c].key { c := c + 1; }
      if r[c].key >= r[i].key {
        assert EdgeOk(r, 2 * i + 1) && (2 * i + 2 < |r| ==> EdgeOk(r, 2 * i + 2));
        return;
      }
      DownStep(r, i, c);
      r, i := Swapped(r, i, c), c;
    }
  }

  lemma PopParts(q: seq<HeapEntry>)
    requires |q| > 1 && IsHeap(q)
    ensures var r := q[..|q| - 1][0 := q[|q| - 1]]; DownOk(r, 0) && multiset(r) + multiset{q[0]} == multiset(q)
  {
    var n := |q| - 1;
    var r := q[..n][0 := q[n]];
    assert q == [q[0]] + q[1..n] + [q[n]];
    assert r == [q[n]] + q[1..n];
    forall k | 0 < k < |r| && k != 1 && k != 2 ensures EdgeOk(r, k) {
      assert EdgeOk(q, k);
    }
  }
}
