/** The per-core piece queue of routine_sched.cc: a ring of pending pieces, a hash table of lists by
    scheduling key and a heap of keys, which together act as one stable priority queue. */
module PieceQueue {
  import opened Basics
  import opened KeyHeap

  datatype Piece = Piece(id: nat, key: nat)

  /** A hash entry with the list of pieces of its key. */
  datatype Entry = Entry(key: nat, values: seq<Piece>)

  const BUCKETS: nat := 100001

  /** The 32-bit hash of a key, reduced to a bucket. */
  function Bucket(key: nat): (b: nat)
    ensures b < BUCKETS
  {
    key / 256 % TWO_32 % BUCKETS
  }

  // ---------- the stable priority queue

  /** The pieces of key `k` in order of arrival. */
  function OfKey(c: seq<Piece>, k: nat): (r: seq<Piece>)
    ensures forall i :: 0 <= i < |r| ==> r[i].key == k
  {
    if c == [] then [] else OfKey(c[..|c| - 1], k) + if c[|c| - 1].key == k then [c[|c| - 1]] else []
  }

  /** Position `i` is next: no key is smaller, and no earlier piece has the same key. */
  predicate IsFront(c: seq<Piece>, i: nat) {
    && i < |c|
    && (forall j :: 0 <= j < |c| ==> c[i].key <= c[j].key)
    && (forall j :: 0 <= j < i ==> c[j].key != c[i].key)
  }

  function Without(c: seq<Piece>, i: nat): (r: seq<Piece>)
    requires i < |c|
    ensures |r| == |c| - 1
  {
    c[..i] + c[i + 1..]
  }

  lemma FrontUnique(c: seq<Piece>, i: nat, j: nat)
    requires IsFront(c, i) && IsFront(c, j)
    ensures i == j
  {
    assert c[i].key <= c[j].key && c[j].key <= c[i].key;
  }

  /** The first piece of key `k` in arrival order is the head of the list of `k`. */
  lemma {:induction false} FirstOf(c: seq<Piece>, k: nat) returns (i: nat)
    requires OfKey(c, k) != []
    ensures i < |c| && c[i] == OfKey(c, k)[0] && forall j :: 0 <= j < i ==> c[j].key != k
  {
    var n := |c| - 1;
    if OfKey(c[..n], k) == [] {
      NoneOf(c[..n], k);
      i := n;
    } else {
      i := FirstOf(c[..n], k);
    }
  }

  lemma {:induction false} NoneOf(c: seq<Piece>, k: nat)
    ensures OfKey(c, k) == [] <==> forall j :: 0 <= j < |c| ==> c[j].key != k
  {
    if c != [] {
      var front := c[..|c| - 1];
      NoneOf(front, k);
      assert forall j :: 0 <= j < |front| ==> front[j] == c[j];
    }
  }

  /** Taking out the first piece of key `k` takes the head off its list and no other. */
  lemma {:induction false} WithoutFirst(c: seq<Piece>, i: nat, k: nat)
    requires i < |c| && forall j :: 0 <= j < i ==> c[j].key != c[i].key
    ensures k == c[i].key ==> OfKey(c, k) != [] && OfKey(c, k)[0] == c[i] && OfKey(Without(c, i), k) == OfKey(c, k)[1..]
    ensures k != c[i].key ==> OfKey(Without(c, i), k) == OfKey(c, k)
  {
    var n := |c| - 1;
    if i == n {
      assert Without(c, i) == c[..n];
      NoneOf(c[..n], c[n].key);
    } else {
      WithoutFirst(c[..n], i, k);
      assert Without(c, i)[..n - 1] == Without(c[..n], i);
    }
  }

  lemma OfKeySnoc(c: seq<Piece>, p: Piece, k: nat)
    ensures OfKey(c + [p], k) == OfKey(c, k) + if p.key == k then [p] else []
  {
    assert (c + [p])[..|c|] == c;
  }

  /** `out` is what taking the front again and again gives. */
  ghost predicate Drains(c: seq<Piece>, out: seq<Piece>)
    decreases |out|
  {
    if out == [] then c == []
    else exists i: nat :: IsFront(c, i) && out[0] == c[i] && Drains(Without(c, i), out[1..])
  }

  lemma {:induction false} OfKeyCons(x: Piece, c: seq<Piece>, k: nat)
    ensures OfKey([x] + c, k) == (if x.key == k then [x] else []) + OfKey(c, k)
  {
    if c == [] {
      assert [x] + c == [x] && [x][..0] == [];
    } else {
      var n := |c| - 1;
      OfKeyCons(x, c[..n], k);
      assert ([x] + c)[..|c|] == [x] + c[..n];
    }
  }

  /** Draining sorts by key and keeps the order of arrival within each key. */
  lemma {:induction false} DrainIsStableSort(c: seq<Piece>, out: seq<Piece>)
    requires Drains(c, out)
    ensures forall i, j :: 0 <= i < j < |out| ==> out[i].key <= out[j].key
    ensures forall k: nat :: OfKey(out, k) == OfKey(c, k)
    decreases |out|
  {
    hide OfKey, Without;
    if out != [] {
      var rest := out[1..];
      var i: nat :| i < |c| && IsFront(c, i) && out[0] == c[i] && Drains(Without(c, i), rest);
      DrainIsStableSort(Without(c, i), rest);
      forall k: nat ensures OfKey(out, k) == OfKey(c, k) {
        DrainKey(c, i, out, k);
      }
      forall j | 0 <= j < |rest| ensures out[0].key <= rest[j].key {
        FrontBelow(c, i, rest, j);
      }
    } else {
      assert c == out;
    }
  }

  lemma DrainKey(c: seq<Piece>, i: nat, out: seq<Piece>, k: nat)
    requires out != [] && IsFront(c, i) && out[0] == c[i] && OfKey(out[1..], k) == OfKey(Without(c, i), k)
    ensures OfKey(out, k) == OfKey(c, k)
  {
    hide OfKey, Without;
    assert out == [out[0]] + out[1..];
    OfKeyCons(out[0], out[1..], k);
    WithoutFirst(c, i, k);
  }

  lemma FrontBelow(c: seq<Piece>, i: nat, rest: seq<Piece>, j: nat)
    requires IsFront(c, i) && j < |rest| && OfKey(rest, rest[j].key) == OfKey(Without(c, i), rest[j].key)
    ensures c[i].key <= rest[j].key
  {
    hide OfKey, Without;
    var k := rest[j].key;
    NoneOf(rest, k);
    NoneOf(Without(c, i), k);
    var l: nat :| l < |Without(c, i)| && Without(c, i)[l].key == k;
    WithoutAt(c, i, l);
  }

  // ---------- hash table, heap and lists together

  /** A chain lists entries of its bucket with distinct keys, all in the heap. */
  ghost predicate ChainOk(heap: multiset<HeapEntry>, entries: seq<Entry>, chain: seq<nat>, b: nat) {
    && (forall id ::
          id in chain ==>
            id < |entries| && Bucket(entries[id].key) == b && HeapEntry(entries[id].key, id) in heap)
    && (forall i, j :: 0 <= i < j < |chain| ==> chain[i] != chain[j])
    && (forall id, jd :: id in chain && jd in chain && entries[id].key == entries[jd].key ==> id == jd)
  }

  /** What is in the heap is in the table, with a list that is not empty. */
  ghost predicate InHeapOk(heap: multiset<HeapEntry>, entries: seq<Entry>, ht: seq<seq<nat>>, e: HeapEntry)
    requires |ht| == BUCKETS
  {
    heap[e] == 1 && e.ent < |entries| && e.key == entries[e.ent].key && entries[e.ent].values != []
      && e.ent in ht[Bucket(e.key)]
  }

  /** Each key is in the heap at most once, exactly when its entry is in the table. */
  ghost predicate HeapTableOk(heap: multiset<HeapEntry>, entries: seq<Entry>, ht: seq<seq<nat>>) {
    && |ht| == BUCKETS
    && (forall b: nat :: b < |ht| ==> ChainOk(heap, entries, ht[b], b))
    && (forall e :: e in heap ==> InHeapOk(heap, entries, ht, e))
  }

  ghost predicate HasKey(heap: multiset<HeapEntry>, k: nat) {
    exists e :: e in heap && e.key == k
  }

  ghost predicate ListOk(entries: seq<Entry>, contents: seq<Piece>, e: HeapEntry) {
    e.ent < |entries| && OfKey(contents, e.key) == entries[e.ent].values
  }

  /** The lists hold the queue's contents. */
  ghost predicate ListsOk(heap: multiset<HeapEntry>, entries: seq<Entry>, contents: seq<Piece>) {
    && (forall e :: e in heap ==> ListOk(entries, contents, e))
    && (forall i :: 0 <= i < |contents| ==> HasKey(heap, contents[i].key))
  }

  ghost predicate Refines(heap: multiset<HeapEntry>, entries: seq<Entry>, ht: seq<seq<nat>>, contents: seq<Piece>) {
    HeapTableOk(heap, entries, ht) && ListsOk(heap, entries, contents)
  }

  /** Heap entries with the same key or the same hash entry are the same. */
  lemma KeyOnce(heap: multiset<HeapEntry>, entries: seq<Entry>, ht: seq<seq<nat>>, e: HeapEntry, f: HeapEntry)
    requires HeapTableOk(heap, entries, ht) && e in heap && f in heap && (e.key == f.key || e.ent == f.ent)
    ensures e == f
  {
    assert InHeapOk(heap, entries, ht, e) && InHeapOk(heap, entries, ht, f);
    assert ChainOk(heap, entries, ht[Bucket(e.key)], Bucket(e.key));
  }

  lemma AtHeap(heap: multiset<HeapEntry>, entries: seq<Entry>, ht: seq<seq<nat>>, contents: seq<Piece>, e: HeapEntry)
    requires Refines(heap, entries, ht, contents) && e in heap
    ensures |ht| == BUCKETS && InHeapOk(heap, entries, ht, e) && ListOk(entries, contents, e)
  {
    hide InHeapOk, ListOk, ChainOk;
  }

  lemma AtChain(heap: multiset<HeapEntry>, entries: seq<Entry>, ht: seq<seq<nat>>, contents: seq<Piece>, b: nat)
    requires Refines(heap, entries, ht, contents) && b < BUCKETS
    ensures |ht| == BUCKETS && ChainOk(heap, entries, ht[b], b)
  {
    hide InHeapOk, ListOk, ChainOk;
  }

  // a piece of a key already in the table joins the list of its entry

  lemma JoinList(heap: multiset<HeapEntry>, entries: seq<Entry>, ht: seq<seq<nat>>, contents: seq<Piece>, id: nat,
                 p: Piece)
    requires Refines(heap, entries, ht, contents) && id < |entries| && HeapEntry(p.key, id) in heap
    ensures Refines(heap, entries[id := Entry(p.key, entries[id].values + [p])], ht, contents + [p])
  {
    hide InHeapOk, ListOk, ChainOk, HasKey, Bucket;
    var values := entries[id].values + [p];
    forall b: nat | b < |ht| ensures ChainOk(heap, entries[id := Entry(p.key, values)], ht[b], b) {
      SetListChain(heap, entries, ht, contents, HeapEntry(p.key, id), values, b);
    }
    forall e | e in heap
      ensures InHeapOk(heap, entries[id := Entry(p.key, values)], ht, e)
              && ListOk(entries[id := Entry(p.key, values)], contents + [p], e)
    {
      SetListHeap(heap, entries, ht, contents, HeapEntry(p.key, id), values, e);
      JoinListAt(heap, entries, ht, contents, id, p, e);
    }
    KeyInHeap(heap, HeapEntry(p.key, id));
  }

  lemma KeyInHeap(heap: multiset<HeapEntry>, e: HeapEntry)
    requires e in heap
    ensures HasKey(heap, e.key)
  {}

  /** Giving the entry of `e0` a new list leaves the chains as they are. */
  lemma SetListChain(heap: multiset<HeapEntry>, entries: seq<Entry>, ht: seq<seq<nat>>, contents: seq<Piece>,
                     e0: HeapEntry, values: seq<Piece>, b: nat)
    requires Refines(heap, entries, ht, contents) && e0 in heap && e0.ent < |entries| && b < |ht|
    ensures ChainOk(heap, entries[e0.ent := Entry(e0.key, values)], ht[b], b)
  {
    AtHeap(heap, entries, ht, contents, e0);
    AtChain(heap, entries, ht, contents, b);
    hide HeapTableOk, ListsOk, Bucket;
  }

  lemma SetListHeap(heap: multiset<HeapEntry>, entries: seq<Entry>, ht: seq<seq<nat>>, contents: seq<Piece>,
                    e0: HeapEntry, values: seq<Piece>, e: HeapEntry)
    requires Refines(heap, entries, ht, contents) && e0 in heap && e0.ent < |entries| && values != [] && e in heap
    ensures |ht| == BUCKETS && InHeapOk(heap, entries[e0.ent := Entry(e0.key, values)], ht, e)
  {
    AtHeap(heap, entries, ht, contents, e0);
    AtHeap(heap, entries, ht, contents, e);
    hide HeapTableOk, ListsOk, Bucket;
  }

  lemma JoinListAt(heap: multiset<HeapEntry>, entries: seq<Entry>, ht: seq<seq<nat>>, contents: seq<Piece>, id: nat,
                   p: Piece, e: HeapEntry)
    requires Refines(heap, entries, ht, contents) && id < |entries| && HeapEntry(p.key, id) in heap && e in heap
    ensures ListOk(entries[id := Entry(p.key, entries[id].values + [p])], contents + [p], e)
  {
    var e0 := HeapEntry(p.key, id);
    if e.key == p.key || e.ent == id { KeyOnce(heap, entries, ht, e, e0); }
    AtHeap(heap, entries, ht, contents, e);
    OfKeySnoc(contents, p, e.key);
    hide HeapTableOk, ListsOk, OfKey, Bucket;
  }

  // a piece of a new key gets a new entry, in its chain and in the heap

  lemma NewList(heap: multiset<HeapEntry>, entries: seq<Entry>, ht: seq<seq<nat>>, contents: seq<Piece>, p: Piece)
    requires Refines(heap, entries, ht, contents)
    requires forall id :: id in ht[Bucket(p.key)] ==> id < |entries| && entries[id].key != p.key
    ensures Refines(heap + multiset{HeapEntry(p.key, |entries|)}, entries + [Entry(p.key, [p])],
                    ht[Bucket(p.key) := ht[Bucket(p.key)] + [|entries|]], contents + [p])
  {
    var b0 := Bucket(p.key);
    var e0 := HeapEntry(p.key, |entries|);
    var heap' := heap + multiset{e0};
    var entries' := entries + [Entry(p.key, [p])];
    var ht' := ht[b0 := ht[b0] + [|entries|]];
    hide InHeapOk, ListOk, ChainOk, HasKey, Bucket;
    forall b: nat | b < |ht'| ensures ChainOk(heap', entries', ht'[b], b) {
      AtChain(heap, entries, ht, contents, b);
      if b == b0 { ChainAdd(heap, entries, ht[b0], p); } else { ChainKeep(heap, entries, ht[b], b, p); }
    }
    forall e | e in heap' ensures InHeapOk(heap', entries', ht', e) && ListOk(entries', contents + [p], e) {
      if e != e0 {
        NewListOther(heap, entries, ht, contents, p, e);
      } else {
        NewListOwn(heap, entries, ht, contents, p);
      }
    }
    NewListKeys(heap, entries, contents, p, e0);
  }

  lemma NewListKeys(heap: multiset<HeapEntry>, entries: seq<Entry>, contents: seq<Piece>, p: Piece, e0: HeapEntry)
    requires ListsOk(heap, entries, contents) && e0.key == p.key
    ensures forall i :: 0 <= i < |contents + [p]| ==> HasKey(heap + multiset{e0}, (contents + [p])[i].key)
  {
    hide HasKey, ListOk;
    forall i | 0 <= i < |contents + [p]| ensures HasKey(heap + multiset{e0}, (contents + [p])[i].key) {
      if i < |contents| { HasKeyGrow(heap, e0, contents[i].key); } else { KeyInHeap(heap + multiset{e0}, e0); }
    }
  }

  lemma HasKeyGrow(heap: multiset<HeapEntry>, e0: HeapEntry, k: nat)
    requires HasKey(heap, k)
    ensures HasKey(heap + multiset{e0}, k)
  {
    var e :| e in heap && e.key == k;
    assert e in heap + multiset{e0};
  }

  lemma ChainKeep(heap: multiset<HeapEntry>, entries: seq<Entry>, chain: seq<nat>, b: nat, p: Piece)
    requires ChainOk(heap, entries, chain, b)
    ensures ChainOk(heap + multiset{HeapEntry(p.key, |entries|)}, entries + [Entry(p.key, [p])], chain, b)
  {
    hide Bucket;
  }

  lemma ChainAdd(heap: multiset<HeapEntry>, entries: seq<Entry>, chain: seq<nat>, p: Piece)
    requires ChainOk(heap, entries, chain, Bucket(p.key)) && forall id :: id in chain ==> entries[id].key != p.key
    ensures ChainOk(heap + multiset{HeapEntry(p.key, |entries|)}, entries + [Entry(p.key, [p])], chain + [|entries|],
                    Bucket(p.key))
  {
    hide Bucket;
    var entries' := entries + [Entry(p.key, [p])];
    assert forall id :: id in chain + [|entries|] ==> id == |entries| || (id in chain && entries'[id] == entries[id]);
    forall i | 0 <= i < |chain| ensures chain[i] < |entries| { assert chain[i] in chain; }
  }

  lemma NewListOther(heap: multiset<HeapEntry>, entries: seq<Entry>, ht: seq<seq<nat>>, contents: seq<Piece>,
                     p: Piece, e: HeapEntry)
    requires Refines(heap, entries, ht, contents) && e in heap
    requires forall id :: id in ht[Bucket(p.key)] ==> id < |entries| && entries[id].key != p.key
    ensures InHeapOk(heap + multiset{HeapEntry(p.key, |entries|)}, entries + [Entry(p.key, [p])],
                     ht[Bucket(p.key) := ht[Bucket(p.key)] + [|entries|]], e)
    ensures ListOk(entries + [Entry(p.key, [p])], contents + [p], e)
  {
    AtHeap(heap, entries, ht, contents, e);
    OfKeySnoc(contents, p, e.key);
    hide HeapTableOk, ListsOk, OfKey, Bucket;
  }

  lemma NewListOwn(heap: multiset<HeapEntry>, entries: seq<Entry>, ht: seq<seq<nat>>, contents: seq<Piece>, p: Piece)
    requires Refines(heap, entries, ht, contents)
    requires forall id :: id in ht[Bucket(p.key)] ==> id < |entries| && entries[id].key != p.key
    ensures var e0 := HeapEntry(p.key, |entries|);
            && InHeapOk(heap + multiset{e0}, entries + [Entry(p.key, [p])],
                        ht[Bucket(p.key) := ht[Bucket(p.key)] + [|entries|]], e0)
            && ListOk(entries + [Entry(p.key, [p])], contents + [p], e0)
  {
    var e0 := HeapEntry(p.key, |entries|);
    var chain := ht[Bucket(p.key)] + [|entries|];
    assert chain[|ht[Bucket(p.key)]|] == |entries|;
    forall e | e in heap ensures e.ent < |entries| { AtHeap(heap, entries, ht, contents, e); }
    NoSuchKey(heap, entries, ht, contents, p.key);
    OfKeySnoc(contents, p, p.key);
    NoneOf(contents, p.key);
  }

  lemma NoSuchKey(heap: multiset<HeapEntry>, entries: seq<Entry>, ht: seq<seq<nat>>, contents: seq<Piece>, k: nat)
    requires Refines(heap, entries, ht, contents) && forall id ::
                                                      id in ht[Bucket(k)] ==> id < |entries| && entries[id].key != k
    ensures forall i :: 0 <= i < |contents| ==> contents[i].key != k
  {
    forall i | 0 <= i < |contents| ensures contents[i].key != k {
      assert HasKey(heap, contents[i].key);
      var e :| e in heap && e.key == contents[i].key;
      AtHeap(heap, entries, ht, contents, e);
    }
  }

  // ---------- taking a piece

  /** The head of the list at the top of the heap is the front of the queue. */
  lemma TopIsFront(q: seq<HeapEntry>, entries: seq<Entry>, ht: seq<seq<nat>>, contents: seq<Piece>) returns (i: nat)
    requires IsHeap(q) && q != [] && Refines(multiset(q), entries, ht, contents)
    ensures q[0].ent < |entries| && entries[q[0].ent].values != []
    ensures IsFront(contents, i) && contents[i] == entries[q[0].ent].values[0] && contents[i].key == q[0].key
  {
    var e := q[0];
    assert e in multiset(q);
    AtHeap(multiset(q), entries, ht, contents, e);
    i := FirstOf(contents, e.key);
    forall j | 0 <= j < |contents| ensures e.key <= contents[j].key {
      assert HasKey(multiset(q), contents[j].key);
      var f :| f in multiset(q) && f.key == contents[j].key;
      var k :| 0 <= k < |q| && q[k] == f;
      RootIsLeast(q, k);
    }
  }

  /** Position `i` is the first of key `k`. */
  predicate FirstAt(contents: seq<Piece>, i: nat, k: nat) {
    i < |contents| && contents[i].key == k && forall j :: 0 <= j < i ==> contents[j].key != k
  }

  lemma WithoutAt(c: seq<Piece>, i: nat, j: nat)
    requires i < |c| && j < |c| - 1
    ensures Without(c, i)[j] == c[if j < i then j else j + 1]
  {}

  /** The list keeps more pieces: only its head goes. */
  lemma TakeHead(heap: multiset<HeapEntry>, entries: seq<Entry>, ht: seq<seq<nat>>, contents: seq<Piece>,
                 e: HeapEntry, i: nat)
    requires Refines(heap, entries, ht, contents) && e in heap && e.ent < |entries| && |entries[e.ent].values| > 1
    requires FirstAt(contents, i, e.key)
    ensures Refines(heap, entries[e.ent := Entry(e.key, entries[e.ent].values[1..])], ht, Without(contents, i))
  {
    hide InHeapOk, ListOk, ChainOk, HasKey, Bucket, Without;
    var values := entries[e.ent].values[1..];
    forall b: nat | b < |ht| ensures ChainOk(heap, entries[e.ent := Entry(e.key, values)], ht[b], b) {
      SetListChain(heap, entries, ht, contents, e, values, b);
    }
    forall f | f in heap
      ensures InHeapOk(heap, entries[e.ent := Entry(e.key, values)], ht, f)
              && ListOk(entries[e.ent := Entry(e.key, values)], Without(contents, i), f)
    {
      SetListHeap(heap, entries, ht, contents, e, values, f);
      TakeHeadAt(heap, entries, ht, contents, e, i, f);
    }
    forall j: nat | j < |contents| - 1 ensures HasKey(heap, Without(contents, i)[j].key) {
      WithoutAt(contents, i, j);
    }
  }

  lemma TakeHeadAt(heap: multiset<HeapEntry>, entries: seq<Entry>, ht: seq<seq<nat>>, contents: seq<Piece>,
                   e: HeapEntry, i: nat, f: HeapEntry)
    requires Refines(heap, entries, ht, contents) && e in heap && e.ent < |entries| && f in heap
             && |entries[e.ent].values| > 0
    requires FirstAt(contents, i, e.key)
    ensures ListOk(entries[e.ent := Entry(e.key, entries[e.ent].values[1..])], Without(contents, i), f)
  {
    if f.key == e.key || f.ent == e.ent { KeyOnce(heap, entries, ht, e, f); }
    AtHeap(heap, entries, ht, contents, f);
    WithoutFirst(contents, i, f.key);
    hide HeapTableOk, ListsOk, OfKey, Bucket, Without;
  }

  /** The list runs empty: its key leaves the heap and its entry the table. */
  lemma TakeLast(heap: multiset<HeapEntry>, entries: seq<Entry>, ht: seq<seq<nat>>, contents: seq<Piece>,
                 e: HeapEntry, i: nat, heap': multiset<HeapEntry>, at: nat)
    requires Refines(heap, entries, ht, contents) && e in heap && e.ent < |entries| && |entries[e.ent].values| == 1
    requires FirstAt(contents, i, e.key) && heap == heap' + multiset{e}
    requires at < |ht[Bucket(e.key)]| && ht[Bucket(e.key)][at] == e.ent
    ensures var b := Bucket(e.key);
            Refines(heap', entries[e.ent := Entry(e.key, entries[e.ent].values[1..])],
                    ht[b := ht[b][..at] + ht[b][at + 1..]], Without(contents, i))
  {
    var b0 := Bucket(e.key);
    var values := entries[e.ent].values[1..];
    var entries' := entries[e.ent := Entry(e.key, values)];
    var ht' := ht[b0 := ht[b0][..at] + ht[b0][at + 1..]];
    hide InHeapOk, ListOk, ChainOk, HasKey, Bucket, Without;
    forall b: nat | b < |ht'| ensures ChainOk(heap', entries', ht'[b], b) {
      TakeLastChain(heap, entries, ht, contents, e, heap', at, b);
    }
    forall f | f in heap' ensures InHeapOk(heap', entries', ht', f) && ListOk(entries', Without(contents, i), f) {
      assert f in heap;
      TakeHeadAt(heap, entries, ht, contents, e, i, f);
      TakeLastAt(heap, entries, ht, contents, e, heap', at, f);
    }
    forall j: nat | j < |contents| - 1 ensures HasKey(heap', Without(contents, i)[j].key) {
      WithoutAt(contents, i, j);
      TakeLastKey(heap, entries, ht, contents, e, i, heap', j);
    }
  }

  lemma OnlyOne(heap: multiset<HeapEntry>, entries: seq<Entry>, ht: seq<seq<nat>>, contents: seq<Piece>, e: HeapEntry,
                heap': multiset<HeapEntry>)
    requires Refines(heap, entries, ht, contents) && e in heap && heap == heap' + multiset{e}
    ensures e !in heap'
    ensures forall f :: f in heap' <==> f in heap && f != e
  {
    AtHeap(heap, entries, ht, contents, e);
    hide HeapTableOk, ListsOk;
    assert heap[e] == heap'[e] + 1;
    forall f | f != e ensures heap[f] == heap'[f] {}
  }

  lemma TakeLastChain(heap: multiset<HeapEntry>, entries: seq<Entry>, ht: seq<seq<nat>>, contents: seq<Piece>,
                      e: HeapEntry, heap': multiset<HeapEntry>, at: nat, b: nat)
    requires Refines(heap, entries, ht, contents) && e in heap && e.ent < |entries| && heap == heap' + multiset{e}
             && b < |ht|
    requires at < |ht[Bucket(e.key)]| && ht[Bucket(e.key)][at] == e.ent
    ensures var b0 := Bucket(e.key);
            ChainOk(heap', entries[e.ent := Entry(e.key, entries[e.ent].values[1..])],
                    ht[b0 := ht[b0][..at] + ht[b0][at + 1..]][b], b)
    requires |entries[e.ent].values| > 0
  {
    hide HeapTableOk, ListsOk, Bucket, ChainOk;
    OnlyOne(heap, entries, ht, contents, e, heap');
    AtHeap(heap, entries, ht, contents, e);
    AtChain(heap, entries, ht, contents, b);
    if b == Bucket(e.key) {
      ChainCut(heap, entries, ht[b], b, at, e, heap');
    } else {
      ChainElsewhere(heap, entries, ht[b], b, e, heap');
    }
  }

  lemma ChainElsewhere(heap: multiset<HeapEntry>, entries: seq<Entry>, chain: seq<nat>, b: nat, e: HeapEntry,
                       heap': multiset<HeapEntry>)
    requires ChainOk(heap, entries, chain, b) && e.ent < |entries| && entries[e.ent].key == e.key && Bucket(e.key) != b
    requires |entries[e.ent].values| > 0 && forall f :: f in heap' <==> f in heap && f != e
    ensures ChainOk(heap', entries[e.ent := Entry(e.key, entries[e.ent].values[1..])], chain, b)
  {
    hide Bucket;
    assert forall id :: id in chain ==> id != e.ent;
  }

  lemma ChainCut(heap: multiset<HeapEntry>, entries: seq<Entry>, chain: seq<nat>, b: nat, at: nat, e: HeapEntry,
                 heap': multiset<HeapEntry>)
    requires ChainOk(heap, entries, chain, b) && at < |chain| && chain[at] == e.ent < |entries|
             && entries[e.ent].key == e.key
    requires |entries[e.ent].values| > 0 && forall f :: f in heap' <==> f in heap && f != e
    ensures ChainOk(heap', entries[e.ent := Entry(e.key, entries[e.ent].values[1..])], chain[..at] + chain[at + 1..], b)
  {
    hide Bucket;
    var cut := chain[..at] + chain[at + 1..];
    forall i | 0 <= i < |cut| ensures cut[i] == chain[if i < at then i else i + 1] && cut[i] != e.ent {}
    assert forall id :: id in cut ==> id in chain && id != e.ent;
  }

  lemma TakeLastAt(heap: multiset<HeapEntry>, entries: seq<Entry>, ht: seq<seq<nat>>, contents: seq<Piece>,
                   e: HeapEntry, heap': multiset<HeapEntry>, at: nat, f: HeapEntry)
    requires Refines(heap, entries, ht, contents) && e in heap && e.ent < |entries| && heap == heap' + multiset{e}
             && f in heap'
    requires at < |ht[Bucket(e.key)]| && ht[Bucket(e.key)][at] == e.ent && |entries[e.ent].values| > 0
    ensures var b0 := Bucket(e.key);
            InHeapOk(heap', entries[e.ent := Entry(e.key, entries[e.ent].values[1..])],
                     ht[b0 := ht[b0][..at] + ht[b0][at + 1..]], f)
  {
    OnlyOne(heap, entries, ht, contents, e, heap');
    assert f in heap && f != e;
    assert f.ent != e.ent by { if f.ent == e.ent { KeyOnce(heap, entries, ht, e, f); } }
    AtHeap(heap, entries, ht, contents, f);
    hide HeapTableOk, ListsOk, Bucket;
    assert heap[f] == heap'[f];
    if Bucket(f.key) == Bucket(e.key) {
      var chain := ht[Bucket(e.key)];
      var k :| 0 <= k < |chain| && chain[k] == f.ent;
      assert (chain[..at] + chain[at + 1..])[if k < at then k else k - 1] == f.ent;
    }
  }

  lemma TakeLastKey(heap: multiset<HeapEntry>, entries: seq<Entry>, ht: seq<seq<nat>>, contents: seq<Piece>,
                    e: HeapEntry, i: nat, heap': multiset<HeapEntry>, j: nat)
    requires Refines(heap, entries, ht, contents) && e in heap && e.ent < |entries| && |entries[e.ent].values| == 1
    requires FirstAt(contents, i, e.key) && heap == heap' + multiset{e} && j < |contents| - 1
    ensures HasKey(heap', Without(contents, i)[j].key)
  {
    AtHeap(heap, entries, ht, contents, e);
    WithoutFirst(contents, i, e.key);
    NoneOf(Without(contents, i), e.key);
    WithoutAt(contents, i, j);
    OnlyOne(heap, entries, ht, contents, e, heap');
    var k := if j < i then j else j + 1;
    assert HasKey(heap, contents[k].key);
    var f :| f in heap && f.key == contents[k].key;
    assert f in heap';
  }

  // ---------- the ring of pending pieces

  function Slot(pos: nat, cap: nat): (r: nat)
    requires cap > 0
    ensures r < cap
  {
    pos % cap
  }

  /** `n` slots of the ring from absolute position `from`. */
  function RingView(ring: seq<Piece>, from: nat, n: nat): (r: seq<Piece>)
    requires |ring| > 0
    ensures |r| == n
  {
    seq(n, i requires 0 <= i < n => ring[Slot(from + i, |ring|)])
  }

  /** Positions less than a ring apart use different slots. */
  lemma SlotsDiffer(cap: nat, a: nat, b: nat)
    requires 0 < cap && a < b < a + cap
    ensures Slot(a, cap) != Slot(b, cap)
  {
    var k := b / cap - a / cap;
    assert b - a == cap * k + (b % cap - a % cap);
    if k >= 1 { MulAtLeast(cap, k); } else { MulAtMost(cap, k); }
  }

  lemma MulAtLeast(cap: nat, k: int)
    requires k >= 1
    ensures cap * k >= cap
  {}

  lemma MulAtMost(cap: nat, k: int)
    requires k <= 0
    ensures cap * k <= 0
  {}

  /** Writing the slot after a view leaves the view as it is, as long as the ring is not full. */
  lemma RingWrite(ring: seq<Piece>, from: nat, n: nat, p: Piece)
    requires n < |ring|
    ensures RingView(ring[Slot(from + n, |ring|) := p], from, n + 1) == RingView(ring, from, n) + [p]
  {
    hide Slot;
    var now, was := RingView(ring[Slot(from + n, |ring|) := p], from, n + 1), RingView(ring, from, n);
    forall i | 0 <= i < n ensures now[i] == was[i] {
      SlotsDiffer(|ring|, from + i, from + n);
    }
  }

  lemma RingSplit(ring: seq<Piece>, from: nat, m: nat, n: nat)
    requires |ring| > 0
    ensures RingView(ring, from, m + n) == RingView(ring, from, m) + RingView(ring, from + m, n)
  {
    hide Slot;
    var all, rest := RingView(ring, from, m + n), RingView(ring, from + m, n);
    forall i | 0 <= i < n ensures all[m + i] == rest[i] {
      assert from + (m + i) == from + m + i;
    }
  }

  // ---------- adding a batch

  function Keyed(rs: seq<Piece>): (r: seq<Piece>) {
    if rs == [] then [] else (if rs[0].key != 0 then [rs[0]] else []) + Keyed(rs[1..])
  }

  function Unkeyed(rs: seq<Piece>): (r: seq<Piece>) {
    if rs == [] then [] else (if rs[0].key == 0 then [rs[0]] else []) + Unkeyed(rs[1..])
  }

  /** Written but not yet published. */
  datatype Batch = Batch(zero: seq<Piece>, keyed: seq<Piece>)

  /** What Add publishes. `rooms` are the readings of the free room, the first and one more each time
      Add starts over on a full ring; then it forgets what it has written so far but not its place in
      the batch. Without a further reading it is still waiting. */
  function AddRun(rs: seq<Piece>, rooms: seq<nat>, b: Batch): Option<Batch>
    requires rooms != []
    decreases |rooms|, |rs|
  {
    if rs == [] then Some(b)
    else if rs[0].key == 0 then AddRun(rs[1..], rooms, b.(zero := b.zero + [rs[0]]))
    else if |b.keyed| < rooms[0] then AddRun(rs[1..], rooms, b.(keyed := b.keyed + [rs[0]]))
    else if |rooms| > 1 then AddRun(rs, rooms[1..], Batch([], []))
    else None
  }

  /** One round of the loop. */
  lemma AddRound(rs: seq<Piece>, rooms: seq<nat>, b: Batch)
    requires rs != [] && rooms != []
    ensures AddRun(rs, rooms, b) ==
              if rs[0].key == 0 then AddRun(rs[1..], rooms, b.(zero := b.zero + [rs[0]]))
              else if |b.keyed| < rooms[0] then AddRun(rs[1..], rooms, b.(keyed := b.keyed + [rs[0]]))
              else if |rooms| > 1 then AddRun(rs, rooms[1..], Batch([], []))
              else None
    ensures Keyed(rs) == (if rs[0].key != 0 then [rs[0]] else []) + Keyed(rs[1..])
    ensures Unkeyed(rs) == (if rs[0].key == 0 then [rs[0]] else []) + Unkeyed(rs[1..])
  {}

  lemma AddEnds(rooms: seq<nat>, b: Batch)
    requires rooms != []
    ensures AddRun([], rooms, b) == Some(b) && Keyed([]) == [] && Unkeyed([]) == []
  {}

  lemma {:induction false} AddRunFits(rs: seq<Piece>, rooms: seq<nat>, b: Batch)
    requires rooms != [] && (Keyed(rs) == [] || |b.keyed| + |Keyed(rs)| <= rooms[0])
    ensures AddRun(rs, rooms, b) == Some(Batch(b.zero + Unkeyed(rs), b.keyed + Keyed(rs)))
    decreases |rs|
  {
    hide AddRun, Keyed, Unkeyed;
    if rs == [] {
      AddEnds(rooms, b);
      assert b.zero + [] == b.zero && b.keyed + [] == b.keyed;
    } else {
      AddRound(rs, rooms, b);
      var unkeyed, keyed := Unkeyed(rs[1..]), Keyed(rs[1..]);
      if rs[0].key == 0 {
        AddRunFits(rs[1..], rooms, b.(zero := b.zero + [rs[0]]));
        assert b.zero + [rs[0]] + unkeyed == b.zero + Unkeyed(rs) && keyed == Keyed(rs);
      } else {
        AddRunFits(rs[1..], rooms, b.(keyed := b.keyed + [rs[0]]));
        assert b.keyed + [rs[0]] + keyed == b.keyed + Keyed(rs) && unkeyed == Unkeyed(rs);
      }
    }
  }

  function Size(b: Batch): nat {
    |b.zero| + |b.keyed|
  }

  /** A batch never grows; starting over loses what was written, if anything was. */
  lemma {:induction false} AddRunShrinks(rs: seq<Piece>, rooms: seq<nat>, b: Batch)
    requires rooms != []
    ensures AddRun(rs, rooms, b).Some? ==> Size(AddRun(rs, rooms, b).value) <= Size(b) + |rs|
    ensures AddRun(rs, rooms, b).Some? && Keyed(rs) != [] && |b.keyed| + |Keyed(rs)| > rooms[0]
            && (Size(b) > 0 || rs[0].key == 0 || rooms[0] > 0)
            ==> Size(AddRun(rs, rooms, b).value) < Size(b) + |rs|
    decreases |rooms|, |rs|
  {
    hide AddRun, Keyed, Unkeyed;
    if rs == [] {
      AddEnds(rooms, b);
    } else {
      AddRound(rs, rooms, b);
      if rs[0].key == 0 {
        AddRunShrinks(rs[1..], rooms, b.(zero := b.zero + [rs[0]]));
      } else if |b.keyed| < rooms[0] {
        AddRunShrinks(rs[1..], rooms, b.(keyed := b.keyed + [rs[0]]));
      } else if |rooms| > 1 {
        AddRunShrinks(rs, rooms[1..], Batch([], []));
      }
    }
  }

  lemma {:induction false} SplitSize(rs: seq<Piece>)
    ensures |Unkeyed(rs)| + |Keyed(rs)| == |rs|
  {
    if rs != [] { SplitSize(rs[1..]); }
  }

  /** The first reading that shows any room. */
  function FirstRoom(rooms: seq<nat>): (f: nat)
    ensures f <= |rooms| && (forall j :: 0 <= j < f ==> rooms[j] == 0) && (f < |rooms| ==> rooms[f] > 0)
  {
    if rooms == [] || rooms[0] > 0 then 0 else 1 + FirstRoom(rooms[1..])
  }

  /** The keyed pieces fit at the first reading that shows room, and nothing was written before it. */
  predicate Fits(rs: seq<Piece>, rooms: seq<nat>) {
    var f := FirstRoom(rooms);
    Keyed(rs) == [] || (f < |rooms| && |Keyed(rs)| <= rooms[f] && (f > 0 ==> rs[0].key != 0))
  }

  /** Add publishes the whole batch exactly when it fits. */
  lemma {:induction false} AddPublishesAll(rs: seq<Piece>, rooms: seq<nat>)
    requires rooms != []
    ensures AddRun(rs, rooms, Batch([], [])) == Some(Batch(Unkeyed(rs), Keyed(rs))) <==> Fits(rs, rooms)
    decreases |rooms|
  {
    SplitSize(rs);
    if Keyed(rs) == [] || |Keyed(rs)| <= rooms[0] {
      AddRunFits(rs, rooms, Batch([], []));
      assert [] + Unkeyed(rs) == Unkeyed(rs) && [] + Keyed(rs) == Keyed(rs);
    } else if rooms[0] > 0 || rs[0].key == 0 {
      AddRunShrinks(rs, rooms, Batch([], []));
    } else if |rooms| > 1 {
      AddPublishesAll(rs, rooms[1..]);
    }
  }

  /** With one free slot and two keyed pieces the first is overwritten by the second, although the
      consumer has made room by then. */
  lemma LostPieceExample()
    ensures AddRun([Piece(1, 5), Piece(2, 6)], [1, 2], Batch([], [])) == Some(Batch([], [Piece(2, 6)]))
  {
    var rs, last := [Piece(1, 5), Piece(2, 6)], [Piece(2, 6)];
    var rooms: seq<nat> := [1, 2];
    assert rs[1..] == last && last[1..] == [] && rooms[1..] == [2];
    hide AddRun, Keyed, Unkeyed;
    AddRound(rs, rooms, Batch([], []));
    assert [] + [Piece(1, 5)] == [Piece(1, 5)] && [] + last == last;
    AddRound(last, rooms, Batch([], [Piece(1, 5)]));
    AddRound(last, [2], Batch([], []));
    AddEnds([2], Batch([], last));
  }

  /** What Add reads when the consumer moves up to `moved[k]` pending pieces away before the reading
      after the k-th. */
  function Readings(room: nat, cap: nat, moved: seq<nat>): (rooms: seq<nat>)
    requires room <= cap
    ensures rooms != [] && rooms[0] == room
    decreases |moved|
  {
    if moved == [] then [room]
    else [room] + Readings(if room + moved[0] < cap then room + moved[0] else cap, cap, moved[1..])
  }

  /** Any readings that never go down and stay within the ring can come about. */
  lemma {:induction false} AnyReadings(rooms: seq<nat>, cap: nat) returns (moved: seq<nat>)
    requires rooms != [] && forall k :: 0 <= k < |rooms| ==> rooms[k] <= cap
    requires forall k :: 0 <= k < |rooms| - 1 ==> rooms[k] <= rooms[k + 1]
    ensures Readings(rooms[0], cap, moved) == rooms
    decreases |rooms|
  {
    if |rooms| == 1 {
      moved := [];
    } else {
      var rest := AnyReadings(rooms[1..], cap);
      moved := [rooms[1] - rooms[0]] + rest;
      assert moved[1..] == rest && rooms == [rooms[0]] + rooms[1..];
    }
  }
}
