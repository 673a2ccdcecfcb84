/** The wire format of piece trees in piece.cc: a 64-byte node, its captured bytes padded to 16, an
    8-byte child count, then the children. */
module PieceCodec {
  import opened Basics

  type byte = x: int | 0 <= x < 256

  /** The scalar fields of a PieceRoutine. The two pointers are raw words of the sender. */
  datatype Node = Node(dataPtr: nat, level: byte, nodeId: byte, gap: seq<byte>, schedKey: nat, affinity: nat,
                       callback: nat, nextPtr: nat, fvSignals: byte, futureSource: byte, padding: seq<byte>)

  datatype Tree = Tree(node: Node, capture: seq<byte>, children: seq<Tree>)

  const TWO_64: nat := 0x1_0000_0000_0000_0000

  predicate FitsNode(n: Node) {
    && n.dataPtr < TWO_64 && n.schedKey < TWO_64 && n.affinity < TWO_64 && n.callback < TWO_64 && n.nextPtr < TWO_64
    && |n.gap| == 2 && |n.padding| == 14
  }

  /** Every field is within its machine type. */
  predicate Fits(t: Tree) {
    && FitsNode(t.node) && |t.capture| < TWO_32 && |t.children| < TWO_64
    && forall i :: 0 <= i < |t.children| ==> Fits(t.children[i])
  }

  // ---------- little-endian words

  function ToBytes(x: nat, n: nat): (r: seq<byte>)
    ensures |r| == n
  {
    if n == 0 then [] else [x % 256] + ToBytes(x / 256, n - 1)
  }

  function FromBytes(b: seq<byte>): nat {
    if b == [] then 0 else b[0] + 256 * FromBytes(b[1..])
  }

  function Pow256(n: nat): nat {
    if n == 0 then 1 else 256 * Pow256(n - 1)
  }

  lemma {:induction false} WordRoundTrip(x: nat, n: nat)
    requires x < Pow256(n)
    ensures FromBytes(ToBytes(x, n)) == x
  {
    if n > 0 {
      WordRoundTrip(x / 256, n - 1);
      assert ToBytes(x, n)[1..] == ToBytes(x / 256, n - 1);
    }
  }

  lemma Pow256Values()
    ensures Pow256(4) == TWO_32 && Pow256(8) == TWO_64
  {
    assert Pow256(1) == 256 && Pow256(2) == 65536 && Pow256(3) == 16777216;
    assert Pow256(5) == 256 * Pow256(4) && Pow256(6) == 256 * Pow256(5) && Pow256(7) == 256 * Pow256(6);
  }

  // ---------- sizes

  /** util::Align with its default of 16, on 64-bit words: 0 - 1 wraps around, and so does the
      product. */
  function Align(x: nat): (r: nat)
    requires x < TWO_64
  {
    16 * ((x + TWO_64 - 1) % TWO_64 / 16 + 1) % TWO_64
  }

  lemma AlignRoundsUp(x: nat)
    requires x <= TWO_64 - 16
    ensures x <= Align(x) < x + 16 && Align(x) % 16 == 0
  {
    if x > 0 {
      assert (x + TWO_64 - 1) % TWO_64 == x - 1;
    }
  }

  function NodeSize(t: Tree): (r: nat)
    requires Fits(t)
  {
    64 + Align(|t.capture|) + 8 + SizeOf(t.children)
  }

  function SizeOf(ts: seq<Tree>): nat
    requires forall i :: 0 <= i < |ts| ==> Fits(ts[i])
  {
    if ts == [] then 0 else NodeSize(ts[0]) + SizeOf(ts[1..])
  }

  /** A node takes a multiple of eight bytes. */
  lemma {:induction false} NodeSizeAligned(t: Tree)
    requires Fits(t)
    ensures NodeSize(t) % 8 == 0 && NodeSize(t) >= 72
    decreases t, 0
  {
    AlignRoundsUp(|t.capture|);
    SizeOfAligned(t.children);
  }

  lemma {:induction false} SizeOfAligned(ts: seq<Tree>)
    requires forall i :: 0 <= i < |ts| ==> Fits(ts[i])
    ensures SizeOf(ts) % 8 == 0
    decreases ts, 1
  {
    if ts != [] {
      NodeSizeAligned(ts[0]);
      SizeOfAligned(ts[1..]);
    }
  }

  // ---------- the format

  /** The 64 bytes of the struct. */
  function NodeBytes(n: Node, captureLen: nat): (r: seq<byte>)
    requires FitsNode(n)
    ensures |r| == 64
  {
    ToBytes(n.dataPtr, 8) + ToBytes(captureLen, 4) + [n.level, n.nodeId] + n.gap + ToBytes(n.schedKey, 8)
    + ToBytes(n.affinity, 8) + ToBytes(n.callback, 8) + ToBytes(n.nextPtr, 8) + [n.fvSignals, n.futureSource]
      + n.padding
  }

  /** `b` is an encoding of `t`; the bytes between the capture and its padded end may be anything. */
  ghost predicate Encodes(b: seq<byte>, t: Tree)
    requires Fits(t)
    decreases t, 0
  {
    var off := 64 + Align(|t.capture|);
    && |b| == NodeSize(t) && |t.capture| <= Align(|t.capture|)
    && b[..64] == NodeBytes(t.node, |t.capture|)
    && b[64..64 + |t.capture|] == t.capture
    && b[off..off + 8] == ToBytes(|t.children|, 8)
    && EncodesAll(b[off + 8..], t.children)
  }

  ghost predicate EncodesAll(b: seq<byte>, ts: seq<Tree>)
    requires forall i :: 0 <= i < |ts| ==> Fits(ts[i])
    decreases ts, 1
  {
    if ts == [] then b == []
    else NodeSize(ts[0]) <= |b| && Encodes(b[..NodeSize(ts[0])], ts[0]) && EncodesAll(b[NodeSize(ts[0])..], ts[1..])
  }

  // ---------- decoding

  datatype Decoded = Decoded(tree: Tree, used: nat)
  datatype DecodedAll = DecodedAll(trees: seq<Tree>, used: nat)

  /** The struct read back; the receiver's own pointers are not part of the value. */
  function ReadNode(b: seq<byte>): (n: Node)
    requires |b| == 64
  {
    Node(0, b[12], b[13], b[14..16], FromBytes(b[16..24]), FromBytes(b[24..32]), FromBytes(b[32..40]), 0, b[48],
         b[49], b[50..])
  }

  /** The packet is long enough for a node with its captured bytes and child count. */
  predicate HasNode(b: seq<byte>, captureLen: nat) {
    captureLen < TWO_32 && captureLen <= Align(captureLen) && |b| >= 64 + Align(captureLen) + 8
  }

  /** DecodeNode; None where it would read past the end of the packet. */
  function DecodeNode(b: seq<byte>): (r: Option<Decoded>)
    decreases |b|, 0
  {
    if |b| < 64 || !HasNode(b, FromBytes(b[8..12])) then None else
    var captureLen := FromBytes(b[8..12]);
    var off := 64 + Align(captureLen);
    match DecodeChildren(b[off + 8..], FromBytes(b[off..off + 8]))
    case None => None
    case Some(d) => Some(Decoded(Tree(ReadNode(b[..64]), b[64..64 + captureLen], d.trees), off + 8 + d.used))
  }

  function DecodeChildren(b: seq<byte>, count: nat): (r: Option<DecodedAll>)
    ensures r.Some? ==> r.value.used <= |b| && |r.value.trees| == count
    decreases |b|, 1, count
  {
    if count == 0 then Some(DecodedAll([], 0)) else
    match DecodeNode(b)
    case None => None
    case Some(first) =>
      if first.used > |b| then None else
      match DecodeChildren(b[first.used..], count - 1)
      case None => None
      case Some(rest) => Some(DecodedAll([first.tree] + rest.trees, first.used + rest.used))
  }

  /** The tree without the sender's pointers. */
  function Strip(t: Tree): (r: Tree) {
    Tree(t.node.(dataPtr := 0, nextPtr := 0), t.capture, StripAll(t.children))
  }

  function StripAll(ts: seq<Tree>): (r: seq<Tree>)
    ensures |r| == |ts|
  {
    if ts == [] then [] else [Strip(ts[0])] + StripAll(ts[1..])
  }

  lemma NodeRoundTrip(n: Node, captureLen: nat)
    requires FitsNode(n) && captureLen < TWO_32
    ensures ReadNode(NodeBytes(n, captureLen)) == n.(dataPtr := 0, nextPtr := 0)
    ensures FromBytes(NodeBytes(n, captureLen)[8..12]) == captureLen
  {
    var b := NodeBytes(n, captureLen);
    Pow256Values();
    WordRoundTrip(captureLen, 4);
    WordRoundTrip(n.schedKey, 8);
    WordRoundTrip(n.affinity, 8);
    WordRoundTrip(n.callback, 8);
    hide ToBytes, FromBytes, Pow256;
    assert b[8..12] == ToBytes(captureLen, 4);
    assert b[14..16] == n.gap && b[50..] == n.padding;
    assert b[16..24] == ToBytes(n.schedKey, 8) && b[24..32] == ToBytes(n.affinity, 8)
      && b[32..40] == ToBytes(n.callback, 8);
  }

  /** One node read from the front of `c`. */
  lemma DecodeOne(c: seq<byte>, captureLen: nat, d: DecodedAll)
    requires |c| >= 64 && FromBytes(c[8..12]) == captureLen && HasNode(c, captureLen)
    requires var off := 64 + Align(captureLen); DecodeChildren(c[off + 8..], FromBytes(c[off..off + 8])) == Some(d)
    ensures DecodeNode(c) == Some(Decoded(Tree(ReadNode(c[..64]), c[64..64 + captureLen], d.trees),
                                          64 + Align(captureLen) + 8 + d.used))
  {
    hide FromBytes, Align, ReadNode, DecodeChildren;
  }

  lemma DecodeNext(c: seq<byte>, count: nat, first: Decoded, rest: DecodedAll)
    requires count > 0 && DecodeNode(c) == Some(first) && first.used <= |c|
             && DecodeChildren(c[first.used..], count - 1) == Some(rest)
    ensures DecodeChildren(c, count) == Some(DecodedAll([first.tree] + rest.trees, first.used + rest.used))
  {
    hide DecodeNode;
  }

  /** The pieces of an encoding, also when more bytes follow. */
  lemma EncodedParts(b: seq<byte>, t: Tree, more: seq<byte>)
    requires Fits(t) && Encodes(b, t)
    ensures var c, off := b + more, 64 + Align(|t.capture|);
            && |t.capture| <= Align(|t.capture|) && |c| >= off + 8 && |b| >= off + 8
            && c[..64] == NodeBytes(t.node, |t.capture|) && c[8..12] == NodeBytes(t.node, |t.capture|)[8..12]
            && c[64..64 + |t.capture|] == t.capture && c[off..off + 8] == ToBytes(|t.children|, 8)
            && c[off + 8..] == b[off + 8..] + more && EncodesAll(b[off + 8..], t.children)
  {
    hide NodeBytes, ToBytes, Align, EncodesAll;
    var c, off := b + more, 64 + Align(|t.capture|);
    assert c[..64] == b[..64] && c[8..12] == b[..64][8..12];
    assert c[64..64 + |t.capture|] == b[64..64 + |t.capture|];
    assert c[off..off + 8] == b[off..off + 8];
    assert c[off + 8..] == b[off + 8..] + more;
  }

  /** Decoding an encoded tree consumes exactly its bytes and gives back the tree. */
  lemma {:induction false} RoundTrip(b: seq<byte>, t: Tree, more: seq<byte>)
    requires Fits(t) && Encodes(b, t)
    ensures DecodeNode(b + more) == Some(Decoded(Strip(t), NodeSize(t)))
    decreases t, 0
  {
    hide NodeBytes, ReadNode, ToBytes, FromBytes, Align, EncodesAll, DecodeNode, DecodeChildren, Encodes, Pow256,
      SizeOf;
    var c := b + more;
    var off := 64 + Align(|t.capture|);
    EncodedParts(b, t, more);
    NodeRoundTrip(t.node, |t.capture|);
    Pow256Values();
    WordRoundTrip(|t.children|, 8);
    RoundTripAll(b[off + 8..], t.children, more);
    DecodeOne(c, |t.capture|, DecodedAll(StripAll(t.children), SizeOf(t.children)));
  }

  lemma {:induction false} RoundTripAll(b: seq<byte>, ts: seq<Tree>, more: seq<byte>)
    requires (forall i :: 0 <= i < |ts| ==> Fits(ts[i])) && EncodesAll(b, ts)
    ensures DecodeChildren(b + more, |ts|) == Some(DecodedAll(StripAll(ts), SizeOf(ts)))
    decreases ts, 1
  {
    hide DecodeNode, DecodeChildren, Encodes, EncodesAll, NodeSize, SizeOf, Strip, StripAll, Fits;
    if ts != [] {
      EncodedFirst(b, ts);
      var k := NodeSize(ts[0]);
      var b1, b2 := b[..k], b[k..];
      assert b + more == b1 + (b2 + more);
      RoundTrip(b1, ts[0], b2 + more);
      RoundTripAll(b2, ts[1..], more);
      assert (b + more)[k..] == b2 + more;
      DecodeNext(b + more, |ts|, Decoded(Strip(ts[0]), k), DecodedAll(StripAll(ts[1..]), SizeOf(ts[1..])));
    } else {
      NoneEncoded(b, more);
    }
  }

  lemma EncodedFirst(b: seq<byte>, ts: seq<Tree>)
    requires ts != [] && (forall i :: 0 <= i < |ts| ==> Fits(ts[i])) && EncodesAll(b, ts)
    ensures NodeSize(ts[0]) <= |b| && Encodes(b[..NodeSize(ts[0])], ts[0]) && EncodesAll(b[NodeSize(ts[0])..], ts[1..])
    ensures SizeOf(ts) == NodeSize(ts[0]) + SizeOf(ts[1..]) && StripAll(ts) == [Strip(ts[0])] + StripAll(ts[1..])
  {
    hide Encodes, NodeSize, Strip, Fits;
  }

  lemma NoneEncoded(b: seq<byte>, more: seq<byte>)
    requires EncodesAll(b, [])
    ensures DecodeChildren(b + more, 0) == Some(DecodedAll(StripAll([]), SizeOf([])))
  {}

  // ---------- encoding

  /** The buffer has `src` at `p`. */
  predicate Has(buf: seq<byte>, p: nat, src: seq<byte>) {
    p + |src| <= |buf| && buf[p..p + |src|] == src
  }

  lemma HasFrame(buf: seq<byte>, buf': seq<byte>, p: nat, src: seq<byte>, lo: nat)
    requires Has(buf, p, src) && p + |src| <= lo <= |buf| == |buf'| && buf'[..lo] == buf[..lo]
    ensures Has(buf', p, src)
  {
    assert buf'[p..p + |src|] == buf'[..lo][p..p + |src|] == buf[..lo][p..p + |src|] == buf[p..p + |src|];
  }

  /** Nothing outside p..q has changed. */
  predicate Kept(was: seq<byte>, now: seq<byte>, p: nat, q: nat) {
    p <= q <= |was| == |now| && now[..p] == was[..p] && now[q..] == was[q..]
  }

  lemma KeptBoth(b0: seq<byte>, b1: seq<byte>, b2: seq<byte>, p: nat, m: nat, q: nat)
    requires Kept(b0, b1, p, m) && Kept(b1, b2, m, q)
    ensures Kept(b0, b2, p, q)
  {
    assert b2[..p] == b2[..m][..p] == b1[..m][..p];
    assert b1[q..] == b1[m..][q - m..] == b0[m..][q - m..];
  }

  lemma KeptWider(b0: seq<byte>, b1: seq<byte>, p: nat, q: nat, r: nat)
    requires Kept(b0, b1, p, q) && q <= r <= |b0|
    ensures Kept(b0, b1, p, r)
  {
    assert b1[r..] == b1[q..][r - q..] == b0[q..][r - q..];
  }

  lemma HasKept(b0: seq<byte>, b1: seq<byte>, p: nat, src: seq<byte>, m: nat, q: nat)
    requires Has(b0, p, src) && Kept(b0, b1, m, q) && p + |src| <= m
    ensures Has(b1, p, src)
  {
    HasFrame(b0, b1, p, src, m);
  }

  /** Copy `src` into the buffer at `p`. */
  method Copy(buf: array<byte>, p: nat, src: seq<byte>)
    requires p + |src| <= buf.Length
    modifies buf
    ensures Has(buf[..], p, src) && Kept(old(buf[..]), buf[..], p, p + |src|)
  {
    var i := 0;
    while i < |src|
      invariant 0 <= i <= |src|
      invariant buf[p..p + i] == src[..i] && buf[..p] == old(buf[..p])
      invariant forall k :: p + i <= k < buf.Length ==> buf[k] == old(buf[k])
    {
      buf[p + i] := src[i];
      i := i + 1;
    }
  }

  /** The fixed part of a node: struct, captured bytes and child count. */
  method EncodeHead(buf: array<byte>, p: nat, t: Tree) returns (off: nat)
    requires FitsNode(t.node) && |t.capture| < TWO_32 && |t.capture| <= Align(|t.capture|)
             && p + 64 + Align(|t.capture|) + 8 <= buf.Length
    modifies buf
    ensures off == p + 64 + Align(|t.capture|)
    ensures Has(buf[..], p, NodeBytes(t.node, |t.capture|)) && Has(buf[..], p + 64, t.capture)
            && Has(buf[..], off, ToBytes(|t.children|, 8))
    ensures Kept(old(buf[..]), buf[..], p, off + 8)
  {
    hide NodeBytes, ToBytes, Align, Has, Kept;
    var bytes := NodeBytes(t.node, |t.capture|);
    off := p + 64 + Align(|t.capture|);
    ghost var b0 := buf[..];
    Copy(buf, p, bytes);
    ghost var b1 := buf[..];
    Copy(buf, p + 64, t.capture);
    ghost var b2 := buf[..];
    Copy(buf, off, ToBytes(|t.children|, 8));
    HeadParts(b0, b1, b2, buf[..], p, off, bytes, t.capture);
  }

  lemma HeadParts(b0: seq<byte>, b1: seq<byte>, b2: seq<byte>, b3: seq<byte>, p: nat, off: nat, bytes: seq<byte>,
                  capture: seq<byte>)
    requires |bytes| == 64 && p + 64 + |capture| <= off && off + 8 <= |b0|
    requires Kept(b0, b1, p, p + 64) && Kept(b1, b2, p + 64, p + 64 + |capture|) && Kept(b2, b3, off, off + 8)
    requires Has(b1, p, bytes) && Has(b2, p + 64, capture)
    ensures Has(b3, p, bytes) && Has(b3, p + 64, capture) && Kept(b0, b3, p, off + 8)
  {
    hide Has;
    assert |b1| == |b0| && |b2| == |b0|;
    hide Kept;
    HasKept(b1, b2, p, bytes, p + 64, p + 64 + |capture|);
    HasKept(b2, b3, p, bytes, off, off + 8);
    HasKept(b2, b3, p + 64, capture, off, off + 8);
    KeptBoth(b0, b1, b2, p, p + 64, p + 64 + |capture|);
    KeptWider(b0, b2, p, p + 64 + |capture|, off);
    KeptBoth(b0, b2, b3, p, off, off + 8);
  }

  /** Bytes p..q of the buffer are an encoding of the tree. */
  ghost predicate EncodedAt(b: seq<byte>, p: nat, q: nat, t: Tree)
    requires Fits(t)
  {
    p <= q <= |b| && Encodes(b[p..q], t)
  }

  ghost predicate AllEncodedAt(b: seq<byte>, p: nat, q: nat, ts: seq<Tree>)
    requires forall i :: 0 <= i < |ts| ==> Fits(ts[i])
  {
    p <= q <= |b| && EncodesAll(b[p..q], ts)
  }

  /** EncodeNode: writes from `p` on and returns where it ends, exactly NodeSize bytes later. */
  method EncodeNode(buf: array<byte>, p: nat, t: Tree) returns (q: nat)
    requires Fits(t) && p + NodeSize(t) <= buf.Length
    modifies buf
    ensures q == p + NodeSize(t) && Kept(old(buf[..]), buf[..], p, q) && EncodedAt(buf[..], p, q, t)
    decreases t, 0
  {
    hide NodeBytes, ToBytes, Align, EncodedAt, AllEncodedAt, SizeOf, NodeSize, Has, Kept, FitsNode, Fits;
    TreeParts(t);
    ghost var b0 := buf[..];
    var off := EncodeHead(buf, p, t);
    ghost var b1 := buf[..];
    q := EncodeChildren(buf, off + 8, t.children);
    ghost var b2 := buf[..];
    NodeDone(b1, b2, p, off, q, t);
    KeptBoth(b0, b1, b2, p, off + 8, q);
  }

  lemma TreeParts(t: Tree)
    requires Fits(t)
    ensures FitsNode(t.node) && |t.capture| < TWO_32 && forall i :: 0 <= i < |t.children| ==> Fits(t.children[i])
    ensures NodeSize(t) == 64 + Align(|t.capture|) + 8 + SizeOf(t.children) && |t.capture| <= Align(|t.capture|)
  {
    AlignRoundsUp(|t.capture|);
  }

  lemma NodeDone(b1: seq<byte>, b2: seq<byte>, p: nat, off: nat, q: nat, t: Tree)
    requires Fits(t) && off == p + 64 + Align(|t.capture|) && q == p + NodeSize(t) <= |b2|
             && |t.capture| <= Align(|t.capture|)
    requires Has(b1, p, NodeBytes(t.node, |t.capture|)) && Has(b1, p + 64, t.capture)
             && Has(b1, off, ToBytes(|t.children|, 8))
    requires Kept(b1, b2, off + 8, q) && AllEncodedAt(b2, off + 8, q, t.children)
    ensures EncodedAt(b2, p, q, t)
  {
    hide NodeBytes, ToBytes, Align, EncodesAll, Encodes, SizeOf, Has, Kept;
    HasKept(b1, b2, p, NodeBytes(t.node, |t.capture|), off + 8, q);
    HasKept(b1, b2, p + 64, t.capture, off + 8, q);
    HasKept(b1, b2, off, ToBytes(|t.children|, 8), off + 8, q);
    NodeWritten(b2, p, off, q, t);
  }

  /** The loop over the children. */
  method EncodeChildren(buf: array<byte>, p: nat, ts: seq<Tree>) returns (q: nat)
    requires (forall i :: 0 <= i < |ts| ==> Fits(ts[i])) && p + SizeOf(ts) <= buf.Length
    modifies buf
    ensures q == p + SizeOf(ts) && Kept(old(buf[..]), buf[..], p, q) && AllEncodedAt(buf[..], p, q, ts)
    decreases ts, 1
  {
    hide Encodes, NodeSize, Fits;
    if ts == [] { return p; }
    ghost var b0 := buf[..];
    var mid := EncodeNode(buf, p, ts[0]);
    ghost var b1 := buf[..];
    q := EncodeChildren(buf, mid, ts[1..]);
    ghost var b2 := buf[..];
    KeptBoth(b0, b1, b2, p, mid, q);
    ChildrenWritten(b1, b2, p, mid, q, ts);
  }

  lemma ChildrenWritten(b1: seq<byte>, b2: seq<byte>, p: nat, mid: nat, q: nat, ts: seq<Tree>)
    requires ts != [] && (forall i :: 0 <= i < |ts| ==> Fits(ts[i])) && mid == p + NodeSize(ts[0])
    requires Kept(b1, b2, mid, q) && EncodedAt(b1, p, mid, ts[0]) && AllEncodedAt(b2, mid, q, ts[1..])
    ensures AllEncodedAt(b2, p, q, ts)
  {
    hide Encodes, NodeSize, Fits;
    assert b2[p..q][..mid - p] == b2[..mid][p..] == b1[..mid][p..] == b1[p..mid];
    SliceTail(b2, p, q, mid);
  }

  lemma NodeWritten(buf: seq<byte>, p: nat, off: nat, q: nat, t: Tree)
    requires Fits(t) && off == p + 64 + Align(|t.capture|) && q == p + NodeSize(t) <= |buf|
             && |t.capture| <= Align(|t.capture|)
    requires Has(buf, p, NodeBytes(t.node, |t.capture|)) && Has(buf, p + 64, t.capture)
             && Has(buf, off, ToBytes(|t.children|, 8))
    requires EncodesAll(buf[off + 8..q], t.children)
    ensures Encodes(buf[p..q], t)
  {
    hide NodeBytes, ToBytes, Align, EncodesAll, SizeOf;
    HasSlice(buf, p, q, p, NodeBytes(t.node, |t.capture|));
    HasSlice(buf, p, q, p + 64, t.capture);
    HasSlice(buf, p, q, off, ToBytes(|t.children|, 8));
    SliceTail(buf, p, q, off + 8);
    hide Has;
  }

  lemma HasSlice(buf: seq<byte>, p: nat, q: nat, a: nat, src: seq<byte>)
    requires Has(buf, a, src) && p <= a && a + |src| <= q <= |buf|
    ensures buf[p..q][a - p..a - p + |src|] == src
  {
    var whole, part := buf[p..q], buf[a..a + |src|];
    forall i | 0 <= i < |src| ensures whole[a - p..a - p + |src|][i] == part[i] {}
  }

  lemma SliceTail(buf: seq<byte>, p: nat, q: nat, m: nat)
    requires p <= m <= q <= |buf|
    ensures buf[p..q][m - p..] == buf[m..q]
  {}

  /** CreateFromPacket: aborts, here None, unless decoding consumes the whole packet. */
  function CreateFromPacket(packet: seq<byte>): (r: Option<Tree>) {
    match DecodeNode(packet)
    case None => None
    case Some(d) => if d.used != |packet| then None else Some(d.tree)
  }

  /** A packet that is one encoded tree is accepted, with any bytes after it it is not. */
  lemma PacketRoundTrip(b: seq<byte>, t: Tree, more: seq<byte>)
    requires Fits(t) && Encodes(b, t)
    ensures CreateFromPacket(b + more) == if more == [] then Some(Strip(t)) else None
  {
    RoundTrip(b, t, more);
    hide DecodeNode, Strip, EncodesAll;
  }

  /** Encoding into a packet of NodeSize bytes and creating from it gives the tree back. */
  method Transport(t: Tree) returns (r: Option<Tree>)
    requires Fits(t)
    ensures r == Some(Strip(t))
  {
    hide Encodes, DecodeNode, Strip, Fits, CreateFromPacket;
    var buf := new byte[NodeSize(t)](_ => 0);
    var q := EncodeNode(buf, 0, t);
    assert buf[..][0..q] == buf[..];
    PacketRoundTrip(buf[..], t, []);
    assert buf[..] + [] == buf[..];
    r := CreateFromPacket(buf[..]);
  }

  // ---------- the decoding loop

  /** Children decoded so far, with what decoding the others gives. */
  function Prepend(trees: seq<Tree>, used: nat, rest: Option<DecodedAll>): Option<DecodedAll> {
    match rest
    case None => None
    case Some(d) => Some(DecodedAll(trees + d.trees, used + d.used))
  }

  lemma PrependStep(b: seq<byte>, count: nat, trees: seq<Tree>, used: nat)
    requires count > 0
    ensures Prepend(trees, used, DecodeChildren(b, count)) ==
              match DecodeNode(b)
              case None => None
              case Some(d) => if d.used > |b| then None
                else Prepend(trees + [d.tree], used + d.used, DecodeChildren(b[d.used..], count - 1))
  {
    hide DecodeNode;
    if DecodeNode(b).Some? && DecodeNode(b).value.used <= |b| {
      var d := DecodeNode(b).value;
      var rest := DecodeChildren(b[d.used..], count - 1);
      if rest.Some? {
        assert trees + ([d.tree] + rest.value.trees) == trees + [d.tree] + rest.value.trees;
      }
    }
  }

  /** DecodeNode as written: move along the packet, then once for every child. */
  method DecodeAt(b: seq<byte>) returns (r: Option<Decoded>)
    ensures r == DecodeNode(b)
    decreases |b|
  {
    hide Align, FromBytes, ReadNode, DecodeChildren;
    if |b| < 64 || !HasNode(b, FromBytes(b[8..12])) { return None; }
    var captureLen := FromBytes(b[8..12]);
    var off := 64 + Align(captureLen);
    var all := ChildrenAt(b, off + 8, FromBytes(b[off..off + 8]));
    match all {
      case None => return None;
      case Some(d) => return Some(Decoded(Tree(ReadNode(b[..64]), b[64..64 + captureLen], d.trees), off + 8 + d.used));
    }
  }

  method ChildrenAt(b: seq<byte>, from: nat, count: nat) returns (r: Option<DecodedAll>)
    requires 0 < from <= |b|
    ensures r == DecodeChildren(b[from..], count)
    decreases |b|, 0
  {
    hide DecodeNode, DecodeChildren;
    var trees, p, i := [], from, 0;
    PrependNone(b[from..], count);
    while i < count
      invariant 0 <= i <= count && from <= p <= |b|
      invariant DecodeChildren(b[from..], count) == Prepend(trees, p - from, DecodeChildren(b[p..], count - i))
    {
      PrependStep(b[p..], count - i, trees, p - from);
      var child := DecodeAt(b[p..]);
      if child.None? || child.value.used > |b| - p { return None; }
      assert b[p..][child.value.used..] == b[p + child.value.used..];
      trees, p, i := trees + [child.value.tree], p + child.value.used, i + 1;
    }
    NoChildren(b[p..]);
    r := Some(DecodedAll(trees, p - from));
    assert trees + [] == trees;
  }

  lemma NoChildren(b: seq<byte>)
    ensures DecodeChildren(b, 0) == Some(DecodedAll([], 0))
  {}

  lemma PrependNone(b: seq<byte>, count: nat)
    ensures Prepend([], 0, DecodeChildren(b, count)) == DecodeChildren(b, count)
  {
    hide DecodeChildren;
    var r := DecodeChildren(b, count);
    if r.Some? { assert [] + r.value.trees == r.value.trees; }
  }
}
