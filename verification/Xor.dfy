/** Exclusive-or of buffers: the word-wise routines of a 64-bit little-endian host,
    proved to do what the octet loop does, for every size and alignment. */
module Xor {

  function XorSeq(a: seq<bv8>, b: seq<bv8>): (r: seq<bv8>)
    requires |a| == |b|
    ensures |r| == |a|
  {
    seq(|a|, i requires 0 <= i < |a| => a[i] ^ b[i])
  }

  /** The octets from dst[d] on become the exclusive-or with those from src[s] on. */
  ghost function Xored(before: seq<bv8>, d: nat, src: seq<bv8>, s: nat, size: nat): seq<bv8>
    requires d + size <= |before| && s + size <= |src|
  {
    seq(|before|, i requires 0 <= i < |before| =>
      if d <= i < d + size then before[i] ^ src[s + (i - d)] else before[i])
  }

  lemma XoredTwice(b: seq<bv8>, d: nat, src: seq<bv8>, s: nat, i: nat, n: nat)
    requires d + i + n <= |b| && s + i + n <= |src|
    ensures Xored(Xored(b, d, src, s, i), d + i, src, s + i, n) == Xored(b, d, src, s, i + n)
  {
  }

  /** Little-endian words and their octets. */
  function Pack32(a: bv8, b: bv8, c: bv8, d: bv8): bv32 {
    a as bv32 | (b as bv32 << 8) | (c as bv32 << 16) | (d as bv32 << 24)
  }

  function Pack64(lo: bv32, hi: bv32): bv64 {
    lo as bv64 | (hi as bv64 << 32)
  }

  function Octet0(w: bv32): bv8 { (w & 0xff) as bv8 }
  function Octet1(w: bv32): bv8 { ((w >> 8) & 0xff) as bv8 }
  function Octet2(w: bv32): bv8 { ((w >> 16) & 0xff) as bv8 }
  function Octet3(w: bv32): bv8 { (w >> 24) as bv8 }
  function Low32(w: bv64): bv32 { (w & 0xffff_ffff) as bv32 }
  function High32(w: bv64): bv32 { (w >> 32) as bv32 }

  lemma PackedOctets(a: bv8, b: bv8, c: bv8, d: bv8)
    ensures Octet0(Pack32(a, b, c, d)) == a
    ensures Octet1(Pack32(a, b, c, d)) == b
    ensures Octet2(Pack32(a, b, c, d)) == c
    ensures Octet3(Pack32(a, b, c, d)) == d
  {
  }

  lemma OctetsXor(v: bv32, w: bv32)
    ensures Octet0(v ^ w) == Octet0(v) ^ Octet0(w)
    ensures Octet1(v ^ w) == Octet1(v) ^ Octet1(w)
    ensures Octet2(v ^ w) == Octet2(v) ^ Octet2(w)
    ensures Octet3(v ^ w) == Octet3(v) ^ Octet3(w)
  {
  }

  lemma HalvesXor(lo: bv32, hi: bv32, lo': bv32, hi': bv32)
    ensures Low32(Pack64(lo, hi) ^ Pack64(lo', hi')) == lo ^ lo'
    ensures High32(Pack64(lo, hi) ^ Pack64(lo', hi')) == hi ^ hi'
  {
  }

  datatype Quad = Quad(a: bv8, b: bv8, c: bv8, d: bv8)

  function Word(q: Quad): bv32 { Pack32(q.a, q.b, q.c, q.d) }

  function OctetsOf(w: bv32): Quad { Quad(Octet0(w), Octet1(w), Octet2(w), Octet3(w)) }

  function QuadXor(p: Quad, q: Quad): Quad { Quad(p.a ^ q.a, p.b ^ q.b, p.c ^ q.c, p.d ^ q.d) }

  /** Exclusive-or of little-endian words is exclusive-or of their octets. */
  lemma XorOfWords(p: Quad, q: Quad)
    ensures OctetsOf(Word(p) ^ Word(q)) == QuadXor(p, q)
  {
    PackedOctets(p.a, p.b, p.c, p.d);
    PackedOctets(q.a, q.b, q.c, q.d);
    OctetsXor(Word(p), Word(q));
  }

  /** One 32-bit word of each operand: load, exclusive-or, store. */
  method XorWord32(p: Quad, q: Quad) returns (r: Quad)
    ensures r == QuadXor(p, q)
  {
    XorOfWords(p, q);
    r := OctetsOf(Word(p) ^ Word(q));
  }

  /** One 64-bit word of each operand. */
  method XorWord64(p: Quad, p': Quad, q: Quad, q': Quad) returns (r: Quad, r': Quad)
    ensures r == QuadXor(p, q)
    ensures r' == QuadXor(p', q')
  {
    XorOfWords(p, q);
    XorOfWords(p', q');
    HalvesXor(Word(p), Word(p'), Word(q), Word(q'));
    var w := Pack64(Word(p), Word(p')) ^ Pack64(Word(q), Word(q'));
    r, r' := OctetsOf(Low32(w)), OctetsOf(High32(w));
  }

  function Load(m: array<bv8>, at: nat): Quad
    requires at + 4 <= m.Length
    reads m
  {
    Quad(m[at], m[at + 1], m[at + 2], m[at + 3])
  }

  method StoreAt(dst: array<bv8>, d: nat, w: seq<bv8>)
    requires d + |w| <= dst.Length
    modifies dst
    ensures dst[..] == old(dst[..d]) + w + old(dst[d + |w|..])
  {
    ghost var before := dst[..];
    for i := 0 to |w|
      invariant dst[..d + i] == before[..d] + w[..i]
      invariant dst[d + i..] == before[d + i..]
    {
      dst[d + i] := w[i];
    }
    assert dst[..] == dst[..d + |w|] + dst[d + |w|..];
  }

  lemma XoredWord(b: seq<bv8>, d: nat, src: seq<bv8>, s: nat, w: seq<bv8>)
    requires d + 4 <= |b| && s + 4 <= |src| && |w| == 4
    requires w[0] == b[d] ^ src[s] && w[1] == b[d + 1] ^ src[s + 1]
    requires w[2] == b[d + 2] ^ src[s + 2] && w[3] == b[d + 3] ^ src[s + 3]
    ensures Xored(b, d, src, s, 4) == b[..d] + w + b[d + 4..]
  {
  }

  method Store(dst: array<bv8>, d: nat, src: array<bv8>, s: nat, q: Quad)
    requires d + 4 <= dst.Length && s + 4 <= src.Length && dst != src
    requires q == QuadXor(Load(dst, d), Load(src, s))
    modifies dst
    ensures dst[..] == Xored(old(dst[..]), d, src[..], s, 4)
  {
    XoredWord(dst[..], d, src[..], s, [q.a, q.b, q.c, q.d]);
    StoreAt(dst, d, [q.a, q.b, q.c, q.d]);
  }

  /** Both halves of a 64-bit word. */
  method StoreBoth(dst: array<bv8>, d: nat, src: array<bv8>, s: nat, r: Quad, r': Quad)
    requires d + 8 <= dst.Length && s + 8 <= src.Length && dst != src
    requires r == QuadXor(Load(dst, d), Load(src, s)) && r' == QuadXor(Load(dst, d + 4), Load(src, s + 4))
    modifies dst
    ensures dst[..] == Xored(old(dst[..]), d, src[..], s, 8)
  {
    Store(dst, d, src, s, r);
    assert forall i :: d + 4 <= i < dst.Length ==> dst[..][i] == old(dst[..])[i];
    Store(dst, d + 4, src, s + 4, r');
    XoredTwice(old(dst[..]), d, src[..], s, 4, 4);
  }

  /** xor_8 */
  method Xor8(dst: array<bv8>, d: nat, src: array<bv8>, s: nat, size: nat)
    requires d + size <= dst.Length && s + size <= src.Length && dst != src
    modifies dst
    ensures dst[..] == Xored(old(dst[..]), d, src[..], s, size)
  {
    for i := 0 to size
      invariant dst[..] == Xored(old(dst[..]), d, src[..], s, i)
    {
      dst[d + i] := dst[d + i] ^ src[s + i];
    }
  }

  method XorAt32(dst: array<bv8>, d: nat, src: array<bv8>, s: nat)
    requires d + 4 <= dst.Length && s + 4 <= src.Length && dst != src
    modifies dst
    ensures dst[..] == Xored(old(dst[..]), d, src[..], s, 4)
  {
    var r := XorWord32(Load(dst, d), Load(src, s));
    Store(dst, d, src, s, r);
  }

  method XorAt64(dst: array<bv8>, d: nat, src: array<bv8>, s: nat)
    requires d + 8 <= dst.Length && s + 8 <= src.Length && dst != src
    modifies dst
    ensures dst[..] == Xored(old(dst[..]), d, src[..], s, 8)
  {
    var r, r' := XorWord64(Load(dst, d), Load(dst, d + 4), Load(src, s), Load(src, s + 4));
    StoreBoth(dst, d, src, s, r, r');
  }

  function QuadSeq(q: Quad): seq<bv8> { [q.a, q.b, q.c, q.d] }

  /** The 64-bit word put together from the octets from at on. */
  function PtrToLe64(m: array<bv8>, at: nat): bv64
    requires at + 8 <= m.Length
    reads m
  {
    Pack64(Word(Load(m, at)), Word(Load(m, at + 4)))
  }

  method Le32ToPtr(dst: array<bv8>, d: nat, w: bv32)
    requires d + 4 <= dst.Length
    modifies dst
    ensures dst[..] == old(dst[..d]) + QuadSeq(OctetsOf(w)) + old(dst[d + 4..])
  {
    StoreAt(dst, d, QuadSeq(OctetsOf(w)));
  }

  /** The high half first. */
  method Le64ToPtr(dst: array<bv8>, d: nat, w: bv64)
    requires d + 8 <= dst.Length
    modifies dst
    ensures dst[..] == old(dst[..d]) + (QuadSeq(OctetsOf(Low32(w))) + QuadSeq(OctetsOf(High32(w)))) + old(dst[d + 8..])
  {
    Le32ToPtr(dst, d + 4, High32(w));
    Le32ToPtr(dst, d, Low32(w));
  }

  /** The octets of a word put together from octets. */
  lemma HalvesOf(p: Quad, q: Quad)
    ensures OctetsOf(Low32(Pack64(Word(p), Word(q)))) == p && OctetsOf(High32(Pack64(Word(p), Word(q)))) == q
  {
    PackedOctets(p.a, p.b, p.c, p.d);
    PackedOctets(q.a, q.b, q.c, q.d);
    PackedHalves(Word(p), Word(q));
  }

  lemma PackedHalves(lo: bv32, hi: bv32)
    ensures Low32(Pack64(lo, hi)) == lo && High32(Pack64(lo, hi)) == hi
  {
  }

  /** Two 64-bit words in host form: the octets of their exclusive-or. */
  method XorWords(lane: bv64, word: bv64, ghost p: Quad, ghost q: Quad, ghost p': Quad, ghost q': Quad)
    returns (r: Quad, r': Quad)
    requires lane == Pack64(Word(p), Word(q)) && word == Pack64(Word(p'), Word(q'))
    ensures r == QuadXor(p, p') && r' == QuadXor(q, q')
  {
    XorOfWords(p, p');
    XorOfWords(q, q');
    HalvesXor(Word(p), Word(q), Word(p'), Word(q'));
    var w := lane ^ word;
    r, r' := OctetsOf(Low32(w)), OctetsOf(High32(w));
  }

  /** A 64-bit word of dst takes the word that is put together from octets of src. */
  method XorLe64(dst: array<bv8>, d: nat, src: array<bv8>, s: nat)
    requires d + 8 <= dst.Length && s + 8 <= src.Length && dst != src
    modifies dst
    ensures dst[..] == Xored(old(dst[..]), d, src[..], s, 8)
  {
    var r, r' := XorWords(PtrToLe64(dst, d), PtrToLe64(src, s),
                          Load(dst, d), Load(dst, d + 4), Load(src, s), Load(src, s + 4));
    StoreBoth(dst, d, src, s, r, r');
  }

  /** xor_32_aligned: whole 32-bit words, then the octets left over. */
  method Xor32Aligned(dst: array<bv8>, d: nat, src: array<bv8>, s: nat, size: nat)
    requires d + size <= dst.Length && s + size <= src.Length && dst != src
    modifies dst
    ensures dst[..] == Xored(old(dst[..]), d, src[..], s, size)
  {
    var i := 0;
    while size - i >= 4
      invariant 0 <= i <= size && dst[..] == Xored(old(dst[..]), d, src[..], s, i)
    {
      XorAt32(dst, d + i, src, s + i);
      XoredTwice(old(dst[..]), d, src[..], s, i, 4);
      i := i + 4;
    }
    Xor8(dst, d + i, src, s + i, size - i);
    XoredTwice(old(dst[..]), d, src[..], s, i, size - i);
  }

  /** xor_64_aligned: whole 64-bit words, the rest by the 32-bit routine. */
  method Xor64Aligned(dst: array<bv8>, d: nat, src: array<bv8>, s: nat, size: nat)
    requires d + size <= dst.Length && s + size <= src.Length && dst != src
    modifies dst
    ensures dst[..] == Xored(old(dst[..]), d, src[..], s, size)
  {
    var i := 0;
    while size - i >= 8
      invariant 0 <= i <= size && dst[..] == Xored(old(dst[..]), d, src[..], s, i)
    {
      XorAt64(dst, d + i, src, s + i);
      XoredTwice(old(dst[..]), d, src[..], s, i, 8);
      i := i + 8;
    }
    Xor32Aligned(dst, d + i, src, s + i, size - i);
    XoredTwice(old(dst[..]), d, src[..], s, i, size - i);
  }

  /** xor_64: the addresses of the two buffers choose the routine. */
  method Xor64(dst: array<bv8>, d: nat, dstAddr: nat, src: array<bv8>, s: nat, srcAddr: nat, size: nat)
    requires d + size <= dst.Length && s + size <= src.Length && dst != src
    modifies dst
    ensures dst[..] == Xored(old(dst[..]), d, src[..], s, size)
  {
    if srcAddr % 8 == 0 && dstAddr % 8 == 0 {
      Xor64Aligned(dst, d, src, s, size);
    } else if srcAddr % 4 == 0 && dstAddr % 4 == 0 {
      Xor32Aligned(dst, d, src, s, size);
    } else {
      Xor8(dst, d, src, s, size);
    }
  }
}
