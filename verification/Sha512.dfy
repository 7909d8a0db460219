/** SHA-512: the streaming context, proved against the one-shot definition of
    FIPS 180-4 (padding of section 5.1.2, hash computation of section 6.4).
    The compression function is a parameter of everything in this module. */
module Sha512 {
  import opened Octets
  import opened Lists

  type Word = x: int | 0 <= x < 0x1_0000_0000_0000_0000
  type Chain = s: seq<Word> | |s| == 8 witness [0, 0, 0, 0, 0, 0, 0, 0]
  type Block = s: seq<Byte> | |s| == 128 witness Zeros(128)
  type Digest = s: seq<Byte> | |s| == 64 witness Zeros(64)
  type Compression = (Chain, Block) -> Chain

  /** Initial hash value, FIPS 180-4 section 5.3.5. */
  const IV: Chain := [
    0x6a09e667f3bcc908, 0xbb67ae8584caa73b, 0x3c6ef372fe94f82b, 0xa54ff53a5f1d36f1,
    0x510e527fade682d1, 0x9b05688c2b3e6c1f, 0x1f83d9abfb41bd6b, 0x5be0cd19137e2179]

  // ---------------------------------------------------------------- standard

  /** Number of zero octets the padding inserts: the least one that works. */
  function PadZeros(len: nat): (k: nat)
    ensures k < 128 && (len + 1 + k) % 128 == 112
  {
    var r := len % 128;
    if r < 112 then 111 - r else 239 - r
  }

  /** FIPS 180-4 section 5.1.2: a one bit, zeros, and the 128-bit bit length. */
  function Trailer(len: nat): seq<Byte> {
    [0x80] + Zeros(PadZeros(len)) + ToBE(8 * len, 16)
  }

  function Pad(m: seq<Byte>): seq<Byte> {
    m + Trailer(|m|)
  }

  /** Hash computation: the compression function over all complete blocks. */
  function Fold(f: Compression, h: Chain, m: seq<Byte>): Chain
    decreases |m|
  {
    if |m| < 128 then h else Fold(f, f(h, m[..128]), m[128..])
  }

  function WordsBE(ws: seq<Word>): (s: seq<Byte>)
    ensures |s| == 8 * |ws|
  {
    if ws == [] then [] else WordsBE(ws[..|ws| - 1]) + ToBE(ws[|ws| - 1], 8)
  }

  /** The one-shot digest of the standard. */
  function Hash(f: Compression, m: seq<Byte>): Digest {
    WordsBE(Fold(f, IV, Pad(m)))
  }

  /** The next block of a message that follows m. */
  lemma NextBlock(f: Compression, m: seq<Byte>, text: seq<Byte>, k: nat, n: nat)
    requires k + 128 <= |text| && |m| + k == 128 * n
    ensures Fold(f, IV, m + text[..k + 128]) == f(Fold(f, IV, m + text[..k]), text[k..k + 128])
  {
    FoldOne(f, IV, m + text[..k], n, text[k..k + 128]);
    TextMore(m, text, k, k + 128);
  }

  lemma TextMore(m: seq<Byte>, text: seq<Byte>, k: nat, n: nat)
    requires k <= n <= |text|
    ensures m + text[..k] + text[k..n] == m + text[..n]
  {
  }

  /** Appending one block to n complete blocks runs the compression once more. */
  lemma {:induction false} FoldOne(f: Compression, h: Chain, a: seq<Byte>, n: nat, b: Block)
    requires |a| == 128 * n
    ensures Fold(f, h, a + b) == f(Fold(f, h, a), b)
    decreases n
  {
    if n == 0 {
      assert a + b == b && b[..128] == b;
    } else {
      assert (a + b)[..128] == a[..128];
      assert (a + b)[128..] == a[128..] + b;
      FoldOne(f, f(h, a[..128]), a[128..], n - 1, b);
    }
  }

  // ----------------------------------------------------------- code's padding

  /** What the code appends: the length field holds 64 bits, the rest is zero. */
  function TrailerAsCoded(len: nat): seq<Byte> {
    [0x80] + Zeros(PadZeros(len) + 8) + ToBE(8 * len, 8)
  }

  function PadAsCoded(m: seq<Byte>): seq<Byte> {
    m + TrailerAsCoded(|m|)
  }

  /** v without its k low-order octets. */
  function Drop(v: nat, k: nat): nat {
    if k == 0 then v else Drop(v / 256, k - 1)
  }

  lemma {:induction false} ToBESplit(v: nat, n: nat, k: nat)
    ensures ToBE(v, n + k) == ToBE(Drop(v, k), n) + ToBE(v, k)
  {
    if k == 0 {
    } else {
      ToBESplit(v / 256, n, k - 1);
      var a, b, c := ToBE(Drop(v, k), n), ToBE(v / 256, k - 1), [v % 256];
      assert (a + b) + c == a + (b + c);
    }
  }

  lemma Drop8(v: nat)
    ensures Drop(v, 8) == v / 0x1_0000_0000_0000_0000
  {
    Drop4(v);
    Drop4(v / 0x1_0000_0000);
    DropTwice(v, 4, 4);
    assert v / 0x1_0000_0000 / 0x1_0000_0000 == v / 0x1_0000_0000_0000_0000;
  }

  lemma Drop4(v: nat)
    ensures Drop(v, 4) == v / 0x1_0000_0000
  {
    var v1 := v / 256;
    var v2 := v1 / 256;
    var v3 := v2 / 256;
    assert v2 == v / 0x1_0000 && v3 == v / 0x100_0000 && v3 / 256 == v / 0x1_0000_0000;
    DropTwice(v, 1, 3);
    DropTwice(v1, 1, 2);
    DropTwice(v2, 1, 1);
    assert Drop(v, 1) == v1 && Drop(v1, 1) == v2 && Drop(v2, 1) == v3 && Drop(v3, 1) == v3 / 256;
  }

  lemma {:induction false} DropTwice(v: nat, a: nat, b: nat)
    ensures Drop(v, a + b) == Drop(Drop(v, a), b)
  {
    if a == 0 {
    } else {
      DropTwice(v / 256, a - 1, b);
    }
  }

  lemma {:induction false} ToBEZero(n: nat)
    ensures ToBE(0, n) == Zeros(n)
  {
    if n > 0 { ToBEZero(n - 1); }
  }

  lemma LengthFieldDiffers(hi: nat, low: seq<Byte>, pre: seq<Byte>)
    requires 0 < hi < 0x1_0000_0000_0000_0000
    ensures pre + Zeros(8) + low != pre + ToBE(hi, 8) + low
  {
    Pow256Values();
    ToBEZero(8);
    var q := ValueOfToBE(hi, 8);
    var q0 := ValueOfToBE(0, 8);
    var p := |pre|;
    assert (pre + Zeros(8) + low)[p..p + 8] == Zeros(8);
    assert (pre + ToBE(hi, 8) + low)[p..p + 8] == ToBE(hi, 8);
  }

  lemma TrailerExact(len: nat)
    requires len < 0x2000_0000_0000_0000_0000_0000_0000_0000
    ensures TrailerAsCoded(len) == Trailer(len) <==> len < 0x2000_0000_0000_0000
  {
    var hi, low, pre := 8 * len / 0x1_0000_0000_0000_0000, ToBE(8 * len, 8), [0x80] + Zeros(PadZeros(len));
    ToBESplit(8 * len, 8, 8);
    Drop8(8 * len);
    assert TrailerAsCoded(len) == pre + Zeros(8) + low;
    assert Trailer(len) == pre + ToBE(hi, 8) + low;
    if hi == 0 {
      ToBEZero(8);
    } else {
      LengthFieldDiffers(hi, low, pre);
    }
  }

  /** The code's padding is the standard's for exactly the messages shorter than
      2^61 octets; the standard itself is defined below 2^125 octets. */
  lemma PaddingExact(m: seq<Byte>)
    requires |m| < 0x2000_0000_0000_0000_0000_0000_0000_0000
    ensures PadAsCoded(m) == Pad(m) <==> |m| < 0x2000_0000_0000_0000
  {
    TrailerExact(|m|);
    assert PadAsCoded(m)[|m|..] == TrailerAsCoded(|m|);
    assert Pad(m)[|m|..] == Trailer(|m|);
  }

  /** The digest of the code, whose length field has 64 bits. */
  function HashAsCoded(f: Compression, m: seq<Byte>): Digest {
    WordsBE(Fold(f, IV, PadAsCoded(m)))
  }

  /** It is the digest of the standard for all messages below 2^61 octets. */
  lemma HashExact(f: Compression, m: seq<Byte>)
    requires |m| < 0x2000_0000_0000_0000
    ensures HashAsCoded(f, m) == Hash(f, m)
  {
    PaddingExact(m);
  }

  // ---------------------------------------------------------------- streaming

  /** A piece of a caller's buffer, as handed to an update call. */
  datatype Slice = Slice(buf: array<Byte>, off: nat, len: nat)

  ghost function Buffers(list: seq<Slice>): set<object> {
    set i | 0 <= i < |list| :: list[i].buf as object
  }

  /** The slices are in bounds and hold the given octets now. */
  ghost predicate Reads(list: seq<Slice>, parts: seq<seq<Byte>>)
    reads Buffers(list)
  {
    |list| == |parts| &&
    forall i :: 0 <= i < |list| ==>
      && list[i].off + list[i].len <= list[i].buf.Length
      && list[i].buf[list[i].off..list[i].off + list[i].len] == parts[i]
  }

  class Context {
    const f: Compression
    const partial: array<Byte>
    var H: Chain
    var msgLen: nat

    /** The context has absorbed exactly the octets of m since its last init. */
    ghost predicate Holds(m: seq<Byte>)
      reads this, partial
    {
      msgLen == Wrap64(|m|) && HeldAs(Whole(m), Tail(m))
    }

    /** The blocks of done are in the chaining value, tail is in the buffer. */
    ghost predicate HeldAs(done: seq<Byte>, tail: seq<Byte>)
      reads this, partial
    {
      && partial.Length == 128
      && H == Fold(f, IV, done)
      && |tail| < 128 && partial[..|tail|] == tail
    }

    constructor (f: Compression)
      ensures this.f == f && fresh(partial) && partial.Length == 128
      ensures Holds([])
    {
      this.f := f;
      partial := new Byte[128](i => 0);
      H := IV;
      msgLen := 0;
    }

    method Init()
      requires partial.Length == 128
      modifies this
      ensures Holds([])
    {
      H := IV;
      msgLen := 0;
    }

    method Transform(src: array<Byte>, off: nat)
      requires off + 128 <= src.Length
      modifies this
      ensures H == f(old(H), src[off..off + 128])
      ensures msgLen == old(msgLen)
    {
      H := f(H, src[off..off + 128]);
    }

    method Update(src: array<Byte>, start: nat, len: nat, ghost m: seq<Byte>)
      requires start + len <= src.Length && src != partial
      requires Holds(m)
      modifies this, partial
      ensures Holds(m + src[start..start + len])
    {
      var fill := msgLen % 128;
      FillIsTail(m);
      ghost var text, n := src[start..start + len], |m| / 128;
      msgLen := Wrap64(msgLen + len);
      WrapAdd(|m|, len);

      if fill != 0 && len < 128 - fill {
        KeepAll(src, start, len, fill, m, text);
      } else {
        var k := 0;
        if fill != 0 {
          k := CloseBlock(src, start, len, fill, m, text);
          n := n + 1;
        } else {
          assert m + text[..0] == Whole(m);
        }
        AbsorbRest(src, start, len, k, m, text, n);
      }
    }

    /** Input that does not complete the buffered block is only kept. */
    method KeepAll(src: array<Byte>, start: nat, len: nat, fill: nat, ghost m: seq<Byte>, ghost text: seq<Byte>)
      requires start + len <= src.Length && text == src[start..start + len] && src != partial
      requires fill == |Tail(m)| && len < 128 - fill && HeldAs(Whole(m), Tail(m)) && msgLen == Wrap64(|m| + len)
      modifies partial
      ensures Holds(m + text)
    {
      CopyInto(partial, fill, src, start, len);
      assert partial[..fill + len] == Tail(m) + text;
      FillIsTail(m);
      assert m + text == Whole(m) + (Tail(m) + text);
      SplitUnique(m + text, Whole(m), Tail(m) + text, |m| / 128);
    }

    /** Completes the buffered block from the input and transforms it. */
    method CloseBlock(src: array<Byte>, start: nat, len: nat, fill: nat, ghost m: seq<Byte>, ghost text: seq<Byte>)
      returns (k: nat)
      requires start + len <= src.Length && text == src[start..start + len] && src != partial
      requires 0 < fill < 128 && len >= 128 - fill && fill == |Tail(m)| && HeldAs(Whole(m), Tail(m))
      modifies this, partial
      ensures k == 128 - fill && H == Fold(f, IV, m + text[..k]) && msgLen == old(msgLen)
    {
      FillIsTail(m);
      k := 128 - fill;
      SliceOfSlice(src[..], start, len, 0, k);
      CopyInto(partial, fill, src, start, k);
      ghost var blk := Tail(m) + text[..k];
      assert partial[0..128] == blk;
      Transform(partial, 0);
      FoldOne(f, IV, Whole(m), |m| / 128, blk);
      assert Whole(m) + blk == m + text[..k];
    }

    /** Complete blocks go through the compression function, the rest is kept. */
    method AbsorbRest(src: array<Byte>, start: nat, len: nat, k0: nat,
                      ghost m: seq<Byte>, ghost text: seq<Byte>, ghost n0: nat)
      requires start + len <= src.Length && text == src[start..start + len] && src != partial
      requires k0 <= len && partial.Length == 128 && |m| + k0 == 128 * n0
      requires H == Fold(f, IV, m + text[..k0]) && msgLen == Wrap64(|m| + len)
      modifies this, partial
      ensures Holds(m + text)
    {
      ghost var n;
      var k: nat;
      k, n := AbsorbBlocks(src, start, len, k0, m, text, n0);
      SliceOfSlice(src[..], start, len, k, len - k);
      CopyInto(partial, 0, src, start + k, len - k);
      RestSplit(m, text, k, n);
    }

    /** The block loop of update: n counts the blocks of m and the text so far. */
    method AbsorbBlocks(src: array<Byte>, start: nat, len: nat, k0: nat,
                        ghost m: seq<Byte>, ghost text: seq<Byte>, ghost n0: nat)
      returns (k: nat, ghost n: nat)
      requires start + len <= src.Length && text == src[start..start + len]
      requires k0 <= len && |m| + k0 == 128 * n0 && H == Fold(f, IV, m + text[..k0])
      modifies this
      ensures k0 <= k <= len && len - k < 128 && |m| + k == 128 * n
      ensures H == Fold(f, IV, m + text[..k])
      ensures msgLen == old(msgLen)
    {
      k, n := k0, n0;
      while len - k >= 128
        invariant k0 <= k <= len && |m| + k == 128 * n
        invariant H == Fold(f, IV, m + text[..k])
        invariant msgLen == old(msgLen)
      {
        Transform(src, start + k);
        SliceOfSlice(src[..], start, len, k, 128);
        NextBlock(f, m, text, k, n);
        k, n := k + 128, n + 1;
      }
    }

    /** The one bit behind the buffered octets. */
    method MarkEnd(ghost m: seq<Byte>) returns (fill: nat)
      requires Holds(m)
      modifies partial
      ensures fill == |Tail(m)| + 1 && partial[..fill] == Tail(m) + [0x80]
    {
      fill := msgLen % 128;
      FillIsTail(m);
      partial[fill] := 0x80;
      fill := fill + 1;
    }

    /** A block of its own when the length field does not fit behind the rest. */
    method ExtraBlock(fill: nat, ghost rest: seq<Byte>, ghost done: seq<Byte>, ghost n: nat)
      requires partial.Length == 128 && fill == |rest| <= 128 && partial[..fill] == rest
      requires |done| == 128 * n && H == Fold(f, IV, done)
      modifies this, partial
      ensures H == Fold(f, IV, done + (rest + Zeros(128 - fill))) && msgLen == old(msgLen)
    {
      Wipe(partial, fill, 128);
      ghost var b := rest + Zeros(128 - fill);
      assert partial[0..128] == b;
      Transform(partial, 0);
      FoldOne(f, IV, done, n, b);
    }

    /** Pads the buffered octets and runs the last one or two blocks. */
    method FinalTransforms(ghost m: seq<Byte>)
      requires Holds(m)
      modifies this, partial
      ensures H == Fold(f, IV, PadAsCoded(m))
    {
      ghost var done, rest, n := Whole(m), Tail(m) + [0x80], |m| / 128;
      FillIsTail(m);
      FinalBlocks(m);
      var fill := MarkEnd(m);
      if fill > 112 {
        ExtraBlock(fill, rest, done, n);
        done, n, rest, fill := done + (rest + Zeros(128 - fill)), n + 1, [], 0;
      }
      LengthField(|m|);
      msgLen := Wrap64(8 * msgLen);
      LastBlock(fill, rest, done, n);
    }

    /** Zero fill, length field, last transformation. */
    method LastBlock(fill: nat, ghost rest: seq<Byte>, ghost done: seq<Byte>, ghost n: nat)
      requires partial.Length == 128 && fill == |rest| <= 112 && partial[..fill] == rest
      requires |done| == 128 * n && H == Fold(f, IV, done)
      modifies this, partial
      ensures H == Fold(f, IV, done + (rest + Zeros(120 - fill) + ToBE(old(msgLen), 8)))
    {
      Wipe(partial, fill, 128);
      assert partial[..120] == rest + Zeros(120 - fill);
      WriteLength();
      ghost var last := rest + Zeros(120 - fill) + ToBE(msgLen, 8);
      assert partial[0..128] == last;
      Transform(partial, 0);
      FoldOne(f, IV, done, n, last);
    }

    method WriteLength()
      requires partial.Length == 128
      modifies partial
      ensures partial[..] == old(partial[..120]) + ToBE(msgLen, 8)
    {
      var field := ToBE(msgLen, 8);
      for i := 0 to 8
        invariant partial[..120] == old(partial[..120])
        invariant partial[120..120 + i] == field[..i]
      {
        partial[120 + i] := field[i];
      }
    }

    method WriteDigest(digest: array<Byte>, off: nat)
      requires off + 64 <= digest.Length
      modifies digest
      ensures digest[..] == old(digest[..off]) + WordsBE(H) + old(digest[off + 64..])
    {
      ghost var before, after := digest[..off], digest[off + 64..];
      for i := 0 to 8
        invariant digest[off..off + 8 * i] == WordsBE(H[..i])
        invariant digest[..off] == before
        invariant digest[off + 64..] == after
      {
        WriteWord(digest, off + 8 * i, H[i]);
        assert H[..i + 1][..i] == H[..i];
      }
      assert H[..8] == H;
    }

    /** Writes the digest of everything absorbed and wipes the context. */
    method Final(digest: array<Byte>, off: nat, ghost m: seq<Byte>)
      requires off + 64 <= digest.Length && digest != partial
      requires Holds(m)
      modifies this, partial, digest
      ensures digest[..] == old(digest[..off]) + HashAsCoded(f, m) + old(digest[off + 64..])
      ensures partial[..] == Zeros(128) && H == [0, 0, 0, 0, 0, 0, 0, 0]
    {
      FinalTransforms(m);
      Wipe(partial, 0, 128);
      WriteDigest(digest, off);
      H := [0, 0, 0, 0, 0, 0, 0, 0];
    }

    method UpdateOne(list: seq<Slice>, i: nat, ghost parts: seq<seq<Byte>>)
      requires Reads(list, parts) && partial !in Buffers(list) && i < |list| && Holds(Flatten(parts[..i]))
      modifies this, partial
      ensures Holds(Flatten(parts[..i]) + parts[i]) && Reads(list, parts)
    {
      assert list[i].buf in Buffers(list);
      Update(list[i].buf, list[i].off, list[i].len, Flatten(parts[..i]));
    }

    /** One update call per slice of the list. */
    method UpdateList(list: seq<Slice>, ghost parts: seq<seq<Byte>>)
      requires Reads(list, parts) && partial !in Buffers(list) && Holds([])
      modifies this, partial
      ensures Holds(Flatten(parts))
    {
      for i := 0 to |list|
        invariant Holds(Flatten(parts[..i]))
        invariant Reads(list, parts)
      {
        FlattenTo(parts, i);
        UpdateOne(list, i, parts);
      }
      assert parts[..|list|] == parts;
    }

    /** Init, one update per slice, final: how every caller in the library uses
        the context.  However the message is cut, the digest is that of the whole. */
    method HashList(list: seq<Slice>, digest: array<Byte>, off: nat, ghost parts: seq<seq<Byte>>)
      requires Reads(list, parts) && off + 64 <= digest.Length && digest != partial
      requires partial.Length == 128 && partial !in Buffers(list)
      modifies this, partial, digest
      ensures digest[..] == old(digest[..off]) + HashAsCoded(f, Flatten(parts)) + old(digest[off + 64..])
    {
      Init();
      UpdateList(list, parts);
      Final(digest, off, Flatten(parts));
    }
  }

  method WriteWord(buf: array<Byte>, off: nat, w: Word)
    requires off + 8 <= buf.Length
    modifies buf
    ensures buf[..] == old(buf[..off]) + ToBE(w, 8) + old(buf[off + 8..])
  {
    var field := ToBE(w, 8);
    for i := 0 to 8
      invariant buf[..off] == old(buf[..off])
      invariant buf[off..off + i] == field[..i]
      invariant buf[off + 8..] == old(buf[off + 8..])
    {
      buf[off + i] := field[i];
    }
  }

  // ------------------------------------------------- arithmetic of the buffer

  /** The complete blocks of a message, and what is left behind them. */
  function Whole(m: seq<Byte>): seq<Byte> {
    m[..|m| / 128 * 128]
  }

  function Tail(m: seq<Byte>): seq<Byte> {
    m[|m| / 128 * 128..]
  }

  lemma SplitUnique(m: seq<Byte>, done: seq<Byte>, tail: seq<Byte>, n: nat)
    requires m == done + tail && |done| == 128 * n && |tail| < 128
    ensures Whole(m) == done && Tail(m) == tail
  {
    assert |m| / 128 == n;
  }

  lemma RestSplit(m: seq<Byte>, text: seq<Byte>, k: nat, n: nat)
    requires k <= |text| && |m| + k == 128 * n && |text| - k < 128
    ensures Whole(m + text) == m + text[..k] && Tail(m + text) == text[k..]
  {
    assert m + text == (m + text[..k]) + text[k..];
    SplitUnique(m + text, m + text[..k], text[k..], n);
  }

  /** 128 divides 2^64, so a wrapped counter still locates the buffered octets. */
  lemma FillIsTail(m: seq<Byte>)
    ensures Wrap64(|m|) % 128 == |Tail(m)| == |m| % 128
    ensures m == Whole(m) + Tail(m) && |Whole(m)| == 128 * (|m| / 128)
  {
    WrapMod128(|m|);
  }

  lemma WrapMod128(n: nat)
    ensures Wrap64(n) % 128 == n % 128
  {
    var q := n / 0x1_0000_0000_0000_0000;
    assert n == 128 * (0x200_0000_0000_0000 * q) + Wrap64(n);
  }

  lemma WrapAdd(n: nat, k: nat)
    ensures Wrap64(Wrap64(n) + k) == Wrap64(n + k)
  {
  }

  /** The one or two blocks the code hashes last are the padding, whether or not
      the marker leaves room for the length field behind the buffered octets. */
  lemma FinalBlocks(m: seq<Byte>)
    ensures var t, l := |Tail(m)|, ToBE(8 * |m|, 8);
      PadAsCoded(m) ==
        if t < 112 then Whole(m) + (Tail(m) + [0x80] + Zeros(119 - t) + l)
        else Whole(m) + (Tail(m) + [0x80] + Zeros(127 - t)) + ([] + Zeros(120) + l)
  {
    FillIsTail(m);
    var t := |Tail(m)|;
    if t < 112 {
      assert PadZeros(|m|) == 111 - t;
      Regroup(Whole(m), Tail(m), [0x80], Zeros(119 - t), ToBE(8 * |m|, 8));
    } else {
      assert PadZeros(|m|) == 239 - t;
      assert Zeros(127 - t) + Zeros(120) == Zeros(247 - t);
      Regroup(Whole(m), Tail(m), [0x80], Zeros(127 - t) + Zeros(120), ToBE(8 * |m|, 8));
    }
  }

  lemma Regroup(a: seq<Byte>, b: seq<Byte>, c: seq<Byte>, d: seq<Byte>, e: seq<Byte>)
    ensures (a + b) + (c + d + e) == a + (b + c + d + e)
  {
    var x := c + d + e;
    assert (a + b) + x == a + (b + x);
    assert b + x == b + c + d + e;
  }

  lemma WrapShift(n: nat)
    ensures Wrap64(8 * Wrap64(n)) == Wrap64(8 * n)
  {
    var q, r := n / 0x1_0000_0000_0000_0000, Wrap64(n);
    var k := 8 * r / 0x1_0000_0000_0000_0000;
    DivModUnique(8 * n, 0x1_0000_0000_0000_0000, 8 * q + k, Wrap64(8 * r));
  }

  /** Shifting the wrapped counter left by three wraps the bit length itself. */
  lemma LengthField(n: nat)
    ensures ToBE(Wrap64(8 * Wrap64(n)), 8) == ToBE(8 * n, 8)
  {
    WrapShift(n);
    Pow256Values();
    ToBEIgnoresHigh(Wrap64(8 * n), 8, 8 * n / 0x1_0000_0000_0000_0000);
  }
}
