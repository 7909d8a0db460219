/** The Hash_DRBG working state and functions of NIST SP 800-90A Rev. 1:
    sections 10.1.1.2 (instantiate), 10.1.1.3 (reseed), 10.1.1.4 (generate) and
    10.3.1 (Hash_df), for seedlen 888 bits and a 512-bit hash. */
module HashDrbgStandard {
  import opened Octets
  import Sha512

  type HashFn = seq<Byte> -> Sha512.Digest

  datatype Working = Working(V: seq<Byte>, C: seq<Byte>, reseedCounter: nat)

  /** Section 10.3.1, steps 2 to 4: the first i hash blocks, counters 1 to i. */
  function DfBlocks(h: HashFn, input: seq<Byte>, bits: nat, i: nat): (s: seq<Byte>)
    requires i <= 255
    ensures |s| == 64 * i
  {
    if i == 0 then [] else DfBlocks(h, input, bits, i - 1) + h([i] + ToBE(bits, 4) + input)
  }

  /** Section 10.3.1: the leftmost n octets. */
  function HashDf(h: HashFn, input: seq<Byte>, n: nat): (s: seq<Byte>)
    requires n <= 255 * 64
    ensures |s| == n
  {
    DfBlocks(h, input, 8 * n, (n + 63) / 64)[..n]
  }

  /** Addition modulo 2 to the bit length of V. */
  function AddMod(V: seq<Byte>, x: nat): (s: seq<Byte>)
    ensures |s| == |V|
  {
    ToBE(ValueBE(V) + x, |V|)
  }

  function SeedFrom(h: HashFn, material: seq<Byte>): Working {
    var V := HashDf(h, material, 111);
    Working(V, HashDf(h, [0x00] + V, 111), 1)
  }

  /** Section 10.1.1.2; entropy carries the nonce behind the entropy input. */
  function Instantiate(h: HashFn, entropy: seq<Byte>, pers: seq<Byte>): Working {
    SeedFrom(h, entropy + pers)
  }

  /** Section 10.1.1.3. */
  function Reseed(h: HashFn, w: Working, entropy: seq<Byte>, addtl: seq<Byte>): Working {
    SeedFrom(h, [0x01] + w.V + (entropy + addtl))
  }

  /** Hashgen's data register after k increments. */
  function HashgenData(V: seq<Byte>, k: nat): (s: seq<Byte>)
    ensures |s| == |V|
  {
    if k == 0 then V else AddMod(HashgenData(V, k - 1), 1)
  }

  function HashgenBlocks(h: HashFn, V: seq<Byte>, m: nat): (s: seq<Byte>)
    ensures |s| == 64 * m
  {
    if m == 0 then [] else HashgenBlocks(h, V, m - 1) + h(HashgenData(V, m - 1))
  }

  function Hashgen(h: HashFn, V: seq<Byte>, n: nat): (s: seq<Byte>)
    ensures |s| == n
  {
    HashgenBlocks(h, V, (n + 63) / 64)[..n]
  }

  /** Section 10.1.1.4, step 2. */
  function MixAddtl(h: HashFn, V: seq<Byte>, addtl: seq<Byte>): (s: seq<Byte>)
    ensures |s| == |V|
  {
    if addtl == [] then V else AddMod(V, ValueBE(h([0x02] + V + addtl)))
  }

  /** Section 10.1.1.4, steps 4 and 5: V after the output has been drawn. */
  function NextV(h: HashFn, V: seq<Byte>, C: seq<Byte>, ctr: nat): (s: seq<Byte>)
    ensures |s| == |V|
  {
    AddMod(V, ValueBE(h([0x03] + V)) + ValueBE(C) + ctr)
  }

  /** Section 10.1.1.4: the pseudorandom octets and the new working state. */
  function Generate(h: HashFn, w: Working, n: nat, addtl: seq<Byte>): (seq<Byte>, Working) {
    var V := MixAddtl(h, w.V, addtl);
    (Hashgen(h, V, n), Working(NextV(h, V, w.C, w.reseedCounter), w.C, w.reseedCounter + 1))
  }

  // ---------------------------------------------------------- the machine

  datatype Call = SeedCall(entropy: seq<Byte>, pers: seq<Byte>) | GenerateCall(n: nat, addtl: seq<Byte>)

  /** A call is refused with an error or because a reseed is required. */
  datatype Reply = Refused | Accepted | Random(octets: seq<Byte>)

  datatype Machine = Machine(seeded: bool, working: Working)

  /** Table 2: no input above 2^35 bits, no more than 2^48 requests between reseeds. */
  const MAX_INPUT: nat := 0x1_0000_0000
  const INTERVAL: nat := 0x1_0000_0000_0000

  const BLANK: Working := Working(Zeros(111), Zeros(111), 1)
  const NEW: Machine := Machine(false, BLANK)

  /** At least 256 bits of entropy, for an instantiation with a nonce of at least 128 bits (section 8.6.7). */
  function MinSeed(seeded: bool): nat {
    if seeded then 32 else 48
  }

  function SeedWorking(h: HashFn, s: Machine, entropy: seq<Byte>, pers: seq<Byte>): Working {
    if s.seeded then Reseed(h, s.working, entropy, pers) else Instantiate(h, entropy, pers)
  }

  /** Sections 9.1 to 9.3 with section 10.1.1.4 step 1. */
  function StandardStep(h: HashFn, s: Machine, call: Call): (Machine, Reply) {
    match call
    case SeedCall(entropy, pers) =>
      if MinSeed(s.seeded) <= |entropy| <= MAX_INPUT && |pers| <= MAX_INPUT
      then (Machine(true, SeedWorking(h, s, entropy, pers)), Accepted)
      else (s, Refused)
    case GenerateCall(n, addtl) =>
      if s.seeded && n <= 0x1_0000 && |addtl| <= MAX_INPUT && s.working.reseedCounter <= INTERVAL
      then var (octets, w) := Generate(h, s.working, n, addtl); (s.(working := w), Random(octets))
      else (s, Refused)
  }

  function StandardRun(h: HashFn, s: Machine, calls: seq<Call>): (Machine, seq<Reply>) {
    if calls == [] then (s, [])
    else
      var n := |calls| - 1;
      var (s', replies) := StandardRun(h, s, calls[..n]);
      var (s'', reply) := StandardStep(h, s', calls[n]);
      (s'', replies + [reply])
  }

  lemma {:induction false} AddModTwice(V: seq<Byte>, x: nat, y: nat)
    ensures AddMod(AddMod(V, x), y) == AddMod(V, x + y)
  {
    var q := ValueOfToBE(ValueBE(V) + x, |V|);
    var low := ValueBE(AddMod(V, x)) + y;
    assert ValueBE(V) + (x + y) == low + q * Pow256(|V|);
    ToBEIgnoresHigh(low, |V|, q);
  }

  /** Hashgen's k-th block hashes V plus k, modulo 2 to the seed length. */
  lemma {:induction false} HashgenDataIsCounter(V: seq<Byte>, k: nat)
    ensures HashgenData(V, k) == AddMod(V, k)
  {
    if k == 0 {
      ToBEOfValue(V, ValueBE(V), 0);
    } else {
      HashgenDataIsCounter(V, k - 1);
      AddModTwice(V, k - 1, 1);
    }
  }

  lemma {:induction false} HashgenBlock(h: HashFn, V: seq<Byte>, m: nat, k: nat)
    requires k < m
    ensures HashgenBlocks(h, V, m)[64 * k..64 * k + 64] == h(AddMod(V, k))
    decreases m
  {
    if k == m - 1 {
      HashgenDataIsCounter(V, k);
    } else {
      HashgenBlock(h, V, m - 1, k);
      var a := HashgenBlocks(h, V, m - 1);
      assert HashgenBlocks(h, V, m)[64 * k..64 * k + 64] == a[64 * k..64 * k + 64];
    }
  }
}

/** The Hash DRBG as coded: V, C and the scratchpad are buffers changed in place,
    the hash is the streaming SHA-512 context. */
module HashDrbg {
  import opened Octets
  import opened Lists
  import opened HashDrbgStandard
  import opened Sha512

  const EINVAL: int := -22

  /** Schoolbook addition of equally long octet strings with a carry into the low
      end; the carry out of the top is dropped. */
  function AddOctets(a: seq<Byte>, b: seq<Byte>, carry: nat): (r: seq<Byte>)
    requires |a| == |b|
    ensures |r| == |a|
  {
    if a == [] then []
    else
      var n := |a| - 1;
      var sum := a[n] + b[n] + carry;
      AddOctets(a[..n], b[..n], sum / 256) + [sum % 256]
  }

  /** Schoolbook addition is addition modulo 256 to the power of the length. */
  lemma {:induction false} AddOctetsExact(a: seq<Byte>, b: seq<Byte>, carry: nat)
    requires |a| == |b|
    ensures AddOctets(a, b, carry) == ToBE(ValueBE(a) + ValueBE(b) + carry, |a|)
  {
    if a == [] {
    } else {
      var n := |a| - 1;
      var sum, high := a[n] + b[n] + carry, ValueBE(a[..n]) + ValueBE(b[..n]);
      AddOctetsExact(a[..n], b[..n], sum / 256);
      var v := high * 256 + sum;
      assert v / 256 == high + sum / 256 && v % 256 == sum % 256;
    }
  }

  /** Once the carry is gone, octets facing zeros stay as they are. */
  lemma {:induction false} AddNothing(a: seq<Byte>)
    ensures AddOctets(a, Zeros(|a|), 0) == a
  {
    if a == [] {
    } else {
      var n := |a| - 1;
      assert Zeros(|a|)[..n] == Zeros(n) && a == a[..n] + [a[n]];
      AddNothing(a[..n]);
    }
  }

  lemma {:induction false} ValueZeros(n: nat, s: seq<Byte>)
    ensures ValueBE(Zeros(n) + s) == ValueBE(s)
  {
    if s != [] {
      var k := |s| - 1;
      assert (Zeros(n) + s)[..n + k] == Zeros(n) + s[..k];
      ValueZeros(n, s[..k]);
    } else if n > 0 {
      assert (Zeros(n) + s)[..n - 1] == Zeros(n - 1) + s;
      ValueZeros(n - 1, s);
    }
  }

  /** Sum octets already written behind what is still to be added. */
  ghost predicate AddingTo(dst: seq<Byte>, a: seq<Byte>, len: nat, carry: int, total: seq<Byte>)
    requires len <= |dst| && len <= |a|
  {
    carry >= 0 && AddOctets(dst[..len], a[..len], carry) + dst[len..] == total
  }

  lemma AddingStep(dst: seq<Byte>, a: seq<Byte>, len: nat, carry: int, total: seq<Byte>)
    requires 0 < len <= |dst| && len <= |a| && AddingTo(dst, a, len, carry, total)
    ensures var sum := dst[len - 1] + a[len - 1] + carry;
      AddingTo(dst[len - 1 := sum % 256], a, len - 1, sum / 256, total)
  {
    var sum, k := dst[len - 1] + a[len - 1] + carry, len - 1;
    var dst' := dst[k := sum % 256];
    assert dst[..len][..k] == dst'[..k] == dst[..k] && a[..len][..k] == a[..k];
    assert dst'[k..] == [sum % 256] + dst[len..];
  }

  lemma AddingDone(dst: seq<Byte>, a: seq<Byte>, len: nat, carry: int, total: seq<Byte>)
    requires len <= |dst| && len <= |a| && AddingTo(dst, a, len, carry, total)
    requires len == 0 || (carry == 0 && a[..len] == Zeros(len))
    ensures dst == total
  {
    AddNothing(dst[..len]);
    assert dst == dst[..len] + dst[len..];
  }

  /** One octet of the sum is stored, and the carry goes on. */
  method PutOctet(dst: array<Byte>, dstlen: nat, i: nat, sum: nat, ghost carry: nat, ghost A: seq<Byte>,
                  ghost total: seq<Byte>)
    returns (carry': nat)
    requires i < dstlen <= dst.Length && dstlen <= |A| && sum == dst[i] + A[i] + carry && carry <= 1
    requires AddingTo(dst[..dstlen], A, i + 1, carry, total)
    modifies dst
    ensures carry' <= 1 && dst[dstlen..] == old(dst[dstlen..])
    ensures AddingTo(dst[..dstlen], A, i, carry', total)
  {
    ghost var before := dst[..dstlen];
    AddingStep(before, A, i + 1, carry, total);
    var octet: Byte := sum % 256;
    dst[i] := octet;
    assert dst[..dstlen] == before[i := octet];
    carry' := sum / 256;
  }

  /** First loop of the adder: the octets both numbers have, low end first. */
  method AddLow(dst: array<Byte>, dstlen: nat, add: array<Byte>, addlen: nat,
                ghost A: seq<Byte>, ghost total: seq<Byte>)
    returns (remainder: nat)
    requires dst != add && addlen <= dstlen <= dst.Length && addlen <= add.Length
    requires A == Zeros(dstlen - addlen) + add[..addlen] && AddingTo(dst[..dstlen], A, dstlen, 0, total)
    modifies dst
    ensures remainder <= 1 && dst[dstlen..] == old(dst[dstlen..])
    ensures AddingTo(dst[..dstlen], A, dstlen - addlen, remainder, total)
  {
    remainder := 0;
    for len := dstlen downto dstlen - addlen
      invariant remainder <= 1 && dst[dstlen..] == old(dst[dstlen..])
      invariant AddingTo(dst[..dstlen], A, len, remainder, total) == true
    {
      var sum := remainder + dst[len] + add[len - (dstlen - addlen)];
      remainder := PutOctet(dst, dstlen, len, sum, remainder, A, total);
    }
  }

  /** Second loop: a carry moves up until an octet absorbs it. */
  method CarryHigh(dst: array<Byte>, dstlen: nat, high: nat, carry: nat,
                   ghost A: seq<Byte>, ghost total: seq<Byte>)
    requires high <= dstlen == |A| && dstlen <= dst.Length && carry <= 1 && A[..high] == Zeros(high)
    requires AddingTo(dst[..dstlen], A, high, carry, total)
    modifies dst
    ensures dst[..dstlen] == total && dst[dstlen..] == old(dst[dstlen..])
  {
    var remainder, len: nat := carry, high;
    while len > 0 && remainder > 0
      invariant len <= high && remainder <= 1 && dst[dstlen..] == old(dst[dstlen..])
      invariant AddingTo(dst[..dstlen], A, len, remainder, total) == true
    {
      len := len - 1;
      assert A[len] == A[..high][len];
      var sum: int := dst[len];
      sum := sum + 1;
      remainder := PutOctet(dst, dstlen, len, sum, remainder, A, total);
    }
    assert A[..len] == A[..high][..len] == Zeros(len);
    AddingDone(dst[..dstlen], A, len, remainder, total);
  }

  lemma Halves(a: array<Byte>, k: nat)
    requires k <= a.Length
    ensures a[..] == a[..k] + a[k..]
  {
  }

  /** Adds the big-endian number in add to the one in dst, in place. */
  method AddBuf(dst: array<Byte>, dstlen: nat, add: array<Byte>, addlen: nat)
    requires dst != add && addlen <= dstlen <= dst.Length && addlen <= add.Length
    modifies dst
    ensures dst[..] == AddMod(old(dst[..dstlen]), ValueBE(add[..addlen])) + old(dst[dstlen..])
  {
    var high := dstlen - addlen;
    ghost var D, x := dst[..dstlen], add[..addlen];
    ghost var A := Zeros(high) + x;
    ghost var total := AddOctets(D, A, 0);
    assert D[..dstlen] == D && A[..dstlen] == A;
    AddOctetsExact(D, A, 0);
    ValueZeros(high, x);
    assert total == AddMod(D, ValueBE(x));
    var remainder := AddLow(dst, dstlen, add, addlen, A, total);
    CarryHigh(dst, dstlen, high, remainder, A, total);
    Halves(dst, dstlen);
  }

  /** Slices whose octets do not change while Hash_df writes to out and to the
      scratchpad behind the state length; front is what the scratchpad starts with. */
  ghost predicate Stable(list: seq<Slice>, parts: seq<seq<Byte>>, out: array<Byte>, pad: array<Byte>, front: seq<Byte>)
    requires |list| == |parts|
  {
    forall i :: 0 <= i < |list| ==>
      && list[i].buf != out
      && (list[i].buf == pad ==>
            && list[i].off + list[i].len <= |front|
            && parts[i] == front[list[i].off..list[i].off + list[i].len])
  }

  lemma StillReads(list: seq<Slice>, parts: seq<seq<Byte>>, out: array<Byte>, pad: array<Byte>, front: seq<Byte>)
    requires |list| == |parts| && Stable(list, parts, out, pad, front)
    requires |front| <= pad.Length && pad[..|front|] == front
    requires forall i :: 0 <= i < |list| && list[i].buf != pad ==>
      && list[i].off + list[i].len <= list[i].buf.Length
      && list[i].buf[list[i].off..list[i].off + list[i].len] == parts[i]
    ensures Reads(list, parts)
  {
    forall i | 0 <= i < |list| && list[i].buf == pad
      ensures pad[list[i].off..list[i].off + list[i].len] == parts[i]
    {
      assert forall j :: 0 <= j < |front| ==> pad[j] == front[j];
    }
  }

  lemma DfBlockCount(h: HashFn, text: seq<Byte>, n: nat, k: nat)
    requires k <= 255 && n <= 64 * k < n + 64
    ensures HashDf(h, text, n) == DfBlocks(h, text, 8 * n, k)[..n]
  {
    assert (n + 63) / 64 == k;
  }

  lemma TakeAppend(a: seq<Byte>, b: seq<Byte>, n: nat)
    requires n <= |b|
    ensures (a + b)[..|a| + n] == a + b[..n]
  {
  }

  /** An octet incremented modulo 256. */
  function Next(b: Byte): Byte {
    if b == 255 then 0 else b + 1
  }

  method NextCounter(input: array<Byte>)
    requires input.Length > 0
    modifies input
    ensures input[..] == [Next(old(input[0]))] + old(input[1..])
  {
    input[0] := Next(input[0]);
  }

  ghost function Coded(f: Compression): HashFn {
    m => HashAsCoded(f, m)
  }

  lemma IsGenerate(h: HashFn, w: Working, n: nat, addtl: seq<Byte>, octets: seq<Byte>, w': Working)
    requires var v := MixAddtl(h, w.V, addtl);
             octets == Hashgen(h, v, n) && w' == Working(NextV(h, v, w.C, w.reseedCounter), w.C, w.reseedCounter + 1)
    ensures (octets, w') == HashDrbgStandard.Generate(h, w, n, addtl)
  {
  }

  class Drbg {
    const ctx: Context
    const V: array<Byte>
    const C: array<Byte>
    const scratchpad: array<Byte>
    var reseedCtr: nat
    var seeded: bool

    ghost predicate Valid()
      reads this
    {
      && V.Length == 111 && C.Length == 111 && scratchpad.Length == 175
      && ctx.partial.Length == 128
      && V != C && V != scratchpad && C != scratchpad
      && ctx.partial !in {V, C, scratchpad}
      && reseedCtr < 0x1_0000_0000_0000_0000
    }

    /** The buffers only the generator may touch. */
    ghost function Inner(): set<object> {
      {V, C, scratchpad, ctx, ctx.partial}
    }

    /** The hash as the context computes it. */
    ghost function H(): HashFn {
      Coded(ctx.f)
    }

    ghost function Machine(): Machine
      reads this, V, C
    {
      HashDrbgStandard.Machine(seeded, State())
    }

    /** The working state of the standard this object stands for. */
    ghost function State(): Working
      reads this, V, C
    {
      Working(V[..], C[..], reseedCtr + 1)
    }

    constructor (f: Compression)
      ensures Valid() && fresh(Inner()) && ctx.f == f && Machine() == NEW
    {
      ctx := new Context(f);
      V := new Byte[111](i => 0);
      C := new Byte[111](i => 0);
      scratchpad := new Byte[175](i => 0);
      reseedCtr := 0;
      seeded := false;
      new;
      assert V[..] == Zeros(111) && C[..] == Zeros(111);
    }

    /** Copies as much of the digest at the end of the scratchpad as the output
        still needs: the output stays a prefix of the blocks hashed so far. */
    method AppendDigest(out: array<Byte>, outlen: nat, len: nat, ghost blocks: seq<Byte>, ghost digest: Digest)
      returns (len': nat)
      requires Valid() && out != scratchpad && len <= outlen <= out.Length
      requires out[..len] == blocks && scratchpad[111..] == digest
      modifies out
      ensures len' == Min(len + 64, outlen) && out[..len'] == (blocks + digest)[..len']
      ensures out[outlen..] == old(out[outlen..])
    {
      var n := Min(64, outlen - len);
      assert scratchpad[111..111 + n] == digest[..n];
      CopyInto(out, len, scratchpad, 111, n);
      TakeAppend(blocks, digest, n);
      len' := len + n;
    }

    /** Hashes one local buffer and a list behind it into the end of the scratchpad. */
    method HashToPad(first: array<Byte>, list: seq<Slice>, ghost parts: seq<seq<Byte>>)
      requires Valid() && ctx.partial !in Buffers(list) && first != ctx.partial
      requires Reads(list, parts)
      modifies scratchpad, ctx, ctx.partial
      ensures scratchpad[..111] == old(scratchpad[..111])
      ensures scratchpad[111..] == HashAsCoded(ctx.f, old(first[..]) + Flatten(parts))
    {
      ghost var head := first[..];
      FlattenCons(head, parts);
      ctx.HashList([Slice(first, 0, first.Length)] + list, scratchpad, 111, [head] + parts);
    }

    /** One round of Hash_df: the next block, cut to what out still needs. */
    method DfRound(out: array<Byte>, outlen: nat, len: nat, input: array<Byte>, list: seq<Slice>,
                   ghost parts: seq<seq<Byte>>, ghost k: nat)
      returns (len': nat)
      requires Valid() && out in {V, C} && outlen <= out.Length && k < 255 && 64 * k == len < outlen
      requires input.Length == 5 && input !in {V, C, scratchpad, ctx.partial} && input !in Buffers(list)
      requires input[..] == [k + 1] + ToBE(8 * outlen, 4)
      requires Reads(list, parts) && Stable(list, parts, out, scratchpad, scratchpad[..111])
      requires ctx.partial !in Buffers(list)
      requires out[..len] == DfBlocks(H(), Flatten(parts), 8 * outlen, k)
      modifies out, scratchpad, ctx, ctx.partial, input
      ensures len' == Min(64 * (k + 1), outlen)
      ensures out[..len'] == DfBlocks(H(), Flatten(parts), 8 * outlen, k + 1)[..len']
      ensures out[outlen..] == old(out[outlen..])
      ensures scratchpad[..111] == old(scratchpad[..111])
      ensures k < 254 ==> input[..] == [k + 2] + ToBE(8 * outlen, 4)
      ensures Reads(list, parts)
    {
      ghost var blocks, head, pad := out[..len], input[..], scratchpad[..111];
      HashToPad(input, list, parts);
      len' := AppendDigest(out, outlen, len, blocks, H()(head + Flatten(parts)));
      NextCounter(input);
      StillReads(list, parts, out, scratchpad, pad);
    }

    /** Hash_df into out, which may be V or C.  The digests pass through the end of
        the scratchpad while its front may still hold part of the input. */
    method HashDfInto(out: array<Byte>, outlen: nat, list: seq<Slice>, ghost parts: seq<seq<Byte>>)
      requires Valid() && out in {V, C} && outlen <= out.Length
      requires Reads(list, parts) && Stable(list, parts, out, scratchpad, scratchpad[..111])
      requires ctx.partial !in Buffers(list)
      modifies out, scratchpad, ctx, ctx.partial
      ensures out[..outlen] == HashDf(H(), Flatten(parts), outlen)
      ensures out[outlen..] == old(out[outlen..])
      ensures scratchpad[..] == old(scratchpad[..111]) + Zeros(64)
    {
      var bits := ToBE(8 * outlen, 4);
      var input := new Byte[5](i requires 0 <= i < 5 => if i == 0 then 1 else bits[i - 1]);
      assert input[..] == [1] + bits;
      var len := 0;
      ghost var k := 0;
      while len < outlen
        invariant 0 <= k <= 2 && len == Min(64 * k, outlen) && 64 * k < outlen + 64
        invariant input[..] == [k + 1] + bits
        invariant out[..len] == DfBlocks(H(), Flatten(parts), 8 * outlen, k)[..len]
        invariant out[outlen..] == old(out[outlen..]) && scratchpad[..111] == old(scratchpad[..111])
        invariant Reads(list, parts)
      {
        ghost var blocks := DfBlocks(H(), Flatten(parts), 8 * outlen, k);
        assert blocks[..len] == blocks;
        len := DfRound(out, outlen, len, input, list, parts, k);
        k := k + 1;
      }
      DfBlockCount(H(), Flatten(parts), outlen, k);
      Wipe(scratchpad, 111, 175);
    }

    /** V for reseeding.  V is first copied to the front of the scratchpad, because
        Hash_df reads it while it overwrites V. */
    method ReseedV(list: seq<Slice>, ghost parts: seq<seq<Byte>>)
      requires Valid() && Reads(list, parts) && Buffers(list) !! Inner()
      modifies V, scratchpad, ctx, ctx.partial
      ensures V[..] == HashDf(H(), [0x01] + old(V[..]) + Flatten(parts), 111)
    {
      ghost var pre := V[..];
      CopyInto(scratchpad, 0, V, 0, 111);
      assert scratchpad[..111] == pre;
      var prefix := new Byte[1](i => 0x01);
      var a, b := Slice(prefix, 0, 1), Slice(scratchpad, 0, 111);
      ReadsTwo(a, b, list, [0x01], pre, parts);
      OutsideInner(list, parts);
      StableTwo(a, b, list, [0x01], pre, parts, V, scratchpad);
      HashDfInto(V, 111, [a, b] + list, [[0x01], pre] + parts);
      assert V[..111] == V[..];
    }

    /** Seeding and reseeding. */
    method HashUpdate(list: seq<Slice>, ghost parts: seq<seq<Byte>>)
      requires Valid() && Reads(list, parts) && Buffers(list) !! Inner()
      modifies V, C, scratchpad, ctx, ctx.partial
      ensures var material := if seeded then [0x01] + old(V[..]) + Flatten(parts) else Flatten(parts);
        Working(V[..], C[..], 1) == SeedFrom(H(), material)
    {
      if seeded {
        ReseedV(list, parts);
      } else {
        OutsideInner(list, parts);
        HashDfInto(V, 111, list, parts);
        assert V[..111] == V[..];
      }
      HashC();
      Wipe(scratchpad, 0, 111);
    }

    lemma OutsideInner(list: seq<Slice>, parts: seq<seq<Byte>>)
      requires |list| == |parts| && Buffers(list) !! Inner()
      ensures forall i :: 0 <= i < |list| ==> list[i].buf != V && list[i].buf != scratchpad
    {
      forall i | 0 <= i < |list| ensures list[i].buf != V && list[i].buf != scratchpad {
        assert list[i].buf in Buffers(list);
      }
    }

    /** C from V, section 10.1.1.2 step 4. */
    method HashC()
      requires Valid()
      modifies C, scratchpad, ctx, ctx.partial
      ensures C[..] == HashDf(H(), [0x00] + V[..], 111)
    {
      var prefix := new Byte[1](i => 0x00);
      var a, b := Slice(prefix, 0, 1), Slice(V, 0, 111);
      ReadsTwo(a, b, [], [0x00], V[..], []);
      ghost var texts := [[0x00], V[..]] + [];
      assert [0x00] + V[..] + [] == [0x00] + V[..];
      HashDfInto(C, 111, [a, b] + [], texts);
      assert C[..111] == C[..];
    }

    /** Hash of a prefix octet, V and a list into the front of the scratchpad. */
    method HashPrefixed(tag: Byte, list: seq<Slice>, ghost parts: seq<seq<Byte>>)
      requires Valid() && Reads(list, parts) && ctx.partial !in Buffers(list)
      modifies scratchpad, ctx, ctx.partial
      ensures scratchpad[..64] == HashAsCoded(ctx.f, [tag] + V[..] + Flatten(parts))
    {
      var prefix := new Byte[1](i => tag);
      var a, b := Slice(prefix, 0, 1), Slice(V, 0, 111);
      ReadsTwo(a, b, list, [tag], V[..], parts);
      ctx.HashList([a, b] + list, scratchpad, 0, [[tag], V[..]] + parts);
    }

    method ProcessAddtl(addtl: array?<Byte>, len: nat)
      requires Valid() && (addtl != null ==> addtl !in Inner() && len <= addtl.Length)
      requires len <= 0x8_0000_0000
      modifies V, scratchpad, ctx, ctx.partial
      ensures V[..] == MixAddtl(H(), old(V[..]), if addtl == null then [] else old(addtl[..len]))
    {
      if addtl == null || len == 0 {
        assert addtl != null ==> addtl[..len] == [];
        return;
      }
      ghost var text := addtl[..len];
      assert addtl[0..len] == text != [];
      FlattenOne(text);
      HashPrefixed(0x02, [Slice(addtl, 0, len)], [text]);
      AddToV(scratchpad, 64);
      Wipe(scratchpad, 0, 64);
    }

    method AddToV(add: array<Byte>, addlen: nat)
      requires Valid() && add != V && addlen <= 111 && addlen <= add.Length
      modifies V
      ensures V[..] == AddMod(old(V[..]), ValueBE(add[..addlen]))
    {
      assert V[..111] == V[..] && V[111..] == [];
      AddBuf(V, 111, add, addlen);
    }

    /** Hashgen: the data register lives at the front of the scratchpad. */
    method HashgenInto(buf: array<Byte>, buflen: nat)
      requires Valid() && buf !in Inner() && buflen <= buf.Length
      modifies buf, scratchpad, ctx, ctx.partial
      ensures buf[..buflen] == Hashgen(H(), V[..], buflen)
      ensures buf[buflen..] == old(buf[buflen..])
    {
      CopyInto(scratchpad, 0, V, 0, 111);
      HashgenLoop(buf, buflen);
      Wipe(scratchpad, 0, 175);
    }

    method HashgenLoop(buf: array<Byte>, buflen: nat)
      requires Valid() && buf !in Inner() && buflen <= buf.Length && scratchpad[..111] == V[..]
      modifies buf, scratchpad, ctx, ctx.partial
      ensures buf[..buflen] == Hashgen(H(), V[..], buflen)
      ensures buf[buflen..] == old(buf[buflen..])
    {
      var one := new Byte[1](i => 1);
      assert one[..] == [1];
      var len := 0;
      ghost var m := 0;
      while len < buflen
        invariant Hashed(buf, buflen, len, m) == true
        invariant len <= buflen && buf[buflen..] == old(buf[buflen..]) && one[..] == [1]
        decreases buflen - len
      {
        len := HashgenRound(buf, buflen, len, one, m);
        m := m + 1;
      }
      HashgenCount(H(), V[..], buflen, m);
    }

    /** The first len octets are those of the first m blocks, and unless that is
        all, the scratchpad starts with the data register for the next block. */
    ghost predicate Hashed(buf: array<Byte>, buflen: nat, len: nat, m: nat)
      reads this, V, scratchpad, buf
    {
      && Valid() && len <= buflen <= buf.Length
      && (len == buflen || len == 64 * m) && len <= 64 * m < buflen + 64
      && buf[..len] == HashgenBlocks(H(), V[..], m)[..len]
      && (len < buflen ==> scratchpad[..111] == HashgenData(V[..], m))
    }

    method HashgenRound(buf: array<Byte>, buflen: nat, len: nat, one: array<Byte>, ghost m: nat)
      returns (len': nat)
      requires buf !in Inner() && one !in Inner() && one != buf && one[..] == [1]
      requires Hashed(buf, buflen, len, m) && len < buflen
      modifies buf, scratchpad, ctx, ctx.partial
      ensures len < len' <= buflen && buf[buflen..] == old(buf[buflen..])
      ensures Hashed(buf, buflen, len', m + 1) == true
    {
      ghost var blocks := HashgenBlocks(H(), V[..], m);
      assert blocks[..len] == blocks;
      HashPadFront();
      len' := AppendDigest(buf, buflen, len, blocks, H()(HashgenData(V[..], m)));
      if len' < buflen {
        IncrementPad(one);
      }
    }

    /** Hash of the data register into the end of the scratchpad. */
    method HashPadFront()
      requires Valid()
      modifies scratchpad, ctx, ctx.partial
      ensures scratchpad[..111] == old(scratchpad[..111])
      ensures scratchpad[111..] == H()(old(scratchpad[..111]))
    {
      ghost var data := scratchpad[..111];
      assert scratchpad[0..111] == data;
      FlattenOne(data);
      ctx.HashList([Slice(scratchpad, 0, 111)], scratchpad, 111, [data]);
    }

    method IncrementPad(one: array<Byte>)
      requires Valid() && one != scratchpad && one[..] == [1]
      modifies scratchpad
      ensures scratchpad[..111] == AddMod(old(scratchpad[..111]), 1)
    {
      assert one[..1] == [1] && [1][..0] == [];
      AddBuf(scratchpad, 111, one, 1);
    }

    /** V := V + H + C + reseed counter, section 10.1.1.4 steps 4 and 5. */
    method StepV()
      requires Valid()
      modifies V, scratchpad, ctx, ctx.partial
      ensures V[..] == NextV(H(), old(V[..]), C[..], reseedCtr)
    {
      ghost var v := V[..];
      AddOwnHash();
      ghost var v1 := V[..];
      assert C[..111] == C[..];
      AddToV(C, 111);
      ghost var v2 := V[..];
      AddCounter();
      AddModThrice(v, ValueBE(H()([0x03] + v)), ValueBE(C[..]), reseedCtr, v1, v2, V[..]);
    }

    method AddCounter()
      requires Valid()
      modifies V
      ensures V[..] == AddMod(old(V[..]), reseedCtr)
    {
      var req := CounterBuffer();
      AddToV(req, 8);
    }

    method AddOwnHash()
      requires Valid()
      modifies V, scratchpad, ctx, ctx.partial
      ensures V[..] == AddMod(old(V[..]), ValueBE(H()([0x03] + old(V[..]))))
    {
      assert [0x03] + V[..] + [] == [0x03] + V[..];
      HashPrefixed(0x03, [], []);
      AddToV(scratchpad, 64);
      Wipe(scratchpad, 0, 64);
    }

    method CounterBuffer() returns (req: array<Byte>)
      requires Valid()
      ensures fresh(req) && req.Length == 8 && ValueBE(req[..8]) == reseedCtr
    {
      req := new Byte[8];
      WriteWord(req, 0, reseedCtr);
      assert req[..8] == ToBE(reseedCtr, 8);
      CounterField(reseedCtr);
    }

    /** lc_drbg_seed: instantiate on the first call, reseed on every later one. */
    method Seed(seedbuf: array?<Byte>, seedlen: nat, persbuf: array?<Byte>, perslen: nat) returns (ret: int)
      requires Valid()
      requires seedbuf != null ==> seedbuf !in Inner() && seedlen <= seedbuf.Length
      requires persbuf != null ==> persbuf !in Inner() && perslen <= persbuf.Length
      modifies this, V, C, scratchpad, ctx, ctx.partial
      ensures Valid()
      ensures ret == if (persbuf != null && perslen > 0x8_0000_0000) || seedbuf == null || seedlen == 0 then EINVAL
                     else 0
      ensures ret != 0 ==> State() == old(State()) && seeded == old(seeded)
      ensures ret == 0 ==> seeded
      ensures ret == 0 ==>
        var entropy, pers := old(seedbuf[..seedlen]), if persbuf == null then [] else old(persbuf[..perslen]);
        State() == if old(seeded) then Reseed(H(), old(State()), entropy, pers) else Instantiate(H(), entropy, pers)
    {
      if persbuf != null && perslen > 0x8_0000_0000 {
        return EINVAL;
      }
      if seedbuf == null || seedlen == 0 {
        return EINVAL;
      }
      ghost var entropy, pers := seedbuf[..seedlen], if persbuf == null then [] else persbuf[..perslen];
      assert seedbuf[0..seedlen] == entropy;
      if persbuf != null && perslen != 0 {
        assert persbuf[0..perslen] == pers;
        FlattenCons(entropy, [pers]);
        FlattenOne(pers);
        assert [entropy] + [pers] == [entropy, pers];
        HashUpdate([Slice(seedbuf, 0, seedlen), Slice(persbuf, 0, perslen)], [entropy, pers]);
      } else {
        FlattenOne(entropy);
        assert entropy + pers == entropy;
        HashUpdate([Slice(seedbuf, 0, seedlen)], [entropy]);
      }
      reseedCtr := 0;
      seeded := true;
      ret := 0;
    }

    method GenerateInternal(buf: array<Byte>, buflen: nat, addtl: array?<Byte>, addtllen: nat)
      requires Valid() && buf !in Inner() && buflen <= buf.Length
      requires addtllen <= 0x8_0000_0000 && (addtl != null ==> addtl !in Inner() && addtllen <= addtl.Length)
      modifies `reseedCtr, buf, V, scratchpad, ctx, ctx.partial
      ensures Valid() && reseedCtr == Wrap64(old(reseedCtr) + 1) && C[..] == old(C[..])
      ensures buf[buflen..] == old(buf[buflen..])
      ensures var v := MixAddtl(H(), old(V[..]), if addtl == null then [] else old(addtl[..addtllen]));
        buf[..buflen] == Hashgen(H(), v, buflen) && V[..] == NextV(H(), v, C[..], reseedCtr)
    {
      reseedCtr := Wrap64(reseedCtr + 1);
      ProcessAddtl(addtl, addtllen);
      HashgenInto(buf, buflen);
      StepV();
    }

    /** lc_drbg_generate.  The counter the code adds is the standard's reseed counter
        as long as 2^64 - 1 requests have not been made since the last seeding. */
    method Generate(buf: array?<Byte>, buflen: nat, addtlbuf: array?<Byte>, addtllen: nat) returns (ret: int)
      requires Valid()
      requires buf != null ==> buf !in Inner() && buflen <= buf.Length
      requires addtlbuf != null ==> addtlbuf !in Inner() && addtllen <= addtlbuf.Length
      modifies this, buf, V, scratchpad, ctx, ctx.partial
      ensures Valid() && seeded == old(seeded)
      ensures ret == if buf == null || buflen == 0 || buflen > 0x1_0000 || addtllen > 0x8_0000_0000 then EINVAL
                     else buflen
      ensures ret < 0 ==> State() == old(State()) && (buf != null ==> buf[..] == old(buf[..]))
      ensures ret > 0 ==>
        var addtl := if addtlbuf == null then [] else old(addtlbuf[..addtllen]);
        var w := old(State()).(reseedCounter := Wrap64(old(reseedCtr) + 1));
        (buf[..buflen], State()) == HashDrbgStandard.Generate(H(), w, buflen, addtl)
      ensures ret > 0 ==> buf[buflen..] == old(buf[buflen..])
    {
      if buf == null || buflen == 0 || buflen > 0x1_0000 || addtllen > 0x8_0000_0000 {
        return EINVAL;
      }
      ghost var addtl := if addtlbuf == null then [] else addtlbuf[..addtllen];
      ghost var w := State().(reseedCounter := Wrap64(reseedCtr + 1));
      GenerateInternal(buf, buflen, addtlbuf, addtllen);
      IsGenerate(H(), w, buflen, addtl, buf[..buflen], State());
      ret := buflen;
    }
  }

  // ---------------------------------------------------------- whole call runs

  /** What the code does with one call, on the working state: it takes any seed, personalization and additional input
      up to 2^35 octets, serves generate calls before any seeding, and counts modulo 2^64. */
  function CodedStep(h: HashFn, s: Machine, call: Call): (Machine, Reply) {
    match call
    case SeedCall(entropy, pers) =>
      if entropy == [] || |pers| > 0x8_0000_0000 then (s, Refused)
      else (Machine(true, SeedWorking(h, s, entropy, pers)), Accepted)
    case GenerateCall(n, addtl) =>
      if n == 0 || n > 0x1_0000 || |addtl| > 0x8_0000_0000 then (s, Refused)
      else
        var w := s.working.(reseedCounter := Wrap64(s.working.reseedCounter));
        var (octets, w') := HashDrbgStandard.Generate(h, w, n, addtl);
        (s.(working := w'), Random(octets))
  }

  function CodedRun(h: HashFn, s: Machine, calls: seq<Call>): (Machine, seq<Reply>) {
    if calls == [] then (s, [])
    else
      var n := |calls| - 1;
      var (s', replies) := CodedRun(h, s, calls[..n]);
      var (s'', reply) := CodedStep(h, s', calls[n]);
      (s'', replies + [reply])
  }

  method Perform(d: Drbg, call: Call) returns (reply: Reply)
    requires d.Valid()
    modifies d, d.V, d.C, d.scratchpad, d.ctx, d.ctx.partial
    ensures d.Valid() && (d.Machine(), reply) == CodedStep(d.H(), old(d.Machine()), call)
  {
    match call
    case SeedCall(entropy, pers) => reply := PerformSeed(d, entropy, pers);
    case GenerateCall(n, addtl) => reply := PerformGenerate(d, n, addtl);
  }

  method PerformSeed(d: Drbg, entropy: seq<Byte>, pers: seq<Byte>) returns (reply: Reply)
    requires d.Valid()
    modifies d, d.V, d.C, d.scratchpad, d.ctx, d.ctx.partial
    ensures d.Valid() && (d.Machine(), reply) == CodedStep(d.H(), old(d.Machine()), SeedCall(entropy, pers))
  {
    var e := ToArray(entropy);
    var p := ToArray(pers);
    assert e[..|entropy|] == entropy && p[..|pers|] == pers;
    var ret := d.Seed(e, |entropy|, p, |pers|);
    reply := if ret == 0 then Accepted else Refused;
  }

  method PerformGenerate(d: Drbg, n: nat, addtl: seq<Byte>) returns (reply: Reply)
    requires d.Valid()
    modifies d, d.V, d.scratchpad, d.ctx, d.ctx.partial
    ensures d.Valid() && (d.Machine(), reply) == CodedStep(d.H(), old(d.Machine()), GenerateCall(n, addtl))
  {
    var a := ToArray(addtl);
    assert a[..|addtl|] == addtl;
    var buf := new Byte[n](i => 0);
    ghost var s := d.Machine();
    var ret := d.Generate(buf, n, a, |addtl|);
    if ret > 0 {
      reply := Random(buf[..]);
      assert buf[..n] == buf[..];
      CodedGenerate(d.H(), s, n, addtl, buf[..], d.State());
    } else {
      reply := Refused;
    }
  }

  lemma CodedGenerate(h: HashFn, s: Machine, n: nat, addtl: seq<Byte>, octets: seq<Byte>, w: Working)
    requires 0 < n <= 0x1_0000 && |addtl| <= 0x8_0000_0000
    requires (octets, w) ==
             HashDrbgStandard.Generate(h, s.working.(reseedCounter := Wrap64(s.working.reseedCounter)), n, addtl)
    ensures CodedStep(h, s, GenerateCall(n, addtl)) == (s.(working := w), Random(octets))
  {
  }

  /** For every sequence of calls, of any length and with inputs of any length, answers and final state are those of
      the machine above. */
  method Run(d: Drbg, calls: seq<Call>) returns (replies: seq<Reply>)
    requires d.Valid()
    modifies d, d.V, d.C, d.scratchpad, d.ctx, d.ctx.partial
    ensures d.Valid() && (d.Machine(), replies) == CodedRun(d.H(), old(d.Machine()), calls)
  {
    replies := [];
    ghost var s := d.Machine();
    for i := 0 to |calls|
      invariant d.Valid() && (d.Machine(), replies) == CodedRun(d.H(), s, calls[..i])
    {
      var reply := Perform(d, calls[i]);
      replies := replies + [reply];
      assert calls[..i + 1][..i] == calls[..i];
    }
    assert calls[..|calls|] == calls;
  }

  // ------------------------------------------- agreement with the standard

  /** A call that the code accepts as a seed. */
  predicate Seeds(call: Call) {
    call.SeedCall? && call.entropy != [] && |call.pers| <= 0x8_0000_0000
  }

  /** A call that the code answers with random octets. */
  predicate Draws(call: Call) {
    call.GenerateCall? && 0 < call.n <= 0x1_0000 && |call.addtl| <= 0x8_0000_0000
  }

  predicate EverSeeded(calls: seq<Call>) {
    calls != [] && (Seeds(calls[|calls| - 1]) || EverSeeded(calls[..|calls| - 1]))
  }

  /** The generate calls answered since the last seed. */
  function DrawsSince(calls: seq<Call>): nat {
    if calls == [] || Seeds(calls[|calls| - 1]) then 0
    else DrawsSince(calls[..|calls| - 1]) + if Draws(calls[|calls| - 1]) then 1 else 0
  }

  /** A call, after the given ones, that the code takes in another way than the standard: a seed that is too short, or
      any input above 2^32 octets; a generate call before the first seed, after 2^48 others since the last one, or for
      no octets at all. */
  predicate Deviates(before: seq<Call>, call: Call) {
    match call
    case SeedCall(entropy, pers) =>
      Seeds(call) && !(MinSeed(EverSeeded(before)) <= |entropy| <= MAX_INPUT && |pers| <= MAX_INPUT)
    case GenerateCall(n, addtl) =>
      var served := EverSeeded(before) && |addtl| <= MAX_INPUT && DrawsSince(before) < INTERVAL;
      if n == 0 then served else Draws(call) && !served
  }

  predicate Conforms(calls: seq<Call>) {
    calls == [] || (Conforms(calls[..|calls| - 1]) && !Deviates(calls[..|calls| - 1], calls[|calls| - 1]))
  }

  /** Hashes of the same short text are the same. */
  ghost predicate SameShort(h: HashFn, h': HashFn) {
    forall m {:trigger h(m)} {:trigger h'(m)} :: |m| < 0x2000_0000_0000_0000 ==> h(m) == h'(m)
  }

  lemma {:induction false} DfSame(h: HashFn, h': HashFn, input: seq<Byte>, bits: nat, i: nat)
    requires SameShort(h, h') && |input| < 0x1000_0000_0000_0000 && i <= 255
    ensures DfBlocks(h, input, bits, i) == DfBlocks(h', input, bits, i)
  {
    if i == 0 {
    } else {
      DfSame(h, h', input, bits, i - 1);
      assert |[i] + ToBE(bits, 4) + input| < 0x2000_0000_0000_0000;
    }
  }

  lemma HashDfSame(h: HashFn, h': HashFn, input: seq<Byte>)
    requires SameShort(h, h') && |input| < 0x1000_0000_0000_0000
    ensures HashDf(h, input, 111) == HashDf(h', input, 111)
  {
    DfSame(h, h', input, 888, 2);
  }

  lemma SeedFromSame(h: HashFn, h': HashFn, material: seq<Byte>)
    requires SameShort(h, h') && |material| < 0x1000_0000_0000_0000
    ensures SeedFrom(h, material) == SeedFrom(h', material)
  {
    HashDfSame(h, h', material);
    HashDfSame(h, h', [0x00] + HashDf(h, material, 111));
  }

  lemma SeedSame(h: HashFn, h': HashFn, s: Machine, entropy: seq<Byte>, pers: seq<Byte>)
    requires SameShort(h, h') && |entropy| <= MAX_INPUT && |pers| <= MAX_INPUT && |s.working.V| == 111
    ensures SeedWorking(h, s, entropy, pers) == SeedWorking(h', s, entropy, pers)
  {
    SeedFromSame(h, h', if s.seeded then [0x01] + s.working.V + (entropy + pers) else entropy + pers);
  }

  lemma {:induction false} HashgenSame(h: HashFn, h': HashFn, V: seq<Byte>, m: nat)
    requires SameShort(h, h') && |V| == 111
    ensures HashgenBlocks(h, V, m) == HashgenBlocks(h', V, m)
  {
    if m == 0 {
    } else {
      HashgenSame(h, h', V, m - 1);
      assert |HashgenData(V, m - 1)| == 111;
    }
  }

  lemma GenerateSame(h: HashFn, h': HashFn, w: Working, n: nat, addtl: seq<Byte>)
    requires SameShort(h, h') && |w.V| == 111 && |addtl| <= MAX_INPUT
    ensures HashDrbgStandard.Generate(h, w, n, addtl) == HashDrbgStandard.Generate(h', w, n, addtl)
  {
    assert |[0x02] + w.V + addtl| < 0x2000_0000_0000_0000;
    var V := MixAddtl(h, w.V, addtl);
    assert V == MixAddtl(h', w.V, addtl);
    HashgenSame(h, h', V, (n + 63) / 64);
    assert |[0x03] + V| < 0x2000_0000_0000_0000;
  }

  /** A machine after the given calls, as long as none deviates. */
  ghost predicate After(calls: seq<Call>, s: Machine) {
    && s.seeded == EverSeeded(calls) && |s.working.V| == 111
    && s.working.reseedCounter == DrawsSince(calls) + 1 <= INTERVAL + 1
    && (!s.seeded ==> s.working == BLANK && DrawsSince(calls) == 0)
  }

  /** One more call: both machines take the same step, or answer differently. */
  lemma StepAgreesIff(h: HashFn, h': HashFn, calls: seq<Call>, s: Machine, call: Call)
    requires SameShort(h, h') && After(calls, s)
    ensures if Deviates(calls, call) then CodedStep(h', s, call).1 != StandardStep(h, s, call).1
            else CodedStep(h', s, call) == StandardStep(h, s, call) && After(calls + [call], CodedStep(h', s, call).0)
  {
    assert (calls + [call])[..|calls|] == calls;
    match call {
      case SeedCall(entropy, pers) =>
        if Seeds(call) && !Deviates(calls, call) {
          SeedSame(h, h', s, entropy, pers);
        }
      case GenerateCall(n, addtl) =>
        SmallCounter(s.working.reseedCounter);
        if Draws(call) && !Deviates(calls, call) {
          GenerateSame(h, h', s.working, n, addtl);
        }
    }
  }

  /** Replies tell whether runs deviate: the states follow. */
  lemma {:induction false} RepliesAgreeIff(h: HashFn, h': HashFn, calls: seq<Call>)
    requires SameShort(h, h')
    ensures |CodedRun(h', NEW, calls).1| == |StandardRun(h, NEW, calls).1| == |calls|
    ensures if Conforms(calls)
            then CodedRun(h', NEW, calls) == StandardRun(h, NEW, calls) && After(calls, StandardRun(h, NEW, calls).0)
            else CodedRun(h', NEW, calls).1 != StandardRun(h, NEW, calls).1
  {
    if calls == [] {
    } else {
      var n := |calls| - 1;
      var before, call := calls[..n], calls[n];
      RepliesAgreeIff(h, h', before);
      assert calls == before + [call];
      var s, replies := StandardRun(h, NEW, before).0, StandardRun(h, NEW, before).1;
      var s', replies' := CodedRun(h', NEW, before).0, CodedRun(h', NEW, before).1;
      RunStep(h, h', calls);
      AppendEqual(replies', CodedStep(h', s', call).1, replies, StandardStep(h, s, call).1);
      if Conforms(before) {
        StepAgreesIff(h, h', before, s, call);
      }
    }
  }

  lemma RunStep(h: HashFn, h': HashFn, calls: seq<Call>)
    requires calls != []
    ensures var n := |calls| - 1;
            var before := StandardRun(h, NEW, calls[..n]);
            var step := StandardStep(h, before.0, calls[n]);
            StandardRun(h, NEW, calls) == (step.0, before.1 + [step.1])
    ensures var n := |calls| - 1;
            var before := CodedRun(h', NEW, calls[..n]);
            var step := CodedStep(h', before.0, calls[n]);
            CodedRun(h', NEW, calls) == (step.0, before.1 + [step.1])
  {
  }

  /** For every sequence of calls to a new generator: replies and state are those of the standard if and only if no
      call deviates. */
  lemma AgreesIff(f: Compression, calls: seq<Call>)
    ensures CodedRun(Coded(f), NEW, calls) == StandardRun(Standard(f), NEW, calls) <==> Conforms(calls)
    ensures CodedRun(Coded(f), NEW, calls).1 == StandardRun(Standard(f), NEW, calls).1 <==> Conforms(calls)
  {
    CodedIsShortStandard(f);
    RepliesAgreeIff(Standard(f), Coded(f), calls);
  }

  /** Any sequence of calls to a generator made for it: its answers and its state are those of the standard if and only
      if no call deviates. */
  method RunFromNew(f: Compression, calls: seq<Call>) returns (d: Drbg, replies: seq<Reply>)
    ensures fresh(d) && d.Valid() && d.ctx.f == f
    ensures (d.Machine(), replies) == StandardRun(Standard(f), NEW, calls) <==> Conforms(calls)
    ensures replies == StandardRun(Standard(f), NEW, calls).1 <==> Conforms(calls)
  {
    d := new Drbg(f);
    replies := Run(d, calls);
    AgreesIff(f, calls);
  }

  lemma ConformsMore(calls: seq<Call>, call: Call)
    ensures Conforms(calls + [call]) <==> Conforms(calls) && !Deviates(calls, call)
    ensures EverSeeded(calls + [call]) <==> Seeds(call) || EverSeeded(calls)
    ensures DrawsSince(calls + [call]) == if Seeds(call) then 0 else DrawsSince(calls) + if Draws(call) then 1 else 0
  {
    assert (calls + [call])[..|calls|] == calls;
  }

  /** A generate call before the first seed, a seed of one octet, or a personalization string of 2^32 + 1 octets. */
  lemma FirstCallDeviates(pers: seq<Byte>)
    requires |pers| == 0x1_0000_0001
    ensures !Conforms([] + [GenerateCall(1, [])])
    ensures !Conforms([] + [SeedCall([0], [])])
    ensures !Conforms([] + [SeedCall(Zeros(48), pers)])
  {
    ConformsMore([], GenerateCall(1, []));
    ConformsMore([], SeedCall([0], []));
    ConformsMore([], SeedCall(Zeros(48), pers));
  }

  /** A seed and then only requests for one octet. */
  ghost predicate SeedThenRequests(calls: seq<Call>) {
    && calls != [] && calls[0] == SeedCall(Zeros(48), [])
    && forall i :: 0 < i < |calls| ==> calls[i] == GenerateCall(1, [])
  }

  lemma {:induction false} RequestsCount(calls: seq<Call>)
    requires SeedThenRequests(calls)
    ensures EverSeeded(calls) && DrawsSince(calls) == |calls| - 1
  {
    if |calls| == 1 {
    } else {
      RequestsCount(calls[..|calls| - 1]);
    }
  }

  lemma OneRequestMore(calls: seq<Call>)
    requires |calls| > 1 && SeedThenRequests(calls)
    ensures Conforms(calls) <==> Conforms(calls[..|calls| - 1]) && |calls| - 2 < INTERVAL
  {
    RequestsCount(calls[..|calls| - 1]);
  }

  /** They conform exactly up to 2^48 requests. */
  lemma {:induction false} RequestsConformIff(calls: seq<Call>)
    requires SeedThenRequests(calls)
    ensures Conforms(calls) <==> |calls| - 1 <= INTERVAL
  {
    if |calls| == 1 {
      assert !Deviates([], calls[0]);
    } else {
      RequestsConformIff(calls[..|calls| - 1]);
      OneRequestMore(calls);
    }
  }

  /** A request for no octets behind them deviates. */
  lemma NoOctetsDeviates(calls: seq<Call>)
    requires SeedThenRequests(calls) && |calls| <= INTERVAL
    ensures !Conforms(calls + [GenerateCall(0, [])])
  {
    RequestsCount(calls);
    ConformsMore(calls, GenerateCall(0, []));
  }

  lemma AddModThrice(v: seq<Byte>, x: nat, y: nat, z: nat, v1: seq<Byte>, v2: seq<Byte>, v3: seq<Byte>)
    requires v1 == AddMod(v, x) && v2 == AddMod(v1, y) && v3 == AddMod(v2, z)
    ensures v3 == AddMod(v, x + y + z)
  {
    AddModTwice(v, x, y);
    AddModTwice(v, x + y, z);
  }

  lemma HashgenCount(h: HashFn, v: seq<Byte>, n: nat, m: nat)
    requires n <= 64 * m < n + 64
    ensures Hashgen(h, v, n) == HashgenBlocks(h, v, m)[..n]
  {
    assert (n + 63) / 64 == m;
  }

  /** Two whole buffers in front of a list. */
  lemma ReadsTwo(a: Slice, b: Slice, list: seq<Slice>, pa: seq<Byte>, pb: seq<Byte>, parts: seq<seq<Byte>>)
    requires Reads(list, parts)
    requires a.off == 0 && a.len <= a.buf.Length && a.buf[..a.len] == pa
    requires b.off == 0 && b.len <= b.buf.Length && b.buf[..b.len] == pb
    ensures Reads([a, b] + list, [pa, pb] + parts)
    ensures Flatten([pa, pb] + parts) == pa + pb + Flatten(parts)
    ensures forall o :: o in Buffers([a, b] + list) ==> o == a.buf || o == b.buf || o in Buffers(list)
  {
    TwoHeads(pa, pb, parts);
    var all, texts := [a, b] + list, [pa, pb] + parts;
    forall i | 0 <= i < |all|
      ensures all[i].off + all[i].len <= all[i].buf.Length
      ensures all[i].buf[all[i].off..all[i].off + all[i].len] == texts[i]
    {
      if i >= 2 {
        assert all[i] == list[i - 2] && texts[i] == parts[i - 2];
      }
    }
  }

  lemma StableTwo(a: Slice, b: Slice, list: seq<Slice>, pa: seq<Byte>, pb: seq<Byte>, parts: seq<seq<Byte>>,
                  out: array<Byte>, pad: array<Byte>)
    requires |list| == |parts| && a.buf != out && a.buf != pad && b.buf == pad != out
    requires b.off == 0 && b.len == |pb|
    requires forall i :: 0 <= i < |list| ==> list[i].buf != out && list[i].buf != pad
    ensures Stable([a, b] + list, [pa, pb] + parts, out, pad, pb)
  {
    var all := [a, b] + list;
    forall i | 2 <= i < |all| ensures all[i].buf != out && all[i].buf != pad {
      assert all[i] == list[i - 2];
    }
  }

  lemma TwoHeads(a: seq<Byte>, b: seq<Byte>, parts: seq<seq<Byte>>)
    ensures Flatten([a, b] + parts) == a + b + Flatten(parts)
  {
    FlattenCons(b, parts);
    FlattenCons(a, [b] + parts);
    assert [a, b] + parts == [a] + ([b] + parts);
    assert a + (b + Flatten(parts)) == a + b + Flatten(parts);
  }

  lemma CounterField(ctr: nat)
    requires ctr < 0x1_0000_0000_0000_0000
    ensures ValueBE(ToBE(ctr, 8)) == ctr
  {
    var q := ValueOfToBE(ctr, 8);
    Pow256Values();
  }

  lemma SmallCounter(n: nat)
    requires n < 0x1_0000_0000_0000_0000
    ensures Wrap64(n) == n
  {
  }

  ghost function Standard(f: Compression): HashFn {
    m => Hash(f, m)
  }

  lemma CodedIsShortStandard(f: Compression)
    ensures SameShort(Standard(f), Coded(f))
  {
    forall m: seq<Byte> | |m| < 0x2000_0000_0000_0000 ensures Standard(f)(m) == Coded(f)(m) {
      HashExact(f, m);
    }
  }

  lemma AppendEqual<T>(a: seq<T>, x: T, b: seq<T>, y: T)
    requires |a| == |b|
    ensures a + [x] == b + [y] <==> a == b && x == y
  {
    if a + [x] == b + [y] {
      assert (a + [x])[..|a|] == a && (b + [y])[..|a|] == b;
      assert (a + [x])[|a|] == x && (b + [y])[|a|] == y;
    }
  }
}
