/** The ChaCha20 DRNG: output and rekeying from one keystream, and the block inputs of whole runs. */
module ChaChaDrng {
  import opened Lists
  import opened Octets
  import opened Xor
  import opened ChaCha20

  function NextNonce(nonce: nat): nat { NoncePlus(nonce, 1) }

  function NoncePlus(nonce: nat, d: nat): nat { (nonce + d) % 0x1_0000_0000_0000_0000_0000_0000 }

  /** Where the key update takes its 32 octets from, after n octets of output. */
  function RekeyAt(n: nat): nat {
    var whole, rem := n / 64 * 64, n % 64;
    if rem == 0 then n
    else if rem <= 32 then whole + 4 * ((rem + 3) / 4)
    else whole + 64
  }

  /** The update reads eight whole words of one block, word w of block q on, behind the output:
      no word that reached the caller, not even in part, enters the key. */
  lemma RekeyBehindOutput(n: nat) returns (q: nat, w: nat)
    ensures n <= RekeyAt(n) == 64 * q + 4 * w && w + 8 <= 16
  {
    q, w := n / 64, 0;
    var r := n % 64;
    if 32 < r {
      q := q + 1;
    } else {
      w := (r + 3) / 4;
    }
  }

  /** It is the first such place: no keystream is skipped that could have been used. */
  lemma RekeyIsFirstFit(n: nat, q: nat, w: nat)
    requires n <= 64 * q + 4 * w && w + 8 <= 16
    ensures RekeyAt(n) <= 64 * q + 4 * w
  {
    var p, r := n / 64, n % 64;
    assert n == 64 * p + r;
    if p == q {
      assert (r + 3) / 4 <= w;
    }
  }

  /** Blocks one generate call draws. */
  function Drawn(n: nat): nat { BlocksFor(RekeyAt(n) + 32) }

  /** The state after an update that takes the keystream at pos. */
  function Rekey(f: BlockFunction, at: Position, pos: nat): Position
    requires |at.key| == 32
  {
    Position(XorSeq(at.key, Keystream(f, at, pos, 32)), Wrap32(at.counter + BlocksFor(pos + 32)), NextNonce(at.nonce))
  }

  function Injected(key: seq<bv8>, chunk: seq<bv8>): (r: seq<bv8>)
    requires |chunk| <= |key|
    ensures |r| == |key|
  {
    XorSeq(key[..|chunk|], chunk) + key[|chunk|..]
  }

  /** Seeding: key-sized chunks go into the key, each followed by an update. */
  function Seeded(f: BlockFunction, at: Position, data: seq<bv8>): (r: Position)
    requires |at.key| == 32
    ensures |r.key| == 32
    decreases |data|
  {
    if data == [] then at
    else
      var n := Min(|data|, 32);
      Seeded(f, Rekey(f, at.(key := Injected(at.key, data[..n])), 0), data[n..])
  }

  /** The block inputs of an update period: one nonce, k counters. */
  ghost function Epoch(nonce: nat, counter: nat, k: nat): (s: seq<(nat, nat)>)
    ensures |s| == k
  {
    seq(k, j requires 0 <= j < k => (nonce, Wrap32(counter + j)))
  }

  /** The block inputs of successive update periods of ks[0], ks[1], ... blocks. */
  ghost function Epochs(nonce: nat, counter: nat, ks: seq<nat>): seq<(nat, nat)>
    decreases |ks|
  {
    if ks == [] then []
    else Epoch(nonce, counter, ks[0]) + Epochs(NextNonce(nonce), Wrap32(counter + ks[0]), ks[1..])
  }

  /** No update period is longer than the counter has values. */
  ghost predicate WithinCounter(ks: seq<nat>)
  {
    if ks == [] then true else ks[0] <= 0x1_0000_0000 && WithinCounter(ks[1..])
  }

  lemma NoncePlusZero(nonce: nat)
    requires nonce < 0x1_0000_0000_0000_0000_0000_0000
    ensures NoncePlus(nonce, 0) == nonce
  {
  }

  lemma NonceShift(nonce: nat, d: nat)
    ensures NoncePlus(NextNonce(nonce), d) == NoncePlus(nonce, d + 1)
  {
  }

  lemma {:induction false} EpochsNonces(nonce: nat, counter: nat, ks: seq<nat>, i: nat)
    returns (d: nat)
    requires nonce < 0x1_0000_0000_0000_0000_0000_0000
    requires i < |Epochs(nonce, counter, ks)|
    ensures d < |ks| && Epochs(nonce, counter, ks)[i].0 == NoncePlus(nonce, d)
    decreases |ks|
  {
    if i < ks[0] {
      NoncePlusZero(nonce);
      d := 0;
    } else {
      var e := EpochsNonces(NextNonce(nonce), Wrap32(counter + ks[0]), ks[1..], i - ks[0]);
      NonceShift(nonce, e);
      d := e + 1;
    }
  }

  lemma EpochDistinct(nonce: nat, counter: nat, k: nat)
    ensures Distinct(Epoch(nonce, counter, k)) <==> k <= 0x1_0000_0000
  {
    var s := Epoch(nonce, counter, k);
    if k > 0x1_0000_0000 {
      assert s[0] == (nonce, Wrap32(counter));
      assert s[0x1_0000_0000] == (nonce, Wrap32(counter + 0x1_0000_0000));
    } else {
      forall i, j | 0 <= i < j < k
        ensures s[i] != s[j]
      {
        assert Wrap32(counter + i) != Wrap32(counter + j);
      }
    }
  }

  lemma LaterNonce(nonce: nat, d: nat)
    requires nonce < 0x1_0000_0000_0000_0000_0000_0000
    requires d + 1 < 0x1_0000_0000_0000_0000_0000_0000
    ensures NoncePlus(NextNonce(nonce), d) != nonce
  {
  }

  /** No (nonce, counter) pair repeats in a run of at most 2^96 updates, exactly when no update
      period takes more than 2^32 blocks; that the counter is never reset does not matter. */
  lemma {:induction false} NoReuse(nonce: nat, counter: nat, ks: seq<nat>)
    requires nonce < 0x1_0000_0000_0000_0000_0000_0000
    requires |ks| <= 0x1_0000_0000_0000_0000_0000_0000
    ensures Distinct(Epochs(nonce, counter, ks)) <==> WithinCounter(ks)
    decreases |ks|
  {
    if ks == [] {
    } else {
      var n', c' := NextNonce(nonce), Wrap32(counter + ks[0]);
      var head, tail := Epoch(nonce, counter, ks[0]), Epochs(n', c', ks[1..]);
      EpochDistinct(nonce, counter, ks[0]);
      NoReuse(n', c', ks[1..]);
      forall i, j | 0 <= i < |head| && 0 <= j < |tail|
        ensures head[i] != tail[j]
      {
        var d := EpochsNonces(n', c', ks[1..], j);
        LaterNonce(nonce, d);
      }
      DistinctConcat(head, tail);
      assert Epochs(nonce, counter, ks) == head + tail;
      assert WithinCounter(ks) <==> ks[0] <= 0x1_0000_0000 && WithinCounter(ks[1..]);
    }
  }

  lemma DistinctConcat<T>(a: seq<T>, b: seq<T>)
    requires forall i, j :: 0 <= i < |a| && 0 <= j < |b| ==> a[i] != b[j]
    ensures Distinct(a + b) <==> Distinct(a) && Distinct(b)
  {
    var c := a + b;
    if Distinct(c) {
      forall i, j | 0 <= i < j < |b| ensures b[i] != b[j] { assert c[|a| + i] != c[|a| + j]; }
      forall i, j | 0 <= i < j < |a| ensures a[i] != a[j] { assert c[i] != c[j]; }
    }
  }

  lemma NextNonceValue(v: nat)
    requires v < 0x1_0000_0000_0000_0000_0000_0000
    ensures NextNonce(v) == if v == 0xffff_ffff_ffff_ffff_ffff_ffff then 0 else v + 1
  {
  }

  lemma Wrap32Next(x: nat)
    requires x < 0x1_0000_0000
    ensures Wrap32(x + 1) == if x == 0xffff_ffff then 0 else x + 1
  {
  }

  /** The carry runs from word to word. */
  lemma NonceStep(a: nat, b: nat, c: nat)
    requires a < 0x1_0000_0000 && b < 0x1_0000_0000 && c < 0x1_0000_0000
    ensures var a' := Wrap32(a + 1);
            var b' := if a' == 0 then Wrap32(b + 1) else b;
            var c' := if a' == 0 && b' == 0 then Wrap32(c + 1) else c;
            a' < 0x1_0000_0000 && b' < 0x1_0000_0000 && c' < 0x1_0000_0000
            && Nonce96(a', b', c') == NextNonce(Nonce96(a, b, c))
  {
    Wrap32Next(a);
    Wrap32Next(b);
    Wrap32Next(c);
    NextNonceValue(Nonce96(a, b, c));
  }

  lemma RekeyXor(key: seq<bv8>, buf: seq<bv8>, lo: nat)
    requires |key| == 32 && lo + 32 <= |buf|
    ensures Xored(key, 0, buf, lo, 32) == XorSeq(key, buf[lo..lo + 32])
  {
  }

  /** Where in the keystream of its period an update reads. */
  function UpdateAt(blocks: nat, used: nat): nat
    requires used <= 8 ==> blocks > 0
  {
    if used <= 8 then 64 * (blocks - 1) + 4 * used else 64 * blocks
  }

  lemma ExtraBlock(f: BlockFunction, at: Position, blocks: nat, tmp: seq<bv8>)
    requires tmp == Keystream(f, Advance(at, blocks), 0, 64)
    ensures tmp[0..32] == Keystream(f, at, 64 * blocks, 32)
    ensures BlocksFor(64 * blocks + 32) == blocks + 1
    ensures Advance(Advance(at, blocks), 1) == Advance(at, blocks + 1)
    ensures Epoch(at.nonce, at.counter, blocks + 1)
         == Epoch(at.nonce, at.counter, blocks) + [(at.nonce, Wrap32(at.counter + blocks))]
  {
    AdvanceStream(f, at, blocks, 0, 64);
    StreamSplit(f, at, 64 * blocks, 32, 32);
  }

  lemma LastBlock(f: BlockFunction, at: Position, blocks: nat, buf: seq<bv8>, used: nat, pos: nat)
    requires blocks > 0 && buf == Keystream(f, at, 64 * (blocks - 1), 64) && used <= 8
    requires pos == 64 * (blocks - 1) + 4 * used
    ensures buf[4 * used..4 * used + 32] == Keystream(f, at, pos, 32)
    ensures BlocksFor(pos + 32) == blocks
  {
  }

  ghost function Ones(k: nat): seq<nat> { seq(k, i => 1) }

  /** Key-sized chunks of a seed of n octets. */
  function ChunksFor(n: nat): nat { (n + 31) / 32 }

  lemma InjectedXor(key: seq<bv8>, data: seq<bv8>, off: nat, chunk: seq<bv8>)
    requires |key| == 32 && |chunk| <= 32 && off + |chunk| <= |data| && chunk == data[off..off + |chunk|]
    ensures Xored(key, 0, data, off, |chunk|) == Injected(key, chunk)
  {
  }

  /** The first chunk of what is left of a seed. */
  lemma SeedStep(f: BlockFunction, at: Position, data: seq<bv8>, off: nat, todo: nat, drawn: seq<(nat, nat)>)
    requires |at.key| == 32 && off < |data| && todo == Min(|data| - off, 32)
    ensures var next := Rekey(f, at.(key := Injected(at.key, data[off..off + todo])), 0);
      && Seeded(f, at, data[off..]) == Seeded(f, next, data[off + todo..])
      && drawn + Epochs(at.nonce, at.counter, Ones(ChunksFor(|data| - off)))
      == drawn + Epoch(at.nonce, at.counter, 1)
       + Epochs(next.nonce, next.counter, Ones(ChunksFor(|data| - off - todo)))
  {
    SeededStep(f, at, data[off..], data[off..off + todo], data[off + todo..]);
    EpochsStep(at.nonce, at.counter, |data| - off, todo, drawn);
  }

  lemma SeededStep(f: BlockFunction, at: Position, rest: seq<bv8>, first: seq<bv8>, after: seq<bv8>)
    requires |at.key| == 32 && rest != [] && rest == first + after && |first| == Min(|rest|, 32)
    ensures Seeded(f, at, rest) == Seeded(f, Rekey(f, at.(key := Injected(at.key, first)), 0), after)
  {
    assert rest[..|first|] == first && rest[|first|..] == after;
  }

  /** The update period of the first chunk of n octets. */
  lemma EpochsStep(nonce: nat, counter: nat, n: nat, todo: nat, drawn: seq<(nat, nat)>)
    requires n > 0 && todo == Min(n, 32)
    ensures drawn + Epochs(nonce, counter, Ones(ChunksFor(n)))
         == drawn + Epoch(nonce, counter, 1)
          + Epochs(NextNonce(nonce), Wrap32(counter + 1), Ones(ChunksFor(n - todo)))
  {
    assert Ones(ChunksFor(n))[1..] == Ones(ChunksFor(n - todo));
  }

  lemma StreamStep(f: BlockFunction, at: Position, i: nat, before: seq<bv8>, rest: seq<bv8>, after: seq<bv8>)
    requires 64 * i + 64 <= |rest| && before == Keystream(f, at, 0, 64 * i) + rest[64 * i..]
    requires after == before[..64 * i] + Keystream(f, Advance(at, i), 0, 64) + before[64 * i + 64..]
    ensures after == Keystream(f, at, 0, 64 * (i + 1)) + rest[64 * (i + 1)..]
    ensures Advance(Advance(at, i), 1) == Advance(at, i + 1)
    ensures Epoch(at.nonce, at.counter, i + 1)
         == Epoch(at.nonce, at.counter, i) + [(at.nonce, Wrap32(at.counter + i))]
  {
    AdvanceStream(f, at, i, 0, 64);
    StreamSplit(f, at, 0, 64 * i, 64);
  }

  lemma TailStep(f: BlockFunction, at: Position, i: nat, before: seq<bv8>, rest: seq<bv8>, len: nat)
    requires len <= |rest| && 0 < len - 64 * i < 64 && before == Keystream(f, at, 0, 64 * i) + rest[64 * i..]
    ensures Keystream(f, Advance(at, i), 0, 64) == Keystream(f, at, 64 * i, 64)
    ensures before[..64 * i] + Keystream(f, at, 64 * i, 64)[..len - 64 * i] + before[len..]
         == Keystream(f, at, 0, len) + rest[len..]
    ensures Advance(Advance(at, i), 1) == Advance(at, i + 1)
    ensures Epoch(at.nonce, at.counter, i + 1)
         == Epoch(at.nonce, at.counter, i) + [(at.nonce, Wrap32(at.counter + i))]
  {
    AdvanceStream(f, at, i, 0, 64);
    StreamSplit(f, at, 0, 64 * i, len - 64 * i);
    StreamSplit(f, at, 64 * i, len - 64 * i, 64 - (len - 64 * i));
  }

  lemma TailWords(len: nat, i: nat)
    requires 0 < len - 64 * i < 64
    ensures UpdateAt(i + 1, (len - 64 * i + 3) / 4) == RekeyAt(len)
  {
    assert len / 64 == i && len % 64 == len - 64 * i;
  }

  class Drng {
    const cc: State

    ghost predicate Valid()
      reads cc
    {
      cc.Valid()
    }

    constructor (f: BlockFunction)
      ensures Valid() && fresh(cc) && fresh(cc.key) && cc.f == f && cc.drawn == []
      ensures cc.counter == 1 && cc.Nonce() == 0 && forall i :: 0 <= i < 32 ==> cc.key[i] == 0
    {
      cc := new State(f);
    }

    /** Eight words of src, from word w on, exclusive-ored into the key. */
    method MixIntoKey(src: array<bv8>, w: nat, ghost key: seq<bv8>, ghost words: seq<bv8>)
      requires Valid() && 4 * w + 32 <= src.Length && src != cc.key
      requires key == cc.key[..] && words == src[..][4 * w..4 * w + 32]
      modifies cc.key
      ensures cc.key[..] == XorSeq(key, words)
    {
      for i := 0 to 8
        invariant cc.key[..] == Xored(old(cc.key[..]), 0, src[..], 4 * w, 4 * i)
      {
        XorAt32(cc.key, 4 * i, src, 4 * (i + w));
        XoredTwice(old(cc.key[..]), 0, src[..], 4 * w, 4 * i, 4);
      }
      RekeyXor(key, src[..], 4 * w);
    }

    /** The 96-bit increment over three 32-bit words. */
    method IncrementNonce()
      requires Valid()
      modifies cc`n0, cc`n1, cc`n2
      ensures Valid() && cc.Nonce() == NextNonce(old(cc.Nonce()))
    {
      NonceStep(cc.n0, cc.n1, cc.n2);
      cc.n0 := Wrap32(cc.n0 + 1);
      if cc.n0 == 0 {
        cc.n1 := Wrap32(cc.n1 + 1);
        if cc.n1 == 0 {
          cc.n2 := Wrap32(cc.n2 + 1);
        }
      }
    }

    /** The update period began at at and drew blocks blocks. */
    ghost predicate InPeriod(at: Position, blocks: nat, earlier: seq<(nat, nat)>)
      reads cc, cc.key
    {
      && Valid() && cc.At() == Advance(at, blocks)
      && cc.drawn == earlier + Epoch(at.nonce, at.counter, blocks)
    }

    /** The key took the keystream at pos; the nonce is still that of the period. */
    ghost predicate Mixed(at: Position, pos: nat, earlier: seq<(nat, nat)>)
      reads cc, cc.key
    {
      && Valid() && |at.key| == 32 && cc.Nonce() == at.nonce
      && cc.key[..] == XorSeq(at.key, Keystream(cc.f, at, pos, 32))
      && cc.counter == Wrap32(at.counter + BlocksFor(pos + 32))
      && cc.drawn == earlier + Epoch(at.nonce, at.counter, BlocksFor(pos + 32))
    }

    method MixNewBlock(ghost at: Position, ghost blocks: nat, ghost earlier: seq<(nat, nat)>, ghost pos: nat)
      requires InPeriod(at, blocks, earlier) && pos == 64 * blocks
      modifies cc`counter, cc`drawn, cc.key
      ensures Mixed(at, pos, earlier)
    {
      var tmp := new bv8[64];
      cc.Block(tmp, 0);
      ExtraBlock(cc.f, at, blocks, tmp[..]);
      MixIntoKey(tmp, 0, at.key, Keystream(cc.f, at, pos, 32));
    }

    method MixLastBlock(buf: array<bv8>, used: nat, ghost at: Position, ghost blocks: nat,
                        ghost earlier: seq<(nat, nat)>, ghost pos: nat)
      requires InPeriod(at, blocks, earlier) && used <= 8 && buf != cc.key && buf.Length == 64
      requires blocks > 0 && buf[..] == Keystream(cc.f, at, 64 * (blocks - 1), 64)
      requires pos == UpdateAt(blocks, used)
      modifies cc.key
      ensures Mixed(at, pos, earlier)
    {
      LastBlock(cc.f, at, blocks, buf[..], used, pos);
      MixIntoKey(buf, used, at.key, Keystream(cc.f, at, pos, 32));
    }

    /** lc_cc20_drng_update, at the end of an update period whose last block is in buf. */
    method Update(buf: array?<bv8>, used: nat, ghost at: Position, ghost blocks: nat,
                  ghost earlier: seq<(nat, nat)>, ghost pos: nat)
      requires InPeriod(at, blocks, earlier)
      requires used <= 8 ==> buf != null && buf != cc.key && buf.Length == 64
      requires used <= 8 ==> blocks > 0 && buf[..] == Keystream(cc.f, at, 64 * (blocks - 1), 64)
      requires pos == UpdateAt(blocks, used)
      modifies cc, cc.key
      ensures Valid() && cc.At() == Rekey(cc.f, at, pos)
      ensures cc.drawn == earlier + Epoch(at.nonce, at.counter, BlocksFor(pos + 32))
    {
      if used > 8 {
        MixNewBlock(at, blocks, earlier, pos);
      } else {
        MixLastBlock(buf, used, at, blocks, earlier, pos);
      }
      IncrementNonce();
    }

    method SeedChunk(inbuf: array<bv8>, off: nat, todo: nat, ghost chunk: seq<bv8>)
      requires Valid() && inbuf != cc.key && todo <= 32 && off + todo <= inbuf.Length
      requires chunk == inbuf[..][off..off + todo]
      modifies cc, cc.key
      ensures Valid()
      ensures cc.At() == Rekey(cc.f, old(cc.At()).(key := Injected(old(cc.At()).key, chunk)), 0)
      ensures cc.drawn == old(cc.drawn) + Epoch(old(cc.Nonce()), old(cc.counter), 1)
    {
      InjectedXor(cc.key[..], inbuf[..], off, chunk);
      Xor8(cc.key, 0, inbuf, off, todo);
      ghost var at := cc.At();
      assert Advance(at, 0) == at;
      assert cc.drawn == cc.drawn + Epoch(at.nonce, at.counter, 0);
      Update(null, 16, at, 0, cc.drawn, 0);
    }

    /** lc_cc20_drng_seed */
    method Seed(inbuf: array<bv8>)
      requires Valid() && inbuf != cc.key
      modifies cc, cc.key
      ensures Valid() && cc.At() == Seeded(cc.f, old(cc.At()), inbuf[..])
      ensures cc.drawn
           == old(cc.drawn) + Epochs(old(cc.Nonce()), old(cc.counter), Ones(ChunksFor(inbuf.Length)))
    {
      ghost var at, data := cc.At(), inbuf[..];
      ghost var all := cc.drawn + Epochs(at.nonce, at.counter, Ones(ChunksFor(|data|)));
      var off := 0;
      assert data[0..] == data;
      while off < inbuf.Length
        invariant 0 <= off <= inbuf.Length && Valid()
        invariant Seeded(cc.f, cc.At(), data[off..]) == Seeded(cc.f, at, data)
        invariant cc.drawn + Epochs(cc.Nonce(), cc.counter, Ones(ChunksFor(|data| - off))) == all
      {
        var todo := Min(inbuf.Length - off, 32);
        ghost var here, drawn := cc.At(), cc.drawn;
        SeedChunk(inbuf, off, todo, data[off..off + todo]);
        SeedStep(cc.f, here, data, off, todo, drawn);
        off := off + todo;
      }
      assert cc.drawn + [] == cc.drawn;
    }

    /** i whole blocks of the update period that began at at are in out. */
    ghost predicate Streaming(out: array<bv8>, i: nat, at: Position, earlier: seq<(nat, nat)>, rest: seq<bv8>)
      reads cc, cc.key, out
    {
      && Valid() && cc.At() == Advance(at, i)
      && cc.drawn == earlier + Epoch(at.nonce, at.counter, i)
      && 64 * i <= |rest| && out[..] == Keystream(cc.f, at, 0, 64 * i) + rest[64 * i..]
    }

    /** The next block goes straight into the output or by way of the aligned buffer. */
    method EmitBlock(out: array<bv8>, outAddr: nat, buf: array<bv8>, pos: nat)
      requires Valid() && out != cc.key && buf != cc.key && buf != out && buf.Length == 64 && pos + 64 <= out.Length
      modifies cc`counter, cc`drawn, out, buf
      ensures Valid() && cc.At() == Advance(old(cc.At()), 1)
      ensures out[..] == old(out[..])[..pos] + Keystream(cc.f, old(cc.At()), 0, 64) + old(out[..])[pos + 64..]
      ensures cc.drawn == old(cc.drawn) + [(old(cc.At()).nonce, old(cc.counter))]
    {
      if outAddr % 4 != 0 {
        cc.Block(buf, 0);
        StoreAt(out, pos, buf[..]);
      } else {
        cc.Block(out, pos);
      }
    }

    /** One whole block of the output. */
    method GenerateBlock(out: array<bv8>, outAddr: nat, buf: array<bv8>, i: nat,
                         ghost at: Position, ghost earlier: seq<(nat, nat)>, ghost rest: seq<bv8>)
      requires out != cc.key && buf != cc.key && buf != out && buf.Length == 64
      requires Streaming(out, i, at, earlier, rest) && 64 * i + 64 <= |rest|
      modifies cc`counter, cc`drawn, out, buf
      ensures Streaming(out, i + 1, at, earlier, rest)
    {
      ghost var before := out[..];
      EmitBlock(out, outAddr, buf, 64 * i);
      StreamStep(cc.f, at, i, before, rest, out[..]);
    }

    method GenerateBlocks(out: array<bv8>, outAddr: nat, buf: array<bv8>, len: nat,
                          ghost at: Position, ghost earlier: seq<(nat, nat)>, ghost rest: seq<bv8>)
      returns (i: nat)
      requires Valid() && len <= out.Length && out != cc.key && buf != cc.key && buf != out && buf.Length == 64
      requires at == cc.At() && earlier == cc.drawn && rest == out[..]
      modifies cc`counter, cc`drawn, out, buf
      ensures 64 * i <= len < 64 * i + 64 && Streaming(out, i, at, earlier, rest)
    {
      i := 0;
      assert Advance(at, 0) == at && cc.drawn == earlier + Epoch(at.nonce, at.counter, 0);
      while len - 64 * i >= 64
        invariant 0 <= 64 * i <= len && Streaming(out, i, at, earlier, rest)
      {
        GenerateBlock(out, outAddr + 64 * i, buf, i, at, earlier, rest);
        i := i + 1;
      }
    }

    /** The last, incomplete block; used counts the words the caller gets, whole or in part. */
    method GenerateTail(out: array<bv8>, len: nat, buf: array<bv8>, i: nat,
                        ghost at: Position, ghost earlier: seq<(nat, nat)>, ghost rest: seq<bv8>)
      returns (used: nat)
      requires out != cc.key && buf != cc.key && buf != out && buf.Length == 64
      requires Streaming(out, i, at, earlier, rest) && 0 < len - 64 * i < 64 && len <= |rest|
      modifies cc`counter, cc`drawn, out, buf
      ensures Valid() && cc.At() == Advance(at, i + 1)
      ensures cc.drawn == earlier + Epoch(at.nonce, at.counter, i + 1)
      ensures buf[..] == Keystream(cc.f, at, 64 * i, 64)
      ensures out[..] == Keystream(cc.f, at, 0, len) + rest[len..]
      ensures used == (len - 64 * i + 3) / 4
    {
      ghost var before := out[..];
      cc.Block(buf, 0);
      TailStep(cc.f, at, i, before, rest, len);
      StoreAt(out, 64 * i, buf[..len - 64 * i]);
      used := (len - 64 * i + 3) / 4;
    }

    /** lc_cc20_drng_generate */
    method Generate(out: array<bv8>, outAddr: nat, len: nat)
      requires Valid() && len <= out.Length && out != cc.key
      modifies cc, cc.key, out
      ensures Valid() && cc.At() == Rekey(cc.f, old(cc.At()), RekeyAt(len))
      ensures out[..] == Keystream(cc.f, old(cc.At()), 0, len) + old(out[..])[len..]
      ensures cc.drawn == old(cc.drawn) + Epoch(old(cc.Nonce()), old(cc.counter), Drawn(len))
    {
      var buf := new bv8[64];
      ghost var at, earlier, rest := cc.At(), cc.drawn, out[..];
      var i := GenerateBlocks(out, outAddr, buf, len, at, earlier, rest);
      ghost var blocks;
      var used;
      used, blocks := FinishOutput(out, len, buf, i, at, earlier, rest);
      Update(buf, used, at, blocks, earlier, RekeyAt(len));
    }

    /** What is left after the whole blocks. */
    method FinishOutput(out: array<bv8>, len: nat, buf: array<bv8>, i: nat,
                        ghost at: Position, ghost earlier: seq<(nat, nat)>, ghost rest: seq<bv8>)
      returns (used: nat, ghost blocks: nat)
      requires out != cc.key && buf != cc.key && buf != out && buf.Length == 64
      requires Streaming(out, i, at, earlier, rest) && 64 * i <= len < 64 * i + 64 && len <= |rest|
      modifies cc`counter, cc`drawn, out, buf
      ensures InPeriod(at, blocks, earlier)
      ensures used <= 8 ==> blocks > 0 && buf[..] == Keystream(cc.f, at, 64 * (blocks - 1), 64)
      ensures out[..] == Keystream(cc.f, at, 0, len) + rest[len..]
      ensures RekeyAt(len) == UpdateAt(blocks, used)
    {
      used, blocks := 16, i;
      if len - 64 * i > 0 {
        used := GenerateTail(out, len, buf, i, at, earlier, rest);
        blocks := i + 1;
        TailWords(len, i);
      }
    }
  }

  datatype Call = Seed(data: seq<bv8>) | Generate(len: nat)

  /** The block counts of the update periods of a call. */
  ghost function Periods(c: Call): seq<nat> {
    match c
    case Seed(data) => Ones(ChunksFor(|data|))
    case Generate(len) => [Drawn(len)]
  }

  ghost function RunPeriods(calls: seq<Call>): seq<nat> {
    if calls == [] then [] else RunPeriods(calls[..|calls| - 1]) + Periods(calls[|calls| - 1])
  }

  /** One call on the state value, and what it hands out. */
  function After(f: BlockFunction, at: Position, c: Call): (r: Position)
    requires |at.key| == 32
    ensures |r.key| == 32
  {
    match c
    case Seed(data) => Seeded(f, at, data)
    case Generate(len) => Rekey(f, at, RekeyAt(len))
  }

  function Output(f: BlockFunction, at: Position, c: Call): seq<bv8> {
    match c
    case Seed(_) => []
    case Generate(len) => Keystream(f, at, 0, len)
  }

  /** A whole run on the state value: the state reached, and what each call handed out. */
  function AfterAll(f: BlockFunction, at: Position, calls: seq<Call>): (r: Position)
    requires |at.key| == 32
    ensures |r.key| == 32
  {
    if calls == [] then at else After(f, AfterAll(f, at, calls[..|calls| - 1]), calls[|calls| - 1])
  }

  function Outputs(f: BlockFunction, at: Position, calls: seq<Call>): seq<seq<bv8>>
    requires |at.key| == 32
  {
    if calls == [] then []
    else
      var front := calls[..|calls| - 1];
      Outputs(f, at, front) + [Output(f, AfterAll(f, at, front), calls[|calls| - 1])]
  }

  lemma DrawnBound(n: nat)
    ensures Drawn(n) <= 0x1_0000_0000 <==> n <= 0x40_0000_0000 - 32
  {
    var q, w := RekeyBehindOutput(n);
    if n <= 0x40_0000_0000 - 32 {
      RekeyIsFirstFit(n, 0xffff_ffff, 8);
    }
  }

  /** No request exceeds 2^38 - 32 octets. */
  ghost predicate AllShort(calls: seq<Call>) {
    forall i :: 0 <= i < |calls| && calls[i].Generate? ==> calls[i].len <= 0x40_0000_0000 - 32
  }

  /** The periods of a run fit the counter exactly when no request asks for more than 2^38 - 32 octets. */
  lemma {:induction false} ShortRequests(calls: seq<Call>)
    ensures WithinCounter(RunPeriods(calls))
       <==> AllShort(calls)
  {
    if calls == [] {
    } else {
      var front, last := calls[..|calls| - 1], calls[|calls| - 1];
      ShortRequests(front);
      WithinConcat(RunPeriods(front), Periods(last));
      match last {
        case Seed(data) => OnesWithin(ChunksFor(|data|));
        case Generate(len) => DrawnBound(len);
      }
      assert forall i :: 0 <= i < |front| ==> calls[i] == front[i];
    }
  }

  lemma {:induction false} WithinConcat(ks: seq<nat>, ls: seq<nat>)
    ensures WithinCounter(ks + ls) <==> WithinCounter(ks) && WithinCounter(ls)
  {
    if ks == [] {
      assert ks + ls == ls;
    } else {
      assert (ks + ls)[1..] == ks[1..] + ls;
      WithinConcat(ks[1..], ls);
    }
  }

  lemma {:induction false} OnesWithin(k: nat)
    ensures WithinCounter(Ones(k))
  {
    if k == 0 {
    } else {
      assert Ones(k)[1..] == Ones(k - 1);
      OnesWithin(k - 1);
    }
  }

  /** Nonce and counter behind the given update periods. */
  ghost function EndNonce(nonce: nat, ks: seq<nat>): nat
    decreases |ks|
  {
    if ks == [] then nonce else EndNonce(NextNonce(nonce), ks[1..])
  }

  ghost function EndCounter(counter: nat, ks: seq<nat>): nat
    decreases |ks|
  {
    if ks == [] then counter else EndCounter(Wrap32(counter + ks[0]), ks[1..])
  }

  lemma {:induction false} EpochsConcat(nonce: nat, counter: nat, ks: seq<nat>, ls: seq<nat>)
    ensures Epochs(nonce, counter, ks + ls)
         == Epochs(nonce, counter, ks) + Epochs(EndNonce(nonce, ks), EndCounter(counter, ks), ls)
    decreases |ks|
  {
    if ks == [] {
      assert ks + ls == ls;
    } else {
      assert (ks + ls)[1..] == ks[1..] + ls;
      EpochsConcat(NextNonce(nonce), Wrap32(counter + ks[0]), ks[1..], ls);
    }
  }

  lemma {:induction false} EndConcat(nonce: nat, counter: nat, ks: seq<nat>, ls: seq<nat>)
    ensures EndNonce(nonce, ks + ls) == EndNonce(EndNonce(nonce, ks), ls)
    ensures EndCounter(counter, ks + ls) == EndCounter(EndCounter(counter, ks), ls)
    decreases |ks|
  {
    if ks == [] {
      assert ks + ls == ls;
    } else {
      assert (ks + ls)[1..] == ks[1..] + ls;
      EndConcat(NextNonce(nonce), Wrap32(counter + ks[0]), ks[1..], ls);
    }
  }

  /** A call ends where its update periods end. */
  lemma {:induction false} SeededEnd(f: BlockFunction, at: Position, data: seq<bv8>)
    requires |at.key| == 32
    ensures Seeded(f, at, data).nonce == EndNonce(at.nonce, Ones(ChunksFor(|data|)))
    ensures Seeded(f, at, data).counter == EndCounter(at.counter, Ones(ChunksFor(|data|)))
    decreases |data|
  {
    if data == [] {
    } else {
      var n, k := Min(|data|, 32), ChunksFor(|data|);
      assert Ones(k)[1..] == Ones(k - 1) && ChunksFor(|data| - n) == k - 1;
      SeededEnd(f, Rekey(f, at.(key := Injected(at.key, data[..n])), 0), data[n..]);
    }
  }

  lemma StepEnd(f: BlockFunction, at: Position, c: Call)
    requires |at.key| == 32
    ensures After(f, at, c).nonce == EndNonce(at.nonce, Periods(c))
    ensures After(f, at, c).counter == EndCounter(at.counter, Periods(c))
  {
    match c {
      case Seed(data) => SeededEnd(f, at, data);
      case Generate(len) => assert [Drawn(len)][1..] == [];
    }
  }

  lemma SinglePeriod(nonce: nat, counter: nat, k: nat)
    ensures Epochs(nonce, counter, [k]) == Epoch(nonce, counter, k)
  {
    assert [k][1..] == [];
  }

  method Perform(d: Drng, c: Call) returns (output: seq<bv8>)
    requires d.Valid()
    modifies d.cc, d.cc.key
    ensures d.Valid() && d.cc.At() == After(d.cc.f, old(d.cc.At()), c) && output == Output(d.cc.f, old(d.cc.At()), c)
    ensures d.cc.drawn == old(d.cc.drawn) + Epochs(old(d.cc.Nonce()), old(d.cc.counter), Periods(c))
  {
    match c {
      case Seed(data) =>
        var a := ToArray(data);
        d.Seed(a);
        output := [];
      case Generate(len) =>
        var a := new bv8[len];
        SinglePeriod(d.cc.Nonce(), d.cc.counter, Drawn(len));
        ghost var at := d.cc.At();
        d.Generate(a, 0, len);
        output := a[..];
        assert output == Keystream(d.cc.f, at, 0, len);
    }
  }

  ghost predicate Performed(d: Drng, at: Position, calls: seq<Call>, outputs: seq<seq<bv8>>)
    reads d.cc, d.cc.key
  {
    && d.Valid() && |at.key| == 32
    && d.cc.At() == AfterAll(d.cc.f, at, calls) && outputs == Outputs(d.cc.f, at, calls)
    && d.cc.drawn == Epochs(at.nonce, at.counter, RunPeriods(calls))
    && d.cc.Nonce() == EndNonce(at.nonce, RunPeriods(calls))
    && d.cc.counter == EndCounter(at.counter, RunPeriods(calls))
  }

  lemma RunSnoc(f: BlockFunction, at: Position, front: seq<Call>, c: Call)
    requires |at.key| == 32
    ensures AfterAll(f, at, front + [c]) == After(f, AfterAll(f, at, front), c)
    ensures Outputs(f, at, front + [c]) == Outputs(f, at, front) + [Output(f, AfterAll(f, at, front), c)]
  {
    assert (front + [c])[..|front|] == front;
  }

  lemma PeriodsSnoc(nonce: nat, counter: nat, front: seq<Call>, c: Call, here: Position)
    requires here.nonce == EndNonce(nonce, RunPeriods(front))
    requires here.counter == EndCounter(counter, RunPeriods(front))
    ensures Epochs(nonce, counter, RunPeriods(front + [c]))
         == Epochs(nonce, counter, RunPeriods(front)) + Epochs(here.nonce, here.counter, Periods(c))
    ensures EndNonce(nonce, RunPeriods(front + [c])) == EndNonce(here.nonce, Periods(c))
    ensures EndCounter(counter, RunPeriods(front + [c])) == EndCounter(here.counter, Periods(c))
  {
    assert (front + [c])[..|front|] == front;
    assert RunPeriods(front + [c]) == RunPeriods(front) + Periods(c);
    EpochsConcat(nonce, counter, RunPeriods(front), Periods(c));
    EndConcat(nonce, counter, RunPeriods(front), Periods(c));
  }

  method PerformNext(d: Drng, c: Call, outputs: seq<seq<bv8>>, ghost at: Position, ghost front: seq<Call>)
    returns (outputs': seq<seq<bv8>>)
    requires Performed(d, at, front, outputs)
    modifies d.cc, d.cc.key
    ensures Performed(d, at, front + [c], outputs')
  {
    ghost var here := d.cc.At();
    RunSnoc(d.cc.f, at, front, c);
    PeriodsSnoc(at.nonce, at.counter, front, c, here);
    StepEnd(d.cc.f, here, c);
    var output := Perform(d, c);
    outputs' := outputs + [output];
  }

  /** Any run of calls from a fresh state: states and outputs are those of the state value, and the
      block inputs are pairwise distinct exactly when every request is short enough. */
  method Run(d: Drng, calls: seq<Call>) returns (outputs: seq<seq<bv8>>)
    requires d.Valid() && d.cc.drawn == []
    modifies d.cc, d.cc.key
    ensures d.Valid() && d.cc.At() == AfterAll(d.cc.f, old(d.cc.At()), calls)
    ensures outputs == Outputs(d.cc.f, old(d.cc.At()), calls)
    ensures d.cc.drawn == Epochs(old(d.cc.Nonce()), old(d.cc.counter), RunPeriods(calls))
    ensures |RunPeriods(calls)| <= 0x1_0000_0000_0000_0000_0000_0000 ==>
              (Distinct(d.cc.drawn) <==> AllShort(calls))
  {
    outputs := [];
    ghost var at := d.cc.At();
    for i := 0 to |calls|
      invariant Performed(d, at, calls[..i], outputs) == true
    {
      assert calls[..i + 1] == calls[..i] + [calls[i]];
      outputs := PerformNext(d, calls[i], outputs, at, calls[..i]);
    }
    assert calls[..|calls|] == calls;
    RunDistinct(at.nonce, at.counter, calls);
  }

  lemma RunDistinct(nonce: nat, counter: nat, calls: seq<Call>)
    requires nonce < 0x1_0000_0000_0000_0000_0000_0000
    ensures |RunPeriods(calls)| <= 0x1_0000_0000_0000_0000_0000_0000 ==>
              (Distinct(Epochs(nonce, counter, RunPeriods(calls))) <==> AllShort(calls))
  {
    ShortRequests(calls);
    if |RunPeriods(calls)| <= 0x1_0000_0000_0000_0000_0000_0000 {
      NoReuse(nonce, counter, RunPeriods(calls));
    }
  }
}
