/** The ChaCha20 stream cipher around its block function (sections 2.3 and 2.4 of RFC 7539). */
module ChaCha20 {
  import opened Octets
  import opened Xor

  /** Key, counter and nonce to the 64 octets of one keystream block. */
  type BlockFunction = f: (seq<bv8>, nat, nat) -> seq<bv8> | forall k, c, n :: |f(k, c, n)| == 64
    witness (k, c, n) => seq(64, i => 0)

  /** Three 32-bit words as one number, least significant first. */
  function Nonce96(n0: nat, n1: nat, n2: nat): nat {
    n0 + 0x1_0000_0000 * n1 + 0x1_0000_0000_0000_0000 * n2
  }

  /** What the next block is computed from. */
  datatype Position = Position(key: seq<bv8>, counter: nat, nonce: nat)

  function Advance(at: Position, blocks: nat): Position {
    at.(counter := Wrap32(at.counter + blocks))
  }

  /** Octet i of the keystream: block i / 64 under counter + i / 64 modulo 2^32. */
  function KeyOctet(f: BlockFunction, at: Position, i: nat): bv8 {
    f(at.key, Wrap32(at.counter + i / 64), at.nonce)[i % 64]
  }

  function Keystream(f: BlockFunction, at: Position, from: nat, n: nat): (s: seq<bv8>)
    ensures |s| == n
  {
    seq(n, i requires 0 <= i < n => KeyOctet(f, at, from + i))
  }

  function Crypted(f: BlockFunction, at: Position, text: seq<bv8>): (r: seq<bv8>)
    ensures |r| == |text|
  {
    XorSeq(text, Keystream(f, at, 0, |text|))
  }

  /** The number of blocks that hold n octets. */
  function BlocksFor(n: nat): nat { (n + 63) / 64 }

  lemma AdvanceOctet(f: BlockFunction, at: Position, k: nat, i: nat)
    ensures KeyOctet(f, Advance(at, k), i) == KeyOctet(f, at, 64 * k + i)
  {
    assert (64 * k + i) / 64 == k + i / 64 && (64 * k + i) % 64 == i % 64;
    assert Wrap32(Wrap32(at.counter + k) + i / 64) == Wrap32(at.counter + k + i / 64);
  }

  lemma AdvanceStream(f: BlockFunction, at: Position, k: nat, from: nat, n: nat)
    ensures Keystream(f, Advance(at, k), from, n) == Keystream(f, at, 64 * k + from, n)
  {
    forall i | 0 <= i < n
      ensures Keystream(f, Advance(at, k), from, n)[i] == Keystream(f, at, 64 * k + from, n)[i]
    {
      AdvanceOctet(f, at, k, from + i);
    }
  }

  lemma StreamSplit(f: BlockFunction, at: Position, from: nat, n: nat, m: nat)
    ensures Keystream(f, at, from, n + m) == Keystream(f, at, from, n) + Keystream(f, at, from + n, m)
  {
  }

  /** A stretch inside one block. */
  lemma StreamOfBlock(f: BlockFunction, at: Position, lo: nat, n: nat)
    requires lo + n <= 64
    ensures Keystream(f, at, lo, n) == f(at.key, Wrap32(at.counter), at.nonce)[lo..lo + n]
  {
    forall i | 0 <= i < n
      ensures Keystream(f, at, lo, n)[i] == f(at.key, Wrap32(at.counter), at.nonce)[lo..lo + n][i]
    {
      assert (lo + i) / 64 == 0 && (lo + i) % 64 == lo + i;
      assert KeyOctet(f, at, lo + i) == f(at.key, Wrap32(at.counter), at.nonce)[lo + i];
    }
  }

  lemma XorConcat(a: seq<bv8>, b: seq<bv8>, k: seq<bv8>, l: seq<bv8>)
    requires |a| == |k| && |b| == |l|
    ensures XorSeq(a + b, k + l) == XorSeq(a, k) + XorSeq(b, l)
  {
  }

  lemma XorTwice(a: seq<bv8>, k: seq<bv8>)
    requires |a| == |k|
    ensures XorSeq(XorSeq(a, k), k) == a
  {
  }

  lemma XoredMiddle(a: seq<bv8>, text: seq<bv8>, c: seq<bv8>, k: seq<bv8>)
    requires |text| <= |k|
    ensures Xored(a + text + c, |a|, k, 0, |text|) == a + XorSeq(text, k[..|text|]) + c
  {
  }

  /** From equal start states a second encryption undoes the first, whatever the length. */
  lemma Involution(f: BlockFunction, at: Position, text: seq<bv8>)
    ensures Crypted(f, at, Crypted(f, at, text)) == text
  {
    XorTwice(text, Keystream(f, at, 0, |text|));
  }

  lemma AdvanceTwice(at: Position, n: nat, m: nat)
    requires n % 64 == 0
    ensures 64 * BlocksFor(n) == n
    ensures Advance(Advance(at, BlocksFor(n)), BlocksFor(m)) == Advance(at, BlocksFor(n + m))
  {
    BlocksSum(n, m);
  }

  lemma BlocksSum(n: nat, m: nat)
    requires n % 64 == 0
    ensures 64 * BlocksFor(n) == n && BlocksFor(n + m) == BlocksFor(n) + BlocksFor(m)
  {
  }

  /** Two calls equal one call when the first takes whole blocks. */
  lemma SplitAtBlocks(f: BlockFunction, at: Position, a: seq<bv8>, b: seq<bv8>)
    requires |a| % 64 == 0
    ensures Crypted(f, at, a + b) == Crypted(f, at, a) + Crypted(f, Advance(at, BlocksFor(|a|)), b)
    ensures Advance(Advance(at, BlocksFor(|a|)), BlocksFor(|b|)) == Advance(at, BlocksFor(|a + b|))
  {
    AdvanceTwice(at, |a|, |b|);
    AdvanceStream(f, at, BlocksFor(|a|), 0, |b|);
    StreamSplit(f, at, 0, |a|, |b|);
    XorConcat(a, b, Keystream(f, at, 0, |a|), Keystream(f, at, |a|, |b|));
  }

  /** After a first part that ends inside a block, the second call does not continue the keystream:
      it skips to the next block. */
  lemma SplitInsideBlockSkips(f: BlockFunction, at: Position, a: seq<bv8>, b: seq<bv8>)
    requires |a| % 64 != 0
    ensures Crypted(f, Advance(at, BlocksFor(|a|)), b)
         == XorSeq(b, Keystream(f, at, |a| + (64 - |a| % 64), |b|))
  {
    AdvanceStream(f, at, BlocksFor(|a|), 0, |b|);
  }

  lemma CryptStep(f: BlockFunction, at: Position, text: seq<bv8>, done: nat, todo: nat,
                  rest: seq<bv8>, o: seq<bv8>, o': seq<bv8>)
    requires done % 64 == 0 && 0 < todo <= 64 && done + todo <= |text| <= |rest|
    requires o == Crypted(f, at, text[..done]) + rest[done..]
    requires o' == o[..done] + Crypted(f, Advance(at, BlocksFor(done)), text[done..done + todo]) + o[done + todo..]
    ensures o' == Crypted(f, at, text[..done + todo]) + rest[done + todo..]
    ensures Advance(Advance(at, BlocksFor(done)), 1) == Advance(at, BlocksFor(done + todo))
  {
    AdvanceTwice(at, done, todo);
    SplitAtBlocks(f, at, text[..done], text[done..done + todo]);
    assert text[..done + todo] == text[..done] + text[done..done + todo];
    assert o[done + todo..] == rest[done + todo..];
  }

  ghost predicate Progress(f: BlockFunction, at: Position, text: seq<bv8>, rest: seq<bv8>, done: nat,
                           inp: seq<bv8>, out: seq<bv8>) {
    && done <= |text| && |text| <= |inp| && |text| <= |rest|
    && out == Crypted(f, at, text[..done]) + rest[done..]
    && forall j :: done <= j < |text| ==> inp[j] == text[j]
  }

  class State {
    const f: BlockFunction
    const key: array<bv8>
    var counter: nat
    var n0: nat
    var n1: nat
    var n2: nat

    /** Every (nonce, counter) pair the block function was given. */
    ghost var drawn: seq<(nat, nat)>

    ghost predicate Valid()
      reads this
    {
      && key.Length == 32
      && counter < 0x1_0000_0000
      && n0 < 0x1_0000_0000 && n1 < 0x1_0000_0000 && n2 < 0x1_0000_0000
    }

    function Nonce(): nat
      reads this
    {
      Nonce96(n0, n1, n2)
    }

    ghost function At(): Position
      reads this, key
    {
      Position(key[..], counter, Nonce())
    }

    /** cc20_init and the zeroization before it: constants, key and nonce zero, counter one. */
    constructor (f: BlockFunction)
      ensures Valid() && fresh(key) && this.f == f && drawn == []
      ensures counter == 1 && Nonce() == 0 && forall i :: 0 <= i < 32 ==> key[i] == 0
    {
      this.f := f;
      key := new bv8[32];
      counter, n0, n1, n2 := 1, 0, 0, 0;
      drawn := [];
      new;
      for i := 0 to 32
        modifies key
        invariant forall j :: 0 <= j < i ==> key[j] == 0
      {
        key[i] := 0;
      }
    }

    /** cc20_block: one block into out, then the counter step, which wraps at 2^32. */
    method Block(out: array<bv8>, pos: nat)
      requires Valid() && pos + 64 <= out.Length && out != key
      modifies this`counter, this`drawn, out
      ensures Valid() && At() == Advance(old(At()), 1)
      ensures out[..] == old(out[..pos]) + Keystream(f, old(At()), 0, 64) + old(out[pos + 64..])
      ensures drawn == old(drawn) + [(Nonce(), old(counter))]
    {
      StreamOfBlock(f, At(), 0, 64);
      drawn := drawn + [(Nonce(), counter)];
      StoreAt(out, pos, f(key[..], counter, Nonce()));
      counter := Wrap32(counter + 1);
    }

    /** One turn of the loop of cc20_crypt: todo octets from done on. */
    method CryptBlock(inp: array<bv8>, out: array<bv8>, outAddr: nat, ks: array<bv8>, done: nat, todo: nat,
                      ghost text: seq<bv8>, ghost before: seq<bv8>)
      requires Valid() && ks.Length == 64 && todo <= 64
      requires done + todo <= inp.Length && done + todo <= out.Length
      requires text == inp[done..done + todo] && before == out[..]
      requires key != ks && key != out && ks != out && ks != inp
      modifies this`counter, this`drawn, ks, out
      ensures Valid() && At() == Advance(old(At()), 1)
      ensures out[..] == before[..done] + Crypted(f, old(At()), text) + before[done + todo..]
      ensures forall j :: done + todo <= j < inp.Length ==> inp[j] == old(inp[j])
    {
      ghost var at := At();
      Block(ks, 0);
      StreamSplit(f, at, 0, todo, 64 - todo);
      assert ks[..][..todo] == Keystream(f, at, 0, todo);
      if inp != out {
        StoreAt(out, done, inp[done..done + todo]);
      }
      assert out[..] == before[..done] + text + before[done + todo..];
      XoredMiddle(before[..done], text, before[done + todo..], ks[..]);
      Xor64(out, done, outAddr + done, ks, 0, 0, todo);
    }

    /** A turn of the loop keeps: the octets before done are the result, those behind are untouched. */
    method CryptRound(inp: array<bv8>, out: array<bv8>, outAddr: nat, ks: array<bv8>, len: nat, done: nat,
                      ghost at: Position, ghost text: seq<bv8>, ghost rest: seq<bv8>)
      returns (done': nat)
      requires Valid() && ks.Length == 64 && key != ks && key != out && ks != out && ks != inp
      requires done < len == |text| <= |rest| == out.Length && len <= inp.Length && done % 64 == 0
      requires At() == Advance(at, BlocksFor(done))
      requires Progress(f, at, text, rest, done, inp[..], out[..])
      modifies this`counter, this`drawn, ks, out
      ensures done < done' <= len && (done' < len ==> done' % 64 == 0)
      ensures Valid() && At() == Advance(at, BlocksFor(done'))
      ensures Progress(f, at, text, rest, done', inp[..], out[..])
    {
      var todo := Min(len - done, 64);
      ghost var o := out[..];
      CryptBlock(inp, out, outAddr, ks, done, todo, text[done..done + todo], o);
      CryptStep(f, at, text, done, todo, rest, o, out[..]);
      done' := done + todo;
    }

    /** cc20_crypt, in place or into another buffer. */
    method Crypt(inp: array<bv8>, out: array<bv8>, outAddr: nat, len: nat)
      requires Valid() && len <= inp.Length && len <= out.Length && key != out
      modifies this`counter, this`drawn, out
      ensures Valid() && At() == Advance(old(At()), BlocksFor(len))
      ensures out[..] == Crypted(f, old(At()), old(inp[..len])) + old(out[len..])
    {
      var ks := new bv8[64];
      ghost var at, text, rest := At(), inp[..len], out[..];
      var done := 0;
      assert Advance(at, 0) == at;
      assert Progress(f, at, text, rest, 0, inp[..], out[..]);
      while done < len
        invariant done <= len && (done < len ==> done % 64 == 0)
        invariant Valid() && At() == Advance(at, BlocksFor(done))
        invariant Progress(f, at, text, rest, done, inp[..], out[..])
      {
        done := CryptRound(inp, out, outAddr, ks, len, done, at, text, rest);
      }
      assert text[..len] == text;
    }
  }
}
