/** The Keccak sponge (section 4 of FIPS 202) around its permutation, as a streaming hash whose output may
    be squeezed in pieces. The 25 lanes are 200 octets of a little-endian host. */
module Keccak {
  import opened Lists
  import opened Octets
  import opened Sums
  import opened Xor

  type Permutation = f: seq<bv8> -> seq<bv8> | forall s :: |s| == 200 ==> |f(s)| == 200
    witness s => s

  type Lanes = s: seq<bv8> | |s| == 200 witness seq(200, i => 0)

  /** A block exclusive-ored into the front of the state. */
  function Mix(s: Lanes, b: seq<bv8>): (r: Lanes)
    requires |b| <= 200
  {
    XorSeq(s[..|b|], b) + s[|b|..]
  }

  function ZeroState(): Lanes { seq(200, i => 0) }

  /** How a block changes the state. */
  type Absorber = g: (seq<bv8>, seq<bv8>) -> seq<bv8> | forall s, b :: |s| == 200 ==> |g(s, b)| == 200
    witness (s, b) => s

  function AbsorbOne(f: Permutation, s: seq<bv8>, b: seq<bv8>): (r: seq<bv8>)
    ensures |s| == 200 ==> |r| == 200
  {
    if |s| == 200 && |b| <= 200 then f(Mix(s, b)) else s
  }

  function Step(f: Permutation): Absorber {
    (s, b) => AbsorbOne(f, s, b)
  }

  /** From state s, the whole blocks of m from position off on are absorbed. */
  function Absorbed(g: Absorber, s: Lanes, m: seq<bv8>, off: nat, r: nat): Lanes
    requires 0 < r
    decreases |m| - off
  {
    if off + r > |m| then s else Absorbed(g, g(s, m[off..off + r]), m, off + r, r)
  }

  /** What the whole blocks leave over. */
  function Rest(m: seq<bv8>, off: nat, r: nat): (t: seq<bv8>)
    requires 0 < r && off <= |m|
    ensures |t| < r
    decreases |m| - off
  {
    if off + r > |m| then m[off..] else Rest(m, off + r, r)
  }

  /** The domain suffix and the first padding bit, zeros, and the last padding bit. */
  function Padding(suffix: bv8, n: nat): (p: seq<bv8>)
    requires n > 0
    ensures |p| == n
  {
    if n == 1 then [suffix | 0x80] else [suffix] + seq(n - 2, i => 0) + [0x80]
  }

  function Padded(m: seq<bv8>, r: nat, suffix: bv8): seq<bv8>
    requires r > 0
  {
    m + Padding(suffix, r - |Rest(m, 0, r)|)
  }

  /** n octets squeezed from state s. */
  function Squeezed(f: Permutation, r: nat, s: Lanes, n: nat): (z: seq<bv8>)
    requires 0 < r <= 200
    ensures |z| == n
    decreases n
  {
    if n <= r then s[..n] else s[..r] + Squeezed(f, r, f(s), n - r)
  }

  /** The sponge function of section 4 of FIPS 202: absorb the padded message, squeeze n octets. */
  function Sponge(f: Permutation, r: nat, suffix: bv8, m: seq<bv8>, n: nat): seq<bv8>
    requires 0 < r <= 200
  {
    Squeezed(f, r, Absorbed(Step(f), ZeroState(), Padded(m, r, suffix), 0, r), n)
  }

  lemma {:induction false} FromSlice(g: Absorber, s: Lanes, m: seq<bv8>, k: nat, off: nat, r: nat)
    requires 0 < r && k + off <= |m|
    ensures Absorbed(g, s, m[k..], off, r) == Absorbed(g, s, m, k + off, r)
    ensures Rest(m[k..], off, r) == Rest(m, k + off, r)
    decreases |m| - off
  {
    if k + off + r > |m| {
    } else {
      assert m[k..][off..off + r] == m[k + off..k + off + r];
      FromSlice(g, g(s, m[k + off..k + off + r]), m, k, off + r, r);
    }
  }

  /** Appending to a message only affects its last, incomplete block. */
  lemma {:induction false} Append(g: Absorber, s: Lanes, m: seq<bv8>, off: nat, x: seq<bv8>, r: nat)
    requires 0 < r && off <= |m|
    ensures Absorbed(g, s, m + x, off, r) == Absorbed(g, Absorbed(g, s, m, off, r), Rest(m, off, r) + x, 0, r)
    ensures Rest(m + x, off, r) == Rest(Rest(m, off, r) + x, 0, r)
    decreases |m| - off
  {
    if off + r <= |m| {
      assert (m + x)[off..off + r] == m[off..off + r];
      Append(g, g(s, m[off..off + r]), m, off + r, x, r);
    } else {
      assert (m + x)[off..] == m[off..] + x;
      FromSlice(g, s, m + x, off, 0, r);
    }
  }

  /** The length of the incomplete block is what the message length modulo the rate says. */
  lemma {:induction false} RestLength(m: seq<bv8>, off: nat, r: nat) returns (q: nat)
    requires r > 0 && off <= |m|
    ensures |m| - off == q * r + |Rest(m, off, r)|
    decreases |m| - off
  {
    if off + r <= |m| {
      var p := RestLength(m, off + r, r);
      q := p + 1;
      Distribute(p, 1, r);
    } else {
      q := 0;
    }
  }

  lemma NextBlock(g: Absorber, s: Lanes, x: seq<bv8>, off: nat, next: nat, r: nat)
    requires 0 < r && next == off + r <= |x|
    ensures Absorbed(g, s, x, off, r) == Absorbed(g, g(s, x[off..next]), x, next, r)
    ensures Rest(x, off, r) == Rest(x, next, r)
  {
  }

  lemma NoBlock(g: Absorber, s: Lanes, x: seq<bv8>, off: nat, r: nat)
    requires 0 < r && off <= |x| < off + r
    ensures Absorbed(g, s, x, off, r) == s && Rest(x, off, r) == x[off..]
  {
  }

  /** A stored part t and the beginning of x make the first block. */
  lemma FirstBlock(g: Absorber, s: Lanes, t: seq<bv8>, x: seq<bv8>, todo: nat, r: nat)
    requires 0 < r && todo <= |x| && |t| + todo == r
    ensures Absorbed(g, s, t + x, 0, r) == Absorbed(g, g(s, t + x[..todo]), x, todo, r)
    ensures Rest(t + x, 0, r) == Rest(x, todo, r)
  {
    var s' := g(s, t + x[..todo]);
    assert (t + x)[0..r] == t + x[..todo];
    assert (t + x)[r..] == x[todo..];
    FromSlice(g, s', t + x, r, 0, r);
    FromSlice(g, s', x, todo, 0, r);
  }

  /** The last block of the padded message. */
  lemma PaddedBlock(g: Absorber, m: seq<bv8>, r: nat, suffix: bv8, last: seq<bv8>)
    requires 0 < r && last == Rest(m, 0, r) + Padding(suffix, r - |Rest(m, 0, r)|)
    ensures Absorbed(g, ZeroState(), Padded(m, r, suffix), 0, r) == g(Absorbed(g, ZeroState(), m, 0, r), last)
  {
    var s, t := Absorbed(g, ZeroState(), m, 0, r), Rest(m, 0, r);
    Append(g, ZeroState(), m, 0, Padding(suffix, r - |t|), r);
    NextBlock(g, s, last, 0, r, r);
    assert last[0..r] == last;
    NoBlock(g, g(s, last), last, r, r);
  }

  /** The state from which squeezing goes on after n octets. */
  function After(f: Permutation, r: nat, s: Lanes, n: nat): Lanes
    requires 0 < r
    decreases n
  {
    if n == 0 then s else if n <= r then f(s) else After(f, r, f(s), n - r)
  }

  /** The first whole block of output. */
  lemma Peel(f: Permutation, r: nat, s: Lanes, n: nat, k: nat)
    requires 0 < r <= 200 && n == r + k
    ensures After(f, r, s, n) == After(f, r, f(s), k)
    ensures Squeezed(f, r, s, n) == s[..r] + Squeezed(f, r, f(s), k)
  {
    if k == 0 {
      assert s[..r] + [] == s[..r];
    }
  }

  /** n is a multiple of the rate. */
  predicate Whole(n: nat, r: nat)
    requires 0 < r
    decreases n
  {
    n == 0 || (n >= r && Whole(n - r, r))
  }

  lemma {:induction false} WholeIff(n: nat, r: nat)
    requires 0 < r
    ensures Whole(n, r) <==> n % r == 0
    decreases n
  {
    if n < r {
      DivModUnique(n, r, 0, n);
    } else {
      WholeIff(n - r, r);
      Distribute((n - r) / r, 1, r);
      DivModUnique(n, r, (n - r) / r + 1, (n - r) % r);
    }
  }

  lemma {:induction false} WholeAdd(a: nat, b: nat, t: nat, r: nat)
    requires 0 < r && Whole(a, r) && Whole(b, r) && t == a + b
    ensures Whole(t, r)
    decreases a
  {
    if a == 0 {
    } else {
      WholeAdd(a - r, b, t - r, r);
    }
  }

  /** Output may be squeezed in pieces when all but the last are multiples of the rate: after n octets
      squeezing goes on as if from the start. */
  lemma {:induction false} SqueezeSplit(f: Permutation, r: nat, s: Lanes, n: nat, e: nat, t: nat)
    requires 0 < r <= 200 && Whole(n, r) && t == n + e
    ensures Squeezed(f, r, s, t) == Squeezed(f, r, s, n) + Squeezed(f, r, After(f, r, s, n), e)
    ensures After(f, r, s, t) == After(f, r, After(f, r, s, n), e)
    decreases n, 0
  {
    if n > 0 {
      SplitOnce(f, r, s, n - r, n, e, t - r, t);
    } else {
      assert [] + Squeezed(f, r, s, e) == Squeezed(f, r, s, e);
    }
  }

  lemma SplitOnce(f: Permutation, r: nat, s: Lanes, n': nat, n: nat, e: nat, t': nat, t: nat)
    requires 0 < r <= 200 && Whole(n', r) && t' == n' + e && n == r + n' && t == r + t'
    ensures Squeezed(f, r, s, t) == Squeezed(f, r, s, n) + Squeezed(f, r, After(f, r, s, n), e)
    ensures After(f, r, s, t) == After(f, r, After(f, r, s, n), e)
    decreases n', 1
  {
    Peel(f, r, s, n, n');
    Peel(f, r, s, t, t');
    SqueezeSplit(f, r, f(s), n', e, t');
    Join(Squeezed(f, r, s, t), Squeezed(f, r, f(s), t'), s[..r], Squeezed(f, r, f(s), n'),
         Squeezed(f, r, After(f, r, f(s), n'), e));
  }

  lemma Join(x: seq<bv8>, y: seq<bv8>, a: seq<bv8>, b: seq<bv8>, c: seq<bv8>)
    requires x == a + y && y == b + c
    ensures x == (a + b) + c
  {
  }

  /** The octet at place i of a half lane: it is shifted down by 8 * i. */
  method ShiftedOctet(part: bv32, i: nat) returns (octet: bv8)
    requires i < 4
    ensures octet == QuadSeq(OctetsOf(part))[i]
  {
    octet := if i == 0 then Octet0(part) else if i == 1 then Octet1(part) else if i == 2 then Octet2(part)
             else Octet3(part);
  }

  /** A buffer with n octets of s written from position at on. */
  ghost function Written(before: seq<bv8>, at: nat, s: Lanes, n: nat): seq<bv8>
    requires n <= 200 && at + n <= |before|
  {
    before[..at] + s[..n] + before[at + n..]
  }

  lemma WrittenMore(before: seq<bv8>, at: nat, s: Lanes, n: nat, k: nat)
    requires n + k <= 200 && at + n + k <= |before|
    ensures var w := Written(before, at, s, n);
      Written(before, at, s, n + k) == w[..at + n] + s[n..n + k] + w[at + n + k..]
  {
  }

  lemma OneSqueezed(f: Permutation, r: nat, s: Lanes, n: nat, todo: nat)
    requires 0 < r <= 200 && todo == Min(n, r) && n > 0
    ensures Squeezed(f, r, s, n) == s[..todo] + Squeezed(f, r, f(s), n - todo)
    ensures After(f, r, s, n) == After(f, r, f(s), n - todo)
  {
  }

  /** at octets are out, left are to come from cur; together they are all, and squeezing ends at end. */
  ghost predicate Outputs(f: Permutation, r: nat, d: seq<bv8>, at: nat, left: nat, cur: Lanes, all: seq<bv8>,
                          end: Lanes)
  {
    && 0 < r <= 200 && at + left == |d|
    && d[..at] + Squeezed(f, r, cur, left) == all && After(f, r, cur, left) == end
  }

  lemma OutputsNext(f: Permutation, r: nat, d: seq<bv8>, at: nat, left: nat, todo: nat, next: nat, rest: nat,
                    cur: Lanes, all: seq<bv8>, end: Lanes)
    requires Outputs(f, r, d, at, left, cur, all, end) && left > 0
    requires todo == Min(left, r) && next == at + todo && rest == left - todo
    ensures Outputs(f, r, Written(d, at, cur, todo), next, rest, f(cur), all, end)
  {
    OneSqueezed(f, r, cur, left, todo);
    var w := Written(d, at, cur, todo);
    assert w[..next] == d[..at] + cur[..todo];
    Join(all, Squeezed(f, r, cur, left), d[..at], cur[..todo], Squeezed(f, r, f(cur), rest));
  }

  lemma MixIsXored(s: Lanes, src: seq<bv8>, off: nat, r: nat, b: seq<bv8>)
    requires r <= 200 && off + r <= |src| && b == src[off..off + r]
    ensures Xored(s, 0, src, off, r) == Mix(s, b)
  {
  }

  class Context {
    const f: Permutation
    const rword: nat
    const suffix: bv8
    const partial: array<bv8>
    const state: array<bv8>
    var msgLen: nat
    var digestSize: nat
    var squeezeMore: bool

    function Rate(): nat { 8 * rword }

    ghost predicate Valid()
      reads this
    {
      && 1 <= rword <= 24 && partial.Length >= Rate() && state.Length == 200 && partial != state
      && msgLen < 0x1_0000_0000_0000_0000
    }

    /** State and partial block are those of message m. */
    ghost predicate Took(m: seq<bv8>)
      requires Valid()
      reads this, partial, state
    {
      && state[..] == Absorbed(Step(f), ZeroState(), m, 0, Rate())
      && partial[..|Rest(m, 0, Rate())|] == Rest(m, 0, Rate())
    }

    /** The message so far is m. */
    ghost predicate Holds(m: seq<bv8>)
      reads this, partial, state
    {
      Valid() && !squeezeMore && msgLen == |m| && Took(m)
    }

    constructor (f: Permutation, rword: nat, suffix: bv8, digestSize: nat)
      requires 1 <= rword <= 24
      ensures Holds([]) && fresh(partial) && fresh(state)
      ensures this.f == f && this.rword == rword && this.suffix == suffix && this.digestSize == digestSize
    {
      this.f, this.rword, this.suffix, this.digestSize := f, rword, suffix, digestSize;
      partial := new bv8[200];
      state := new bv8[200];
      msgLen, squeezeMore := 0, false;
      new;
      for i := 0 to 200
        modifies state
        invariant forall j :: 0 <= j < i ==> state[j] == 0
      {
        state[i] := 0;
      }
    }

    /** sha3_fill_state_aligned: a block goes into the lanes word by word. */
    method FillStateAligned(src: array<bv8>, off: nat, ghost before: Lanes, ghost b: seq<bv8>)
      requires Valid() && off + Rate() <= src.Length && src != state
      requires before == state[..] && b == src[..][off..off + Rate()]
      modifies state
      ensures state[..] == Mix(before, b)
    {
      for i := 0 to rword
        invariant state[..] == Xored(before, 0, src[..], off, 8 * i)
      {
        XorAt64(state, 8 * i, src, off + 8 * i);
        XoredTwice(before, 0, src[..], off, 8 * i, 8);
      }
      MixIsXored(before, src[..], off, Rate(), b);
    }

    /** sha3_fill_state: the same with words that are put together from octets at any address. */
    method FillState(src: array<bv8>, off: nat, ghost before: Lanes, ghost b: seq<bv8>)
      requires Valid() && off + Rate() <= src.Length && src != state
      requires before == state[..] && b == src[..][off..off + Rate()]
      modifies state
      ensures state[..] == Mix(before, b)
    {
      for i := 0 to rword
        invariant state[..] == Xored(before, 0, src[..], off, 8 * i)
      {
        XorLe64(state, 8 * i, src, off + 8 * i);
        XoredTwice(before, 0, src[..], off, 8 * i, 8);
      }
      MixIsXored(before, src[..], off, Rate(), b);
    }

    method Permute(ghost s: Lanes)
      requires Valid() && state[..] == s
      modifies state
      ensures state[..] == f(s)
    {
      StoreAt(state, 0, f(state[..]));
    }

    method AbsorbBlock(src: array<bv8>, off: nat, next: nat, aligned: bool, ghost s: Lanes, ghost b: seq<bv8>)
      requires Valid() && next == off + Rate() <= src.Length && src != state
      requires state[..] == s && b == src[..][off..next]
      modifies state
      ensures state[..] == Step(f)(s, b)
    {
      if aligned {
        FillStateAligned(src, off, s, b);
      } else {
        FillState(src, off, s, b);
      }
      Permute(Mix(s, b));
    }

    /** The state, with what is to come, leads to goal and rest. */
    ghost predicate Leads(g: Absorber, x: seq<bv8>, off: nat, r: nat, goal: Lanes, rest: seq<bv8>)
      reads this, state
    {
      && off <= |x| && state.Length == 200 && r > 0
      && Absorbed(g, state[..], x, off, r) == goal && Rest(x, off, r) == rest
    }

    method AbsorbNext(inp: array<bv8>, off: nat, next: nat, len: nat, aligned: bool, ghost x: seq<bv8>,
                      ghost goal: Lanes, ghost rest: seq<bv8>)
      requires Valid() && inp != state && next == off + Rate() <= len <= inp.Length && x == inp[..len]
      requires Leads(Step(f), x, off, Rate(), goal, rest)
      modifies state
      ensures Leads(Step(f), x, next, Rate(), goal, rest)
    {
      ghost var s := state[..];
      SliceOfSlice(inp[..], 0, len, off, Rate());
      AbsorbBlock(inp, off, next, aligned, s, x[off..next]);
      LeadsOn(Step(f), s, x, off, next, Rate(), goal, rest);
    }

    lemma LeadsOn(g: Absorber, s: Lanes, x: seq<bv8>, off: nat, next: nat, r: nat, goal: Lanes, rest: seq<bv8>)
      requires 0 < r && next == off + r <= |x| && state.Length == 200 && state[..] == g(s, x[off..next])
      requires Absorbed(g, s, x, off, r) == goal && Rest(x, off, r) == rest
      ensures Leads(g, x, next, r, goal, rest)
    {
      NextBlock(g, s, x, off, next, r);
    }

    /** The loops over whole blocks of the input, from start on. */
    method AbsorbBlocks(inp: array<bv8>, start: nat, len: nat, aligned: bool, ghost x: seq<bv8>, ghost goal: Lanes,
                        ghost rest: seq<bv8>)
      returns (off: nat)
      requires Valid() && inp != state && start <= len <= inp.Length && x == inp[..len]
      requires Leads(Step(f), x, start, Rate(), goal, rest)
      modifies state
      ensures off <= len < off + Rate() && Leads(Step(f), x, off, Rate(), goal, rest)
    {
      off := start;
      while len - off >= Rate()
        invariant off <= len && Leads(Step(f), x, off, Rate(), goal, rest)
      {
        var next := off + Rate();
        AbsorbNext(inp, off, next, len, aligned, x, goal, rest);
        off := next;
      }
    }

    /** The first part of the input completes a stored partial block. */
    method AbsorbPartial(inp: array<bv8>, len: nat, have: nat, todo: nat, ghost t: seq<bv8>, ghost x: seq<bv8>,
                         ghost goal: Lanes, ghost rest: seq<bv8>)
      requires Valid() && inp != state && inp != partial && len <= inp.Length && x == inp[..len]
      requires have == |t| > 0 && have + todo == Rate() && todo <= len && partial[..have] == t
      requires Absorbed(Step(f), state[..], t + x, 0, Rate()) == goal && Rest(t + x, 0, Rate()) == rest
      modifies partial, state
      ensures Leads(Step(f), x, todo, Rate(), goal, rest)
    {
      StoreAt(partial, have, inp[..todo]);
      assert partial[..][0..Rate()] == t + x[..todo];
      FirstBlock(Step(f), state[..], t, x, todo, Rate());
      AbsorbBlock(partial, 0, Rate(), false, state[..], t + x[..todo]);
    }

    /** The octets waiting in the partial block. */
    method Buffered(ghost m: seq<bv8>) returns (have: nat)
      requires Valid() && msgLen == |m|
      ensures have == |Rest(m, 0, Rate())|
    {
      ghost var q := RestLength(m, 0, Rate());
      DivModUnique(|m|, Rate(), q, |Rest(m, 0, Rate())|);
      have := msgLen % Rate();
    }

    /** Whole blocks go into the state, the remainder becomes the partial block. */
    method Process(inp: array<bv8>, len: nat, addr: nat, have: nat, ghost t: seq<bv8>, ghost x: seq<bv8>,
                   ghost goal: Lanes, ghost rest: seq<bv8>)
      requires Valid() && inp != state && inp != partial && len <= inp.Length && x == inp[..len]
      requires have == |t| < Rate() && (have == 0 || have + len >= Rate()) && partial[..have] == t
      requires Absorbed(Step(f), state[..], t + x, 0, Rate()) == goal && Rest(t + x, 0, Rate()) == rest
      modifies partial, state
      ensures state[..] == goal && |rest| <= partial.Length && partial[..|rest|] == rest
    {
      var off := 0;
      if have > 0 {
        off := Rate() - have;
        AbsorbPartial(inp, len, have, off, t, x, goal, rest);
      } else {
        assert t + x == x;
      }
      off := AbsorbBlocks(inp, off, len, (addr + off) % 8 == 0, x, goal, rest);
      NoBlock(Step(f), state[..], x, off, Rate());
      StoreAt(partial, 0, inp[off..len]);
    }

    /** The 64-bit length counter; absorbing ends a squeezing phase. */
    method Count(len: nat, ghost total: nat)
      requires total == msgLen + len < 0x1_0000_0000_0000_0000
      modifies this`msgLen, this`squeezeMore
      ensures msgLen == total && !squeezeMore
    {
      squeezeMore := false;
      msgLen := Wrap64(msgLen + len);
    }

    /** keccak_absorb */
    method Absorb(inp: array<bv8>, len: nat, addr: nat, ghost m: seq<bv8>, ghost x: seq<bv8>)
      requires Holds(m) && len <= inp.Length && inp != partial && inp != state && x == inp[..len]
      requires |m| + len < 0x1_0000_0000_0000_0000
      modifies this`msgLen, this`squeezeMore, partial, state
      ensures Holds(m + x)
    {
      var have := Buffered(m);
      ghost var t := Rest(m, 0, Rate());
      Append(Step(f), ZeroState(), m, 0, x, Rate());
      Count(len, |m + x|);
      ghost var goal, rest := Absorbed(Step(f), ZeroState(), m + x, 0, Rate()), Rest(m + x, 0, Rate());
      if have > 0 && len < Rate() - have {
        Keep(inp, len, have, t, x, goal, rest);
      } else {
        Process(inp, len, addr, have, t, x, goal, rest);
      }
    }

    /** Input that does not fill the partial block is only stored. */
    method Keep(inp: array<bv8>, len: nat, have: nat, ghost t: seq<bv8>, ghost x: seq<bv8>,
                ghost goal: Lanes, ghost rest: seq<bv8>)
      requires Valid() && inp != partial && inp != state && len <= inp.Length && x == inp[..len]
      requires have == |t| && have + len < Rate() && partial[..have] == t
      requires Absorbed(Step(f), state[..], t + x, 0, Rate()) == goal && Rest(t + x, 0, Rate()) == rest
      modifies partial
      ensures state[..] == goal && |rest| <= partial.Length && partial[..|rest|] == rest
    {
      NoBlock(Step(f), state[..], t + x, 0, Rate());
      StoreAt(partial, have, inp[..len]);
      assert partial[..have + len] == t + x;
    }

    /** Squeezing goes on with s. */
    ghost predicate Yields(s: Lanes)
      reads this, state
    {
      Valid() && squeezeMore && f(state[..]) == s
    }

    /** The rest t of a message, padded, goes into the state. */
    method FillPadded(have: nat, ghost t: seq<bv8>, ghost s: Lanes, ghost last: seq<bv8>)
      requires Valid() && have == |t| < Rate() && partial[..have] == t && s == state[..]
      requires last == t + Padding(suffix, Rate() - have)
      modifies this`squeezeMore, partial, state
      ensures Yields(Step(f)(s, last))
    {
      WritePadding(have, t);
      squeezeMore := true;
      FillStateAligned(partial, 0, s, last);
    }

    /** The end of the absorbing phase: the last block is padded and put into the state. */
    method PadLast(ghost m: seq<bv8>)
      requires Holds(m)
      modifies this`squeezeMore, partial, state
      ensures Yields(Absorbed(Step(f), ZeroState(), Padded(m, Rate(), suffix), 0, Rate()))
    {
      var have := Buffered(m);
      ghost var s, t := state[..], Rest(m, 0, Rate());
      ghost var last := t + Padding(suffix, Rate() - have);
      PaddedBlock(Step(f), m, Rate(), suffix, last);
      FillPadded(have, t, s, last);
    }

    method WritePadding(have: nat, ghost t: seq<bv8>)
      requires Valid() && have == |t| < Rate() && partial[..have] == t
      modifies partial
      ensures partial[..][0..0 + Rate()] == t + Padding(suffix, Rate() - have)
    {
      var r := Rate();
      for i := have to r
        invariant partial[..have] == t
        invariant forall j :: have <= j < i ==> partial[j] == 0
      {
        partial[i] := 0;
      }
      partial[have] := suffix;
      partial[r - 1] := partial[r - 1] | 0x80;
      assert (0 as bv8) | 0x80 == 0x80;
    }

    /** le64_to_ptr of the lane at octet n, behind the n octets written before. */
    method WriteLane(digest: array<bv8>, at: nat, n: nat, ghost before: seq<bv8>, ghost s: Lanes)
      requires state.Length == 200 && state[..] == s && n + 8 <= 200 && digest != state
      requires digest.Length == |before| && at + n + 8 <= |before| && digest[..] == Written(before, at, s, n)
      modifies digest
      ensures digest[..] == Written(before, at, s, n + 8)
    {
      ghost var p, q := Load(state, n), Load(state, n + 4);
      HalvesOf(p, q);
      WrittenMore(before, at, s, n, 8);
      assert s[n..n + 8] == QuadSeq(p) + QuadSeq(q);
      Le64ToPtr(digest, at + n, PtrToLe64(state, n));
    }

    /** le32_to_ptr of the low half of that lane. */
    method WriteHalf(digest: array<bv8>, at: nat, n: nat, ghost before: seq<bv8>, ghost s: Lanes)
      requires state.Length == 200 && state[..] == s && n + 8 <= 200 && digest != state
      requires digest.Length == |before| && at + n + 4 <= |before| && digest[..] == Written(before, at, s, n)
      modifies digest
      ensures digest[..] == Written(before, at, s, n + 4)
    {
      ghost var p, q := Load(state, n), Load(state, n + 4);
      HalvesOf(p, q);
      WrittenMore(before, at, s, n, 4);
      assert s[n..n + 4] == QuadSeq(p);
      Le32ToPtr(digest, at + n, Low32(PtrToLe64(state, n)));
    }

    /** The half lane that the last octets come from. */
    method LastPart(n: nat, half: bool, ghost s: Lanes) returns (part: bv32, ghost q: Quad)
      requires state.Length == 200 && state[..] == s && n + 8 <= 200
      ensures OctetsOf(part) == q && QuadSeq(q) == if half then s[n + 4..n + 8] else s[n..n + 4]
    {
      HalvesOf(Load(state, n), Load(state, n + 4));
      var lane := PtrToLe64(state, n);
      part := if half then High32(lane) else Low32(lane);
      q := if half then Load(state, n + 4) else Load(state, n);
    }

    /** The last octets, each shifted out of the half lane. */
    method WriteOctets(digest: array<bv8>, at: nat, n: nat, k: nat, part: bv32, ghost q: Quad, ghost before: seq<bv8>,
                       ghost s: Lanes)
      requires k < 4 && n + 4 <= 200 && OctetsOf(part) == q && QuadSeq(q) == s[n..n + 4]
      requires digest.Length == |before| && at + n + k <= |before| && digest[..] == Written(before, at, s, n)
      modifies digest
      ensures digest[..] == Written(before, at, s, n + k)
    {
      for i := 0 to k
        invariant digest[..] == Written(before, at, s, n + i)
      {
        assert s[n + i] == s[n..n + 4][i];
        var octet := ShiftedOctet(part, i);
        WriteOctet(digest, at, n + i, octet, before, s);
      }
    }

    method WriteOctet(digest: array<bv8>, at: nat, n: nat, octet: bv8, ghost before: seq<bv8>, ghost s: Lanes)
      requires n < 200 && octet == s[n] && digest.Length == |before| && at + n + 1 <= |before|
      requires digest[..] == Written(before, at, s, n)
      modifies digest
      ensures digest[..] == Written(before, at, s, n + 1)
    {
      WrittenMore(before, at, s, n, 1);
      assert s[n..n + 1] == [octet];
      StoreAt(digest, at + n, [octet]);
    }

    /** The first todo octets of the state: whole lanes, half a lane, single octets. */
    method WriteOut(digest: array<bv8>, at: nat, todo: nat, ghost before: seq<bv8>, ghost s: Lanes)
      requires state.Length == 200 && state[..] == s && todo <= 192 && digest != state
      requires digest[..] == before && at + todo <= |before|
      modifies digest
      ensures digest[..] == Written(before, at, s, todo)
    {
      var n := 0;
      while todo - n >= 8
        invariant n <= todo && n % 8 == 0 && digest[..] == Written(before, at, s, n)
      {
        WriteLane(digest, at, n, before, s);
        n := n + 8;
      }
      var half := todo - n >= 4;
      var part; ghost var q;
      part, q := LastPart(n, half, s);
      if half {
        WriteHalf(digest, at, n, before, s);
        n := n + 4;
      }
      WriteOctets(digest, at, n, todo - n, part, q, before, s);
    }

    /** The squeezing loop of keccak_squeeze: each block of output takes a permutation first. */
    method Squeeze(digest: array<bv8>, ghost s: Lanes)
      requires Yields(s) && digest.Length == digestSize && digest != state
      modifies state, digest
      ensures digest[..] == Squeezed(f, Rate(), s, digestSize)
      ensures Yields(After(f, Rate(), s, digestSize))
    {
      var at: nat, left: nat := 0, digestSize;
      ghost var cur: Lanes, end: Lanes := s, After(f, Rate(), s, digestSize);
      ghost var all := Squeezed(f, Rate(), s, digestSize);
      assert digest[..][..0] + all == all;
      while left > 0
        invariant Yields(cur) && Outputs(f, Rate(), digest[..], at, left, cur, all, end)
      {
        var todo := Min(left, Rate());
        var next, rest := at + todo, left - todo;
        SqueezeOne(digest, at, left, todo, next, rest, cur, all, end);
        cur := f(cur);
        at, left := next, rest;
      }
      assert digest[..][..at] + [] == digest[..];
    }

    method SqueezeOne(digest: array<bv8>, at: nat, left: nat, todo: nat, next: nat, rest: nat,
                      ghost cur: Lanes, ghost all: seq<bv8>, ghost end: Lanes)
      requires Yields(cur) && digest != state && left > 0
      requires todo == Min(left, Rate()) && next == at + todo && rest == left - todo
      requires Outputs(f, Rate(), digest[..], at, left, cur, all, end)
      modifies state, digest
      ensures Yields(f(cur)) && Outputs(f, Rate(), digest[..], next, rest, f(cur), all, end)
    {
      ghost var before := digest[..];
      Permute(state[..]);
      WriteOut(digest, at, todo, before, cur);
      OutputsNext(f, Rate(), before, at, left, todo, next, rest, cur, all, end);
    }

    /** keccak_squeeze: the end of absorbing if it was not reached, then output. */
    method Final(digest: array<bv8>, ghost m: seq<bv8>, ghost s: Lanes)
      requires digest.Length == digestSize && digest != state && digest != partial
      requires if squeezeMore then Yields(s)
               else Holds(m) && s == Absorbed(Step(f), ZeroState(), Padded(m, Rate(), suffix), 0, Rate())
      modifies this`squeezeMore, partial, state, digest
      ensures digest[..] == Squeezed(f, Rate(), s, digestSize)
      ensures Yields(After(f, Rate(), s, digestSize))
    {
      if !squeezeMore {
        PadLast(m);
      }
      Squeeze(digest, s);
    }
  }

  /** The message comes in parts at any addresses. */
  method AbsorbAll(c: Context, parts: seq<seq<bv8>>, addrs: seq<nat>)
    requires c.Holds([]) && |addrs| == |parts|
    requires |Flatten(parts)| < 0x1_0000_0000_0000_0000
    modifies c`msgLen, c`squeezeMore, c.partial, c.state
    ensures c.Holds(Flatten(parts))
  {
    for i := 0 to |parts|
      invariant c.Holds(Flatten(parts[..i]))
    {
      FlattenTo(parts, i);
      FlattenPrefix(parts, i + 1);
      var a := ToArray(parts[i]);
      assert a[..|parts[i]|] == parts[i];
      c.Absorb(a, a.Length, addrs[i], Flatten(parts[..i]), parts[i]);
    }
    assert parts[..|parts|] == parts;
  }

  /** n octets, whole blocks, of the output for m are out; s is the state at its start. */
  ghost predicate Squeezing(c: Context, m: seq<bv8>, s: Lanes, n: nat, out: seq<bv8>)
    reads c, c.partial, c.state
  {
    && c.Valid() && s == Absorbed(Step(c.f), ZeroState(), Padded(m, c.Rate(), c.suffix), 0, c.Rate())
    && (if c.squeezeMore then c.Yields(After(c.f, c.Rate(), s, n)) else c.Holds(m) && n == 0)
    && out == Squeezed(c.f, c.Rate(), s, n)
  }

  /** One call for e more octets, after n. */
  method FinalMore(c: Context, e: nat, out: seq<bv8>, ghost m: seq<bv8>, ghost s: Lanes, ghost n: nat, ghost t: nat)
    returns (out': seq<bv8>)
    requires Squeezing(c, m, s, n, out) && Whole(n, c.Rate()) && t == n + e
    modifies c`digestSize, c`squeezeMore, c.partial, c.state
    ensures Squeezing(c, m, s, t, out')
  {
    SqueezeSplit(c.f, c.Rate(), s, n, e, t);
    c.digestSize := e;
    var d := new bv8[e];
    c.Final(d, m, After(c.f, c.Rate(), s, n));
    out' := out + d[..];
  }

  /** A further piece of the output. */
  method NextPiece(c: Context, sizes: seq<nat>, i: nat, out: seq<bv8>, ghost m: seq<bv8>, ghost s: Lanes, ghost n: nat)
    returns (out': seq<bv8>, ghost t: nat)
    requires Squeezing(c, m, s, n, out) && Whole(n, c.Rate())
    requires i < |sizes| && Whole(sizes[i], c.Rate()) && n == Sum(sizes[..i])
    modifies c`digestSize, c`squeezeMore, c.partial, c.state
    ensures t == Sum(sizes[..i + 1]) && Whole(t, c.Rate())
    ensures Squeezing(c, m, s, t, out') == true
  {
    SumTo(sizes, i);
    t := n + sizes[i];
    WholeAdd(n, sizes[i], t, c.Rate());
    out' := FinalMore(c, sizes[i], out, m, s, n, t);
  }

  lemma IsSponge(f: Permutation, r: nat, suffix: bv8, m: seq<bv8>, s: Lanes, n: nat, out: seq<bv8>)
    requires 0 < r <= 200 && s == Absorbed(Step(f), ZeroState(), Padded(m, r, suffix), 0, r)
    requires out == Squeezed(f, r, s, n)
    ensures out == Sponge(f, r, suffix, m, n)
  {
  }

  /** Pieces of output: multiples of the rate, and last octets at the end. */
  method SqueezeAll(c: Context, sizes: seq<nat>, last: nat, ghost m: seq<bv8>, ghost total: nat)
    returns (out: seq<bv8>)
    requires c.Holds(m) && total == Sum(sizes) + last
    requires forall i :: 0 <= i < |sizes| ==> Whole(sizes[i], c.Rate())
    modifies c`digestSize, c`squeezeMore, c.partial, c.state
    ensures out == Sponge(c.f, c.Rate(), c.suffix, m, total)
  {
    out := [];
    ghost var s := Absorbed(Step(c.f), ZeroState(), Padded(m, c.Rate(), c.suffix), 0, c.Rate());
    ghost var n: nat := 0;
    assert Squeezing(c, m, s, n, out);
    for i := 0 to |sizes|
      invariant n == Sum(sizes[..i]) && Whole(n, c.Rate())
      invariant Squeezing(c, m, s, n, out) == true
    {
      out, n := NextPiece(c, sizes, i, out, m, s, n);
    }
    assert sizes[..|sizes|] == sizes;
    out := FinalMore(c, last, out, m, s, n, total);
    IsSponge(c.f, c.Rate(), c.suffix, m, s, total, out);
  }

  /** A message in any parts, and output in pieces that are multiples of the rate, the last one free: the
      pieces are those of one sponge call on the whole message. */
  method Hash(c: Context, parts: seq<seq<bv8>>, addrs: seq<nat>, sizes: seq<nat>, last: nat) returns (out: seq<bv8>)
    requires c.Holds([]) && |addrs| == |parts|
    requires |Flatten(parts)| < 0x1_0000_0000_0000_0000
    requires forall i :: 0 <= i < |sizes| ==> sizes[i] % c.Rate() == 0
    modifies c, c.partial, c.state
    ensures out == Sponge(c.f, c.Rate(), c.suffix, Flatten(parts), Sum(sizes) + last)
  {
    AbsorbAll(c, parts, addrs);
    forall i | 0 <= i < |sizes| ensures Whole(sizes[i], c.Rate()) {
      WholeIff(sizes[i], c.Rate());
    }
    out := SqueezeAll(c, sizes, last, Flatten(parts), Sum(sizes) + last);
  }
}
