/** Octets seen as integers, and octet strings seen as big-endian numbers. */
module Octets {

  type Byte = x: int | 0 <= x < 256

  /** Wrap-around of 32-bit and 64-bit unsigned integers. */
  function Wrap32(n: nat): (r: nat)
    ensures r < 0x1_0000_0000
  {
    n % 0x1_0000_0000
  }

  function Wrap64(n: nat): (r: nat)
    ensures r < 0x1_0000_0000_0000_0000
  {
    n % 0x1_0000_0000_0000_0000
  }

  function Min(a: nat, b: nat): nat {
    if a <= b then a else b
  }

  /** 256 to the power n. */
  function Pow256(n: nat): (p: nat)
    ensures p >= 1
  {
    if n == 0 then 1 else 256 * Pow256(n - 1)
  }

  /** The number an octet string denotes, most significant octet first. */
  function ValueBE(s: seq<Byte>): nat {
    if s == [] then 0 else ValueBE(s[..|s| - 1]) * 256 + s[|s| - 1]
  }

  /** The n low-order octets of v, most significant first. */
  function ToBE(v: nat, n: nat): (s: seq<Byte>)
    ensures |s| == n
  {
    if n == 0 then [] else ToBE(v / 256, n - 1) + [v % 256]
  }

  function Zeros(n: nat): (s: seq<Byte>)
    ensures |s| == n
    ensures forall i :: 0 <= i < n ==> s[i] == 0
  {
    seq(n, i => 0)
  }

  lemma {:induction false} ToBEOfValue(s: seq<Byte>, v: nat, k: nat)
    requires v == ValueBE(s) + k * Pow256(|s|)
    ensures ToBE(v, |s|) == s
  {
    if s == [] {
    } else {
      var s', p := s[..|s| - 1], Pow256(|s| - 1);
      var hi := ValueBE(s') + k * p;
      assert k * (256 * p) == (k * p) * 256;
      assert v == hi * 256 + s[|s| - 1];
      assert v / 256 == hi && v % 256 == s[|s| - 1];
      ToBEOfValue(s', hi, k);
      assert s == s' + [s[|s| - 1]];
    }
  }

  /** Multiples of 256 to the power n do not reach the n low-order octets. */
  lemma {:induction false} ToBEIgnoresHigh(v: nat, n: nat, k: nat)
    ensures ToBE(v + k * Pow256(n), n) == ToBE(v, n)
  {
    if n == 0 {
    } else {
      var p := Pow256(n - 1);
      MulAssoc(k, p);
      assert (v + (k * p) * 256) / 256 == v / 256 + k * p;
      assert (v + (k * p) * 256) % 256 == v % 256;
      ToBEIgnoresHigh(v / 256, n - 1, k);
    }
  }

  lemma MulAssoc(k: int, p: int)
    ensures k * (256 * p) == (k * p) * 256
  {
  }

  lemma Distribute(x: int, y: int, p: int)
    ensures (x + y) * p == x * p + y * p
  {
  }

  /** v is the number its n low-order octets denote, plus a multiple q of 256 to
      the power n. */
  lemma {:induction false} ValueOfToBE(v: nat, n: nat) returns (q: nat)
    ensures v == ValueBE(ToBE(v, n)) + q * Pow256(n)
  {
    if n == 0 {
      q := v;
    } else {
      q := ValueOfToBE(v / 256, n - 1);
      var s := ToBE(v, n);
      assert s[..|s| - 1] == ToBE(v / 256, n - 1);
      MulAssoc(q, Pow256(n - 1));
    }
  }

  lemma DivModUnique(v: nat, d: nat, q: nat, r: nat)
    requires d >= 1 && v == q * d + r && r < d
    ensures v % d == r && v / d == q
  {
    var q', r' := v / d, v % d;
    assert q' * d + r' == q * d + r;
    if q < q' {
      MulAtLeast(q' - q, d);
    } else if q' < q {
      MulAtLeast(q - q', d);
    }
  }

  lemma {:induction false} MulAtLeast(k: nat, d: nat)
    requires k >= 1
    ensures k * d >= d
  {
    if k <= 1 {
    } else {
      MulAtLeast(k - 1, d);
      assert k * d == (k - 1) * d + d;
    }
  }

  lemma {:induction false} Pow256Values()
    ensures Pow256(1) == 256 && Pow256(4) == 0x1_0000_0000 && Pow256(8) == 0x1_0000_0000_0000_0000
  {
    assert Pow256(2) == 256 * Pow256(1);
    assert Pow256(4) == 256 * Pow256(3);
    assert Pow256(6) == 256 * Pow256(5);
    assert Pow256(8) == 256 * Pow256(7);
  }

  lemma SliceOfSlice<T>(s: seq<T>, a: nat, n: nat, k: nat, j: nat)
    requires a + n <= |s| && k + j <= n
    ensures s[a..a + n][k..k + j] == s[a + k..a + k + j]
  {
    var l, r := s[a..a + n][k..k + j], s[a + k..a + k + j];
    forall i | 0 <= i < j ensures l[i] == r[i] { }
  }

  /** memcpy between distinct buffers. */
  method CopyInto(dst: array<Byte>, at: nat, src: array<Byte>, off: nat, len: nat)
    requires at + len <= dst.Length && off + len <= src.Length && src != dst
    modifies dst
    ensures dst[..] == old(dst[..at]) + src[off..off + len] + old(dst[at + len..])
  {
    for i := 0 to len
      invariant dst[..at] == old(dst[..at])
      invariant dst[at..at + i] == src[off..off + i]
      invariant dst[at + len..] == old(dst[at + len..])
    {
      dst[at + i] := src[off + i];
    }
  }

  /** memset to zero of the octets from lo up to hi. */
  method Wipe(dst: array<Byte>, lo: nat, hi: nat)
    requires lo <= hi <= dst.Length
    modifies dst
    ensures dst[..] == old(dst[..lo]) + Zeros(hi - lo) + old(dst[hi..])
  {
    for i := lo to hi
      invariant dst[..lo] == old(dst[..lo])
      invariant forall j :: lo <= j < i ==> dst[j] == 0
      invariant dst[hi..] == old(dst[hi..])
    {
      dst[i] := 0;
    }
  }
}
