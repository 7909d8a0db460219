/** Choosing a place of a ring by masking a 32-bit counter. */
module Masks {
  import opened Octets

  /** Bitwise and. */
  function Masked(a: nat, mask: nat): (r: nat)
    ensures r <= mask
    decreases mask
  {
    if mask == 0 then 0 else 2 * Masked(a / 2, mask / 2) + (a % 2) * (mask % 2)
  }

  /** The place of ticket idx among n. */
  function Place(idx: nat, n: nat): (r: nat)
    requires n > 0
    ensures r < n
  {
    Masked(idx, n - 1)
  }

  predicate PowerOfTwo(n: nat) {
    n == 1 || (n > 1 && n % 2 == 0 && PowerOfTwo(n / 2))
  }

  lemma HalfResidue(a: nat, h: nat)
    requires h > 0
    ensures a % (2 * h) == 2 * ((a / 2) % h) + a % 2
  {
    var b := a / 2;
    var q, m := b / h, b % h;
    assert b == h * q + m;
    assert h * q + h * q == (2 * h) * q;
    assert a == (2 * h) * q + (2 * m + a % 2);
    DivModUnique(a, 2 * h, q, 2 * m + a % 2);
  }

  /** For a power of two the mask gives the residue. */
  lemma {:induction false} PlaceIsResidue(a: nat, n: nat)
    requires PowerOfTwo(n)
    ensures Place(a, n) == a % n
  {
    if n == 1 {
    } else {
      PlaceIsResidue(a / 2, n / 2);
      assert (n - 1) / 2 == n / 2 - 1 && (n - 1) % 2 == 1;
      HalfResidue(a, n / 2);
    }
  }

  /** If every place is reached by its own number, there are a power of two of them. */
  lemma {:induction false} FixedOnlyByPower(n: nat)
    requires n > 0 && forall i :: 0 <= i < n ==> Place(i, n) == i
    ensures PowerOfTwo(n)
  {
    if n == 1 {
    } else {
      assert Place(1, n) == 1;
      forall i | 0 <= i < n / 2 ensures Place(i, n / 2) == i {
        assert Place(2 * i, n) == 2 * i;
        assert (n - 1) / 2 == n / 2 - 1;
      }
      FixedOnlyByPower(n / 2);
    }
  }

  lemma {:induction false} PlaceOfZero(n: nat)
    requires n > 0
    ensures Place(0, n) == 0
  {
    MaskedZero(n - 1);
  }

  lemma {:induction false} MaskedZero(mask: nat)
    ensures Masked(0, mask) == 0
  {
    if mask == 0 {
    } else {
      MaskedZero(mask / 2);
    }
  }

  function NextPlace(place: nat, n: nat): nat {
    if place + 1 == n then 0 else place + 1
  }

  /** The ticket after idx is for the place after that of idx. */
  ghost predicate GoesOn(idx: nat, n: nat)
    requires 0 < n
  {
    Place(Wrap32(idx + 1), n) == NextPlace(Place(idx, n), n)
  }

  ghost predicate RoundRobin(n: nat)
    requires 0 < n
  {
    forall idx :: 0 <= idx < 0x1_0000_0000 ==> GoesOn(idx, n)
  }

  lemma ResidueStep(x: nat, n: nat)
    requires n > 0
    ensures (x + 1) % n == NextPlace(x % n, n)
  {
    var q, m := x / n, x % n;
    assert x == n * q + m;
    if m + 1 == n {
      assert x + 1 == n * (q + 1) by { assert n * (q + 1) == n * q + n; }
      DivModUnique(x + 1, n, q + 1, 0);
    } else {
      DivModUnique(x + 1, n, q, m + 1);
    }
  }

  lemma {:induction false} PowerDivides(n: nat, m: nat)
    requires PowerOfTwo(n) && PowerOfTwo(m) && n <= m
    ensures m % n == 0
  {
    if n == 1 {
    } else {
      PowerDivides(n / 2, m / 2);
      HalfResidue(m, n / 2);
    }
  }

  /** 2^32, by its halves. */
  lemma WordIsPower()
    ensures PowerOfTwo(0x1_0000_0000)
  {
    assert PowerOfTwo(0x10) by { assert PowerOfTwo(2) && PowerOfTwo(4) && PowerOfTwo(8); }
    SixteenTimes(0x10);
    SixteenTimes(0x100);
    SixteenTimes(0x1000);
    SixteenTimes(0x1_0000);
    SixteenTimes(0x10_0000);
    SixteenTimes(0x100_0000);
    SixteenTimes(0x1000_0000);
  }

  lemma Twice(n: nat, m: nat)
    requires PowerOfTwo(n) && m == 2 * n
    ensures PowerOfTwo(m)
  {
    assert m / 2 == n && m % 2 == 0;
  }

  lemma SixteenTimes(n: nat)
    requires PowerOfTwo(n)
    ensures PowerOfTwo(16 * n)
  {
    var a, b, c := 2 * n, 4 * n, 8 * n;
    Twice(n, a);
    Twice(a, b);
    Twice(b, c);
    Twice(c, 16 * n);
  }

  /** The wrap of the index does not show if the number of places divides 2^32. */
  lemma WrappedResidue(idx: nat, n: nat)
    requires n > 0 && 0x1_0000_0000 % n == 0 && idx < 0x1_0000_0000
    ensures Wrap32(idx + 1) % n == NextPlace(idx % n, n)
  {
    ResidueStep(idx, n);
    if idx == 0xffff_ffff {
      DivModUnique(0, n, 0, 0);
      assert Wrap32(idx + 1) == 0;
    } else {
      assert Wrap32(idx + 1) == idx + 1;
    }
  }

  lemma PowerGoesRound(n: nat, idx: nat)
    requires PowerOfTwo(n) && n <= 0x1_0000_0000 && idx < 0x1_0000_0000
    ensures GoesOn(idx, n)
  {
    WordIsPower();
    PowerDivides(n, 0x1_0000_0000);
    WrappedResidue(idx, n);
    PlaceIsResidue(idx, n);
    PlaceIsResidue(Wrap32(idx + 1), n);
  }

  lemma OneOn(n: nat, i: nat)
    requires 0 < n && GoesOn(i, n) && Place(i, n) == i && i + 1 < n && i + 1 < 0x1_0000_0000
    ensures Place(i + 1, n) == i + 1
  {
    assert Wrap32(i + 1) == i + 1;
  }

  /** Where tickets go round, ticket i of the first n is for place i. */
  lemma {:induction false} FirstRound(n: nat, i: nat)
    requires 0 < n && RoundRobin(n) && i < n && i < 0x1_0000_0000
    ensures Place(i, n) == i
  {
    if i == 0 {
      PlaceOfZero(n);
    } else {
      FirstRound(n, i - 1);
      OneOn(n, i - 1);
    }
  }

  lemma LastGoesWrong(n: nat)
    requires n > 0x1_0000_0000 && Place(0xffff_ffff, n) == 0xffff_ffff && Place(0, n) == 0
    ensures !GoesOn(0xffff_ffff, n)
  {
    assert Wrap32(0x1_0000_0000) == 0;
  }

  lemma TooMany(n: nat)
    requires n > 0x1_0000_0000
    ensures !RoundRobin(n)
  {
    if RoundRobin(n) {
      FirstRound(n, 0xffff_ffff);
      PlaceOfZero(n);
      LastGoesWrong(n);
    }
  }

  /** Tickets go round place by place, the wrap of the index included, exactly when the number of places is a power of
      two that the index can count. */
  lemma RoundRobinIff(n: nat)
    requires 0 < n
    ensures RoundRobin(n) <==> PowerOfTwo(n) && n <= 0x1_0000_0000
  {
    if n > 0x1_0000_0000 {
      TooMany(n);
    } else if PowerOfTwo(n) {
      forall idx | 0 <= idx < 0x1_0000_0000 ensures GoesOn(idx, n) {
        PowerGoesRound(n, idx);
      }
    } else if RoundRobin(n) {
      forall i | 0 <= i < n ensures Place(i, n) == i {
        FirstRound(n, i);
      }
      FixedOnlyByPower(n);
    }
  }
}
