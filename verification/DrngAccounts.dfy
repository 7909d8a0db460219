/** The meta data of a DRNG and the ledger it is kept against: requests checked and bytes produced. */
module DrngAccounts {
  import opened Octets
  import opened Options

  type Counter = n: nat | n < 0x1_0000_0000

  /** A DRNG's meta data; counters are 32-bit, requests in two's complement. */
  datatype Drng = Drng(requests: Counter, sinceFull: nat, bits: nat, fullySeeded: bool, forceReseed: bool)

  datatype Mark = Mark(checked: nat, produced: nat)

  /** All requests checked and bytes produced by a DRNG, and where both stood at its last full seeding, if there
      was one since the last reset. */
  datatype Ledger = Ledger(checked: nat, produced: nat, mark: Option<Mark>)

  function ResetDrng(): Drng { Drng(1, 0, 0, false, false) }

  /** The requests since the last seeding, 2^20 less what is left, modulo 2^32. */
  function Calls(r: Drng): (n: nat)
    ensures n == Wrap32(0x10_0000 + 0x1_0000_0000 - r.requests)
  {
    if r.requests <= 0x10_0000 then 0x10_0000 - r.requests else 0x1_0010_0000 - r.requests
  }

  /** esdm_drng_inject after the seed callback succeeded. */
  function Seeded(r: Drng, full: bool): Drng {
    Drng(0x10_0000, if full then 0 else Wrap32(r.sinceFull + Calls(r)), if full then 0 else r.bits,
         r.fullySeeded || full, false)
  }

  function SeededLedger(t: Ledger, full: bool): Ledger {
    if full then t.(mark := Some(Mark(t.checked, t.produced))) else t
  }

  /** A count is exact modulo 2^32 and never overstated. */
  predicate Agrees(n: nat, total: nat) {
    n <= total && Wrap32(n) == Wrap32(total)
  }

  /** The counters are the requests and bits since the last full seeding. */
  ghost predicate Exact(r: Drng, t: Ledger) {
    && (r.fullySeeded ==> t.mark.Some?)
    && (t.mark.Some? ==>
         && t.mark.value.checked <= t.checked && t.mark.value.produced <= t.produced
         && Agrees(r.sinceFull + Calls(r), t.checked - t.mark.value.checked)
         && r.bits == Wrap32(8 * (t.produced - t.mark.value.produced)))
  }

  lemma WrapSum(a: nat, b: nat)
    ensures Wrap32(Wrap32(a) + b) == Wrap32(a + b)
  {
  }

  /** The requests of a seeding that was not full are carried over. */
  lemma SeededExact(r: Drng, t: Ledger, full: bool)
    requires Exact(r, t)
    ensures Exact(Seeded(r, full), SeededLedger(t, full))
  {
    WrapSum(r.sinceFull + Calls(r), 0);
    assert Calls(Seeded(r, full)) == 0 && Wrap32(0) == 0;
  }

  /** A request was checked: atomic_dec. */
  function Checked(r: Drng): Drng {
    r.(requests := if r.requests == 0 then 0xffff_ffff else r.requests - 1)
  }

  lemma CheckedExact(r: Drng, t: Ledger)
    requires Exact(r, t)
    ensures Exact(Checked(r), t.(checked := t.checked + 1))
  {
    if t.mark.Some? {
      OneMore(r.sinceFull + Calls(r), t.checked - t.mark.value.checked);
      if Calls(r) == 0xffff_ffff {
        WholeTurn(r.sinceFull);
      }
    }
  }

  lemma OneMore(n: nat, total: nat)
    requires Agrees(n, total)
    ensures Agrees(n + 1, total + 1)
  {
  }

  lemma WholeTurn(n: nat)
    ensures Wrap32(n + 0x1_0000_0000) == Wrap32(n)
  {
  }

  function Produced(r: Drng, n: nat): Drng {
    r.(bits := Wrap32(r.bits + 8 * n))
  }

  lemma ProducedExact(r: Drng, t: Ledger, n: nat)
    requires Exact(r, t)
    ensures Exact(Produced(r, n), t.(produced := t.produced + n))
  {
    if t.mark.Some? {
      WrapSum(8 * (t.produced - t.mark.value.produced), 8 * n);
    }
  }

  /** Below 2^32 this is plain equality. */
  lemma ExactPlain(r: Drng, t: Ledger)
    requires Exact(r, t) && t.mark.Some?
    ensures var checked := t.checked - t.mark.value.checked;
            checked < 0x1_0000_0000 ==> r.sinceFull + Calls(r) == checked
    ensures var produced := t.produced - t.mark.value.produced;
            8 * produced < 0x1_0000_0000 ==> r.bits == 8 * produced
  {
  }

  /** DRNG d checked and produced so much more, the others nothing. */
  ghost predicate Used(before: seq<Ledger>, after: seq<Ledger>, d: nat, checks: nat, bytes: nat) {
    && |after| == |before|
    && forall i :: 0 <= i < |before| ==>
         && after[i].checked == before[i].checked + (if i == d then checks else 0)
         && after[i].produced == before[i].produced + if i == d then bytes else 0
  }

  lemma UsedOnce(before: seq<Ledger>, after: seq<Ledger>, d: nat, checks: nat, bytes: nat)
    requires d < |before| == |after| && after == before[d := after[d]]
    requires after[d].checked == before[d].checked + checks && after[d].produced == before[d].produced + bytes
    ensures Used(before, after, d, checks, bytes)
  {
  }

  /** Use adds up; a stretch without use is one of any DRNG. */
  lemma UsedTrans(a: seq<Ledger>, b: seq<Ledger>, e: seq<Ledger>, d: nat, checks: nat, bytes: nat)
    requires Used(a, b, d, checks, bytes) && Used(b, e, 0, 0, 0)
    ensures Used(a, e, d, checks, bytes)
  {
  }

  lemma UsedMore(a: seq<Ledger>, b: seq<Ledger>, e: seq<Ledger>, d: nat, x: nat, y: nat, x': nat, y': nat)
    requires Used(a, b, d, x, y) && Used(b, e, d, x', y')
    ensures Used(a, e, d, x + x', y + y')
  {
  }

  lemma UsedAfter(a: seq<Ledger>, b: seq<Ledger>, e: seq<Ledger>, d: nat, checks: nat, bytes: nat)
    requires Used(a, b, 0, 0, 0) && Used(b, e, d, checks, bytes)
    ensures Used(a, e, d, checks, bytes)
  {
  }

  lemma UsedAny(a: seq<Ledger>, b: seq<Ledger>, d: nat)
    requires Used(a, b, 0, 0, 0)
    ensures Used(a, b, d, 0, 0)
  {
  }
}
