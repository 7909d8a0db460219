/** Harvest of the per-CPU interrupt pools: events into entropy bits and back, the put-back of
    surplus events, and the balance of events and bits over whole runs. */
module IrqHarvest {
  import opened Octets
  import opened Oversampling
  import opened Options
  import opened Sums

  /** Bits of the hash digest, events per 256 bits, capacity of the event array, oversampling bits. */
  datatype Settings = Settings(digest: nat, rate: nat, compress: bool, capacity: nat, osr: nat)

  /** The 32-bit conversions as coded. */
  function EntropyToData(bits: nat, rate: nat): nat {
    Wrap32(bits * rate) / 256
  }

  function DataToEntropy(events: nat, rate: nat): nat
    requires rate > 0
  {
    Wrap32(events * 256) / rate
  }

  /** The most events one pool is credited with. */
  function Cap(k: Settings): nat {
    var events := EntropyToData(k.digest, k.rate);
    if k.compress then events else Min(events, k.capacity)
  }

  /** No 32-bit product of a harvest wraps. */
  ghost predicate InRange(k: Settings, cpus: nat) {
    && k.rate > 0 && (k.digest + k.osr) * k.rate < 0x1_0000_0000
    && (cpus + 1) * Cap(k) * 256 < 0x1_0000_0000
  }

  lemma NoWrapSum(k: Settings, cpus: nat, i: nat)
    requires InRange(k, cpus) && i <= cpus
    ensures i * Cap(k) * 256 < 0x1_0000_0000
  {
    Distribute(i, cpus + 1 - i, Cap(k));
  }

  lemma FloorUp(num: nat, rate: nat)
    requires rate > 0
    ensures (num / rate) * rate <= num
  {
  }

  /** Bits to events and back never gains, in spite of two roundings. */
  lemma RoundTripLoses(bits: nat, rate: nat)
    requires rate > 0 && bits * rate < 0x1_0000_0000
    ensures DataToEntropy(EntropyToData(bits, rate), rate) <= bits
  {
    var e := EntropyToData(bits, rate);
    assert e * 256 <= bits * rate;
    var d := (e * 256) / rate;
    FloorUp(e * 256, rate);
    assert d * rate <= bits * rate;
    Cancel(d, bits, rate);
  }

  lemma Cancel(a: nat, b: nat, p: nat)
    requires p > 0 && a * p <= b * p
    ensures a <= b
  {
    if a > b {
      Distribute(b, a - b, p);
      MulAtLeast(a - b, p);
    }
  }

  lemma DataMonotone(x: nat, y: nat, rate: nat)
    requires rate > 0 && x <= y && y * 256 < 0x1_0000_0000
    ensures DataToEntropy(x, rate) <= DataToEntropy(y, rate)
  {
    var a, b := x * 256, y * 256;
    assert Wrap32(a) == a && Wrap32(b) == b;
    DivMonotone(a, b, rate);
  }

  lemma DivMonotone(a: nat, b: nat, p: nat)
    requires p > 0 && a <= b
    ensures a / p <= b / p
  {
    FloorUp(a, p);
    BelowNext(b, p);
    CancelStrict(a / p, b / p + 1, p);
  }

  lemma BelowNext(b: nat, p: nat)
    requires p > 0
    ensures b < (b / p + 1) * p
  {
    Distribute(b / p, 1, p);
  }

  lemma CancelStrict(a: nat, b: nat, p: nat)
    requires a * p < b * p
    ensures a < b
  {
    if a >= b {
      Distribute(b, a - b, p);
    }
  }

  /** What the pools yield: a capped counter where the pool is online and hashing succeeded. */
  function Found(cap: nat, irqs: seq<nat>, online: seq<bool>, ok: seq<bool>): (f: seq<nat>)
    requires |irqs| == |online| == |ok|
    ensures |f| == |irqs|
  {
    seq(|irqs|, i requires 0 <= i < |irqs| => if online[i] && ok[i] then Min(irqs[i], cap) else 0)
  }

  /** What CPU i gets back: the part of its yield that exceeds the r events asked for. */
  function Back(found: seq<nat>, r: nat, i: nat): nat
    requires i < |found|
  {
    var before := Min(r, Sum(found[..i]));
    if before + found[i] > r then before + found[i] - r else 0
  }

  /** What a harvest for r events takes from CPU i. */
  function Taken(found: seq<nat>, r: nat, i: nat): nat
    requires i < |found|
  {
    var before := Min(r, Sum(found[..i]));
    if before + found[i] > r then r - before else found[i]
  }

  /** The events taken from all CPUs are the smaller of request and supply. */
  lemma {:induction false} TakenSum(found: seq<nat>, r: nat, n: nat)
    requires n <= |found|
    ensures Sum(seq(n, i requires 0 <= i < n => Taken(found, r, i))) == Min(r, Sum(found[..n]))
    ensures forall i :: 0 <= i < |found| ==> Taken(found, r, i) + Back(found, r, i) == found[i]
  {
    var t := seq(n, i requires 0 <= i < n => Taken(found, r, i));
    if n == 0 {
    } else {
      assert t[..n - 1] == seq(n - 1, i requires 0 <= i < n - 1 => Taken(found, r, i));
      TakenSum(found, r, n - 1);
      assert found[..n][..n - 1] == found[..n - 1];
    }
  }

  /** The per-CPU interrupt counters, with the totals of a run beside them. */
  class Pools {
    const k: Settings
    const online: seq<bool>
    const irqs: array<nat>
    var startupDone: bool
    var hashReady: bool

    /** Events counted, events used up, and bits handed out, since the counters were zero. */
    ghost var arrived: nat
    ghost var used: nat
    ghost var returned: nat

    ghost predicate Valid()
      reads this, irqs
    {
      && irqs.Length == |online| && InRange(k, |online|)
      && Sum(irqs[..]) + used <= arrived
      && returned * k.rate <= 256 * used
    }

    constructor (k: Settings, online: seq<bool>)
      requires InRange(k, |online|)
      ensures Valid() && fresh(irqs) && this.k == k && this.online == online
      ensures arrived == used == returned == 0
    {
      this.k, this.online := k, online;
      irqs := new nat[|online|](i => 0);
      startupDone, hashReady := false, false;
      arrived, used, returned := 0, 0, 0;
      new;
      ZeroSum(irqs[..]);
    }

    /** An interrupt on the given CPU: the 32-bit counter goes up. */
    method Arrive(cpu: nat)
      requires Valid() && cpu < irqs.Length
      modifies irqs, this`arrived
      ensures Valid() && arrived == old(arrived) + 1
      ensures irqs[..] == old(irqs[..])[cpu := Wrap32(old(irqs[cpu]) + 1)]
    {
      SumUpdate(irqs[..], cpu, Wrap32(irqs[cpu] + 1));
      irqs[cpu] := Wrap32(irqs[cpu] + 1);
      arrived := arrived + 1;
    }

    /** esdm_irq_avail_entropy */
    method Avail() returns (bits: nat)
      requires Valid()
      ensures bits == if startupDone then Advertised(k, irqs[..], online) else 0
    {
      if !startupDone {
        return 0;
      }
      var cap := Cap(k);
      CappedFits(k, irqs[..], online);
      var irq := SumOfCapped(cap);
      bits := ReduceByOsr(DataToEntropy(irq, k.rate), k.osr);
    }

    method SumOfCapped(cap: nat) returns (irq: nat)
      requires irqs.Length == |online| && Sum(Capped(cap, irqs[..], online)) < 0x1_0000_0000
      ensures irq == Sum(Capped(cap, irqs[..], online))
    {
      irq := 0;
      ghost var capped := Capped(cap, irqs[..], online);
      for i := 0 to irqs.Length
        invariant irq == Sum(capped[..i])
      {
        assert capped[..i + 1][..i] == capped[..i];
        SumPrefix(capped, i + 1);
        if online[i] {
          irq := Wrap32(irq + Min(cap, irqs[i]));
        }
      }
      assert capped[..irqs.Length] == capped;
    }

    /** esdm_irq_pool_hash_one, given the cap it computes: the counter is emptied in any case, its
        events count if hashing succeeds. */
    method HashOne(cpu: nat, cap: nat, ok: bool) returns (found: nat)
      requires irqs.Length == |online| && cpu < irqs.Length
      modifies irqs
      ensures irqs[..] == old(irqs[..])[cpu := 0]
      ensures found == if ok then Min(old(irqs[cpu]), cap) else 0
    {
      found := irqs[cpu];
      irqs[cpu] := 0;
      found := Min(found, cap);
      if !ok {
        found := 0;
      }
    }

    /** CPUs before i are harvested, the rest is as it was. */
    ghost predicate Harvested(found: seq<nat>, r: nat, i: nat, collected: nat, before: seq<nat>)
      reads this, irqs
    {
      && |found| == |before| == |online| == irqs.Length && i <= |found|
      && collected == Min(r, Sum(found[..i]))
      && Sum(irqs[..]) + collected <= Sum(before)
      && (forall j :: 0 <= j < i ==> irqs[j] == if online[j] then Back(found, r, j) else before[j])
      && (forall j :: i <= j < irqs.Length ==> irqs[j] == before[j])
    }

    /** The counter of CPU i was emptied on top of that. */
    ghost predicate Emptied(found: seq<nat>, r: nat, i: nat, collected: nat, before: seq<nat>)
      reads this, irqs
    {
      && |found| == |before| == |online| == irqs.Length && i < |found|
      && collected == Min(r, Sum(found[..i])) && found[i] <= before[i]
      && Sum(irqs[..]) + before[i] + collected <= Sum(before)
      && (forall j :: 0 <= j < i ==> irqs[j] == if online[j] then Back(found, r, j) else before[j])
      && irqs[i] == 0
      && (forall j :: i < j < irqs.Length ==> irqs[j] == before[j])
    }

    /** The yield of CPU i joins the collection; the surplus goes back to its own counter. */
    method Collect(i: nat, n: nat, collected: nat, r: nat, ghost found: seq<nat>, ghost before: seq<nat>)
      returns (collected': nat)
      requires Emptied(found, r, i, collected, before) && online[i] && n == found[i] && r + n < 0x1_0000_0000
      modifies irqs
      ensures Harvested(found, r, i + 1, collected', before)
    {
      assert found[..i + 1][..i] == found[..i];
      SumUpdate(irqs[..], i, Back(found, r, i));
      collected' := Wrap32(collected + n);
      if collected' > r {
        irqs[i] := irqs[i] + (collected' - r);
        collected' := r;
      }
      assert irqs[..] == old(irqs[..])[i := Back(found, r, i)];
    }

    /** One CPU: its counter is emptied; if its digest could be hashed in, the yield is collected. */
    method HarvestOne(i: nat, cap: nat, ok: bool, fed: bool, collected: nat, r: nat, ghost found: seq<nat>,
                      ghost before: seq<nat>)
      returns (collected': nat)
      requires Harvested(found, r, i, collected, before) && i < irqs.Length && online[i]
      requires found[i] == (if ok then Min(before[i], cap) else 0) && r + cap < 0x1_0000_0000
      modifies irqs
      ensures if fed then Harvested(found, r, i + 1, collected', before)
              else Emptied(found, r, i, collected', before) && collected' == collected
    {
      SumUpdate(irqs[..], i, 0);
      var n := HashOne(i, cap, ok);
      collected' := collected;
      if fed {
        collected' := Collect(i, n, collected, r, found, before);
      }
    }

    /** The events a request stands for. */
    function Asked(requested: nat): nat {
      EntropyToData(Min(requested, k.digest) + k.osr, k.rate)
    }

    /** The digest of every online pool went into the common hash. */
    predicate AllFed(updateOks: seq<bool>)
      requires |updateOks| == |online|
    {
      forall i :: 0 <= i < |online| && online[i] ==> updateOks[i]
    }

    /** The first online pool whose digest did not. */
    ghost predicate FirstUnfed(updateOks: seq<bool>, at: nat)
      requires |updateOks| == |online|
    {
      at < |online| && online[at] && !updateOks[at] && forall j :: 0 <= j < at && online[j] ==> updateOks[j]
    }

    /** The counters after a harvest of all CPUs, or of those before at and the emptying of that one. */
    ghost predicate CountersAfter(found: seq<nat>, r: nat, before: seq<nat>, at: nat)
      requires |found| == |before| == |online|
      reads this, irqs
    {
      irqs.Length == |online| && forall j :: 0 <= j < irqs.Length ==>
        irqs[j] == if j > at || !online[j] then before[j] else if j == at then 0 else Back(found, r, j)
    }

    /** esdm_irq_pool_hash. The outcomes of the hash calls are inputs; None leaves the buffer as it was. */
    method PoolHash(requested: nat, initOk: bool, oks: seq<bool>, updateOks: seq<bool>, finalOk: bool)
      returns (bits: Option<nat>)
      requires Valid() && |oks| == |updateOks| == |online|
      modifies irqs, this`used, this`returned
      ensures Valid()
      ensures bits.Some? ==> bits.value <= requested && bits.value <= Advertised(k, old(irqs[..]), online)
      ensures startupDone && hashReady && initOk && finalOk && AllFed(updateOks) ==>
                var found := Found(Cap(k), old(irqs[..]), online, oks); var r := Asked(requested);
                && bits == Some(ReduceByOsr(DataToEntropy(Min(r, Sum(found)), k.rate), k.osr))
                && used == old(used) + Min(r, Sum(found)) && CountersAfter(found, r, old(irqs[..]), |online|)
      ensures startupDone && hashReady && initOk ==> forall at :: FirstUnfed(updateOks, at) ==>
                CountersAfter(Found(Cap(k), old(irqs[..]), online, oks), Asked(requested), old(irqs[..]), at)
      ensures !startupDone || !hashReady || !initOk ==> irqs[..] == old(irqs[..]) && used == old(used)
      ensures bits == None <==> startupDone && !hashReady
      ensures !startupDone || (hashReady && !(initOk && finalOk && AllFed(updateOks))) ==> bits == Some(0)
    {
      if !startupDone {
        return Some(0);
      }
      if !hashReady {
        return None;
      }
      if !initOk {
        return Some(0);
      }
      var b := HashPools(requested, oks, updateOks, finalOk);
      bits := Some(b);
    }

    /** The pools are hashed, and the bits for their events handed out. */
    method HashPools(requested: nat, oks: seq<bool>, updateOks: seq<bool>, finalOk: bool) returns (b: nat)
      requires Valid() && |oks| == |updateOks| == |online|
      modifies irqs, this`used, this`returned
      ensures Valid() && b <= requested && b <= Advertised(k, old(irqs[..]), online)
      ensures finalOk && AllFed(updateOks) ==>
                var found := Found(Cap(k), old(irqs[..]), online, oks); var r := Asked(requested);
                && b == ReduceByOsr(DataToEntropy(Min(r, Sum(found)), k.rate), k.osr)
                && used == old(used) + Min(r, Sum(found)) && CountersAfter(found, r, old(irqs[..]), |online|)
      ensures forall at :: FirstUnfed(updateOks, at) ==>
                CountersAfter(Found(Cap(k), old(irqs[..]), online, oks), Asked(requested), old(irqs[..]), at)
      ensures !(finalOk && AllFed(updateOks)) ==> b == 0
    {
      var r, cap := Asked(requested), Cap(k);
      ghost var found := Found(cap, irqs[..], online, oks);
      AskedInRange(k, |online|, requested);
      var ok, collected := HarvestAll(cap, oks, updateOks, r, found, irqs[..]);
      b := 0;
      if ok && finalOk {
        HarvestBound(k, old(irqs[..]), online, oks, requested, collected);
        b := ReduceByOsr(DataToEntropy(collected, k.rate), k.osr);
      }
      Account(collected, b);
    }

    /** The totals after a harvest that took collected events for b bits. */
    ghost method Account(collected: nat, b: nat)
      requires irqs.Length == |online| && InRange(k, |online|)
      requires Sum(irqs[..]) + used + collected <= arrived && returned * k.rate <= 256 * used
      requires b > 0 ==> collected * 256 < 0x1_0000_0000 && b <= DataToEntropy(collected, k.rate)
      modifies this`used, this`returned
      ensures Valid() && used == old(used) + collected && returned == old(returned) + b
    {
      if b > 0 {
        ReturnMore(returned, k.rate, used, collected, b);
      } else {
        UsedMore(returned, k.rate, used, collected);
      }
      used, returned := used + collected, returned + b;
    }

    /** The loop over the CPUs; ok is false when it stopped at a failing hash update. */
    method HarvestAll(cap: nat, oks: seq<bool>, updateOks: seq<bool>, r: nat,
                      ghost found: seq<nat>, ghost before: seq<nat>)
      returns (ok: bool, collected: nat)
      requires irqs.Length == |online| == |oks| == |updateOks| && r + cap < 0x1_0000_0000
      requires before == irqs[..] && found == Found(cap, before, online, oks)
      modifies irqs
      ensures Sum(irqs[..]) + collected <= Sum(before)
      ensures ok ==> collected == Min(r, Sum(found)) && CountersAfter(found, r, before, |found|)
      ensures ok <==> AllFed(updateOks)
      ensures forall at :: FirstUnfed(updateOks, at) ==> CountersAfter(found, r, before, at)
    {
      ok, collected := true, 0;
      for i := 0 to irqs.Length
        invariant Harvested(found, r, i, collected, before)
        invariant forall j :: 0 <= j < i && online[j] ==> updateOks[j]
      {
        if online[i] {
          collected := HarvestOne(i, cap, oks[i], updateOks[i], collected, r, found, before);
          if !updateOks[i] {
            ok := false;
            return;
          }
        } else {
          SkipOffline(found, r, i, collected, before);
        }
      }
      assert found[..irqs.Length] == found;
    }

    lemma SkipOffline(found: seq<nat>, r: nat, i: nat, collected: nat, before: seq<nat>)
      requires Harvested(found, r, i, collected, before) && i < irqs.Length && !online[i] && found[i] == 0
      ensures Harvested(found, r, i + 1, collected, before)
    {
      assert found[..i + 1][..i] == found[..i];
    }
  }

  function Capped(cap: nat, irqs: seq<nat>, online: seq<bool>): (f: seq<nat>)
    requires |irqs| == |online|
    ensures |f| == |irqs|
  {
    seq(|irqs|, i requires 0 <= i < |irqs| => if online[i] then Min(irqs[i], cap) else 0)
  }

  lemma CappedFits(k: Settings, irqs: seq<nat>, online: seq<bool>)
    requires |irqs| == |online| && InRange(k, |online|)
    ensures Sum(Capped(Cap(k), irqs, online)) * 256 < 0x1_0000_0000
  {
    SumBound(Capped(Cap(k), irqs, online), Cap(k));
    NoWrapSum(k, |online|, |online|);
  }

  /** The entropy the source claims to have. */
  function Advertised(k: Settings, irqs: seq<nat>, online: seq<bool>): nat
    requires |irqs| == |online| && k.rate > 0
  {
    ReduceByOsr(DataToEntropy(Sum(Capped(Cap(k), irqs, online)), k.rate), k.osr)
  }

  lemma AskedInRange(k: Settings, cpus: nat, requested: nat)
    requires InRange(k, cpus)
    ensures EntropyToData(Min(requested, k.digest) + k.osr, k.rate) + Cap(k) < 0x1_0000_0000
    ensures (Min(requested, k.digest) + k.osr) * k.rate < 0x1_0000_0000
  {
    var x := Min(requested, k.digest) + k.osr;
    Distribute(x, k.digest + k.osr - x, k.rate);
    NoWrapSum(k, cpus, 0);
    Distribute(cpus, 1, Cap(k));
  }

  lemma UsedMore(returned: nat, rate: nat, used: nat, more: nat)
    requires returned * rate <= 256 * used
    ensures returned * rate <= 256 * (used + more)
  {
  }

  /** Bits handed out never outweigh the events used up for them. */
  lemma ReturnMore(returned: nat, rate: nat, used: nat, more: nat, bits: nat)
    requires rate > 0 && returned * rate <= 256 * used && more * 256 < 0x1_0000_0000
    requires bits <= DataToEntropy(more, rate)
    ensures (returned + bits) * rate <= 256 * (used + more)
  {
    var d := DataToEntropy(more, rate);
    FloorUp(more * 256, rate);
    Distribute(bits, d - bits, rate);
    Distribute(returned, bits, rate);
  }

  /** The result exceeds neither the request nor the advertised entropy. */
  lemma HarvestBound(k: Settings, irqs: seq<nat>, online: seq<bool>, oks: seq<bool>, requested: nat, collected: nat)
    requires |irqs| == |online| == |oks| && InRange(k, |online|)
    requires collected == Min(EntropyToData(Min(requested, k.digest) + k.osr, k.rate),
                              Sum(Found(Cap(k), irqs, online, oks)))
    ensures collected * 256 < 0x1_0000_0000
    ensures ReduceByOsr(DataToEntropy(collected, k.rate), k.osr) <= requested
    ensures ReduceByOsr(DataToEntropy(collected, k.rate), k.osr) <= Advertised(k, irqs, online)
  {
    var found, capped := Found(Cap(k), irqs, online, oks), Capped(Cap(k), irqs, online);
    SumMonotone(found, capped);
    SumBound(capped, Cap(k));
    NoWrapSum(k, |online|, |online|);
    DataMonotone(collected, Sum(capped), k.rate);
    AskedInRange(k, |online|, requested);
    var x := Min(requested, k.digest) + k.osr;
    RoundTripLoses(x, k.rate);
    AskedFits(x, k.rate);
    DataMonotone(collected, EntropyToData(x, k.rate), k.rate);
  }

  lemma AskedFits(bits: nat, rate: nat)
    requires bits * rate < 0x1_0000_0000
    ensures EntropyToData(bits, rate) * 256 < 0x1_0000_0000
  {
  }
}
