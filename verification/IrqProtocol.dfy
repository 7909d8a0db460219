/** Harvests of the interrupt counters interleaved with interrupts and with each other: only the exchange of a counter
    with zero, the increment by an interrupt and the addition of the surplus are atomic. */
module IrqProtocol {
  import opened Octets
  import opened Sums

  /** A harvest: none, before CPU i, or with the events found at CPU i in hand; r events are asked for. */
  datatype Harvest = Away | Before(i: nat, r: nat, collected: nat) | Holding(i: nat, r: nat, collected: nat, found: nat)

  /** The counters, the harvests, and so far the events that arrived, were used for a result, and were lost: above the
      cap, or with a failing hash. */
  datatype World = World(counters: seq<nat>, harvests: seq<Harvest>, arrived: nat, used: nat, lost: nat)

  function InHand(h: Harvest): nat {
    match h
    case Away => 0
    case Before(i, r, collected) => collected
    case Holding(i, r, collected, found) => collected + found
  }

  function InHands(hs: seq<Harvest>): (s: seq<nat>)
    ensures |s| == |hs|
  {
    seq(|hs|, i requires 0 <= i < |hs| => InHand(hs[i]))
  }

  ghost predicate Interrupt(s: World, s': World, cpu: nat) {
    && cpu < |s.counters|
    && s' == s.(counters := s.counters[cpu := s.counters[cpu] + 1], arrived := s.arrived + 1)
  }

  ghost predicate Begin(s: World, s': World, p: nat, r: nat) {
    p < |s.harvests| && s.harvests[p].Away? && s' == s.(harvests := s.harvests[p := Before(0, r, 0)])
  }

  /** A pool that is not online is passed over. */
  ghost predicate Skip(s: World, s': World, p: nat) {
    && p < |s.harvests| && s.harvests[p].Before? && s.harvests[p].i < |s.counters|
    && var h := s.harvests[p];
    && s' == s.(harvests := s.harvests[p := Before(h.i + 1, h.r, h.collected)])
  }

  /** The exchange with zero; events above the cap, or all if the pool cannot be hashed, are lost. */
  ghost predicate Take(cap: nat, s: World, s': World, p: nat, ok: bool) {
    && p < |s.harvests| && s.harvests[p].Before? && s.harvests[p].i < |s.counters|
    && var h := s.harvests[p]; var n := s.counters[h.i]; var found := if ok then Min(n, cap) else 0;
    && s' == s.(counters := s.counters[h.i := 0], lost := s.lost + (n - found),
                harvests := s.harvests[p := Holding(h.i, h.r, h.collected, found)])
  }

  /** The digest cannot be hashed in: the harvest ends, and what it has in hand is lost. */
  ghost predicate Refuse(s: World, s': World, p: nat) {
    && p < |s.harvests| && s.harvests[p].Holding?
    && s' == s.(lost := s.lost + InHand(s.harvests[p]), harvests := s.harvests[p := Away])
  }

  /** The events are collected; a surplus is added to the counter, which may have moved on. */
  ghost predicate Keep(s: World, s': World, p: nat) {
    && p < |s.harvests| && s.harvests[p].Holding? && s.harvests[p].i < |s.counters|
    && var h := s.harvests[p];
    var total := h.collected + h.found;
    var surplus := if total > h.r then total - h.r else 0;
    && s' == s.(counters := s.counters[h.i := s.counters[h.i] + surplus],
                harvests := s.harvests[p := Before(h.i + 1, h.r, total - surplus)])
  }

  /** All CPUs are done: the events stand behind the result, if there is one. */
  ghost predicate Finish(s: World, s': World, p: nat, ok: bool) {
    && p < |s.harvests| && s.harvests[p].Before? && s.harvests[p].i >= |s.counters|
    && var n := s.harvests[p].collected;
    && s' == s.(used := s.used + (if ok then n else 0), lost := s.lost + (if ok then 0 else n),
                harvests := s.harvests[p := Away])
  }

  datatype Step = Event | Start(r: nat) | Over | Exchange(ok: bool) | Drop | Collect | End(ok: bool)

  ghost predicate Takes(cap: nat, s: World, s': World, p: nat, step: Step) {
    match step
    case Event => Interrupt(s, s', p)
    case Start(r) => Begin(s, s', p, r)
    case Over => Skip(s, s', p)
    case Exchange(ok) => Take(cap, s, s', p, ok)
    case Drop => Refuse(s, s', p)
    case Collect => Keep(s, s', p)
    case End(ok) => Finish(s, s', p, ok)
  }

  ghost predicate Next(cap: nat, s: World, s': World) {
    exists p: nat, step :: Takes(cap, s, s', p, step)
  }

  ghost predicate Init(s: World) {
    && s.arrived == s.used == s.lost == 0
    && (forall c :: 0 <= c < |s.counters| ==> s.counters[c] == 0)
    && (forall p :: 0 <= p < |s.harvests| ==> s.harvests[p].Away?)
  }

  ghost predicate Run(cap: nat, ss: seq<World>) {
    0 < |ss| && Init(ss[0]) && forall k :: 0 <= k < |ss| - 1 ==> Next(cap, ss[k], ss[k + 1])
  }

  /** Every event that arrived is in a counter, in hand, used or lost, and in one of these only. */
  ghost predicate Conserved(s: World) {
    s.arrived == Sum(s.counters) + Sum(InHands(s.harvests)) + s.used + s.lost
  }

  /** No harvest has collected more than it was asked for. */
  ghost predicate Bounded(s: World) {
    forall p :: 0 <= p < |s.harvests| && !s.harvests[p].Away? ==> s.harvests[p].collected <= s.harvests[p].r
  }

  lemma HandUpdate(hs: seq<Harvest>, p: nat, h: Harvest)
    requires p < |hs|
    ensures Sum(InHands(hs[p := h])) == Sum(InHands(hs)) - InHand(hs[p]) + InHand(h)
  {
    assert InHands(hs[p := h]) == InHands(hs)[p := InHand(h)];
    SumUpdate(InHands(hs), p, InHand(h));
  }

  lemma InterruptKeeps(s: World, s': World, cpu: nat)
    requires Conserved(s) && Bounded(s) && Interrupt(s, s', cpu)
    ensures Conserved(s') && Bounded(s')
  {
    SumUpdate(s.counters, cpu, s.counters[cpu] + 1);
  }

  lemma TakeKeeps(cap: nat, s: World, s': World, p: nat, ok: bool)
    requires Conserved(s) && Bounded(s) && Take(cap, s, s', p, ok)
    ensures Conserved(s') && Bounded(s')
  {
    SumUpdate(s.counters, s.harvests[p].i, 0);
    HandUpdate(s.harvests, p, s'.harvests[p]);
  }

  lemma CollectKeeps(s: World, s': World, p: nat)
    requires Conserved(s) && Bounded(s) && Keep(s, s', p)
    ensures Conserved(s') && Bounded(s')
  {
    var i := s.harvests[p].i;
    SumUpdate(s.counters, i, s'.counters[i]);
    HandUpdate(s.harvests, p, s'.harvests[p]);
  }

  /** The steps that leave the counters alone. */
  lemma HandKeeps(s: World, s': World, p: nat)
    requires Conserved(s) && Bounded(s) && p < |s.harvests| && |s'.harvests| == |s.harvests|
    requires s'.harvests == s.harvests[p := s'.harvests[p]] && s'.counters == s.counters && s'.arrived == s.arrived
    requires InHand(s'.harvests[p]) + s'.used + s'.lost == InHand(s.harvests[p]) + s.used + s.lost
    requires !s'.harvests[p].Away? ==> s'.harvests[p].collected <= s'.harvests[p].r
    ensures Conserved(s') && Bounded(s')
  {
    HandUpdate(s.harvests, p, s'.harvests[p]);
  }

  lemma NextKeeps(cap: nat, s: World, s': World)
    requires Conserved(s) && Bounded(s) && Next(cap, s, s')
    ensures Conserved(s') && Bounded(s')
  {
    var p: nat, step :| Takes(cap, s, s', p, step);
    match step {
      case Event => InterruptKeeps(s, s', p);
      case Start(r) => HandKeeps(s, s', p);
      case Over => HandKeeps(s, s', p);
      case Exchange(ok) => TakeKeeps(cap, s, s', p, ok);
      case Drop => HandKeeps(s, s', p);
      case Collect => CollectKeeps(s, s', p);
      case End(ok) => HandKeeps(s, s', p);
    }
  }

  lemma InitKeeps(s: World)
    requires Init(s)
    ensures Conserved(s) && Bounded(s)
  {
    ZeroSum(s.counters);
    ZeroSum(InHands(s.harvests));
  }

  /** In every state of every run, with any number of CPUs and of harvests at the same time: no event is counted twice
      or vanishes, and no harvest has more than it was asked for. */
  lemma {:induction false} RunKeeps(cap: nat, ss: seq<World>, k: nat)
    requires Run(cap, ss) && k < |ss|
    ensures Conserved(ss[k]) && Bounded(ss[k])
  {
    if k == 0 {
      InitKeeps(ss[0]);
    } else {
      RunKeeps(cap, ss, k - 1);
      assert Next(cap, ss[k - 1], ss[k - 1 + 1]);
      NextKeeps(cap, ss[k - 1], ss[k]);
    }
  }
}
