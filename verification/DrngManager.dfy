/** The DRNG manager and the seed levels of the entropy source manager: seeding, request accounting,
    prediction resistance, and the flags that tell users how far seeding got.

    A clause P == true is proved as a whole and not conjunct by conjunct. */
module DrngManager {
  import opened Octets
  import opened Options
  import opened Sums
  import opened Seeding
  import opened DrngAccounts

  /** What lies outside: the entropy that source i delivers at delivery t, the outcome of seed callback t, whether
      somebody is seen to sleep at look t at the wait queue, and by consultation t the entropy that source i advertises
      and the outcomes of the generate callback, of the reseed timer, of taking the pool lock and of allocating the
      DRNGs. Seeding never fails for good: of the callbacks from t on, the one after patience(t) others would succeed.
      Where it matters, the sources deliver from delivery settled on. */
  datatype Env = Env(pull: (nat, nat) -> nat, curr: (nat, nat) -> nat, seedOk: nat -> bool, sleeper: nat -> bool,
                     generate: nat -> int, timeUp: nat -> bool, poolFree: nat -> bool, initOk: nat -> bool,
                     patience: nat -> nat, settled: nat)

  /** The seed callback after k others succeeds, from callback t on. */
  predicate Succeeds(env: Env, t: nat, k: nat) {
    env.seedOk(t + k)
  }

  predicate Asked(t: nat) { true }

  /** Seeding does not fail for good; to be recalled for a callback by asking. */
  ghost predicate Fair(e: Env) {
    forall t: nat {:trigger Asked(t)} :: Asked(t) ==> Succeeds(e, t, e.patience(t))
  }

  type Environment = e: Env | Fair(e)
    witness Env((t, i) => 0, (t, i) => 0, t => true, t => false, t => 1, t => false, t => true, t => true, t => 0, 0)

  /** The number of turns until the seed callback succeeds, at most k. */
  ghost function Wait(env: Env, t: nat, k: nat): (n: nat)
    requires Succeeds(env, t, k)
    ensures n <= k && Succeeds(env, t, n) && forall j :: 0 <= j < n ==> !Succeeds(env, t, j)
  {
    if k > 0 && exists j :: 0 <= j < k && Succeeds(env, t, j) then
      var j :| 0 <= j < k && Succeeds(env, t, j);
      Wait(env, t, j)
    else k
  }

  ghost function Waiting(env: Environment, t: nat): nat {
    assert Asked(t);
    Wait(env, t, env.patience(t))
  }

  /** A turn that fails leaves less to wait for. */
  lemma WaitLess(env: Environment, t: nat)
    requires !Succeeds(env, t, 0)
    ensures Waiting(env, t + 1) < Waiting(env, t)
  {
    assert Asked(t) && Asked(t + 1);
    var n := Waiting(env, t);
    assert Succeeds(env, t + 1, n - 1) by {
      assert (t + 1) + (n - 1) == t + n;
    }
  }

  /** How far a loop is from its end, before callback t. */
  datatype Distance = Distance(deficit: nat, unmet: bool, waiting: nat)

  ghost function DistanceOf(env: Environment, c: Config, l: Loop, t: nat): Distance {
    Distance(Deficit(c, l), !RuleMet(c, l), Waiting(env, t))
  }

  ghost predicate Closer(x: Distance, y: Distance) {
    || x.deficit < y.deficit
    || (x.deficit == y.deficit && !x.unmet && y.unmet)
    || (x.deficit == y.deficit && x.unmet == y.unmet && x.waiting < y.waiting)
  }

  /** A turn after which the loop goes on has brought it closer to its end. */
  lemma TurnCloser(env: Environment, c: Config, l: Loop, eb: seq<nat>, t: nat, l': Loop, t': nat)
    requires |l.per| == |eb| && !l.fullySeeded && l' == Round(c, l, eb, env.seedOk(t)) && t' == t + 1
    ensures !l'.going || Closer(DistanceOf(env, c, l', t'), DistanceOf(env, c, l, t))
  {
    TurnShrinks(c, l, eb, env.seedOk(t));
    if !env.seedOk(t) {
      WaitLess(env, t);
    }
  }

  /** What a request for random bytes returns. */
  datatype Reply = Bytes(n: nat) | Fault | NotSupported | Again

  /** What a request waits for: nothing, the minimal or the operational level. */
  datatype Gate = Open | Minimal | Full

  /** What one turn of the generate loop yields. */
  datatype Chunk = Got(n: nat) | Stop | Failed

  /** What each of so many sources delivers at delivery t. */
  function Delivery(env: Env, sources: nat, t: nat): (s: seq<nat>)
    ensures |s| == sources
  {
    seq<nat>(sources, i requires 0 <= i < sources => env.pull(t, i))
  }

  function Nothing(sources: nat): (s: seq<nat>)
    ensures |s| == sources
  {
    seq(sources, i => 0)
  }

  /** All bits delivered by the first n deliveries. */
  function Delivered(env: Env, sources: nat, n: nat): nat {
    if n == 0 then 0 else Delivered(env, sources, n - 1) + Sum(Delivery(env, sources, n - 1))
  }

  /** The bits of those deliveries that went to DRNG d, if delivery t went to DRNG pulls[t]. */
  function Credit(env: Env, sources: nat, pulls: seq<nat>, d: nat): nat {
    if pulls == [] then 0
    else
      var t := |pulls| - 1;
      Credit(env, sources, pulls[..t], d) + if pulls[t] == d then Sum(Delivery(env, sources, t)) else 0
  }

  lemma CreditAppend(env: Env, sources: nat, pulls: seq<nat>, to: nat, d: nat)
    ensures Credit(env, sources, pulls + [to], d) ==
            Credit(env, sources, pulls, d) + if to == d then Sum(Delivery(env, sources, |pulls|)) else 0
  {
    assert (pulls + [to])[..|pulls|] == pulls;
  }

  lemma {:induction false} CreditGrows(env: Env, sources: nat, pulls: seq<nat>, more: seq<nat>, d: nat)
    requires pulls <= more
    ensures Credit(env, sources, pulls, d) <= Credit(env, sources, more, d)
  {
    if |more| == |pulls| {
      assert more == pulls;
    } else {
      CreditGrows(env, sources, pulls, more[..|more| - 1], d);
    }
  }

  /** No two DRNGs are credited with the same delivery. */
  lemma {:induction false} CreditShared(env: Env, sources: nat, pulls: seq<nat>, d: nat, e: nat)
    requires d != e
    ensures Credit(env, sources, pulls, d) + Credit(env, sources, pulls, e) <= Delivered(env, sources, |pulls|)
  {
    if pulls == [] {
    } else {
      CreditShared(env, sources, pulls[..|pulls| - 1], d, e);
    }
  }

  /** More deliveries were made, all for DRNG d and of so many bits. */
  ghost predicate Spent(env: Env, sources: nat, pulls: seq<nat>, more: seq<nat>, d: nat, bits: nat) {
    && pulls <= more
    && forall e: nat :: Credit(env, sources, more, e) ==
                        Credit(env, sources, pulls, e) + if e == d then bits else 0
  }

  lemma SpentMore(env: Env, sources: nat, pulls: seq<nat>, more: seq<nat>, d: nat, bits: nat)
    requires Spent(env, sources, pulls, more, d, bits)
    ensures Spent(env, sources, pulls, more + [d], d, bits + Sum(Delivery(env, sources, |more|)))
  {
    forall e: nat
      ensures Credit(env, sources, more + [d], e) ==
              Credit(env, sources, more, e) + if e == d then Sum(Delivery(env, sources, |more|)) else 0
    {
      CreditAppend(env, sources, more, d, e);
    }
  }

  /** Too few sources deliver at delivery t for a forced seeding to go on. */
  predicate Dry(env: Env, c: Config, t: nat) {
    AtLeast(Delivery(env, c.sources, t), 1) < Need(c)
  }

  /** Deliveries went on from p to q in at most k seeding calls: while the sources are dry, each call takes one. */
  ghost predicate Frugal(env: Env, c: Config, p: nat, q: nat, k: nat) {
    (forall t :: p <= t < p + k ==> Dry(env, c, t)) ==> q <= p + k
  }

  lemma FrugalTrans(env: Env, c: Config, p: nat, q: nat, r: nat, k: nat, j: nat)
    requires Frugal(env, c, p, q, k) && Frugal(env, c, q, r, j) && p <= q
    ensures Frugal(env, c, p, r, k + j)
  {
  }

  /** From some time on enough sources deliver for a forced seeding to go on. */
  ghost predicate Delivering(c: Config, env: Env) {
    forall t: nat :: t >= env.settled ==> !Dry(env, c, t)
  }

  /** DRNGs that are not fully seeded. */
  function Unseeded(drngs: seq<Drng>): nat {
    if drngs == [] then 0
    else Unseeded(drngs[..|drngs| - 1]) + if drngs[|drngs| - 1].fullySeeded then 0 else 1
  }

  lemma {:induction false} UnseededUpdate(drngs: seq<Drng>, d: nat, r: Drng)
    requires d < |drngs| && !drngs[d].fullySeeded
    ensures Unseeded(drngs[d := r]) == Unseeded(drngs) - if r.fullySeeded then 1 else 0
  {
    var n := |drngs| - 1;
    if d == n {
      assert drngs[d := r][..n] == drngs[..n];
    } else {
      assert drngs[d := r][..n] == drngs[..n][d := r];
      UnseededUpdate(drngs[..n], d, r);
    }
  }

  /** A state of the manager, as far as it is of interest across calls. */
  datatype Snap = Snap(drngs: seq<Drng>, ledger: seq<Ledger>, pulls: seq<nat>, tick: nat, seedings: nat, looks: nat,
                       operational: bool, available: bool, published: bool)
  {
    /** What being operational is meant to say. */
    predicate Backed() {
      operational && |drngs| > 0 ==> drngs[0].fullySeeded
    }
  }

  /** One of these seed callbacks failed. */
  ghost predicate SeedFailed(env: Env, from: nat, to: nat) {
    exists t: nat :: from <= t < to && !env.seedOk(t)
  }

  /** One of these looks at the wait queue saw somebody sleep. */
  ghost predicate SleeperSeen(env: Env, from: nat, to: nat) {
    exists t: nat :: from <= t < to && env.sleeper(t)
  }

  /** The generate callback failed at one of these consultations. */
  ghost predicate GenerateFailed(env: Env, from: nat, to: nat) {
    exists t: nat :: from <= t < to && env.generate(t) <= 0
  }

  /** From a to b a seed callback failed, or somebody was seen to sleep. */
  ghost predicate Disturbed(env: Env, a: Snap, b: Snap) {
    SeedFailed(env, a.seedings, b.seedings) || SleeperSeen(env, a.looks, b.looks)
  }

  /** DRNG d is still fully seeded unless it may lose that; if it became so, or its last full seeding is another one,
      entropy of the security strength was pulled for it. */
  predicate KeptDrng(env: Env, c: Config, a: Snap, b: Snap, lost: int, d: nat)
    requires d < |a.drngs| == |b.drngs|
  {
    && (d != lost && a.drngs[d].fullySeeded ==> b.drngs[d].fullySeeded)
    && (b.drngs[d].fullySeeded && !a.drngs[d].fullySeeded ==>
         Credit(env, c.sources, b.pulls, d) >= Credit(env, c.sources, a.pulls, d) + c.strength)
    && (d < |a.ledger| && d < |b.ledger| && b.ledger[d].mark != a.ledger[d].mark ==>
         Credit(env, c.sources, b.pulls, d) >= Credit(env, c.sources, a.pulls, d) + c.strength)
  }

  /** What steps of the manager keep from a to b. DRNG lost may lose its level, and with the initial DRNG the
      manager. While it was not operational, a DRNG other than the initial one was seeded only if other holds; unless
      so, operational goes on to mean that the initial DRNG is fully seeded if nothing disturbed that. Nobody looks at
      the wait queue of a manager that is available. */
  ghost predicate Kept(env: Env, c: Config, a: Snap, b: Snap, lost: int, other: bool) {
    && |b.drngs| == |a.drngs| && |b.ledger| == |a.ledger|
    && b.available == a.available && b.published == a.published && a.tick <= b.tick && a.pulls <= b.pulls
    && a.seedings <= b.seedings && a.looks <= b.looks && (a.available ==> b.looks == a.looks)
    && (lost != 0 && a.operational ==> b.operational)
    && (forall d :: 0 <= d < |a.drngs| ==> KeptDrng(env, c, a, b, lost, d))
    && (a.Backed() && (other ==> a.operational) ==> b.Backed() || Disturbed(env, a, b))
  }

  lemma KeptDrngTrans(env: Env, c: Config, a: Snap, b: Snap, e: Snap, lost: int, d: nat)
    requires d < |a.drngs| == |b.drngs| == |e.drngs| && a.pulls <= b.pulls <= e.pulls
    requires |a.ledger| == |b.ledger| == |e.ledger|
    requires KeptDrng(env, c, a, b, lost, d) && KeptDrng(env, c, b, e, lost, d)
    ensures KeptDrng(env, c, a, e, lost, d)
  {
    CreditGrows(env, c.sources, a.pulls, b.pulls, d);
    CreditGrows(env, c.sources, b.pulls, e.pulls, d);
  }

  /** Less may be kept. */
  lemma KeptWeaker(env: Env, c: Config, a: Snap, b: Snap, lost: int, other: bool)
    requires Kept(env, c, a, b, -1, other)
    ensures Kept(env, c, a, b, lost, other)
    ensures Kept(env, c, a, b, lost, true)
  {
    forall d | 0 <= d < |a.drngs| ensures KeptDrng(env, c, a, b, lost, d) {
      assert KeptDrng(env, c, a, b, -1, d);
    }
  }

  lemma KeptOther(env: Env, c: Config, a: Snap, b: Snap, lost: int)
    requires Kept(env, c, a, b, lost, false)
    ensures Kept(env, c, a, b, lost, true)
  {
  }

  /** Steps compose. */
  lemma KeptTrans(env: Env, c: Config, a: Snap, b: Snap, e: Snap, lost: int, other: bool)
    requires Kept(env, c, a, b, lost, other) && Kept(env, c, b, e, lost, other)
    requires other ==> lost != 0
    ensures Kept(env, c, a, e, lost, other)
  {
    forall d | 0 <= d < |a.drngs| ensures KeptDrng(env, c, a, e, lost, d) {
      KeptDrngTrans(env, c, a, b, e, lost, d);
    }
  }

  /** The flag that asks for a reseed is not among what is kept. */
  lemma KeptFlagged(env: Env, c: Config, a: Snap, a': Snap, b: Snap, lost: int, other: bool)
    requires Kept(env, c, a', b, lost, other) && |a.drngs| == |a'.drngs|
    requires a.(drngs := a'.drngs) == a'
    requires forall d :: 0 <= d < |a.drngs| ==> a.drngs[d].fullySeeded == a'.drngs[d].fullySeeded
    ensures Kept(env, c, a, b, lost, other)
  {
    forall d | 0 <= d < |a.drngs| ensures KeptDrng(env, c, a, b, lost, d) {
      assert KeptDrng(env, c, a', b, lost, d);
    }
  }

  /** Counters and flags of DRNG d changed, and time passed. */
  lemma KeptCounters(env: Env, c: Config, a: Snap, b: Snap, d: nat, lost: int, other: bool)
    requires d < |a.drngs| == |b.drngs| && b.drngs == a.drngs[d := b.drngs[d]]
    requires b.drngs[d].fullySeeded == a.drngs[d].fullySeeded
    requires b == a.(drngs := b.drngs, ledger := b.ledger, tick := b.tick) && a.tick <= b.tick
    requires |b.ledger| == |a.ledger| && forall i :: 0 <= i < |a.ledger| ==> b.ledger[i].mark == a.ledger[i].mark
    ensures Kept(env, c, a, b, lost, other)
  {
  }

  /** DRNG d lost its level, and with the initial one the manager. */
  lemma KeptDrop(env: Env, c: Config, a: Snap, b: Snap, d: nat)
    requires d < |a.drngs|
    requires b == a.(drngs := a.drngs[d := a.drngs[d].(fullySeeded := false)], operational := a.operational && d != 0)
    ensures Kept(env, c, a, b, d, false)
  {
  }

  /** The levels rose at most because somebody was seen to sleep. */
  lemma KeptLook(env: Env, c: Config, a: Snap, b: Snap)
    requires !a.available && a.tick <= b.tick
    requires b == a.(tick := b.tick, looks := a.looks + 1, operational := b.operational)
    requires (a.operational ==> b.operational) && (b.operational == a.operational || env.sleeper(a.looks))
    ensures Kept(env, c, a, b, -1, false)
  {
    assert env.sleeper(a.looks) ==> SleeperSeen(env, a.looks, b.looks);
  }

  lemma KeptItself(env: Env, c: Config, a: Snap)
    ensures Kept(env, c, a, a, -1, false)
  {
  }

  /** What calls keep from a to e: time and deliveries go on, so many more bytes came from the prediction resistance
      DRNG, and after a safe call operational goes on to mean that the initial DRNG is fully seeded, unless that was
      disturbed. */
  ghost predicate Moved(env: Env, a: Snap, e: Snap, made: nat, safe: bool) {
    && a.tick <= e.tick && a.pulls <= e.pulls && a.seedings <= e.seedings && a.looks <= e.looks
    && (a.available ==> e.available && e.looks == a.looks)
    && |a.ledger| >= 2 && |e.ledger| >= 2 && e.ledger[1].produced == a.ledger[1].produced + made
    && (safe && a.Backed() ==> e.Backed() || Disturbed(env, a, e))
  }

  lemma MovedItself(env: Env, a: Snap, safe: bool)
    requires |a.ledger| >= 2
    ensures Moved(env, a, a, 0, safe)
  {
  }

  lemma MovedKept(env: Env, c: Config, a: Snap, e: Snap, safe: bool)
    requires Kept(env, c, a, e, -1, false) && Used(a.ledger, e.ledger, 0, 0, 0) && |a.ledger| >= 2
    ensures Moved(env, a, e, 0, safe)
  {
  }

  lemma MovedTrans(env: Env, a: Snap, b: Snap, e: Snap, made: nat, made': nat, safe: bool)
    requires Moved(env, a, b, made, safe) && Moved(env, b, e, made', safe)
    ensures Moved(env, a, e, made + made', safe)
  {
  }

  lemma NothingDry(sources: nat)
    ensures AtLeast(Nothing(sources), 1) == 0
  {
    AtLeastSum(Nothing(sources), 1);
    ZeroSum(Nothing(sources));
  }

  /** How a seeding call began: its DRNG, whether forced, the mark of the DRNG, whether the sources are skipped, and
      where callbacks and deliveries stood. */
  datatype Begun = Begun(d: nat, forced: bool, was: bool, skip: bool, seedings: nat, deliveries: nat, pulls: seq<nat>)

  class Esdm {
    const c: Config
    const env: Environment
    /** Consultations of the environment, deliveries of the sources, seed callbacks, looks at the wait queue. */
    var tick: nat
    var deliveries: nat
    var seedings: nat
    var looks: nat
    var operational: bool
    var fullySeeded: bool
    var minSeeded: bool
    var allSeeded: bool
    var bootThresh: nat
    var available: bool
    /** The initial DRNG, the prediction resistance DRNG, then those of further nodes. */
    var drngs: seq<Drng>
    var published: bool

    ghost var ledger: seq<Ledger>
    /** The DRNG that each delivery was pulled for. */
    ghost var pulls: seq<nat>

    ghost predicate Shaped()
      reads this
    {
      |drngs| >= 2 && |ledger| == |drngs| && (!published ==> |drngs| == 2) && |pulls| == deliveries
    }

    /** The seed levels. */
    ghost predicate Levels()
      requires Shaped()
      reads this
    {
      && operational == fullySeeded
      && (operational ==> minSeeded)
      && (drngs[0].fullySeeded ==> operational)
      && (allSeeded ==> forall d :: 0 <= d < |drngs| ==> drngs[d].fullySeeded)
    }

    /** Request accounting of every DRNG. */
    ghost predicate Counts()
      requires Shaped()
      reads this
    {
      forall d :: 0 <= d < |drngs| ==> Exact(drngs[d], ledger[d])
    }

    /** The bits pulled so far for DRNG d. */
    ghost function Pulled(d: nat): nat
      reads this
    {
      Credit(env, c.sources, pulls, d)
    }

    /** Prediction resistance: what was produced, and what may be, is covered by what was pulled. */
    ghost predicate Balanced()
      requires Shaped()
      reads this
    {
      8 * ledger[1].produced + (if drngs[1].fullySeeded then c.strength else 0) <= Pulled(1)
    }

    /** All but the balance, which a request may owe for a moment. */
    ghost predicate Sane()
      reads this
    {
      Shaped() && Levels() && Counts()
    }

    ghost predicate Valid()
      reads this
    {
      Sane() && Balanced()
    }

    constructor (c: Config, env: Environment)
      ensures Valid() && this.c == c && this.env == env && !available && !published
      ensures tick == deliveries == seedings == looks == 0 && !operational && !allSeeded && bootThresh == 256
      ensures drngs == [ResetDrng(), ResetDrng()] && ledger == [Ledger(0, 0, None), Ledger(0, 0, None)]
    {
      this.c, this.env := c, env;
      tick, deliveries, seedings, looks, bootThresh := 0, 0, 0, 0, 256;
      available, published := false, false;
      operational, fullySeeded, minSeeded, allSeeded := false, false, false, false;
      drngs := [ResetDrng(), ResetDrng()];
      ledger := [Ledger(0, 0, None), Ledger(0, 0, None)];
      pulls := [];
    }

    /** esdm_drng_mgr_initialize: once allocated, the DRNGs stay. */
    method Initialize() returns (ok: bool)
      modifies this`available, this`tick
      ensures tick >= old(tick) && ok == available && (old(available) ==> available)
      ensures !old(available) ==> ok == env.initOk(old(tick)) && tick == old(tick) + 1
      ensures old(available) ==> tick == old(tick)
    {
      if available {
        return true;
      }
      ok := env.initOk(tick);
      tick, available := tick + 1, ok;
    }

    /** esdm_drng_inject */
    method Inject(d: nat, full: bool)
      requires Shaped() && Counts() && d < |drngs|
      modifies this`drngs, this`ledger, this`seedings
      ensures Shaped() && Counts() && seedings == old(seedings) + 1 && |drngs| == |old(drngs)|
      ensures drngs == old(drngs)[d := drngs[d]] && ledger == old(ledger)[d := ledger[d]]
      ensures drngs[d] == if env.seedOk(old(seedings)) then Seeded(old(drngs)[d], full)
                          else old(drngs)[d].(forceReseed := true)
      ensures ledger[d] == if env.seedOk(old(seedings)) then SeededLedger(old(ledger)[d], full) else old(ledger)[d]
    {
      var r := drngs[d];
      SeededExact(r, ledger[d], full);
      if !env.seedOk(seedings) {
        drngs := drngs[d := r.(forceReseed := true)];
      } else {
        drngs := drngs[d := Seeded(r, full)];
        ledger := ledger[d := SeededLedger(ledger[d], full)];
      }
      seedings := seedings + 1;
    }

    /** What the sources advertise at consultation t. */
    function Advertised(t: nat): (s: seq<nat>)
      ensures |s| == c.sources
    {
      seq<nat>(c.sources, i requires 0 <= i < c.sources => env.curr(t, i))
    }

    /** esdm_init_ops: raise the seed levels by what was injected, or by what the sources advertise. */
    method InitOps(eb: Option<seq<nat>>)
      requires (operational ==> fullySeeded) && (fullySeeded ==> minSeeded)
      modifies this`operational, this`fullySeeded, this`minSeeded, this`bootThresh, this`tick
      ensures operational == fullySeeded && (operational ==> minSeeded)
      ensures tick >= old(tick) && (eb.Some? ==> tick == old(tick))
      ensures old(minSeeded) ==> minSeeded
      ensures eb.Some? ==>
                (operational <==> old(fullySeeded) || FullyRule(c, allSeeded, Sum(eb.value), eb.value))
      ensures eb.Some? && !operational ==> (minSeeded <==> old(minSeeded) || Sum(eb.value) >= 128)
      ensures eb == None ==>
                (operational <==> old(fullySeeded)
                                  || FullyRule(c, allSeeded, Sum(Advertised(old(tick))), Advertised(old(tick) + 1)))
    {
      if operational {
        return;
      }
      var requested := if c.ntg then 480 else Threshold(c, allSeeded);
      var levels, seedBits;
      if eb.Some? {
        levels, seedBits := eb.value, Sum(eb.value);
      } else {
        seedBits, levels := Sum(Advertised(tick)), Advertised(tick + 1);
        tick := tick + 2;
      }
      if fullySeeded {
        operational, bootThresh := true, requested;
      } else if FullyRule(c, allSeeded, seedBits, levels) {
        fullySeeded := true;
        operational := true;
        minSeeded := true;
        bootThresh := requested;
      } else if !minSeeded {
        if seedBits >= 128 {
          minSeeded, bootThresh := true, requested;
        } else if seedBits >= 32 {
          bootThresh := 128;
        }
      }
    }

    /** An ordinary reseed is skipped when too little is advertised. */
    predicate Skips(force: bool)
      reads this
    {
      !force && fullySeeded && Sum(Advertised(tick)) < if c.oversample then c.strength else 128
    }

    ghost function Now(): Snap
      reads this
    {
      Snap(drngs, ledger, pulls, tick, seedings, looks, operational, available, published)
    }

    /** esdm_fill_seed_buffer, for DRNG d. */
    method FillSeedBuffer(force: bool, ghost d: nat) returns (eb: seq<nat>)
      requires Sane()
      modifies this`tick, this`deliveries, this`pulls
      ensures Sane()
      ensures eb == if old(Skips(force)) then Nothing(c.sources) else Delivery(env, c.sources, |old(pulls)|)
      ensures Now() == old(Now()).(tick := old(tick) + 1,
                                   pulls := if old(Skips(force)) then old(pulls) else old(pulls) + [d])
    {
      var req := if c.oversample then c.strength else 128;
      var avail := Sum(Advertised(tick));
      tick := tick + 1;
      if !force && fullySeeded && avail < req {
        eb := Nothing(c.sources);
      } else {
        eb := Delivery(env, c.sources, deliveries);
        deliveries, pulls := deliveries + 1, pulls + [d];
      }
    }

    /** Between the turns of a seeding call on DRNG d. */
    ghost predicate Collecting(d: nat, l: Loop)
      requires Shaped()
      reads this
    {
      && d < |drngs| && |l.per| == c.sources && l.collected == Sum(l.per)
      && l.fullySeeded == drngs[d].fullySeeded
    }

    /** Seed data went into DRNG d, and the entropy so far collected for it counted for the levels. */
    ghost predicate Raised(d: nat, full: bool, per: seq<nat>, all: bool, b: Snap, e: Snap) {
      && d < |b.drngs| == |b.ledger| == |e.drngs| == |e.ledger|
      && e.tick == b.tick && e.seedings == b.seedings + 1 && e.looks == b.looks && e.pulls == b.pulls
      && e.drngs == b.drngs[d := e.drngs[d]] && e.ledger == b.ledger[d := e.ledger[d]]
      && e.drngs[d].fullySeeded == (b.drngs[d].fullySeeded || (env.seedOk(b.seedings) && full))
      && e.ledger[d] == (if env.seedOk(b.seedings) then SeededLedger(b.ledger[d], full) else b.ledger[d])
      && (e.operational <==> b.operational || FullyRule(c, all, Sum(per), per))
    }

    method InjectAndRaise(d: nat, full: bool, per: seq<nat>)
      requires Sane() && d < |drngs|
      requires full == FullyRule(c, drngs[d].fullySeeded, Sum(per), per)
      modifies this`drngs, this`ledger, this`seedings, this`operational, this`fullySeeded, this`minSeeded,
               this`bootThresh, this`tick
      ensures Sane() && Raised(d, full, per, allSeeded, old(Now()), Now())
    {
      Inject(d, full);
      InitOps(Some(per));
    }

    /** What turn k of a seeding call gets, if its first delivery is from. */
    ghost function SupplyAt(from: nat, skip: bool, k: nat): (s: seq<nat>)
      ensures |s| == c.sources
    {
      if skip then Nothing(c.sources) else Delivery(env, c.sources, from + k)
    }

    ghost function Supply(from: nat, skip: bool): (f: nat -> seq<nat>)
      ensures forall k: nat :: f(k) == SupplyAt(from, skip, k)
    {
      k => SupplyAt(from, skip, k)
    }

    /** Whether the seed callback of turn k succeeds, if t others came before the call. */
    ghost function Callbacks(t: nat): nat -> bool {
      (k: nat) => env.seedOk(t + k)
    }

    ghost function Start(full: bool): Loop {
      Loop(0, Nothing(c.sources), full, true)
    }

    /** One turn of a seeding call on DRNG d, from state e and loop l to e' and l': what the sources delivered, unless
        they were skipped, is injected. */
    ghost predicate Turned(d: nat, skip: bool, l: Loop, e: Snap, all: bool, l': Loop, eb: seq<nat>, e': Snap)
      requires |l.per| == c.sources
    {
      && d < |e.drngs| == |e.ledger| == |e'.drngs| == |e'.ledger|
      && eb == (if skip then Nothing(c.sources) else Delivery(env, c.sources, |e.pulls|))
      && l' == Round(c, l, eb, env.seedOk(e.seedings)) && e'.looks == e.looks
      && e'.tick == e.tick + 1 && e'.seedings == e.seedings + 1
      && e'.pulls == (if skip then e.pulls else e.pulls + [d])
      && e'.drngs == e.drngs[d := e'.drngs[d]] && e'.ledger == e.ledger[d := e'.ledger[d]]
      && (e'.ledger[d] == e.ledger[d]
          || (e'.ledger[d] == SeededLedger(e.ledger[d], true) && l'.collected >= c.strength))
      && (e'.operational <==> e.operational || FullyRule(c, all, l'.collected, l'.per))
    }

    lemma TurnDone(d: nat, skip: bool, l: Loop, a: Snap, eb: seq<nat>, b: Snap, per: seq<nat>, all: bool, e: Snap,
                   l': Loop)
      requires |l.per| == c.sources && l.collected == Sum(l.per)
      requires eb == if skip then Nothing(c.sources) else Delivery(env, c.sources, |a.pulls|)
      requires b == a.(tick := a.tick + 1, pulls := if skip then a.pulls else a.pulls + [d])
      requires per == Added(l.per, eb) && d < |b.drngs| && b.drngs[d].fullySeeded == l.fullySeeded
      requires Raised(d, FullyRule(c, l.fullySeeded, Sum(per), per), per, all, b, e)
      requires l' == Loop(l.collected + Sum(eb), per, e.drngs[d].fullySeeded,
                          !e.drngs[d].fullySeeded && AtLeast(eb, 1) >= Need(c))
      ensures Turned(d, skip, l, a, all, l', eb, e) && l'.collected == Sum(l'.per)
    {
      AddedSum(l.per, eb);
      if FullyRule(c, l.fullySeeded, Sum(per), per) {
        RuleCoversStrength(c, l.fullySeeded, per);
      }
    }

    /** One turn of esdm_drng_seed_es_nolock. */
    method SeedRound(d: nat, forced: bool, l: Loop) returns (l': Loop, ghost eb: seq<nat>)
      requires Sane() && Collecting(d, l)
      modifies this`drngs, this`ledger, this`tick, this`operational, this`fullySeeded, this`minSeeded, this`bootThresh,
               this`seedings, this`deliveries, this`pulls
      ensures Sane() && Collecting(d, l') && seedings == old(seedings) + 1
      ensures Turned(d, old(Skips(forced && !l.fullySeeded)), l, old(Now()), allSeeded, l', eb, Now()) == true
    {
      ghost var a, skip := Now(), Skips(forced && !l.fullySeeded);
      var buf := FillSeedBuffer(forced && !l.fullySeeded, d);
      eb := buf;
      ghost var b := Now();
      var collected, per := l.collected + Sum(buf), Added(l.per, buf);
      AddedSum(l.per, buf);
      var full := FullyRule(c, l.fullySeeded, collected, per);
      InjectAndRaise(d, full, per);
      var now := drngs[d].fullySeeded;
      l' := Loop(collected, per, now, !now && AtLeast(buf, 1) >= Need(c));
      TurnDone(d, skip, l, a, eb, b, per, allSeeded, Now(), l');
    }

    /** How a seeding call on DRNG d begins. */
    ghost function Begin(d: nat): Begun
      requires d < |drngs|
      reads this
    {
      var r := drngs[d];
      Begun(d, r.forceReseed, r.fullySeeded, Skips(r.forceReseed && !r.fullySeeded), seedings, deliveries, pulls)
    }

    /** The course of a seeding call: after n turns it stands where the loop of the rules stands, and has pulled
        what that loop collected. */
    ghost predicate Course(b: Begun, n: nat, l: Loop, seedings: nat, deliveries: nat, pulls: seq<nat>) {
      && l == Turns(c, Start(b.was), Supply(b.deliveries, b.skip), Callbacks(b.seedings), n)
      && seedings == b.seedings + n && deliveries == b.deliveries + (if b.skip then 0 else n) == |pulls|
      && Spent(env, c.sources, b.pulls, pulls, b.d, l.collected)
      && (n > 1 ==>
           b.forced && GoingAfter(c, Start(b.was), Supply(b.deliveries, b.skip), Callbacks(b.seedings), n - 1))
      && (b.forced && !b.was ==> !b.skip) && (b.was ==> l.fullySeeded)
    }

    lemma FirstTurn(b: Begun, l: Loop, eb: seq<nat>)
      requires |b.pulls| == b.deliveries && (b.forced && !b.was ==> !b.skip)
      requires eb == if b.skip then Nothing(c.sources) else Delivery(env, c.sources, b.deliveries)
      requires l == Round(c, Start(b.was), eb, env.seedOk(b.seedings))
      ensures Course(b, 1, l, b.seedings + 1, b.deliveries + (if b.skip then 0 else 1),
                     if b.skip then b.pulls else b.pulls + [b.d])
    {
      var ebs, oks := Supply(b.deliveries, b.skip), Callbacks(b.seedings);
      assert Turns(c, Start(b.was), ebs, oks, 0) == Start(b.was);
      assert ebs(0) == eb && oks(0) == env.seedOk(b.seedings);
      ZeroSum(Nothing(c.sources));
      assert Spent(env, c.sources, b.pulls, b.pulls, b.d, 0);
      if !b.skip {
        SpentMore(env, c.sources, b.pulls, b.pulls, b.d, 0);
      }
    }

    lemma NextTurn(b: Begun, n: nat, l: Loop, seedings: nat, pulls: seq<nat>, l': Loop, eb: seq<nat>)
      requires Course(b, n, l, seedings, |pulls|, pulls) && n >= 1 && b.forced && l.going && !l.fullySeeded
      requires eb == Delivery(env, c.sources, |pulls|) && l' == Round(c, l, eb, env.seedOk(seedings))
      ensures Course(b, n + 1, l', seedings + 1, |pulls| + 1, pulls + [b.d])
    {
      var ebs, oks := Supply(b.deliveries, b.skip), Callbacks(b.seedings);
      assert ebs(n) == eb && oks(n) == env.seedOk(seedings);
      SpentMore(env, c.sources, b.pulls, pulls, b.d, l.collected);
      assert GoingAfter(c, Start(b.was), ebs, oks, n) by {
        forall k | 0 < k <= n ensures Turns(c, Start(b.was), ebs, oks, k).going {
          if k < n {
            assert GoingAfter(c, Start(b.was), ebs, oks, n - 1);
          }
        }
      }
    }

    /** A seeding call that began in state a, after n turns, in state e: only its DRNG has changed, and the levels
        rose by what it collected. */
    ghost predicate SoFar(b: Begun, a: Snap, n: nat, l: Loop, all: bool, e: Snap) {
      && Course(b, n, l, e.seedings, |e.pulls|, e.pulls) && e.tick == a.tick + n && e.looks == a.looks
      && b.d < |a.drngs| == |a.ledger| == |e.drngs| == |e.ledger|
      && e.drngs == a.drngs[b.d := e.drngs[b.d]] && e.ledger == a.ledger[b.d := e.ledger[b.d]]
      && (e.ledger[b.d] == a.ledger[b.d]
          || (e.ledger[b.d] == SeededLedger(a.ledger[b.d], true) && l.collected >= c.strength))
      && (e.operational <==> a.operational || FullyRule(c, all, l.collected, l.per))
      && (l.going ==> !l.fullySeeded)
    }

    lemma SoFarFirst(b: Begun, a: Snap, l: Loop, all: bool, eb: seq<nat>, e: Snap)
      requires b.seedings == a.seedings && b.pulls == a.pulls && b.deliveries == |a.pulls|
      requires b.forced && !b.was ==> !b.skip
      requires Turned(b.d, b.skip, Start(b.was), a, all, l, eb, e)
      ensures SoFar(b, a, 1, l, all, e) == true
    {
      FirstTurn(b, l, eb);
    }

    lemma SoFarNext(b: Begun, a: Snap, n: nat, l: Loop, all: bool, e: Snap, l': Loop, eb: seq<nat>, e': Snap)
      requires SoFar(b, a, n, l, all, e) && n >= 1 && b.forced && l.going
      requires Turned(b.d, false, l, e, all, l', eb, e')
      ensures SoFar(b, a, n + 1, l', all, e') == true
    {
      NextTurn(b, n, l, e.seedings, e.pulls, l', eb);
      if FullyRule(c, all, l.collected, l.per) {
        RuleGrows(c, all, l, eb);
      }
    }

    ghost predicate Underway(b: Begun, a: Snap, n: nat, l: Loop)
      reads this
    {
      Sane() && Collecting(b.d, l) && SoFar(b, a, n, l, allSeeded, Now())
    }

    /** The first turn. */
    method SeedOnce(d: nat, ghost b: Begun) returns (l: Loop)
      requires Sane() && d < |drngs| && b == Begin(d)
      modifies this`drngs, this`ledger, this`tick, this`operational, this`fullySeeded, this`minSeeded, this`bootThresh,
               this`seedings, this`deliveries, this`pulls
      ensures Underway(b, old(Now()), 1, l) == true
    {
      ghost var eb, a := [], Now();
      l := Loop(0, Nothing(c.sources), drngs[d].fullySeeded, true);
      ZeroSum(l.per);
      l, eb := SeedRound(d, drngs[d].forceReseed, l);
      SoFarFirst(b, a, l, allSeeded, eb, Now());
    }

    /** A further turn. */
    method SeedTurn(d: nat, ghost b: Begun, ghost a: Snap, ghost n: nat, l: Loop) returns (l': Loop)
      requires Underway(b, a, n, l) && n >= 1 && d == b.d && b.forced && l.going
      modifies this`drngs, this`ledger, this`tick, this`operational, this`fullySeeded, this`minSeeded, this`bootThresh,
               this`seedings, this`deliveries, this`pulls
      ensures Underway(b, a, n + 1, l') == true
      ensures !l'.going || Closer(DistanceOf(env, c, l', seedings), DistanceOf(env, c, l, old(seedings)))
    {
      ghost var eb, e := [], Now();
      l', eb := SeedRound(d, true, l);
      SoFarNext(b, a, n, l, allSeeded, e, l', eb, Now());
      TurnCloser(env, c, l, eb, old(seedings), l', seedings);
    }

    /** The loop: the first turn always, further ones while the call is forced and the rules let it go on. It ends
        because every turn brings the threshold closer, and once it is reached the callback fails only so often. */
    method SeedLoop(d: nat, ghost b: Begun) returns (l: Loop, ghost n: nat)
      requires Sane() && d < |drngs| && b == Begin(d)
      modifies this`drngs, this`ledger, this`tick, this`operational, this`fullySeeded, this`minSeeded, this`bootThresh,
               this`seedings, this`deliveries, this`pulls
      ensures n >= 1 && !(b.forced && l.going)
      ensures Underway(b, old(Now()), n, l) == true
    {
      ghost var a := Now();
      var forced := drngs[d].forceReseed;
      l := SeedOnce(d, b);
      n := 1;
      ghost var far := DistanceOf(env, c, l, seedings);
      while forced && l.going
        invariant n >= 1
        invariant Underway(b, a, n, l) == true
        invariant far == DistanceOf(env, c, l, seedings)
        decreases l.going, far.deficit, far.unmet, far.waiting
      {
        l := SeedTurn(d, b, a, n, l);
        n, far := n + 1, DistanceOf(env, c, l, seedings);
      }
    }

    /** The rule was met by the entropy of the call, when its DRNG turned fully seeded. */
    lemma FullByRule(b: Begun, n: nat, l: Loop, seedings: nat, deliveries: nat, pulls: seq<nat>)
      requires Course(b, n, l, seedings, deliveries, pulls) && !b.was && l.fullySeeded
      ensures l.collected == Sum(l.per) && FullyRule(c, false, l.collected, l.per) && l.collected >= c.strength
    {
      ZeroSum(Nothing(c.sources));
      var ebs, oks := Supply(b.deliveries, b.skip), Callbacks(b.seedings);
      assert n > 1 ==> GoingAfter(c, Start(false), ebs, oks, n - 1);
      TurnedByRule(c, Start(false), ebs, oks, n);
      RuleCoversStrength(c, false, l.per);
    }

    /** If the rule is met and still its DRNG is not fully seeded, the last seed callback failed. */
    lemma FailedByCallback(b: Begun, n: nat, l: Loop, seedings: nat, deliveries: nat, pulls: seq<nat>)
      requires Course(b, n, l, seedings, deliveries, pulls) && n >= 1 && !l.fullySeeded
      requires FullyRule(c, false, l.collected, l.per)
      ensures !env.seedOk(seedings - 1)
    {
      var ebs, oks := Supply(b.deliveries, b.skip), Callbacks(b.seedings);
      NotSeededIff(c, Start(false), ebs, oks, n);
      assert Met(c, Start(false), ebs, n - 1);
      assert !oks(n - 1);
    }

    /** The state a is the one in which the call b began. */
    ghost predicate From(b: Begun, a: Snap) {
      && b.d < |a.drngs| && b.was == a.drngs[b.d].fullySeeded && b.seedings == a.seedings && b.pulls == a.pulls
      && (a.drngs[0].fullySeeded ==> a.operational)
    }

    lemma CallCovered(b: Begun, a: Snap, n: nat, l: Loop)
      requires From(b, a) && Underway(b, a, n, l)
      ensures KeptDrng(env, c, a, Now(), -1, b.d)
      ensures forall d :: 0 <= d < |drngs| && d != b.d ==> KeptDrng(env, c, a, Now(), -1, d)
      ensures forall d: nat :: Pulled(d) == Credit(env, c.sources, a.pulls, d) + if b.d == d then l.collected else 0
    {
      if l.fullySeeded && !b.was {
        FullByRule(b, n, l, seedings, deliveries, pulls);
      }
    }

    lemma CallBacked(b: Begun, a: Snap, n: nat, l: Loop)
      requires From(b, a) && Underway(b, a, n, l) && n >= 1
      ensures a.Backed() && (b.d != 0 ==> a.operational) ==>
                Now().Backed() || SeedFailed(env, a.seedings, seedings)
    {
      if b.d == 0 && FullyRule(c, false, l.collected, l.per) && !l.fullySeeded {
        FailedByCallback(b, n, l, seedings, deliveries, pulls);
        assert SeedFailed(env, a.seedings, seedings);
      }
    }

    lemma CallKept(b: Begun, a: Snap, n: nat, l: Loop)
      requires From(b, a) && Underway(b, a, n, l) && n >= 1
      requires available == a.available && published == a.published
      ensures Kept(env, c, a, Now(), -1, b.d != 0) == true
      ensures Used(a.ledger, ledger, 0, 0, 0) == true
      ensures forall d: nat :: Pulled(d) == Credit(env, c.sources, a.pulls, d) + if b.d == d then l.collected else 0
      ensures b.d == 1 && drngs[1].fullySeeded && !b.was ==> l.collected >= c.strength
    {
      CallCovered(b, a, n, l);
      CallBacked(b, a, n, l);
      assert forall i :: 0 <= i < |drngs| ==> KeptDrng(env, c, a, Now(), -1, i);
    }

    /** What n turns of a seeding call on DRNG d that began in state a lead to by the rules, with just the deliveries
        and the callbacks of these turns. */
    ghost function Taken(a: Snap, d: nat, n: nat): Loop
      requires d < |a.drngs|
      reads this
    {
      Turns(c, Start(a.drngs[d].fullySeeded), Supply(|a.pulls|, deliveries == |a.pulls|), Callbacks(a.seedings), n)
    }

    /** After each of n turns there is to be a further one. */
    ghost predicate Going(a: Snap, d: nat, n: nat)
      requires d < |a.drngs|
      reads this
    {
      GoingAfter(c, Start(a.drngs[d].fullySeeded), Supply(|a.pulls|, deliveries == |a.pulls|), Callbacks(a.seedings), n)
    }

    /** The outcome of a seeding call on DRNG d that began in state a: n turns, no more than the rules ask for, led to
        l, and l made out the level of the DRNG and of the manager. */
    ghost predicate Outcome(a: Snap, d: nat, n: nat, l: Loop)
      requires d < |a.drngs|
      reads this
    {
      && n >= 1 && tick == a.tick + n && seedings == a.seedings + n && |pulls| == deliveries >= |a.pulls|
      && l == Taken(a, d, n) && (n > 1 ==> Going(a, d, n - 1))
      && (deliveries > |a.pulls| ==> deliveries == |a.pulls| + n)
      && |drngs| == |a.drngs| && drngs == a.drngs[d := drngs[d]] && drngs[d].fullySeeded == l.fullySeeded
      && (operational <==> a.operational || FullyRule(c, allSeeded, l.collected, l.per))
    }

    lemma CallOutcome(b: Begun, a: Snap, n: nat, l: Loop)
      requires From(b, a) && Underway(b, a, n, l) && n >= 1 && b.deliveries == |b.pulls|
      ensures Outcome(a, b.d, n, l) == true
    {
      assert b.skip == (deliveries == |a.pulls|);
    }

    /** A call takes one turn only if its DRNG was fully seeded, or became so, or if the sources are dry. */
    lemma OnceOnly(a: Snap, d: nat, n: nat, l: Loop)
      requires d < |a.drngs| && Outcome(a, d, n, l)
      requires a.drngs[d].fullySeeded || Taken(a, d, 1).fullySeeded || Dry(env, c, |a.pulls|) || deliveries == |a.pulls|
      ensures n == 1
    {
      if n > 1 {
        assert Taken(a, d, 1).going;
        assert Taken(a, d, 0) == Start(a.drngs[d].fullySeeded);
        assert Supply(|a.pulls|, deliveries == |a.pulls|)(0) == SupplyAt(|a.pulls|, deliveries == |a.pulls|, 0);
        NothingDry(c.sources);
      }
    }

    lemma CallFrugal(a: Snap, d: nat, n: nat, l: Loop)
      requires d < |a.drngs| && Outcome(a, d, n, l)
      ensures Frugal(env, c, |a.pulls|, deliveries, 1)
    {
      if Dry(env, c, |a.pulls|) {
        OnceOnly(a, d, n, l);
      }
    }

    /** esdm_drng_seed_es_nolock: pull and inject once, or, when forced, until the DRNG is fully seeded or
        too few sources deliver. */
    method SeedEs(d: nat) returns (collected: nat, ghost n: nat, ghost l: Loop)
      requires Valid() && d < |drngs|
      modifies this`drngs, this`ledger, this`tick, this`operational, this`fullySeeded, this`minSeeded, this`bootThresh,
               this`seedings, this`deliveries, this`pulls
      ensures Valid() && n >= 1 && collected == l.collected
      ensures Outcome(old(Now()), d, n, l) == true
      ensures Kept(env, c, old(Now()), Now(), -1, d != 0) == true
      ensures Used(old(ledger), ledger, 0, 0, 0) == true
      ensures forall i: nat :: Pulled(i) == old(Pulled(i)) + if d == i then collected else 0
      ensures !old(drngs)[d].forceReseed || old(drngs)[d].fullySeeded ==> n == 1
      ensures Frugal(env, c, old(deliveries), deliveries, 1) == true
      ensures deliveries == old(deliveries) <==> old(Skips(drngs[d].forceReseed && !drngs[d].fullySeeded))
      ensures old(drngs)[d].forceReseed && !old(drngs)[d].fullySeeded ==>
                !l.going && deliveries == old(deliveries) + n
    {
      ghost var b, a := Begin(d), Now();
      var loop;
      loop, n := SeedLoop(d, b);
      collected, l := loop.collected, loop;
      CallKept(b, a, n, l);
      CallOutcome(b, a, n, l);
      CallFrugal(a, d, n, l);
      if a.drngs[d].fullySeeded {
        OnceOnly(a, d, n, l);
      }
    }

    /** drng->force_reseed |= force */
    method Demand(d: nat, force: bool)
      requires Valid() && d < |drngs|
      modifies this`drngs
      ensures Valid() && drngs == old(drngs)[d := drngs[d]]
      ensures drngs[d] == old(drngs)[d].(forceReseed := old(drngs)[d].forceReseed || force)
    {
      drngs := drngs[d := drngs[d].(forceReseed := drngs[d].forceReseed || force)];
    }

    lemma CallFlagged(a: Snap, a': Snap, d: nat, n: nat, l: Loop)
      requires d < |a.drngs| == |a'.drngs| && a.(drngs := a'.drngs) == a' && a'.drngs == a.drngs[d := a'.drngs[d]]
      requires a'.drngs[d].fullySeeded == a.drngs[d].fullySeeded
      requires Outcome(a', d, n, l) && Kept(env, c, a', Now(), -1, d != 0)
      ensures Outcome(a, d, n, l) == true
      ensures Kept(env, c, a, Now(), -1, d != 0) == true
    {
      KeptFlagged(env, c, a, a', Now(), -1, d != 0);
    }

    /** Seed DRNG d, after asking for an emergency reseed if told so. */
    method SeedOne(d: nat, force: bool) returns (ghost n: nat, ghost l: Loop)
      requires Valid() && d < |drngs|
      modifies this`drngs, this`ledger, this`tick, this`operational, this`fullySeeded, this`minSeeded, this`bootThresh,
               this`seedings, this`deliveries, this`pulls
      ensures Valid() && n >= 1
      ensures Outcome(old(Now()), d, n, l) == true
      ensures Kept(env, c, old(Now()), Now(), -1, d != 0) == true
      ensures Used(old(ledger), ledger, 0, 0, 0) == true
      ensures force && !old(drngs)[d].fullySeeded ==> !l.going && deliveries == old(deliveries) + n
      ensures !force && !old(drngs)[d].forceReseed ==> n == 1
      ensures !old(fullySeeded) ==> deliveries > old(deliveries)
      ensures Frugal(env, c, old(deliveries), deliveries, 1) == true
    {
      ghost var a := Now();
      Demand(d, force);
      ghost var a' := Now();
      var collected;
      collected, n, l := SeedEs(d);
      CallFlagged(a, a', d, n, l);
    }

    /** DRNG d is the first that is not fully seeded, the prediction resistance DRNG being the last. */
    ghost predicate FirstUnseeded(drngs: seq<Drng>, d: nat)
      requires d < |drngs|
    {
      !drngs[d].fullySeeded && forall i :: 0 <= i < |drngs| && i != 1 && (i < d || d == 1) ==> drngs[i].fullySeeded
    }

    /** The first node DRNG that is not fully seeded. */
    method FindUnseeded() returns (d: nat)
      requires Shaped()
      ensures d < |drngs| ==> d != 1 && !drngs[d].fullySeeded
      ensures forall i :: 0 <= i < d && i < |drngs| && i != 1 ==> drngs[i].fullySeeded
    {
      d := 0;
      while d < |drngs|
        invariant forall i :: 0 <= i < d && i < |drngs| && i != 1 ==> drngs[i].fullySeeded
      {
        if d != 1 && !drngs[d].fullySeeded {
          return;
        }
        d := d + 1;
      }
    }

    /** Seed the first DRNG that is not fully seeded, the prediction resistance DRNG last, or note that all are. */
    method SeedNext(force: bool) returns (ghost which: nat, ghost n: nat, ghost l: Loop)
      requires Valid()
      modifies this`drngs, this`ledger, this`tick, this`operational, this`fullySeeded, this`minSeeded, this`bootThresh,
               this`seedings, this`deliveries, this`pulls, this`allSeeded
      ensures Valid() && n >= 1 && |drngs| == |old(drngs)|
      ensures Used(old(ledger), ledger, 0, 0, 0) == true
      ensures Kept(env, c, old(Now()), Now(), -1, false) == true
      ensures which >= |drngs| ==>
                Now() == old(Now()) && allSeeded && forall d :: 0 <= d < |drngs| ==> drngs[d].fullySeeded
      ensures which < |drngs| ==> FirstUnseeded(old(drngs), which) && allSeeded == old(allSeeded)
      ensures which >= |drngs| || Outcome(old(Now()), which, n, l)
      ensures which < |drngs| && force ==> !l.going && deliveries == old(deliveries) + n
      ensures which < |drngs| && !force && !old(drngs)[which].forceReseed ==> n == 1
      ensures which < |drngs| && !old(fullySeeded) ==> deliveries > old(deliveries)
      ensures Frugal(env, c, old(deliveries), deliveries, 1) == true
    {
      n, l := 1, Start(false);
      KeptItself(env, c, Now());
      var d := FindUnseeded();
      if d >= |drngs| && !drngs[1].fullySeeded {
        d := 1;
      }
      which := d;
      if d < |drngs| {
        n, l := SeedOne(d, force);
      } else {
        allSeeded := true;
      }
    }

    /** __esdm_drng_seed_work; before the DRNGs are there only the levels can rise, by what is advertised, if somebody
        is seen to sleep. */
    method SeedWork(force: bool) returns (ghost which: nat, ghost n: nat, ghost l: Loop)
      requires Valid()
      modifies this`drngs, this`ledger, this`tick, this`operational, this`fullySeeded, this`minSeeded, this`bootThresh,
               this`seedings, this`looks, this`deliveries, this`pulls, this`allSeeded
      ensures Valid() && n >= 1 && |drngs| == |old(drngs)|
      ensures Used(old(ledger), ledger, 0, 0, 0) == true
      ensures Kept(env, c, old(Now()), Now(), -1, false) == true
      ensures !available ==> drngs == old(drngs) && allSeeded == old(allSeeded) && pulls == old(pulls)
      ensures !available ==> looks == old(looks) + 1 && seedings == old(seedings)
      ensures !available ==> (operational <==> old(operational) || old(RaisedByAdvert()))
      ensures available && which >= |drngs| ==>
                Now() == old(Now()) && allSeeded && forall d :: 0 <= d < |drngs| ==> drngs[d].fullySeeded
      ensures available && which < |drngs| ==> FirstUnseeded(old(drngs), which) && allSeeded == old(allSeeded)
      ensures !available || which >= |drngs| || Outcome(old(Now()), which, n, l)
      ensures available && which < |drngs| && force ==> !l.going && deliveries == old(deliveries) + n
      ensures available && which < |drngs| && !force && !old(drngs)[which].forceReseed ==> n == 1
      ensures available && which < |drngs| && !old(fullySeeded) ==> deliveries > old(deliveries)
      ensures Frugal(env, c, old(deliveries), deliveries, 1) == true
    {
      if available {
        which, n, l := SeedNext(force);
      } else {
        which, n, l := |drngs|, 1, Start(false);
        LookUp();
      }
    }

    /** The levels rise at the next look: somebody is seen to sleep, and what is advertised meets the rule. */
    predicate RaisedByAdvert()
      reads this
    {
      env.sleeper(looks) && FullyRule(c, allSeeded, Sum(Advertised(tick)), Advertised(tick + 1))
    }

    /** The look at the wait queue while there are no DRNGs, and what it leads to. */
    method LookUp()
      requires Valid() && !available
      modifies this`tick, this`operational, this`fullySeeded, this`minSeeded, this`bootThresh, this`looks
      ensures Valid() && looks == old(looks) + 1
      ensures operational <==> old(operational) || old(RaisedByAdvert())
      ensures Kept(env, c, old(Now()), Now(), -1, false) == true
    {
      var seen := env.sleeper(looks);
      looks := looks + 1;
      if seen {
        InitOps(None);
      }
      KeptLook(env, c, old(Now()), Now());
    }

    /** esdm_force_fully_seeded */
    method ForceFullySeeded() returns (ghost which: nat, ghost n: nat, ghost l: Loop)
      requires Valid()
      modifies this`drngs, this`ledger, this`tick, this`operational, this`fullySeeded, this`minSeeded, this`bootThresh,
               this`seedings, this`looks, this`deliveries, this`pulls, this`allSeeded
      ensures Valid()
      ensures Kept(env, c, old(Now()), Now(), -1, false) == true
      ensures Used(old(ledger), ledger, 0, 0, 0) == true
      ensures |drngs| == |old(drngs)| && (old(allSeeded) ==> Now() == old(Now()) && which >= |drngs|)
      ensures !old(allSeeded) && available && which >= |drngs| ==> allSeeded && Now() == old(Now())
      ensures !old(allSeeded) && !available ==> drngs == old(drngs) && seedings == old(seedings)
      ensures !old(allSeeded) && !available ==> (operational <==> old(operational) || old(RaisedByAdvert()))
      ensures !old(allSeeded) && available && which < |drngs| ==>
                FirstUnseeded(old(drngs), which) && !l.going && deliveries == old(deliveries) + n && !allSeeded
      ensures old(allSeeded) || !available || which >= |drngs| || Outcome(old(Now()), which, n, l)
      ensures available && !old(allSeeded) && !old(drngs)[0].fullySeeded ==> deliveries > old(deliveries)
      ensures Frugal(env, c, old(deliveries), deliveries, 1) == true
    {
      if allSeeded {
        KeptItself(env, c, Now());
        which, n, l := |drngs|, 1, Start(false);
        return;
      }
      which, n, l := SeedWork(true);
    }

    /** The DRNG, and for the initial one the whole ESDM, loses its level. */
    method DropLevel(d: nat)
      requires Sane() && d < |drngs|
      modifies this`drngs, this`operational, this`fullySeeded, this`allSeeded
      ensures Sane() && !allSeeded && drngs == old(drngs)[d := old(drngs)[d].(fullySeeded := false)]
      ensures operational == (old(operational) && d != 0)
      ensures Kept(env, c, old(Now()), Now(), d, false) == true
    {
      drngs := drngs[d := drngs[d].(fullySeeded := false)];
      assert Counts();
      allSeeded := false;
      if d == 0 && operational {
        operational := false;
        fullySeeded := false;
      }
      KeptDrop(env, c, old(Now()), Now(), d);
    }

    /** esdm_unset_fully_seeded: a level is lost, then a forced reseed is tried at once. For the prediction resistance
        DRNG it is enough beforehand that what was produced is covered. */
    method UnsetFullySeeded(d: nat)
      requires Sane() && d < |drngs|
      requires 8 * ledger[1].produced + (if drngs[1].fullySeeded && d != 1 then c.strength else 0) <= Pulled(1)
      modifies this`drngs, this`ledger, this`tick, this`operational, this`fullySeeded, this`minSeeded, this`bootThresh,
               this`seedings, this`looks, this`deliveries, this`pulls, this`allSeeded
      ensures Valid()
      ensures Kept(env, c, old(Now()), Now(), d, false) == true
      ensures Used(old(ledger), ledger, 0, 0, 0) == true
      ensures |drngs| == |old(drngs)| && (drngs[d].fullySeeded ==> Pulled(d) >= old(Pulled(d)) + c.strength)
      ensures available && d == 0 ==> deliveries > old(deliveries)
      ensures Frugal(env, c, old(deliveries), deliveries, 1) == true
    {
      ghost var a := Now();
      DropLevel(d);
      ghost var b := Now();
      ghost var which, n, l := ForceFullySeeded();
      KeptWeaker(env, c, b, Now(), d, false);
      KeptTrans(env, c, a, b, Now(), d, false);
      assert KeptDrng(env, c, b, Now(), -1, d);
    }

    /** esdm_drng_check_disable_threshold; 2^32 - 1 switches the limit on bits off. */
    predicate OverLimit(d: nat)
      requires d < |drngs|
      reads this
    {
      drngs[d].sinceFull >= c.maxRequests || (c.maxBits != 0xffff_ffff && drngs[d].bits >= c.maxBits)
    }

    /** The state after one more request to DRNG d was checked. */
    ghost function CountedUp(a: Snap, d: nat): Snap
      requires d < |a.drngs| == |a.ledger|
    {
      a.(drngs := a.drngs[d := Checked(a.drngs[d])], tick := a.tick + 1,
         ledger := a.ledger[d := a.ledger[d].(checked := a.ledger[d].checked + 1)])
    }

    /** A reseed is due at the request limit, on demand, at the limit on bits if there is one, or by time. */
    predicate Due(r: Drng, t: nat) {
      r.requests == 0 || r.forceReseed || (c.reseedBits != 0xffff_ffff && r.bits >= c.reseedBits) || env.timeUp(t)
    }

    /** esdm_drng_must_reseed: counts the request. */
    method MustReseed(d: nat) returns (due: bool)
      requires Valid() && d < |drngs|
      modifies this`drngs, this`ledger, this`tick
      ensures Valid() && Now() == CountedUp(old(Now()), d)
      ensures due <==> Due(drngs[d], old(tick))
    {
      CheckedExact(drngs[d], ledger[d]);
      drngs := drngs[d := Checked(drngs[d])];
      ledger := ledger[d := ledger[d].(checked := ledger[d].checked + 1)];
      assert Counts();
      due := Due(drngs[d], tick);
      tick := tick + 1;
    }

    /** A due reseed of DRNG d from a to e: without the pool it is put off; otherwise a delivery for a DRNG that is
        fully seeded counts for the levels. */
    ghost predicate Tried(a: Snap, d: nat, free: bool, all: bool, e: Snap) {
      && d < |a.drngs| && Kept(env, c, a, e, -1, d != 0) && Used(a.ledger, e.ledger, 0, 0, 0)
      && Frugal(env, c, |a.pulls|, |e.pulls|, 1)
      && (!free ==> e.drngs == a.drngs[d := a.drngs[d].(forceReseed := true)])
      && (free && a.drngs[d].fullySeeded && !a.operational ==> Counted(a, d, all, e))
    }

    method ReseedOrPutOff(d: nat) returns (free: bool)
      requires Valid() && d < |drngs|
      modifies this`drngs, this`ledger, this`tick, this`operational, this`fullySeeded, this`minSeeded, this`bootThresh,
               this`seedings, this`deliveries, this`pulls
      ensures Valid() && free == env.poolFree(old(tick))
      ensures Tried(old(Now()), d, free, allSeeded, Now()) == true
    {
      ghost var a := Now();
      free := env.poolFree(tick);
      tick := tick + 1;
      if !free {
        Demand(d, true);
        KeptCounters(env, c, a, Now(), d, -1, d != 0);
      } else {
        SeedDue(d, a);
      }
    }

    /** A due reseed with the pool. */
    method SeedDue(d: nat, ghost a: Snap)
      requires Valid() && d < |drngs| && Now() == a.(tick := a.tick + 1)
      modifies this`drngs, this`ledger, this`tick, this`operational, this`fullySeeded, this`minSeeded, this`bootThresh,
               this`seedings, this`deliveries, this`pulls
      ensures Valid()
      ensures Tried(a, d, true, allSeeded, Now()) == true
    {
      ghost var b := Now();
      KeptCounters(env, c, a, b, d, -1, d != 0);
      var collected; ghost var n, l;
      collected, n, l := SeedEs(d);
      KeptTrans(env, c, a, b, Now(), -1, d != 0);
      if a.drngs[d].fullySeeded && !a.operational {
        OneTurn(d, b, l);
        assert Pulled(d) == Credit(env, c.sources, a.pulls, d) + collected;
      }
    }

    /** The reseed check of an ordinary request, from a to e: one check is counted, a due reseed without the pool is put
        off. */
    ghost predicate IfDue(a: Snap, d: nat, due: bool, free: bool, all: bool, e: Snap) {
      && d < |a.drngs| && Kept(env, c, a, e, -1, d != 0) && Used(a.ledger, e.ledger, d, 1, 0)
      && Frugal(env, c, |a.pulls|, |e.pulls|, 1)
      && (!due ==> e.drngs == a.drngs[d := Checked(a.drngs[d])])
      && (due && !free ==> e.drngs == a.drngs[d := Checked(a.drngs[d]).(forceReseed := true)])
      && (due && free && a.drngs[d].fullySeeded && !a.operational ==> Counted(a, d, all, e))
    }

    lemma DueTried(a: Snap, d: nat, b: Snap, due: bool, free: bool, all: bool, e: Snap)
      requires d < |a.drngs| == |a.ledger| && b == CountedUp(a, d)
      requires if due then Tried(b, d, free, all, e) else e == b
      ensures IfDue(a, d, due, free, all, e)
    {
      KeptCounters(env, c, a, b, d, -1, d != 0);
      UsedOnce(a.ledger, b.ledger, d, 1, 0);
      if due {
        KeptTrans(env, c, a, b, e, -1, d != 0);
        UsedTrans(a.ledger, b.ledger, e.ledger, d, 1, 0);
      }
    }

    method ReseedIfDue(d: nat) returns (due: bool, free: bool)
      requires Valid() && d < |drngs|
      modifies this`drngs, this`ledger, this`tick, this`operational, this`fullySeeded, this`minSeeded, this`bootThresh,
               this`seedings, this`deliveries, this`pulls
      ensures Valid() && (due ==> free == env.poolFree(old(tick) + 1))
      ensures due <==> Due(Checked(old(drngs)[d]), old(tick))
      ensures IfDue(old(Now()), d, due, free, allSeeded, Now()) == true
    {
      ghost var a := Now();
      free := false;
      due := MustReseed(d);
      ghost var b := Now();
      if due {
        free := ReseedOrPutOff(d);
      }
      DueTried(a, d, b, due, free, allSeeded, Now());
    }

    lemma OneTurn(d: nat, a: Snap, l: Loop)
      requires d < |a.drngs| && Outcome(a, d, 1, l) && deliveries > |a.pulls|
      ensures var first := Delivery(env, c.sources, |a.pulls|); l.per == first && l.collected == Sum(first)
    {
      var ebs, oks := Supply(|a.pulls|, false), Callbacks(a.seedings);
      var full, first := a.drngs[d].fullySeeded, Delivery(env, c.sources, |a.pulls|);
      assert Turns(c, Start(full), ebs, oks, 0) == Start(full) && ebs(0) == first;
      assert Added(Nothing(c.sources), first) == first;
    }

    /** The first delivery after state a went to DRNG d, and counted for the levels. */
    ghost predicate Counted(a: Snap, d: nat, all: bool, e: Snap) {
      var first := Delivery(env, c.sources, |a.pulls|);
      && (FullyRule(c, all, Sum(first), first) ==> e.operational)
      && Credit(env, c.sources, e.pulls, d) >= Credit(env, c.sources, a.pulls, d) + Sum(first)
    }

    /** A request to DRNG d in state a begins with a single pull. */
    ghost predicate Pulls(a: Snap, d: nat)
      requires d < |a.drngs|
    {
      if d == 1 then !a.drngs[1].fullySeeded && !a.drngs[1].forceReseed
      else a.drngs[d].fullySeeded && env.timeUp(a.tick) && env.poolFree(a.tick + 1)
    }

    /** A request that finds the manager not operational and begins with a pull for another DRNG than the initial one:
        that delivery counts for the levels. */
    ghost predicate FirstCounts(a: Snap, d: nat, all: bool, e: Snap) {
      0 < d < |a.drngs| && !a.operational && Pulls(a, d) ==> Counted(a, d, all, e)
    }

    lemma FirstStays(a: Snap, d: nat, all: bool, b: Snap, e: Snap)
      requires FirstCounts(a, d, all, b) && Kept(env, c, b, e, d, true)
      ensures FirstCounts(a, d, all, e)
    {
      CreditGrows(env, c.sources, b.pulls, e.pulls, d);
    }

    /** New entropy for the prediction resistance DRNG. */
    method PullPr() returns (collected: nat)
      requires Valid() && !drngs[1].fullySeeded
      modifies this`drngs, this`ledger, this`tick, this`operational, this`fullySeeded, this`minSeeded, this`bootThresh,
               this`seedings, this`deliveries, this`pulls
      ensures Valid() && Pulled(1) == old(Pulled(1)) + collected
      ensures Kept(env, c, old(Now()), Now(), -1, true) == true
      ensures Used(old(ledger), ledger, 0, 0, 0) == true
      ensures FirstCounts(old(Now()), 1, allSeeded, Now()) == true
    {
      ghost var a := Now();
      ghost var turns, l;
      collected, turns, l := SeedEs(1);
      if !a.operational && !a.drngs[1].forceReseed {
        OneTurn(1, a, l);
      }
    }

    /** How much a prediction resistance request may generate next: none without new entropy, otherwise
        no more than was just pulled, or than the full seed is worth. */
    method AllowPr(left: nat) returns (todo: Option<nat>)
      requires Valid()
      modifies this`drngs, this`ledger, this`tick, this`operational, this`fullySeeded, this`minSeeded, this`bootThresh,
               this`seedings, this`deliveries, this`pulls
      ensures Valid()
      ensures Kept(env, c, old(Now()), Now(), -1, true) == true
      ensures Used(old(ledger), ledger, 0, 0, 0) == true
      ensures todo.Some? ==>
                todo.value <= left && 8 * (ledger[1].produced + todo.value) <= Pulled(1) && 8 * todo.value <= c.strength
      ensures todo == None ==> !old(drngs)[1].fullySeeded && Pulled(1) == old(Pulled(1))
      ensures FirstCounts(old(Now()), 1, allSeeded, Now()) == true
    {
      KeptItself(env, c, Now());
      KeptWeaker(env, c, Now(), Now(), -1, false);
      var n := Min(left, 4096);
      if !drngs[1].fullySeeded {
        var collected := PullPr();
        if collected == 0 {
          return None;
        }
        n := Min(n, collected / 8);
      }
      todo := Some(Min(n, c.strength / 8));
    }

    /** The generate callback, and the bits it adds to the count; nothing means it failed. */
    method Generate(d: nat, todo: nat) returns (n: nat)
      requires Sane() && d < |drngs|
      modifies this`drngs, this`ledger, this`tick
      ensures Sane() && n <= todo && tick == old(tick) + 1
      ensures n == if env.generate(old(tick)) <= 0 then 0 else Min(env.generate(old(tick)), todo)
      ensures drngs == old(drngs)[d := Produced(old(drngs)[d], n)]
      ensures ledger == old(ledger)[d := old(ledger)[d].(produced := old(ledger)[d].produced + n)]
    {
      var g := env.generate(tick);
      tick := tick + 1;
      n := if g <= 0 then 0 else Min(g, todo);
      ProducedExact(drngs[d], ledger[d], n);
      drngs := drngs[d := Produced(drngs[d], n)];
      ledger := ledger[d := ledger[d].(produced := ledger[d].produced + n)];
    }

    /** Generate, and what that keeps. */
    method GenerateKept(d: nat, todo: nat) returns (n: nat)
      requires Sane() && d < |drngs|
      modifies this`drngs, this`ledger, this`tick
      ensures Sane() && n <= todo && |drngs| == |old(drngs)|
      ensures forall i :: 0 <= i < |drngs| ==> drngs[i].fullySeeded == old(drngs)[i].fullySeeded
      ensures pulls == old(pulls) && deliveries == old(deliveries)
      ensures n == 0 && todo > 0 ==> GenerateFailed(env, old(tick), tick)
      ensures Kept(env, c, old(Now()), Now(), -1, d != 0) == true
      ensures Used(old(ledger), ledger, d, 0, n) == true
    {
      ghost var a := Now();
      n := Generate(d, todo);
      assert n == 0 && todo > 0 ==> env.generate(old(tick)) <= 0;
      KeptCounters(env, c, a, Now(), d, -1, d != 0);
      UsedOnce(a.ledger, ledger, d, 0, n);
    }

    /** A turn of a prediction resistance request. */
    method GetPrChunk(left: nat) returns (r: Chunk)
      requires Valid()
      modifies this`drngs, this`ledger, this`tick, this`operational, this`fullySeeded, this`minSeeded, this`bootThresh,
               this`seedings, this`looks, this`deliveries, this`pulls, this`allSeeded
      ensures Valid() && (r.Got? ==> 0 < r.n <= left && 8 * r.n <= c.strength)
      ensures Kept(env, c, old(Now()), Now(), 1, true) == true
      ensures Used(old(ledger), ledger, 1, 0, if r.Got? then r.n else 0) == true
      ensures r.Stop? ==> !old(drngs)[1].fullySeeded
      ensures FirstCounts(old(Now()), 1, old(allSeeded), Now()) == true
    {
      ghost var a := Now();
      var todo := AllowPr(left);
      ghost var b := Now();
      KeptWeaker(env, c, a, b, 1, true);
      if todo == None {
        UsedAny(a.ledger, ledger, 1);
        return Stop;
      }
      r := PrGenerate(todo.value);
      KeptTrans(env, c, a, b, Now(), 1, true);
      UsedAfter(a.ledger, b.ledger, ledger, 1, 0, if r.Got? then r.n else 0);
      FirstStays(a, 1, old(allSeeded), b, Now());
    }

    /** Generate from the prediction resistance DRNG, whose seed is then used up. */
    method PrGenerate(todo: nat) returns (r: Chunk)
      requires Valid() && 8 * (ledger[1].produced + todo) <= Pulled(1)
      modifies this`drngs, this`ledger, this`tick, this`operational, this`fullySeeded, this`minSeeded, this`bootThresh,
               this`seedings, this`looks, this`deliveries, this`pulls, this`allSeeded
      ensures Valid() && (r.Got? ==> 0 < r.n <= todo) && !r.Stop?
      ensures Kept(env, c, old(Now()), Now(), 1, true) == true
      ensures Used(old(ledger), ledger, 1, 0, if r.Got? then r.n else 0) == true
    {
      ghost var a := Now();
      var n := GenerateKept(1, todo);
      ghost var b := Now();
      KeptWeaker(env, c, a, b, 1, true);
      if n == 0 {
        return Failed;
      }
      UnsetFullySeeded(1);
      KeptTrans(env, c, a, b, Now(), 1, true);
      UsedTrans(a.ledger, b.ledger, ledger, 1, 0, n);
      r := Got(n);
    }

    /** What a turn of the generate loop with outcome r leads to, from b to e. */
    ghost predicate Chunked(d: nat, left: nat, r: Chunk, b: Snap, all: bool, e: Snap) {
      && Kept(env, c, b, e, d, d != 0)
      && Used(b.ledger, e.ledger, d, if d == 1 then 0 else 1, if r.Got? then r.n else 0)
      && (r.Got? ==> 0 < r.n <= left && (d != 1 ==> r.n <= 4096)) && (r.Stop? ==> d == 1)
      && (r.Failed? && d != 1 ==> GenerateFailed(env, b.tick, e.tick))
      && FirstCounts(b, d, all, e) && (d != 1 ==> Frugal(env, c, |b.pulls|, |e.pulls|, 1))
    }

    /** The reseed check led from a to b, and n more bytes to e. */
    lemma ChunkDone(a: Snap, d: nat, left: nat, due: bool, free: bool, all: bool, b: Snap, n: nat, e: Snap)
      requires d != 1 && IfDue(a, d, due, free, all, b) && Kept(env, c, b, e, -1, d != 0)
      requires Used(b.ledger, e.ledger, d, 0, n) && e.pulls == b.pulls && n <= left && n <= 4096
      requires (n == 0 ==> GenerateFailed(env, b.tick, e.tick)) && (env.timeUp(a.tick) ==> due)
      requires due ==> free == env.poolFree(a.tick + 1)
      ensures Chunked(d, left, if n == 0 then Failed else Got(n), a, all, e)
    {
      KeptTrans(env, c, a, b, e, -1, d != 0);
      UsedMore(a.ledger, b.ledger, e.ledger, d, 1, 0, 0, n);
      KeptWeaker(env, c, a, e, d, d != 0);
      KeptWeaker(env, c, b, e, d, d != 0);
      if d > 0 {
        assert FirstCounts(a, d, all, b);
        FirstStays(a, d, all, b, e);
      }
    }

    /** A turn of an ordinary request. */
    method GetChunk(d: nat, left: nat) returns (r: Chunk)
      requires Valid() && d < |drngs| && d != 1 && left > 0
      modifies this`drngs, this`ledger, this`tick, this`operational, this`fullySeeded, this`minSeeded, this`bootThresh,
               this`seedings, this`deliveries, this`pulls
      ensures Valid() && !r.Stop? && (r.Failed? ==> GenerateFailed(env, old(tick), tick))
      ensures Chunked(d, left, r, old(Now()), allSeeded, Now()) == true
    {
      ghost var a := Now();
      var due, free := ReseedIfDue(d);
      ghost var b := Now();
      var n := GenerateKept(d, Min(left, 4096));
      r := if n == 0 then Failed else Got(n);
      ChunkDone(a, d, left, due, free, allSeeded, b, n, Now());
    }

    /** A turn of the generate loop. */
    method GetTurn(d: nat, left: nat) returns (r: Chunk)
      requires Valid() && d < |drngs| && left > 0
      modifies this`drngs, this`ledger, this`tick, this`operational, this`fullySeeded, this`minSeeded, this`bootThresh,
               this`seedings, this`looks, this`deliveries, this`pulls, this`allSeeded
      ensures Valid()
      ensures Chunked(d, left, r, old(Now()), old(allSeeded), Now()) == true
    {
      if d == 1 {
        r := GetPrChunk(left);
      } else {
        r := GetChunk(d, left);
      }
    }

    /** The level of DRNG d in state e, if it has it, is younger than the state a. */
    ghost predicate Renewed(a: Snap, d: nat, e: Snap)
      requires d < |e.drngs|
    {
      e.drngs[d].fullySeeded ==>
        Credit(env, c.sources, e.pulls, d) >= Credit(env, c.sources, a.pulls, d) + c.strength
    }

    lemma RenewedStays(a: Snap, d: nat, b: Snap, e: Snap)
      requires d < |b.drngs| && Renewed(a, d, b) && Kept(env, c, b, e, d, d != 0) && a.pulls <= b.pulls
      ensures Renewed(a, d, e)
    {
      assert KeptDrng(env, c, b, e, d, d);
      CreditGrows(env, c.sources, b.pulls, e.pulls, d);
      CreditGrows(env, c.sources, a.pulls, b.pulls, d);
    }

    /** A request for len bytes from DRNG d, which was over its limit or not. */
    ghost predicate Serving(a: Snap, d: nat, len: nat, over: bool, all: bool, left: nat, processed: nat, checks: nat,
                            e: Snap)
    {
      && d < |e.drngs| && left + processed == len
      && Kept(env, c, a, e, d, d != 0) && Used(a.ledger, e.ledger, d, checks, processed)
      && (if d == 1 then checks == 0 else processed <= 4096 * checks && checks <= processed)
      && (over ==> Renewed(a, d, e))
      && (!over && left < len ==> FirstCounts(a, d, all, e)) && (!over && left == len ==> e == a)
      && (d != 1 ==> Frugal(env, c, |a.pulls|, |e.pulls|, checks + 1))
    }

    /** What a request for len > 0 bytes from DRNG d led to, from a to e: exactly the bytes of the reply were produced,
        or fewer than asked for in front of a fault; ordinary requests were checked once a chunk, and pull from dry
        sources no more than that and once for the limit; a DRNG that was over its limit is fully seeded only by new
        entropy. */
    ghost predicate Served(a: Snap, d: nat, len: nat, over: bool, all: bool, reply: Reply, checks: nat, made: nat,
                           e: Snap)
    {
      && d < |e.drngs| && Kept(env, c, a, e, d, d != 0) && Used(a.ledger, e.ledger, d, checks, made)
      && (reply.Bytes? ==> made == reply.n <= len && (d != 1 ==> reply.n == len))
      && (!reply.Bytes? ==> made < len && (d == 1 || GenerateFailed(env, a.tick, e.tick)))
      && (if d == 1 then checks == 0 else checks <= made + 1 && made <= 4096 * checks)
      && (over ==> Renewed(a, d, e)) && (!over ==> FirstCounts(a, d, all, e))
      && (d != 1 ==> Frugal(env, c, |a.pulls|, |e.pulls|, checks + 1))
    }

    /** What a request in state b still keeps after a turn of its loop. */
    lemma TurnKeeps(a: Snap, d: nat, len: nat, over: bool, all: bool, left: nat, processed: nat, checks: nat, b: Snap,
                    r: Chunk, allNow: bool, e: Snap)
      requires Serving(a, d, len, over, all, left, processed, checks, b) && left > 0
      requires Chunked(d, left, r, b, allNow, e) && (!over && left == len ==> allNow == all)
      ensures over ==> Renewed(a, d, e)
      ensures !over ==> FirstCounts(a, d, all, e)
      ensures d != 1 ==> Frugal(env, c, |a.pulls|, |e.pulls|, checks + 2)
    {
      if over {
        RenewedStays(a, d, b, e);
      } else if left < len && d > 0 {
        FirstStays(a, d, all, b, e);
      }
      if d != 1 {
        FrugalTrans(env, c, |a.pulls|, |b.pulls|, |e.pulls|, checks + 1, 1);
      }
    }

    /** A turn, as part of a request. */
    lemma TurnServed(a: Snap, d: nat, len: nat, over: bool, all: bool, left: nat, processed: nat, checks: nat, b: Snap,
                     r: Chunk, allNow: bool, e: Snap, end: Option<Reply>, left': nat, processed': nat, checks': nat)
      requires Serving(a, d, len, over, all, left, processed, checks, b) && left > 0
      requires Chunked(d, left, r, b, allNow, e) && (!over && left == len ==> allNow == all)
      requires checks' == checks + (if d == 1 then 0 else 1)
      requires if r.Got? then end == None && left' == left - r.n && processed' == processed + r.n
               else end == Some(if r.Stop? then Bytes(processed) else Fault) && left' == left && processed' == processed
      ensures end.Some? || left' == 0 || Serving(a, d, len, over, all, left', processed', checks', e)
      ensures (end == None && left' > 0)
              || Served(a, d, len, over, all, if end.Some? then end.value else Bytes(processed'), checks', processed',
                        e)
    {
      KeptTrans(env, c, a, b, e, d, d != 0);
      UsedMore(a.ledger, b.ledger, e.ledger, d, checks, processed, if d == 1 then 0 else 1, if r.Got? then r.n else 0);
      TurnKeeps(a, d, len, over, all, left, processed, checks, b, r, allNow, e);
    }

    /** The check for a DRNG without full reseed for too long, at the start of a request. */
    method StartRequest(d: nat, len: nat) returns (ghost over: bool)
      requires Valid() && d < |drngs| && len > 0
      modifies this`drngs, this`ledger, this`tick, this`operational, this`fullySeeded, this`minSeeded, this`bootThresh,
               this`seedings, this`looks, this`deliveries, this`pulls, this`allSeeded
      ensures Valid() && over == old(OverLimit(d))
      ensures Serving(old(Now()), d, len, over, old(allSeeded), len, 0, 0, Now()) == true
      ensures !over ==> allSeeded == old(allSeeded)
    {
      ghost var a := Now();
      over := OverLimit(d);
      if OverLimit(d) {
        UnsetFullySeeded(d);
        KeptOther(env, c, a, Now(), d);
        UsedAny(a.ledger, ledger, d);
      } else {
        KeptItself(env, c, a);
        KeptWeaker(env, c, a, a, d, false);
        KeptWeaker(env, c, a, a, d, d != 0);
      }
    }

    /** A turn of the generate loop and its place in the request, which it may end. */
    method ServeTurn(d: nat, len: nat, left: nat, processed: nat, ghost a: Snap, ghost over: bool, ghost all: bool,
                     ghost checks: nat)
      returns (end: Option<Reply>, left': nat, processed': nat, ghost checks': nat)
      requires Valid() && left > 0 && Serving(a, d, len, over, all, left, processed, checks, Now())
      requires !over && left == len ==> allSeeded == all
      modifies this`drngs, this`ledger, this`tick, this`operational, this`fullySeeded, this`minSeeded, this`bootThresh,
               this`seedings, this`looks, this`deliveries, this`pulls, this`allSeeded
      ensures Valid() && (end.Some? ==> end.value.Bytes? || end.value == Fault) && (end == None ==> left' < left)
      ensures end.Some? || left' == 0 || Serving(a, d, len, over, all, left', processed', checks', Now())
      ensures (end == None && left' > 0)
              || Served(a, d, len, over, all, if end.Some? then end.value else Bytes(processed'), checks', processed',
                        Now())
    {
      ghost var b, allNow := Now(), allSeeded;
      var r := GetTurn(d, left);
      checks' := checks + if d == 1 then 0 else 1;
      match r {
        case Got(n) => end, left', processed' := None, left - n, processed + n;
        case Stop => end, left', processed' := Some(Bytes(processed)), left, processed;
        case Failed => end, left', processed' := Some(Fault), left, processed;
      }
      TurnServed(a, d, len, over, all, left, processed, checks, b, r, allNow, Now(), end, left', processed', checks');
    }

    /** The generate loop. */
    method GetBytes(d: nat, len: nat) returns (reply: Reply, ghost checks: nat, ghost made: nat)
      requires Valid() && d < |drngs| && len > 0
      modifies this`drngs, this`ledger, this`tick, this`operational, this`fullySeeded, this`minSeeded, this`bootThresh,
               this`seedings, this`looks, this`deliveries, this`pulls, this`allSeeded
      ensures Valid() && (reply.Bytes? || reply == Fault)
      ensures Served(old(Now()), d, len, old(OverLimit(d)), old(allSeeded), reply, checks, made, Now()) == true
    {
      ghost var a, all := Now(), allSeeded;
      checks := 0;
      ghost var over := StartRequest(d, len);
      var left, processed: nat, end := len, 0, None;
      while left > 0
        invariant Valid() && (!over && left == len ==> allSeeded == all)
        invariant left == 0 || Serving(a, d, len, over, all, left, processed, checks, Now())
        invariant left > 0 || Served(a, d, len, over, all, Bytes(processed), checks, processed, Now())
      {
        end, left, processed, checks := ServeTurn(d, len, left, processed, a, over, all, checks);
        if end.Some? {
          return end.value, checks, processed;
        }
      }
      reply, made := Bytes(processed), processed;
    }

    /** esdm_drng_get: random bytes from DRNG d in chunks, each after the reseed its kind asks for. */
    method Get(d: nat, len: nat) returns (reply: Reply, ghost checks: nat, ghost made: nat)
      requires Valid() && d < |drngs|
      modifies this`drngs, this`ledger, this`tick, this`operational, this`fullySeeded, this`minSeeded, this`bootThresh,
               this`seedings, this`looks, this`deliveries, this`pulls, this`allSeeded
      ensures Valid() && (reply == NotSupported <==> len > 0 && !available) && reply != Again
      ensures len == 0 || !available ==> Now() == old(Now()) && made == checks == 0
      ensures len == 0 ==> reply == Bytes(0)
      ensures len == 0 || !available
              || Served(old(Now()), d, len, old(OverLimit(d)), old(allSeeded), reply, checks, made, Now())
    {
      if len == 0 {
        return Bytes(0), 0, 0;
      }
      if !available {
        return NotSupported, 0, 0;
      }
      reply, checks, made := GetBytes(d, len);
    }

    /** The DRNG that serves a request: the node's own if it is fully seeded, otherwise the initial one. */
    function Server(pr: bool, node: nat): (d: nat)
      requires |drngs| >= 2
      reads this
      ensures d < |drngs| && (d == 1 <==> pr)
    {
      if pr then 1
      else if published && 0 < node && node + 1 < |drngs| && drngs[node + 1].fullySeeded then node + 1
      else 0
    }

    /** What a request, which may first have to initialize the manager, led to from a to e. */
    ghost predicate Answered(a: Snap, d: nat, len: nat, reply: Reply, checks: nat, made: nat, e: Snap) {
      && a.tick <= e.tick && a.pulls <= e.pulls && |e.drngs| == |a.drngs| && e.published == a.published
      && a.seedings <= e.seedings && a.looks <= e.looks && (a.available ==> e.available && e.looks == a.looks)
      && |e.ledger| == |a.ledger| && Used(a.ledger, e.ledger, d, checks, made)
      && (reply.Bytes? ==> made == reply.n <= len && (d != 1 ==> reply.n == len))
      && (!reply.Bytes? ==> made == 0 || (reply == Fault && made < len))
      && (!reply.Bytes? && d != 1 && a.available ==> GenerateFailed(env, a.tick, e.tick))
      && (if d == 1 then checks == 0 else checks <= made + 1)
      && (a.Backed() && (d != 0 ==> a.operational) ==> e.Backed() || Disturbed(env, a, e))
      && (d == 1 || Frugal(env, c, |a.pulls|, |e.pulls|, checks + 1))
      && forall i :: 0 <= i < |a.drngs| ==> KeptDrng(env, c, a, e, d, i)
    }

    lemma AnsweredBy(a: Snap, b: Snap, d: nat, len: nat, over: bool, all: bool, reply: Reply, checks: nat, made: nat,
                     e: Snap)
      requires Served(b, d, len, over, all, reply, checks, made, e) && reply != NotSupported && reply != Again
      requires b == a.(tick := b.tick, available := true) && a.tick <= b.tick
      ensures Answered(a, d, len, reply, checks, made, e)
    {
      assert forall i :: 0 <= i < |a.drngs| ==> KeptDrng(env, c, b, e, d, i) ==> KeptDrng(env, c, a, e, d, i);
    }

    /** esdm_drng_get on an available manager that was in state a before it was made so. */
    method GetReady(d: nat, len: nat, ghost a: Snap) returns (reply: Reply, ghost checks: nat, ghost made: nat)
      requires Valid() && d < |drngs| && available && a.tick <= tick && Now() == a.(tick := tick, available := true)
      modifies this`drngs, this`ledger, this`tick, this`operational, this`fullySeeded, this`minSeeded, this`bootThresh,
               this`seedings, this`looks, this`deliveries, this`pulls, this`allSeeded
      ensures Valid() && reply != Again && reply != NotSupported
      ensures Answered(a, d, len, reply, checks, made, Now()) == true
      ensures len == 0 || old(OverLimit(d)) || FirstCounts(old(Now()), d, old(allSeeded), Now())
      ensures len == 0 || !old(OverLimit(d)) || Renewed(old(Now()), d, Now())
    {
      ghost var b, over, all := Now(), OverLimit(d), allSeeded;
      reply, checks, made := Get(d, len);
      if len > 0 {
        AnsweredBy(a, b, d, len, over, all, reply, checks, made, Now());
      }
    }

    /** esdm_drng_get_sleep */
    method GetSleep(pr: bool, node: nat, len: nat) returns (reply: Reply, ghost checks: nat, ghost made: nat)
      requires Valid()
      modifies this`drngs, this`ledger, this`tick, this`operational, this`fullySeeded, this`minSeeded, this`bootThresh,
               this`seedings, this`looks, this`deliveries, this`pulls, this`allSeeded, this`available
      ensures Valid() && reply != Again && reply != NotSupported
      ensures Answered(old(Now()), old(Server(pr, node)), len, reply, checks, made, Now()) == true
      ensures !old(available) || len == 0
              || var d := old(Server(pr, node));
                 if old(OverLimit(Server(pr, node))) then Renewed(old(Now()), d, Now())
                 else FirstCounts(old(Now()), d, old(allSeeded), Now())
    {
      ghost var a := Now();
      var d := Server(pr, node);
      var ok := Initialize();
      if !ok {
        return Fault, 0, 0;
      }
      reply, checks, made := GetReady(d, len, a);
    }

    /** The forced reseed in front of a gate, and whether the manager then has the level. */
    method Pass(gate: Gate, ghost safe: bool) returns (ok: bool)
      requires Valid()
      modifies this`drngs, this`ledger, this`tick, this`operational, this`fullySeeded, this`minSeeded, this`bootThresh,
               this`seedings, this`looks, this`deliveries, this`pulls, this`allSeeded
      ensures Valid() && (ok && gate == Full ==> operational) && (gate == Open ==> ok && Now() == old(Now()))
      ensures gate == Open ==> allSeeded == old(allSeeded)
      ensures Moved(env, old(Now()), Now(), 0, safe) == true
    {
      ghost var a := Now();
      MovedItself(env, a, safe);
      if gate == Open {
        return true;
      }
      ghost var which, n, l := ForceFullySeeded();
      MovedKept(env, c, a, Now(), safe);
      ok := if gate == Full then operational else minSeeded;
    }

    /** The calls that hand out random bytes: an open one at once, the others after a forced reseed and only if the
        manager has the level, which for prediction resistance is the operational one; lengths are cut to 32 bits. */
    method Request(gate: Gate, pr: bool, node: nat, len: nat) returns (reply: Reply, ghost checks: nat, ghost made: nat)
      requires Valid() && (pr ==> gate == Full)
      modifies this`drngs, this`ledger, this`tick, this`operational, this`fullySeeded, this`minSeeded, this`bootThresh,
               this`seedings, this`looks, this`deliveries, this`pulls, this`allSeeded, this`available
      ensures Valid() && reply != NotSupported && (reply == Again ==> gate != Open && made == 0)
      ensures reply.Bytes? ==> reply.n <= Wrap32(len) && (!pr ==> reply.n == Wrap32(len))
      ensures Moved(env, old(Now()), Now(), if pr then made else 0, gate == Full || node == 0) == true
      ensures reply.Bytes? ==> made == reply.n
      ensures reply.Bytes? || reply == Fault || made == 0
    {
      ghost var a, safe := Now(), gate == Full || node == 0;
      var ok := Pass(gate, safe);
      if !ok {
        return Again, 0, 0;
      }
      ghost var b, d := Now(), Server(pr, node);
      reply, checks, made := GetSleep(pr, node, Wrap32(len));
      MovedAnswered(b, d, Wrap32(len), reply, checks, made, Now(), safe);
      MovedTrans(env, a, b, Now(), 0, if pr then made else 0, safe);
    }

    lemma MovedAnswered(a: Snap, d: nat, len: nat, reply: Reply, checks: nat, made: nat, e: Snap, safe: bool)
      requires Answered(a, d, len, reply, checks, made, e) && |a.ledger| >= 2 && (safe ==> d == 0 || a.operational)
      ensures Moved(env, a, e, if d == 1 then made else 0, safe)
    {
    }

    /** esdm_reset */
    method Reset()
      requires Valid()
      modifies this
      ensures Valid() && !minSeeded && !allSeeded
      ensures |drngs| == |old(drngs)| && forall d :: 0 <= d < |drngs| ==> drngs[d] == ResetDrng()
      ensures Now() == old(Now()).(drngs := drngs, ledger := ledger, operational := false)
      ensures forall d :: 0 <= d < |drngs| ==> ledger[d] == old(ledger)[d].(mark := None)
    {
      drngs := seq(|drngs|, d => ResetDrng());
      ghost var before := ledger;
      ledger := seq(|before|, d requires 0 <= d < |before| => before[d].(mark := None));
      assert Counts();
      bootThresh := 256;
      operational, fullySeeded, minSeeded, allSeeded := false, false, false, false;
    }

    /** esdm_drng_force_reseed: fully seeded DRNGs reseed before they generate again; only the initial one
        if there are no others or it is over its limit. */
    method ForceReseed()
      requires Valid()
      modifies this`drngs
      ensures Valid() && |drngs| == |old(drngs)|
      ensures forall d :: 0 <= d < |drngs| ==>
                drngs[d] == if d != 1 && (d == 0 || !old(OverLimit(0)))
                            then old(drngs)[d].(forceReseed := old(drngs)[d].fullySeeded) else old(drngs)[d]
    {
      if !published || OverLimit(0) {
        drngs := drngs[0 := drngs[0].(forceReseed := drngs[0].fullySeeded)];
        assert Counts();
        return;
      }
      var before := drngs;
      drngs := seq(|before|, d requires 0 <= d < |before| =>
        if d != 1 then before[d].(forceReseed := before[d].fullySeeded) else before[d]);
      assert Counts();
    }

    /** esdm_es_reseed_wanted */
    method Wanted() returns (wanted: bool)
      requires Valid()
      modifies this`tick
      ensures Valid() && Now() == old(Now()).(tick := tick)
      ensures tick == old(tick) + if available && !allSeeded then 1 else 0
      ensures wanted <==> available && !allSeeded && Sum(Advertised(old(tick))) >= bootThresh
      ensures Kept(env, c, old(Now()), Now(), -1, false) == true
    {
      ghost var a := Now();
      KeptCounters(env, c, a, a.(tick := a.tick + 1), 0, -1, false);
      KeptItself(env, c, a);
      if !available || allSeeded {
        return false;
      }
      wanted := Sum(Advertised(tick)) >= bootThresh;
      tick := tick + 1;
    }

    /** Seed work, if the pool lock is free. */
    method TryWork() returns (ghost worked: bool, ghost which: nat, ghost n: nat, ghost l: Loop)
      requires Valid() && available
      modifies this`drngs, this`ledger, this`tick, this`operational, this`fullySeeded, this`minSeeded, this`bootThresh,
               this`seedings, this`looks, this`deliveries, this`pulls, this`allSeeded
      ensures Valid() && worked == env.poolFree(old(tick)) && |drngs| == |old(drngs)|
      ensures !worked ==> Now() == old(Now()).(tick := old(tick) + 1) && allSeeded == old(allSeeded)
      ensures worked && which >= |drngs| ==> allSeeded && Now() == old(Now()).(tick := tick)
      ensures !worked || which >= |drngs| || Outcome(old(Now()).(tick := old(tick) + 1), which, n, l)
      ensures worked && which < |drngs| ==>
                && FirstUnseeded(old(drngs), which) && (!old(drngs)[which].forceReseed ==> n == 1)
                && (!old(operational) ==> deliveries > old(deliveries))
      ensures Kept(env, c, old(Now()), Now(), -1, false) == true
      ensures Used(old(ledger), ledger, 0, 0, 0) == true
    {
      ghost var a := Now();
      which, n, l, worked := |drngs|, 1, Start(false), false;
      var free := env.poolFree(tick);
      tick := tick + 1;
      ghost var b := Now();
      KeptCounters(env, c, a, b, 0, -1, false);
      if free {
        worked := true;
        which, n, l := SeedWork(false);
        KeptTrans(env, c, a, b, Now(), -1, false);
      }
    }

    /** esdm_es_add_entropy: new entropy arrived. */
    method AddEntropy() returns (ghost worked: bool, ghost which: nat, ghost n: nat, ghost l: Loop)
      requires Valid()
      modifies this`drngs, this`ledger, this`tick, this`operational, this`fullySeeded, this`minSeeded, this`bootThresh,
               this`seedings, this`looks, this`deliveries, this`pulls, this`allSeeded
      ensures Valid() && |drngs| == |old(drngs)|
      ensures worked <==> available && !old(allSeeded) && Sum(Advertised(old(tick))) >= old(bootThresh)
                          && env.poolFree(old(tick) + 1)
      ensures !worked ==> Now() == old(Now()).(tick := tick) && allSeeded == old(allSeeded)
      ensures worked && which >= |drngs| ==> allSeeded && Now() == old(Now()).(tick := tick)
      ensures !worked || which >= |drngs| || Outcome(old(Now()).(tick := old(tick) + 2), which, n, l)
      ensures worked && which < |drngs| ==>
                && FirstUnseeded(old(drngs), which) && (!old(drngs)[which].forceReseed ==> n == 1)
                && (!old(operational) ==> deliveries > old(deliveries))
      ensures Kept(env, c, old(Now()), Now(), -1, false) == true
      ensures Used(old(ledger), ledger, 0, 0, 0) == true
    {
      ghost var a := Now();
      which, n, l, worked := |drngs|, 1, Start(false), false;
      var wanted := Wanted();
      ghost var b := Now();
      if wanted {
        worked, which, n, l := TryWork();
        KeptTrans(env, c, a, b, Now(), -1, false);
      }
    }

    /** A forced seeding call whose last delivery was enough for the loop to go on ends with a fully seeded DRNG. */
    lemma ForcedSeeds(a: Snap, d: nat, n: nat, l: Loop)
      requires d < |a.drngs| && Outcome(a, d, n, l) && !l.going && deliveries == |a.pulls| + n
      requires !Dry(env, c, deliveries - 1)
      ensures drngs[d].fullySeeded
    {
      var ebs, oks := Supply(|a.pulls|, false), Callbacks(a.seedings);
      assert ebs(n - 1) == Delivery(env, c.sources, deliveries - 1);
      assert l == Round(c, Turns(c, Start(a.drngs[d].fullySeeded), ebs, oks, n - 1), ebs(n - 1), oks(n - 1));
    }

    /** One turn of esdm_force_fully_seeded_all_drbgs: once the sources deliver, it seeds one more DRNG or finds all
        seeded. */
    method ForceOne()
      requires Valid() && Delivering(c, env)
      modifies this`drngs, this`ledger, this`tick, this`operational, this`fullySeeded, this`minSeeded, this`bootThresh,
               this`seedings, this`looks, this`deliveries, this`pulls, this`allSeeded
      ensures Valid() && deliveries >= old(deliveries)
      ensures Kept(env, c, old(Now()), Now(), -1, false) == true
      ensures Used(old(ledger), ledger, 0, 0, 0) == true
      ensures !available || allSeeded || (deliveries > old(deliveries) && old(deliveries) < env.settled)
              || Unseeded(drngs) < old(Unseeded(drngs))
      ensures Unseeded(drngs) <= old(Unseeded(drngs))
      ensures !available ==> (operational <==> old(operational) || old(RaisedByAdvert()))
    {
      ghost var a := Now();
      ghost var which, n, l := SeedWork(true);
      if available && which < |drngs| {
        if |a.pulls| >= env.settled {
          ForcedSeeds(a, which, n, l);
        }
        UnseededUpdate(a.drngs, which, drngs[which]);
      }
    }

    /** A turn of the loop, and whether there is to be another. */
    method ForceTurn(ghost a: Snap) returns (wanted: bool)
      requires Valid() && Delivering(c, env)
      requires Kept(env, c, a, Now(), -1, false) && Used(a.ledger, ledger, 0, 0, 0)
      modifies this`drngs, this`ledger, this`tick, this`operational, this`fullySeeded, this`minSeeded, this`bootThresh,
               this`seedings, this`looks, this`deliveries, this`pulls, this`allSeeded
      ensures Valid() && (!wanted && available && !allSeeded ==> tick > 0 && Sum(Advertised(tick - 1)) < bootThresh)
      ensures Kept(env, c, a, Now(), -1, false) == true
      ensures Used(a.ledger, ledger, 0, 0, 0) == true
      ensures deliveries >= old(deliveries) && Unseeded(drngs) <= old(Unseeded(drngs)) && (!available ==> !wanted)
      ensures !available ==> (operational <==> old(operational) || old(RaisedByAdvert()))
      ensures !wanted || (deliveries > old(deliveries) && old(deliveries) < env.settled)
              || Unseeded(drngs) < old(Unseeded(drngs))
    {
      ghost var b := Now();
      ForceOne();
      ghost var e := Now();
      KeptTrans(env, c, a, b, e, -1, false);
      UsedTrans(a.ledger, b.ledger, ledger, 0, 0, 0);
      wanted := Wanted();
      KeptTrans(env, c, a, e, Now(), -1, false);
    }

    /** esdm_force_fully_seeded_all_drbgs: at its end no reseed is wanted. The loop ends because the sources deliver
        from some time on. */
    method ForceAll()
      requires Valid() && Delivering(c, env)
      modifies this`drngs, this`ledger, this`tick, this`operational, this`fullySeeded, this`minSeeded, this`bootThresh,
               this`seedings, this`looks, this`deliveries, this`pulls, this`allSeeded
      ensures Valid()
      ensures Kept(env, c, old(Now()), Now(), -1, false) == true
      ensures Used(old(ledger), ledger, 0, 0, 0) == true
      ensures available && !allSeeded ==> tick > 0 && Sum(Advertised(tick - 1)) < bootThresh
      ensures !available && !old(allSeeded) ==> (operational <==> old(operational) || old(RaisedByAdvert()))
    {
      ghost var a := Now();
      KeptItself(env, c, a);
      if allSeeded {
        return;
      }
      var wanted := true;
      while wanted
        invariant Valid()
        invariant wanted || !available || allSeeded || (tick > 0 && Sum(Advertised(tick - 1)) < bootThresh)
        invariant !available && wanted ==> Now() == a && allSeeded == old(allSeeded)
        invariant !available && !wanted ==> (operational <==> old(operational) || old(RaisedByAdvert()))
        invariant Kept(env, c, a, Now(), -1, false) == true
        invariant Used(a.ledger, ledger, 0, 0, 0) == true
        decreases if deliveries < env.settled then env.settled - deliveries else 0, Unseeded(drngs), wanted
      {
        wanted := ForceTurn(a);
      }
    }

    /** The end of esdm_es_mgr_initialize: the threshold for the first seeds, then all DRNGs are seeded. */
    method InitSources()
      requires Valid() && Delivering(c, env)
      modifies this`drngs, this`ledger, this`tick, this`operational, this`fullySeeded, this`minSeeded, this`bootThresh,
               this`seedings, this`looks, this`deliveries, this`pulls, this`allSeeded
      ensures Valid()
      ensures Kept(env, c, old(Now()), Now(), -1, false) == true
      ensures Used(old(ledger), ledger, 0, 0, 0) == true
    {
      bootThresh := if c.ntg then 480 else Threshold(c, false);
      ForceAll();
    }

    /** esdm_drngs_node_alloc: further node DRNGs, unseeded, become visible at once. */
    method NodeAlloc(nodes: nat)
      requires Valid()
      modifies this
      ensures Valid() && published == (old(published) || available) && (old(available) ==> available)
      ensures |drngs| == |old(drngs)| + if !old(published) && available then nodes else 0
      ensures !old(published) && old(available) && Sum(Advertised(old(tick))) < old(bootThresh) ==>
                Now() == old(Grown(nodes)).(tick := tick)
      ensures Moved(env, old(Now()), Now(), 0, true) == true
    {
      ghost var a := Now();
      MovedItself(env, a, true);
      if published {
        return;
      }
      var ok := Initialize();
      if !ok {
        return;
      }
      PublishNodes(nodes, a);
    }

    /** The node array is published, and new entropy asked for. */
    method PublishNodes(nodes: nat, ghost a: Snap)
      requires Valid() && !published && a.tick <= tick && Now() == a.(tick := tick, available := available)
      requires available
      modifies this
      ensures Valid() && published && available && |drngs| == |old(drngs)| + nodes
      ensures Moved(env, a, Now(), 0, true) == true
      ensures Sum(Advertised(old(tick))) < old(bootThresh) ==>
                Now() == old(Grown(nodes)).(tick := tick)
    {
      AddNodes(nodes);
      ghost var b := Now();
      ghost var worked, which, n, l := AddEntropy();
      MovedKept(env, c, b, Now(), true);
      MovedTrans(env, a, b, Now(), 0, 0, true);
    }

    /** The state with further, unseeded node DRNGs. */
    ghost function Grown(nodes: nat): Snap
      reads this
    {
      Now().(drngs := drngs + seq(nodes, i => ResetDrng()), ledger := ledger + seq(nodes, i => Ledger(0, 0, None)),
             published := true)
    }

    /** The node array is published. */
    method AddNodes(nodes: nat)
      requires Valid() && !published
      modifies this`drngs, this`ledger, this`published, this`allSeeded
      ensures Valid() && published && !allSeeded && Now() == old(Grown(nodes))
    {
      drngs := drngs + seq(nodes, i => ResetDrng());
      ledger := ledger + seq(nodes, i => Ledger(0, 0, None));
      published, allSeeded := true, false;
    }

    /** esdm_node_fini */
    method NodeFini()
      requires Valid()
      modifies this`drngs, this`ledger, this`published
      ensures Valid() && !published && drngs == old(drngs)[..2] && ledger == old(ledger)[..2]
    {
      published := false;
      drngs, ledger := drngs[..2], ledger[..2];
    }
  }
}
