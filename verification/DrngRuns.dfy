/** Whole runs of the DRNG manager: the entropy behind prediction resistance, and what being operational says about
    the initial DRNG. */
module DrngRuns {
  import opened Sums
  import opened Seeding
  import opened DrngAccounts
  import opened DrngManager

  /** A call into the manager. */
  datatype Call =
    | Initialize
    | InitSources
    | Request(gate: Gate, node: nat, len: nat)
    | PrRequest(len: nat)
    | Force
    | ForceAll
    | NewEntropy
    | ResetAll
    | DemandReseed
    | AllocNodes(nodes: nat)
    | DropNodes

  /** Calls after which operational goes on to mean that the initial DRNG is fully seeded: those that may be served by
      another DRNG wait for the operational level. */
  predicate Guarded(call: Call) {
    call.Request? ==> call.gate == Full || call.node == 0
  }

  /** The bytes of an answered prediction resistance request. */
  function PrBytesOf(call: Call, reply: Reply): nat {
    if call.PrRequest? && reply.Bytes? then reply.n else 0
  }

  function PrBytes(calls: seq<Call>, replies: seq<Reply>): nat
    requires |calls| == |replies|
  {
    if calls == [] then 0
    else
      var n := |calls| - 1;
      PrBytes(calls[..n], replies[..n]) + PrBytesOf(calls[n], replies[n])
  }

  /** The parts of a call that only seed. */
  method Seed(e: Esdm, call: Call)
    requires e.Valid() && (call.Force? || call.ForceAll? || call.InitSources? || call.NewEntropy?)
    requires call.ForceAll? || call.InitSources? ==> Delivering(e.c, e.env)
    modifies e
    ensures e.Valid()
    ensures Moved(e.env, old(e.Now()), e.Now(), 0, true) == true
  {
    ghost var a := e.Now();
    match call {
      case Force => ghost var which, n, l := e.ForceFullySeeded();
      case ForceAll => e.ForceAll();
      case InitSources => e.InitSources();
      case NewEntropy => ghost var worked, which, n, l := e.AddEntropy();
    }
    MovedKept(e.env, e.c, a, e.Now(), true);
  }

  /** The parts of a call that change what there is. */
  method Change(e: Esdm, call: Call)
    requires e.Valid()
    requires call.Initialize? || call.ResetAll? || call.DemandReseed? || call.AllocNodes? || call.DropNodes?
    modifies e
    ensures e.Valid() && (call.Initialize? && e.env.initOk(old(e.tick)) ==> e.available && e.looks == old(e.looks))
    ensures Moved(e.env, old(e.Now()), e.Now(), 0, true) == true
  {
    match call {
      case Initialize => var ok := e.Initialize();
      case ResetAll => e.Reset();
      case DemandReseed => e.ForceReseed();
      case AllocNodes(nodes) => e.NodeAlloc(nodes);
      case DropNodes => e.NodeFini();
    }
  }

  method Perform(e: Esdm, call: Call) returns (reply: Reply, ghost made: nat)
    requires e.Valid() && (call.ForceAll? || call.InitSources? ==> Delivering(e.c, e.env))
    modifies e
    ensures e.Valid() && PrBytesOf(call, reply) <= made && (reply == Fault || made == PrBytesOf(call, reply))
    ensures Moved(e.env, old(e.Now()), e.Now(), made, Guarded(call)) == true
    ensures call.Initialize? && e.env.initOk(old(e.tick)) ==> e.available && e.looks == old(e.looks)
  {
    reply, made := Bytes(0), 0;
    ghost var checks, bytes;
    match call {
      case Request(gate, node, len) =>
        reply, checks, bytes := e.Request(gate, false, node, len);
      case PrRequest(len) =>
        reply, checks, bytes := e.Request(Full, true, 0, len);
        made := bytes;
      case Force => Seed(e, call);
      case ForceAll => Seed(e, call);
      case InitSources => Seed(e, call);
      case NewEntropy => Seed(e, call);
      case Initialize => Change(e, call);
      case ResetAll => Change(e, call);
      case DemandReseed => Change(e, call);
      case AllocNodes(nodes) => Change(e, call);
      case DropNodes => Change(e, call);
    }
  }

  /** After some calls: no more bytes were answered than were produced, and as many if there was no fault. */
  ghost predicate Accounted(calls: seq<Call>, replies: seq<Reply>, produced: nat) {
    && |calls| == |replies| && PrBytes(calls, replies) <= produced
    && ((forall i :: 0 <= i < |replies| ==> replies[i] != Fault) ==> PrBytes(calls, replies) == produced)
  }

  lemma AccountedMore(calls: seq<Call>, replies: seq<Reply>, produced: nat, call: Call, reply: Reply, made: nat)
    requires Accounted(calls, replies, produced) && PrBytesOf(call, reply) <= made
    requires reply == Fault || made == PrBytesOf(call, reply)
    ensures Accounted(calls + [call], replies + [reply], produced + made)
  {
    var cs, rs := calls + [call], replies + [reply];
    assert cs[..|calls|] == calls && rs[..|replies|] == replies;
    if forall i :: 0 <= i < |rs| ==> rs[i] != Fault {
      assert rs[|replies|] == reply;
      assert forall i :: 0 <= i < |replies| ==> replies[i] == rs[i];
    }
  }

  /** All calls are guarded, and of so many seed callbacks and looks for sleepers none failed or saw one. */
  ghost predicate Calm(env: Env, calls: seq<Call>, seedings: nat, looks: nat) {
    && (forall i :: 0 <= i < |calls| ==> Guarded(calls[i]))
    && !SeedFailed(env, 0, seedings) && !SleeperSeen(env, 0, looks)
  }

  /** The first call makes the manager available. */
  predicate Started(env: Env, calls: seq<Call>) {
    calls != [] && calls[0].Initialize? && env.initOk(0)
  }

  /** After a calm run operational means that the initial DRNG is fully seeded; a run that starts with the manager made
      available looks for no sleepers. */
  ghost predicate Steady(env: Env, calls: seq<Call>, e: Snap) {
    && (Calm(env, calls, e.seedings, e.looks) ==> e.Backed())
    && (Started(env, calls) ==> e.available && e.looks == 0)
  }

  lemma SteadyMore(env: Env, calls: seq<Call>, a: Snap, call: Call, made: nat, e: Snap)
    requires Steady(env, calls, a) && Moved(env, a, e, made, Guarded(call))
    requires calls == [] && call.Initialize? && env.initOk(0) ==> e.available && e.looks == 0
    ensures Steady(env, calls + [call], e)
  {
    var all := calls + [call];
    assert all[|calls|] == call && forall i :: 0 <= i < |calls| ==> all[i] == calls[i];
    if Calm(env, all, e.seedings, e.looks) {
      assert forall i :: 0 <= i < |calls| ==> Guarded(all[i]);
      assert Calm(env, calls, a.seedings, a.looks) && !Disturbed(env, a, e);
    }
  }

  /** Any run of calls on a new manager, in any fair environment. Eight times the bytes that prediction
      resistance requests were answered with, and the strength of a seed not yet used, never exceed the bits that the
      sources delivered for it. If all calls are guarded, no seed callback failed and nobody was seen to sleep before
      the manager was available, being operational means that the initial DRNG is fully seeded. */
  method Run(c: Config, env: Environment, calls: seq<Call>) returns (e: Esdm, replies: seq<Reply>)
    requires (exists i :: 0 <= i < |calls| && (calls[i].ForceAll? || calls[i].InitSources?)) ==> Delivering(c, env)
    ensures fresh(e) && e.Valid() && e.c == c && e.env == env && |replies| == |calls|
    ensures Accounted(calls, replies, e.ledger[1].produced)
    ensures 8 * PrBytes(calls, replies) + (if e.drngs[1].fullySeeded then c.strength else 0)
         <= Credit(env, c.sources, e.pulls, 1) <= Delivered(env, c.sources, e.deliveries)
    ensures Steady(env, calls, e.Now())
  {
    e := new Esdm(c, env);
    replies := [];
    for i := 0 to |calls|
      invariant e.c == c && e.env == env && fresh(e) && (i == 0 ==> e.tick == e.looks == 0)
      invariant e.Valid() == true
      invariant Accounted(calls[..i], replies, e.ledger[1].produced) == true
      invariant Steady(env, calls[..i], e.Now()) == true
    {
      ghost var a := e.Now();
      var reply; ghost var made;
      reply, made := Perform(e, calls[i]);
      AccountedMore(calls[..i], replies, a.ledger[1].produced, calls[i], reply, made);
      SteadyMore(env, calls[..i], a, calls[i], made, e.Now());
      assert calls[..i + 1] == calls[..i] + [calls[i]];
      replies := replies + [reply];
    }
    assert calls[..|calls|] == calls;
    CreditShared(env, c.sources, e.pulls, 1, 0);
  }

  /** Exactly when a seeding call on a manager that is not operational leaves it operational without the initial DRNG:
      the entropy of the call met the rule, and the call was for another DRNG, or no seed callback succeeded in a turn
      that met the rule. */
  lemma BackedIff(e: Esdm, a: Snap, d: nat, n: nat, l: Loop)
    requires e.Valid() && d < |a.drngs| && e.Outcome(a, d, n, l)
    requires !a.operational && !a.drngs[0].fullySeeded && !e.allSeeded
    ensures e.operational && !e.drngs[0].fullySeeded <==>
            FullyRule(e.c, false, l.collected, l.per) && (d == 0 ==> AllFailed(e, a, n))
  {
    if d == 0 {
      UnseededIff(e, a, n);
    }
  }

  /** In no turn that met the rule did the seed callback succeed. */
  ghost predicate AllFailed(e: Esdm, a: Snap, n: nat)
    reads e
  {
    var ebs, oks := e.Supply(|a.pulls|, e.deliveries == |a.pulls|), e.Callbacks(a.seedings);
    forall k :: 0 <= k < n && Met(e.c, e.Start(false), ebs, k) ==> !oks(k)
  }

  lemma UnseededIff(e: Esdm, a: Snap, n: nat)
    requires |a.drngs| > 0 && !a.drngs[0].fullySeeded
    ensures !e.Taken(a, 0, n).fullySeeded <==> AllFailed(e, a, n)
  {
    NotSeededIff(e.c, e.Start(false), e.Supply(|a.pulls|, e.deliveries == |a.pulls|), e.Callbacks(a.seedings), n);
  }

  /** One source, 256 bits, no limits. */
  const PLAIN: Setup := Setup(1, 256, false, 0, false, 0xffff_ffff, 0xffff_ffff, 0xffff_ffff)

  lemma SumOfOne(x: nat)
    ensures Sum([x]) == x
  {
    assert [x][..0] == [];
  }

  /** A single turn on the initial DRNG that delivers enough, with a failing callback. */
  lemma FailedTurn(e: Esdm, a: Snap, l: Loop)
    requires e.Valid() && |a.drngs| > 0 && e.Outcome(a, 0, 1, l) && e.deliveries > |a.pulls|
    requires !a.operational && !a.drngs[0].fullySeeded && !e.allSeeded && !e.env.seedOk(a.seedings)
    requires var first := Delivery(e.env, e.c.sources, |a.pulls|); FullyRule(e.c, false, Sum(first), first)
    ensures e.operational && !e.drngs[0].fullySeeded
  {
    e.OneTurn(0, a, l);
    assert !e.Callbacks(a.seedings)(0);
    BackedIff(e, a, 0, 1, l);
  }

  /** Sources that deliver and advertise 256 bits each time, and a first seed callback that fails. */
  const FIRST_FAILS: Env := Env((t, i) => 256, (t, i) => 256, t => t > 0, t => false, t => 1, t => false, t => true,
                                t => true, t => 1, 0)

  /** The first cause: a seed callback on the initial DRNG fails. Calls: Initialize, NewEntropy. */
  method FailedCallback() returns (e: Esdm)
    ensures e.Valid() && e.available && e.operational && !e.drngs[0].fullySeeded && e.looks == 0
  {
    e := new Esdm(PLAIN, FIRST_FAILS);
    var ok := e.Initialize();
    assert e.Advertised(1) == [256] && Delivery(FIRST_FAILS, 1, 0) == [256];
    SumOfOne(256);
    ghost var a := e.Now().(tick := 3);
    ghost var worked, which, n, l := e.AddEntropy();
    FailedTurn(e, a, l);
  }

  /** Exactly when forced seeding makes a new manager operational before it has a DRNG: somebody is seen to sleep, and
      what is advertised meets the rule. */
  method ForcedEarly(c: Config, env: Environment) returns (e: Esdm)
    ensures fresh(e) && e.Valid() && e.c == c && e.env == env && !e.drngs[0].fullySeeded && e.seedings == 0
    ensures e.operational <==> env.sleeper(0) && FullyRule(c, false, Sum(e.Advertised(0)), e.Advertised(1))
  {
    e := new Esdm(c, env);
    ghost var which, n, l := e.ForceFullySeeded();
  }

  /** Sources that advertise 256 bits, somebody who sleeps, and callbacks that succeed. */
  const AWAITED: Env := Env((t, i) => 256, (t, i) => 256, t => true, t => true, t => 1, t => false, t => true,
                            t => true, t => 0, 0)

  /** The second cause: advertised entropy counts before there is a DRNG, if somebody is seen to sleep. Calls: Force,
      as in front of every request that waits for a level, and Initialize. No seed callback is asked. */
  method AdvertisedOnly() returns (e: Esdm)
    ensures e.Valid() && e.available && e.operational && !e.drngs[0].fullySeeded && e.seedings == 0
  {
    e := ForcedEarly(PLAIN, AWAITED);
    assert e.Advertised(0) == e.Advertised(1) == [256];
    SumOfOne(256);
    var ok := e.Initialize();
  }

  // ------------------------------------------------- entropy for another DRNG

  /** One source, and a limit of 8 bits without a full reseed. */
  const STRICT: Setup := Setup(1, 256, false, 0, false, 0xffff_ffff, 0xffff_ffff, 8)

  /** Deliveries 0, 1 and 10 bring 256 bits, the others nothing; reseeds are always due, nothing is advertised. */
  const SHOWERS: Env := Env((t, i) => if t == 0 || t == 1 || t == 10 then 256 else 0, (t, i) => 0, t => true,
                            t => false, t => 1, t => true, t => true, t => true, t => 0, 0)

  lemma Shower(t: nat)
    ensures var bits := if t == 0 || t == 1 || t == 10 then 256 else 0;
            Delivery(SHOWERS, 1, t) == [bits] && Sum([bits]) == bits && (bits == 0 ==> Dry(SHOWERS, STRICT, t))
  {
    var bits := if t == 0 || t == 1 || t == 10 then 256 else 0;
    SumOfOne(bits);
    assert [bits][..0] == [];
  }

  lemma {:induction false} ShowersTotal(n: nat)
    ensures Delivered(SHOWERS, 1, n)
         == (if n > 0 then 256 else 0) + (if n > 1 then 256 else 0) + if n > 10 then 256 else 0
  {
    if n == 0 {
    } else {
      ShowersTotal(n - 1);
      Shower(n - 1);
    }
  }

  /** From delivery 2 to 10 no DRNG is credited with anything. */
  lemma {:induction false} NoCredit(pulls: seq<nat>, more: seq<nat>, d: nat)
    requires pulls <= more && 2 <= |pulls| && |more| <= 10
    ensures Credit(SHOWERS, 1, more, d) == Credit(SHOWERS, 1, pulls, d)
  {
    if |more| == |pulls| {
      assert more == pulls;
    } else {
      Shower(|more| - 1);
      NoCredit(pulls, more[..|more| - 1], d);
    }
  }

  /** A forced call whose first delivery is enough takes just that one. */
  lemma SeededAtOnce(e: Esdm, a: Snap, d: nat, n: nat, l: Loop)
    requires d < |a.drngs| && e.Outcome(a, d, n, l) && e.deliveries > |a.pulls| && !a.drngs[d].fullySeeded
    requires var first := Delivery(e.env, e.c.sources, |a.pulls|); FullyRule(e.c, false, Sum(first), first)
    requires e.env.seedOk(a.seedings)
    ensures n == 1 && e.drngs[d].fullySeeded
  {
    var ebs, first := e.Supply(|a.pulls|, false), Delivery(e.env, e.c.sources, |a.pulls|);
    assert e.Taken(a, d, 0) == e.Start(false) && ebs(0) == first && e.Callbacks(a.seedings)(0);
    assert Added(Nothing(e.c.sources), first) == first;
    e.OnceOnly(a, d, n, l);
  }

  /** A manager with one further node in the showers. */
  ghost predicate Outside(e: Esdm)
    reads e
  {
    && e.Valid() && e.c == STRICT && e.env == SHOWERS && e.available && e.published && e.looks == 0 && |e.drngs| == 3
    && !e.drngs[1].fullySeeded
  }

  /** Force seeds the first DRNG that is not yet, with the first or second delivery. */
  method ForceWet(e: Esdm, ghost d: nat)
    requires Outside(e) && |e.pulls| < 2 && d < 3 && d != 1 && e.FirstUnseeded(e.drngs, d)
    modifies e
    ensures Outside(e) && |e.pulls| == |old(e.pulls)| + 1 && old(e.pulls) <= e.pulls
    ensures e.drngs == old(e.drngs)[d := e.drngs[d]] && e.drngs[d].fullySeeded
    ensures Credit(SHOWERS, 1, e.pulls, d) >= 256 && Used(old(e.ledger), e.ledger, 0, 0, 0)
  {
    ghost var a := e.Now();
    Shower(|a.pulls|);
    assert !e.allSeeded;
    ghost var which, n, l := e.ForceFullySeeded();
    assert which == d;
    SeededAtOnce(e, a, d, n, l);
    assert KeptDrng(SHOWERS, STRICT, a, e.Now(), -1, d);
  }

  /** Both node DRNGs were seeded, and no byte produced. */
  method BothSeeded() returns (e: Esdm)
    ensures fresh(e) && Outside(e) && |e.pulls| == 2 && e.drngs[0].fullySeeded && e.drngs[2].fullySeeded
    ensures e.ledger[0].produced == e.ledger[2].produced == e.ledger[2].checked == 0
    ensures Credit(SHOWERS, 1, e.pulls, 0) >= 256 && Credit(SHOWERS, 1, e.pulls, 2) >= 256
  {
    e := new Esdm(STRICT, SHOWERS);
    var ok := e.Initialize();
    assert e.Advertised(1) == [0];
    SumOfOne(0);
    e.NodeAlloc(1);
    ForceWet(e, 0);
    ghost var pulls := e.pulls;
    ForceWet(e, 2);
    CreditGrows(SHOWERS, 1, pulls, e.pulls, 0);
  }

  /** The DRNG of the further node is fully seeded and was not used; nothing fell since the second delivery. */
  ghost predicate Quiet(e: Esdm)
    reads e
  {
    && Outside(e) && 2 <= |e.pulls| <= 10 && e.drngs[2].fullySeeded && e.Now().Backed()
    && e.ledger[2].produced == e.ledger[2].checked == 0
    && Credit(SHOWERS, 1, e.pulls, 0) >= 256 && Credit(SHOWERS, 1, e.pulls, 2) >= 256
  }

  /** What stays quiet while nothing falls. */
  lemma StillQuiet(a: Snap, e: Snap, d: nat)
    requires |a.drngs| == |e.drngs| == |a.ledger| == |e.ledger| == 3 && d < 3 && a.pulls <= e.pulls
    requires 2 <= |a.pulls| && |e.pulls| <= 10 && KeptDrng(SHOWERS, STRICT, a, e, 0, d)
    ensures e.drngs[d].fullySeeded ==> a.drngs[d].fullySeeded
    ensures d != 0 && a.drngs[d].fullySeeded ==> e.drngs[d].fullySeeded
    ensures e.ledger[d].mark == a.ledger[d].mark && Credit(SHOWERS, 1, e.pulls, d) == Credit(SHOWERS, 1, a.pulls, d)
  {
    NoCredit(a.pulls, e.pulls, d);
  }

  lemma DryAhead(p: nat)
    requires 2 <= p <= 7
    ensures forall t :: p <= t < p + 3 ==> Dry(SHOWERS, STRICT, t)
  {
    Shower(p);
    Shower(p + 1);
    Shower(p + 2);
  }

  /** A request for one byte from the initial DRNG, while nothing falls. */
  method OneByte(e: Esdm)
    requires Quiet(e) && |e.pulls| <= 7
    modifies e
    ensures Quiet(e) && old(e.pulls) <= e.pulls && |e.pulls| <= |old(e.pulls)| + 3
    ensures !old(e.drngs)[0].fullySeeded || old(e.OverLimit(0)) ==> !e.drngs[0].fullySeeded
    ensures e.ledger[0].produced == old(e.ledger)[0].produced + 1 && e.ledger[0].mark == old(e.ledger)[0].mark
  {
    ghost var a := e.Now();
    DryAhead(|a.pulls|);
    var reply; ghost var checks, made;
    reply, checks, made := e.GetSleep(false, 0, 1);
    forall d | 0 <= d < 3 ensures KeptDrng(SHOWERS, STRICT, a, e.Now(), 0, d) {
    }
    StillQuiet(a, e.Now(), 0);
    StillQuiet(a, e.Now(), 1);
    StillQuiet(a, e.Now(), 2);
  }

  /** Once a byte was produced, the limit is reached. */
  method LimitReached(e: Esdm)
    requires Quiet(e) && |e.pulls| == 2 && e.ledger[0].produced == 0
    modifies e
    ensures Quiet(e) && !e.drngs[0].fullySeeded
  {
    OneByte(e);
    assert e.drngs[0].fullySeeded ==> e.OverLimit(0);
    OneByte(e);
  }

  /** Force in vain, while nothing falls. */
  method ForceDry(e: Esdm)
    requires Quiet(e) && |e.pulls| < 10 && !e.drngs[0].fullySeeded
    modifies e
    ensures Quiet(e) && |e.pulls| == |old(e.pulls)| + 1 && !e.drngs[0].fullySeeded
  {
    ghost var a := e.Now();
    Shower(|a.pulls|);
    assert !e.allSeeded;
    ghost var which, n, l := e.ForceFullySeeded();
    KeptWeaker(SHOWERS, STRICT, a, e.Now(), 0, false);
    StillQuiet(a, e.Now(), 0);
    StillQuiet(a, e.Now(), 1);
    StillQuiet(a, e.Now(), 2);
  }

  /** The third cause: entropy for the DRNG of another node counts. Calls: Initialize, AllocNodes, Force twice, two
      open requests (GetSleep) for a byte from the initial DRNG, which loses its level, Force in vain until there is
      entropy again, and an open request on the other node. No seed callback fails, and nobody sleeps. */
  method OtherDrng() returns (e: Esdm)
    ensures e.Valid() && e.available && e.operational && !e.drngs[0].fullySeeded
    ensures !SeedFailed(e.env, 0, e.seedings) && e.looks == 0
  {
    e := BothSeeded();
    LimitReached(e);
    while e.deliveries < 10
      invariant fresh(e) && Quiet(e) && !e.drngs[0].fullySeeded
      decreases 10 - e.deliveries
    {
      ForceDry(e);
    }
    OtherNode(e);
  }

  /** An open request on the other node, when there is entropy again. */
  method OtherNode(e: Esdm)
    requires Quiet(e) && |e.pulls| == 10 && !e.drngs[0].fullySeeded
    modifies e
    ensures e.Valid() && e.available && e.operational && !e.drngs[0].fullySeeded && e.looks == 0
  {
    ghost var a := e.Now();
    Shower(10);
    NotOver(e);
    var reply; ghost var checks, made;
    reply, checks, made := e.GetSleep(false, 1, 1);
    assert KeptDrng(SHOWERS, STRICT, a, e.Now(), 2, 0);
    CreditShared(SHOWERS, 1, e.pulls, 0, 2);
    ShowersTotal(e.deliveries);
  }

  lemma NotOver(e: Esdm)
    requires Quiet(e)
    ensures !e.OverLimit(2) && e.Server(false, 1) == 2
  {
    ExactPlain(e.drngs[2], e.ledger[2]);
  }
}
