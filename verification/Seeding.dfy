/** The rules by which collected entropy makes a DRNG fully seeded, and the emergency reseed loop that
    pulls until they are met. */
module Seeding {
  import opened Octets
  import opened Sums

  /** Entropy sources, security strength in bits, SP 800-90C oversampling and its surcharge, AIS 20/31
      mode, the bits after which a reseed is due, and the limits after which a DRNG without a full reseed
      is disabled. */
  datatype Setup = Setup(sources: nat, strength: nat, oversample: bool, surcharge: nat, ntg: bool,
                         reseedBits: nat, maxRequests: nat, maxBits: nat)

  type Config = c: Setup | 0 < c.strength <= 256 witness Setup(1, 256, false, 0, false, 0, 0, 0)

  /** esdm_get_seed_entropy_osr */
  function Threshold(c: Config, fullySeeded: bool): nat {
    c.strength + if c.oversample && !fullySeeded then c.surcharge else 0
  }

  /** Sources with at least the given amount. */
  function AtLeast(per: seq<nat>, amount: nat): nat {
    if per == [] then 0
    else AtLeast(per[..|per| - 1], amount) + if per[|per| - 1] >= amount then 1 else 0
  }

  /** esdm_fully_seeded: in AIS 20/31 mode two sources with 240 bits each, otherwise the threshold. */
  predicate FullyRule(c: Config, fullySeeded: bool, collected: nat, per: seq<nat>) {
    if c.ntg then AtLeast(per, 240) >= 2 else collected >= Threshold(c, fullySeeded)
  }

  lemma {:induction false} AtLeastSum(per: seq<nat>, amount: nat)
    ensures Sum(per) >= amount * AtLeast(per, amount)
  {
    if per == [] {
    } else {
      var k := AtLeast(per[..|per| - 1], amount);
      AtLeastSum(per[..|per| - 1], amount);
      Distribute(k, 1, amount);
      assert amount * k == k * amount && amount * (k + 1) == (k + 1) * amount;
    }
  }

  /** Whatever the mode, a DRNG turns fully seeded on no less than the security strength. */
  lemma RuleCoversStrength(c: Config, fullySeeded: bool, per: seq<nat>)
    requires FullyRule(c, fullySeeded, Sum(per), per)
    ensures Sum(per) >= c.strength
  {
    AtLeastSum(per, 240);
  }

  function Added(per: seq<nat>, eb: seq<nat>): (r: seq<nat>)
    requires |per| == |eb|
    ensures |r| == |per|
  {
    seq(|per|, i requires 0 <= i < |per| => per[i] + eb[i])
  }

  lemma {:induction false} AddedSum(per: seq<nat>, eb: seq<nat>)
    requires |per| == |eb|
    ensures Sum(Added(per, eb)) == Sum(per) + Sum(eb)
  {
    if per == [] {
    } else {
      assert Added(per, eb)[..|per| - 1] == Added(per[..|per| - 1], eb[..|eb| - 1]);
      AddedSum(per[..|per| - 1], eb[..|eb| - 1]);
    }
  }

  /** What the sources still lack for 240 bits each. */
  function Shortfall(per: seq<nat>): nat {
    if per == [] then 0
    else Shortfall(per[..|per| - 1]) + if per[|per| - 1] < 240 then 240 - per[|per| - 1] else 0
  }

  /** Every source that delivers without reaching 240 bits shrinks the shortfall. */
  lemma {:induction false} ShortfallShrinks(per: seq<nat>, eb: seq<nat>)
    requires |per| == |eb|
    ensures Shortfall(Added(per, eb)) + AtLeast(eb, 1) <= Shortfall(per) + AtLeast(Added(per, eb), 240)
    ensures Shortfall(Added(per, eb)) <= Shortfall(per)
  {
    if per == [] {
    } else {
      assert Added(per, eb)[..|per| - 1] == Added(per[..|per| - 1], eb[..|eb| - 1]);
      ShortfallShrinks(per[..|per| - 1], eb[..|eb| - 1]);
    }
  }

  lemma {:induction false} ShortfallBound(per: seq<nat>)
    ensures Shortfall(per) <= 240 * |per|
  {
    if per == [] {
    } else {
      ShortfallBound(per[..|per| - 1]);
    }
  }

  lemma {:induction false} DeliveredSum(eb: seq<nat>)
    ensures Sum(eb) >= AtLeast(eb, 1)
  {
    if eb == [] {
    } else {
      DeliveredSum(eb[..|eb| - 1]);
    }
  }

  /** Sources that must deliver for the emergency loop to go on. */
  function Need(c: Config): nat { if c.ntg then 2 else 1 }

  /** The loop variables: entropy collected in this call, per source, and the two exit conditions. */
  datatype Loop = Loop(collected: nat, per: seq<nat>, fullySeeded: bool, going: bool)

  /** One turn of the forced loop: the sources deliver eb, the seed callback succeeds or not. */
  function Round(c: Config, l: Loop, eb: seq<nat>, ok: bool): Loop
    requires |l.per| == |eb|
  {
    var collected, per := l.collected + Sum(eb), Added(l.per, eb);
    var full := l.fullySeeded || (ok && FullyRule(c, l.fullySeeded, collected, per));
    Loop(collected, per, full, !full && AtLeast(eb, 1) >= Need(c))
  }

  /** What is still lacking: the threshold, or 240 bits per source. */
  function Deficit(c: Config, l: Loop): nat {
    if c.ntg then Shortfall(l.per)
    else if l.collected < Threshold(c, false) then Threshold(c, false) - l.collected
    else 0
  }

  /** Every turn that succeeds in seeding and is not the last brings the threshold closer. */
  lemma DeficitDecreases(c: Config, l: Loop, eb: seq<nat>)
    requires |l.per| == |eb| && !l.fullySeeded && Round(c, l, eb, true).going
    ensures Deficit(c, Round(c, l, eb, true)) < Deficit(c, l)
  {
    ShortfallShrinks(l.per, eb);
    DeliveredSum(eb);
  }

  lemma DeficitNeverGrows(c: Config, l: Loop, eb: seq<nat>, ok: bool)
    requires |l.per| == |eb|
    ensures Deficit(c, Round(c, l, eb, ok)) <= Deficit(c, l)
  {
    ShortfallShrinks(l.per, eb);
  }

  lemma {:induction false} AtLeastGrows(per: seq<nat>, eb: seq<nat>, amount: nat)
    requires |per| == |eb|
    ensures AtLeast(per, amount) <= AtLeast(Added(per, eb), amount)
  {
    if per == [] {
    } else {
      assert Added(per, eb)[..|per| - 1] == Added(per[..|per| - 1], eb[..|eb| - 1]);
      AtLeastGrows(per[..|per| - 1], eb[..|eb| - 1], amount);
    }
  }

  lemma RuleGrows(c: Config, fullySeeded: bool, l: Loop, eb: seq<nat>)
    requires |l.per| == |eb| && FullyRule(c, fullySeeded, l.collected, l.per)
    ensures FullyRule(c, fullySeeded, l.collected + Sum(eb), Added(l.per, eb))
  {
    AtLeastGrows(l.per, eb, 240);
  }

  predicate RuleMet(c: Config, l: Loop) {
    FullyRule(c, false, l.collected, l.per)
  }

  /** A turn never sets the loop back; if it does not get it ahead, the rule is met and the callback failed. */
  lemma TurnShrinks(c: Config, l: Loop, eb: seq<nat>, ok: bool)
    requires |l.per| == |eb| && !l.fullySeeded
    ensures var l' := Round(c, l, eb, ok);
            && Deficit(c, l') <= Deficit(c, l)
            && (RuleMet(c, l) ==> RuleMet(c, l'))
            && (l'.going ==> Deficit(c, l') < Deficit(c, l) || (RuleMet(c, l') && !ok))
  {
    DeficitNeverGrows(c, l, eb, ok);
    if RuleMet(c, l) {
      RuleGrows(c, false, l, eb);
    }
    var l' := Round(c, l, eb, ok);
    if l'.going && !RuleMet(c, l') {
      DeficitDecreases(c, l, eb);
    }
  }

  /** The loop after n turns, for any behaviour of sources and seed callback. */
  function Turns(c: Config, l: Loop, ebs: nat -> seq<nat>, oks: nat -> bool, n: nat): (r: Loop)
    requires forall k: nat :: |ebs(k)| == |l.per|
    ensures |r.per| == |l.per|
  {
    if n == 0 then l else Round(c, Turns(c, l, ebs, oks, n - 1), ebs(n - 1), oks(n - 1))
  }

  /** With a seed callback that succeeds the loop ends, whatever the sources do: it cannot be going after
      more turns than bits were lacking. */
  lemma {:induction false} Terminates(c: Config, l: Loop, ebs: nat -> seq<nat>, oks: nat -> bool, n: nat)
    requires forall k: nat :: |ebs(k)| == |l.per|
    requires forall k: nat :: oks(k)
    requires forall k: nat :: 0 < k <= n ==> Turns(c, l, ebs, oks, k).going
    requires !l.fullySeeded
    ensures n + Deficit(c, Turns(c, l, ebs, oks, n)) <= Deficit(c, l)
    ensures !Turns(c, l, ebs, oks, n).fullySeeded
  {
    if n == 0 {
    } else {
      Terminates(c, l, ebs, oks, n - 1);
      assert Turns(c, l, ebs, oks, n).going;
      DeficitDecreases(c, Turns(c, l, ebs, oks, n - 1), ebs(n - 1));
    }
  }

  /** From the start of a call: no more turns than the threshold has bits, or than 240 per source. */
  lemma TurnBound(c: Config, per: seq<nat>, ebs: nat -> seq<nat>, oks: nat -> bool, n: nat)
    requires forall k: nat :: |ebs(k)| == |per|
    requires forall k: nat :: oks(k)
    requires forall k: nat :: 0 < k <= n ==> Turns(c, Loop(0, per, false, true), ebs, oks, k).going
    ensures n <= if c.ntg then 240 * |per| else Threshold(c, false)
  {
    Terminates(c, Loop(0, per, false, true), ebs, oks, n);
    ShortfallBound(per);
  }

  /** What each source delivered in the first n turns, on top of per. */
  function PerAfter(per: seq<nat>, ebs: nat -> seq<nat>, n: nat): (r: seq<nat>)
    requires forall k: nat :: |ebs(k)| == |per|
    ensures |r| == |per|
  {
    if n == 0 then per else Added(PerAfter(per, ebs, n - 1), ebs(n - 1))
  }

  function CollectedAfter(collected: nat, ebs: nat -> seq<nat>, n: nat): nat {
    if n == 0 then collected else CollectedAfter(collected, ebs, n - 1) + Sum(ebs(n - 1))
  }

  /** The deliveries up to and with turn k meet the rule: nothing of the seed callback goes into this. */
  predicate Met(c: Config, l: Loop, ebs: nat -> seq<nat>, k: nat)
    requires forall k: nat :: |ebs(k)| == |l.per|
  {
    FullyRule(c, false, CollectedAfter(l.collected, ebs, k + 1), PerAfter(l.per, ebs, k + 1))
  }

  /** A rule that is met stays met. */
  lemma {:induction false} MetStays(c: Config, l: Loop, ebs: nat -> seq<nat>, k: nat, n: nat)
    requires forall k: nat :: |ebs(k)| == |l.per|
    requires Met(c, l, ebs, k) && k <= n
    ensures Met(c, l, ebs, n)
  {
    if n == k {
    } else {
      MetStays(c, l, ebs, k, n - 1);
      AtLeastGrows(PerAfter(l.per, ebs, n), ebs(n), 240);
    }
  }

  /** The loop turned fully seeded in none of the first n turns. */
  lemma {:induction false} NotSeededIff(c: Config, l: Loop, ebs: nat -> seq<nat>, oks: nat -> bool, n: nat)
    requires forall k: nat :: |ebs(k)| == |l.per|
    requires !l.fullySeeded
    ensures var r := Turns(c, l, ebs, oks, n);
      && r.collected == CollectedAfter(l.collected, ebs, n) && r.per == PerAfter(l.per, ebs, n)
      && (r.fullySeeded <==> exists k :: 0 <= k < n && oks(k) && Met(c, l, ebs, k))
  {
    if n == 0 {
    } else {
      NotSeededIff(c, l, ebs, oks, n - 1);
      assert Met(c, l, ebs, n - 1) <==>
             FullyRule(c, false, CollectedAfter(l.collected, ebs, n), PerAfter(l.per, ebs, n));
      assert Turns(c, l, ebs, oks, n).fullySeeded <==>
             Turns(c, l, ebs, oks, n - 1).fullySeeded || (oks(n - 1) && Met(c, l, ebs, n - 1));
    }
  }

  /** The loop is still going after n turns. */
  ghost predicate GoingAfter(c: Config, l: Loop, ebs: nat -> seq<nat>, oks: nat -> bool, n: nat)
    requires forall k: nat :: |ebs(k)| == |l.per|
  {
    forall k :: 0 < k <= n ==> Turns(c, l, ebs, oks, k).going
  }

  /** Exactly when the loop goes on, for any sources and any seed callback: as long as enough sources deliver and
      no callback succeeds in a turn that meets the rule. */
  lemma GoingIff(c: Config, l: Loop, ebs: nat -> seq<nat>, oks: nat -> bool, n: nat)
    requires forall k: nat :: |ebs(k)| == |l.per|
    requires !l.fullySeeded
    ensures GoingAfter(c, l, ebs, oks, n) <==>
            forall k :: 0 <= k < n ==> AtLeast(ebs(k), 1) >= Need(c) && !(oks(k) && Met(c, l, ebs, k))
  {
    forall k | 0 < k <= n
      ensures Turns(c, l, ebs, oks, k).going <==>
              AtLeast(ebs(k - 1), 1) >= Need(c) && forall j :: 0 <= j < k ==> !(oks(j) && Met(c, l, ebs, j))
    {
      NotSeededIff(c, l, ebs, oks, k);
    }
    if GoingAfter(c, l, ebs, oks, n) {
      forall k | 0 <= k < n ensures AtLeast(ebs(k), 1) >= Need(c) && !(oks(k) && Met(c, l, ebs, k)) {
        assert Turns(c, l, ebs, oks, k + 1).going;
      }
    }
  }

  /** Sources that always deliver meet the rule at the latest when the deficit is used up. */
  lemma MetInTime(c: Config, l: Loop, ebs: nat -> seq<nat>)
    requires forall k: nat :: |ebs(k)| == |l.per| && AtLeast(ebs(k), 1) >= Need(c)
    requires !l.fullySeeded
    ensures Met(c, l, ebs, Deficit(c, l))
  {
    var n := Deficit(c, l) + 1;
    if !Met(c, l, ebs, n - 1) {
      forall k | 0 <= k < n ensures !Met(c, l, ebs, k) {
        if Met(c, l, ebs, k) {
          MetStays(c, l, ebs, k, n - 1);
        }
      }
      GoingIff(c, l, ebs, _ => true, n);
      Terminates(c, l, ebs, _ => true, n);
    }
  }

  /** The first turn that meets the rule. */
  ghost predicate FirstMet(c: Config, l: Loop, ebs: nat -> seq<nat>, m: nat)
    requires forall k: nat :: |ebs(k)| == |l.per|
  {
    Met(c, l, ebs, m) && forall k :: 0 <= k < m ==> !Met(c, l, ebs, k)
  }

  lemma {:induction false} FirstMetUpTo(c: Config, l: Loop, ebs: nat -> seq<nat>, n: nat) returns (m: nat)
    requires forall k: nat :: |ebs(k)| == |l.per|
    requires Met(c, l, ebs, n)
    ensures m <= n && FirstMet(c, l, ebs, m)
  {
    if n > 0 && Met(c, l, ebs, n - 1) {
      m := FirstMetUpTo(c, l, ebs, n - 1);
    } else {
      m := n;
      forall k | 0 <= k < m ensures !Met(c, l, ebs, k) {
        if Met(c, l, ebs, k) {
          MetStays(c, l, ebs, k, n - 1);
        }
      }
    }
  }

  /** With sources that always deliver there is a turn m, no later than the deficit allows, such that the loop is
      still going after n turns if and only if no callback from turn m on has succeeded. */
  lemma GoingUntilSuccess(c: Config, l: Loop, ebs: nat -> seq<nat>, oks: nat -> bool) returns (m: nat)
    requires forall k: nat :: |ebs(k)| == |l.per| && AtLeast(ebs(k), 1) >= Need(c)
    requires !l.fullySeeded
    ensures m <= Deficit(c, l) && FirstMet(c, l, ebs, m)
    ensures forall n: nat :: GoingAfter(c, l, ebs, oks, n) <==> forall k :: m <= k < n ==> !oks(k)
  {
    MetInTime(c, l, ebs);
    m := FirstMetUpTo(c, l, ebs, Deficit(c, l));
    forall n: nat ensures GoingAfter(c, l, ebs, oks, n) <==> forall k :: m <= k < n ==> !oks(k) {
      GoingIff(c, l, ebs, oks, n);
      forall k | m <= k < n ensures Met(c, l, ebs, k) {
        MetStays(c, l, ebs, m, k);
      }
    }
  }

  /** The loop ends exactly if some callback succeeds from the first turn on that meets the rule. */
  lemma EndsIff(c: Config, l: Loop, ebs: nat -> seq<nat>, oks: nat -> bool, m: nat)
    requires forall k: nat :: |ebs(k)| == |l.per| && AtLeast(ebs(k), 1) >= Need(c)
    requires !l.fullySeeded && FirstMet(c, l, ebs, m)
    ensures (exists n: nat :: !GoingAfter(c, l, ebs, oks, n)) <==> exists k :: m <= k && oks(k)
  {
    var m' := GoingUntilSuccess(c, l, ebs, oks);
    assert m' == m;
    if k :| m <= k && oks(k) {
      assert !GoingAfter(c, l, ebs, oks, k + 1);
    }
  }

  /** With a callback that always fails it never ends as long as enough sources deliver. */
  lemma NeverEnds(c: Config, l: Loop, ebs: nat -> seq<nat>, oks: nat -> bool, n: nat)
    requires forall k: nat :: |ebs(k)| == |l.per| && AtLeast(ebs(k), 1) >= Need(c) && !oks(k)
    requires !l.fullySeeded
    ensures GoingAfter(c, l, ebs, oks, n)
  {
    GoingIff(c, l, ebs, oks, n);
  }

  /** If the loop ends with a DRNG that turned fully seeded, the entropy of this one call met the rule. */
  lemma {:induction false} TurnedByRule(c: Config, l: Loop, ebs: nat -> seq<nat>, oks: nat -> bool, n: nat)
    requires forall k: nat :: |ebs(k)| == |l.per|
    requires !l.fullySeeded && l.collected == Sum(l.per)
    requires forall k: nat :: 0 < k < n ==> Turns(c, l, ebs, oks, k).going
    ensures var r := Turns(c, l, ebs, oks, n);
      && r.collected == Sum(r.per)
      && (r.fullySeeded ==> FullyRule(c, false, r.collected, r.per))
  {
    if n == 0 {
    } else {
      TurnedByRule(c, l, ebs, oks, n - 1);
      var m := Turns(c, l, ebs, oks, n - 1);
      AddedSum(m.per, ebs(n - 1));
      if n > 1 {
        assert m.going;
      }
    }
  }
}
