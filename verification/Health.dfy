/** The SP 800-90B health tests of a kernel entropy source: stuck test, repetition count test,
    adaptive proportion test and the start-up state, tied to the history of time stamps. */
module Health {

  /** A 32-bit time stamp. */
  type Time = t: int | 0 <= t < 0x1_0000_0000

  function Delta(prev: Time, next: Time): Time {
    (next - prev) % 0x1_0000_0000
  }

  /** The time stamp k places before the last one; before the first one there were zeros. */
  function Back(ts: seq<Time>, k: nat): Time {
    if k < |ts| then ts[|ts| - 1 - k] else 0
  }

  /** First, second and third difference at the end of a history, modulo 2^32. */
  function Diff1(ts: seq<Time>): Time {
    (Back(ts, 0) - Back(ts, 1)) % 0x1_0000_0000
  }

  function Diff2(ts: seq<Time>): Time {
    (Back(ts, 0) - 2 * Back(ts, 1) + Back(ts, 2)) % 0x1_0000_0000
  }

  function Diff3(ts: seq<Time>): Time {
    (Back(ts, 0) - 3 * Back(ts, 1) + 3 * Back(ts, 2) - Back(ts, 3)) % 0x1_0000_0000
  }

  predicate IsStuck(ts: seq<Time>) {
    Diff1(ts) == 0 || Diff2(ts) == 0 || Diff3(ts) == 0
  }

  lemma DeltaOfResidues(a: int, b: int)
    ensures (b % 0x1_0000_0000 - a % 0x1_0000_0000) % 0x1_0000_0000 == (b - a) % 0x1_0000_0000
  {
  }

  lemma NoHistory()
    ensures Back([], 0) == 0 && Diff1([]) == 0 && Diff2([]) == 0
  {
  }

  lemma BackAppend(ts: seq<Time>, t: Time, k: nat)
    ensures Back(ts + [t], 0) == t && Back(ts + [t], k + 1) == Back(ts, k)
  {
  }

  /** Differences of differences are the higher differences of the longer history. */
  lemma DiffAppend(ts: seq<Time>, t: Time)
    ensures Delta(Back(ts, 0), t) == Diff1(ts + [t])
    ensures Delta(Diff1(ts), Diff1(ts + [t])) == Diff2(ts + [t])
    ensures Delta(Diff2(ts), Diff2(ts + [t])) == Diff3(ts + [t])
  {
    BackAppend(ts, t, 0);
    BackAppend(ts, t, 1);
    BackAppend(ts, t, 2);
    Differences(t, Back(ts, 0), Back(ts, 1), Back(ts, 2));
  }

  lemma Differences(t: int, b0: int, b1: int, b2: int)
    ensures ((t - b0) % 0x1_0000_0000 - (b0 - b1) % 0x1_0000_0000) % 0x1_0000_0000
         == (t - 2 * b0 + b1) % 0x1_0000_0000
    ensures ((t - 2 * b0 + b1) % 0x1_0000_0000 - (b0 - 2 * b1 + b2) % 0x1_0000_0000) % 0x1_0000_0000
         == (t - 3 * b0 + 3 * b1 - b2) % 0x1_0000_0000
  {
    DeltaOfResidues(b0 - b1, t - b0);
    DeltaOfResidues(b0 - 2 * b1 + b2, t - 2 * b0 + b1);
  }

  function Count(s: seq<int>, v: int): (n: nat)
    ensures n <= |s|
  {
    if s == [] then 0 else Count(s[..|s| - 1], v) + if s[|s| - 1] == v then 1 else 0
  }

  lemma CountAppend(s: seq<int>, x: int, v: int)
    ensures Count(s + [x], v) == Count(s, v) + if x == v then 1 else 0
  {
    assert (s + [x])[..|s|] == s;
  }

  /** The length of the run of true at the end. */
  function Trailing(s: seq<bool>): (n: nat)
    ensures n <= |s|
  {
    if s == [] || !s[|s| - 1] then 0 else Trailing(s[..|s| - 1]) + 1
  }

  lemma TrailingAppend(s: seq<bool>, b: bool)
    ensures Trailing(s + [b]) == if b then Trailing(s) + 1 else 0
  {
    assert (s + [b])[..|s|] == s;
  }

  /** The last n verdicts were stuck, and the one before was not or there was none. */
  lemma {:induction false} TrailingIsRun(s: seq<bool>)
    ensures forall i :: |s| - Trailing(s) <= i < |s| ==> s[i]
    ensures Trailing(s) < |s| ==> !s[|s| - 1 - Trailing(s)]
  {
    if s == [] || !s[|s| - 1] {
    } else {
      TrailingIsRun(s[..|s| - 1]);
    }
  }

  /** What a test made of a sample. */
  datatype Outcome = Quiet | Failed | Permanent

  /** A counter that reached n, against its two cut-offs. */
  function Judge(n: nat, cutoff: nat, permanent: nat): Outcome {
    if n >= permanent then Permanent else if n >= cutoff then Failed else Quiet
  }

  datatype Result = Pass | FailUse | FailDrop

  /** What a CPU's history makes of its last event: in FIPS mode a stuck time stamp is dropped. */
  function Verdict(requested: bool, ts: seq<Time>): Result {
    if !IsStuck(ts) then Pass else if requested then FailDrop else FailUse
  }

  datatype Event = Event(cpu: nat, now: Time)

  /** The time stamps of one CPU among the events. */
  function TimesOf(events: seq<Event>, cpu: nat): seq<Time> {
    if events == [] then []
    else
      var last := events[|events| - 1];
      TimesOf(events[..|events| - 1], cpu) + if last.cpu == cpu then [last.now] else []
  }

  /** What the tests remember of a run of events. */
  datatype Log = Log(
    baseSet: bool,
    base: int,
    /** Samples since the APT base was set; the first skipped of them are not counted. */
    window: seq<int>,
    skipped: nat,
    /** The base was put to zero by a permanent failure. */
    zeroed: bool,
    /** Stuck verdicts since the last permanent failure. */
    verdicts: seq<bool>,
    /** APT windows completed, and APT samples taken, since the last failure. */
    closings: nat,
    since: nat,
    /** Failures: each drops all collected entropy. */
    failures: nat,
    halted: bool)
  {
    predicate Framed() {
      |window| < 512 && skipped <= |window| && (!baseSet ==> window == [])
    }

    /** How often the base occurred in the window. */
    function Matches(): nat {
      if skipped <= |window| then Count(window[skipped..], base) else 0
    }

    /** The first start-up takes two whole windows; after a failure the window it fell into counts. */
    predicate Timed() {
      && (failures == 0 ==> since == 512 * closings + |window|)
      && (closings >= 1 ==> since >= 512 * (closings - 1) + 1 + |window|)
    }

    predicate Sound() {
      Framed() && Timed() && Matches() < 371 && Trailing(verdicts) < 81
    }
  }

  const FRESH: Log := Log(false, -1, [], 0, false, [], 0, 0, 0, false)

  /** A failure during start-up or at run time: all entropy is dropped, start-up begins again. */
  function Fail(l: Log): Log {
    l.(closings := 0, since := 0, failures := l.failures + 1)
  }

  /** A permanent failure halts the machine or also clears both tests. */
  function FailForGood(panics: bool, l: Log): Log {
    if panics then l.(halted := true)
    else Fail(l).(verdicts := [], window := [], skipped := 0, base := 0, zeroed := true)
  }

  function Judged(panics: bool, l: Log, o: Outcome): Log {
    match o
    case Quiet => l
    case Failed => Fail(l)
    case Permanent => FailForGood(panics, l)
  }

  /** The window takes the sample v, and closes when it is the 512th. */
  function Advance(l: Log, v: int, skip: bool): Log {
    if |l.window| == 511 then
      l.(window := [], skipped := 0, base := v, zeroed := false, closings := l.closings + 1, since := l.since + 1)
    else
      l.(window := l.window + [v], skipped := if skip then 1 else l.skipped, since := l.since + 1)
  }

  /** The outcome of a sample: its match, if it is one, with those before it. */
  function AptOutcome(l: Log, v: int): Outcome {
    if v == l.base then Judge(l.Matches() + 1, 325, 371) else Quiet
  }

  /** What the adaptive proportion test makes of a sample. */
  function ObserveSample(panics: bool, l: Log, v: int): Log {
    if !l.baseSet then l.(baseSet := true, base := v)
    else
      var o := AptOutcome(l, v);
      var j := Judged(panics, l, o);
      if j.halted then j else Advance(j, v, o.Permanent?)
  }

  /** What the repetition count test makes of a verdict. */
  function ObserveVerdict(panics: bool, l: Log, stuck: bool): Log {
    var k := l.(verdicts := l.verdicts + [stuck]);
    if stuck then Judged(panics, k, Judge(Trailing(l.verdicts) + 1, 31, 81)) else k
  }

  /** An event as the tests see it: its time stamp and the verdict of the stuck test. */
  datatype Reading = Reading(now: Time, stuck: bool)

  /** What the tests make of a reading: nothing outside FIPS mode or on a halted machine. */
  function Observe(requested: bool, panics: bool, l: Log, r: Reading): Log {
    if !requested || l.halted then l
    else
      var a := ObserveSample(panics, l, r.now % 16);
      if a.halted then a else ObserveVerdict(panics, a, r.stuck)
  }

  lemma AdvanceMatches(l: Log, v: int, skip: bool)
    requires l.Framed() && l.baseSet && |l.window| < 511 && (skip ==> l.window == [])
    ensures var a := Advance(l, v, skip);
            a.Framed() && a.Matches() == if skip then 0 else l.Matches() + if v == l.base then 1 else 0
  {
    if skip {
    } else {
      CountAppend(l.window[l.skipped..], v, l.base);
      assert (l.window + [v])[l.skipped..] == l.window[l.skipped..] + [v];
    }
  }

  /** The judged log j before the window takes the sample, and the matches after it did. */
  lemma SampleAdvance(panics: bool, l: Log, v: int, o: Outcome, j: Log)
    requires l.Framed() && l.baseSet && o == AptOutcome(l, v) && j == Judged(panics, l, o) && !l.halted
    ensures j.halted || (j.Framed() && j.baseSet && (o.Permanent? ==> j.window == []))
    ensures j.halted || |j.window| == 511 ||
            Advance(j, v, o.Permanent?).Matches() ==
            if v != l.base then l.Matches() else if l.Matches() + 1 >= 371 then 0 else l.Matches() + 1
  {
    if !j.halted && |j.window| < 511 {
      AdvanceMatches(j, v, o.Permanent?);
    }
  }

  lemma AdvanceSound(l: Log, v: int, skip: bool)
    requires l.Framed() && l.Timed() && l.baseSet && Trailing(l.verdicts) < 81 && (skip ==> l.window == [])
    requires !skip ==> l.Matches() + (if v == l.base then 1 else 0) < 371
    ensures Advance(l, v, skip).Sound()
  {
    if |l.window| < 511 {
      AdvanceMatches(l, v, skip);
    }
  }

  lemma SampleSound(panics: bool, l: Log, v: int)
    requires l.Sound() && !l.halted
    ensures ObserveSample(panics, l, v).Sound()
  {
    if l.baseSet {
      var o := AptOutcome(l, v);
      var j := Judged(panics, l, o);
      if !j.halted {
        AdvanceSound(j, v, o.Permanent?);
      }
    }
  }

  lemma JudgedSound(panics: bool, l: Log, o: Outcome)
    requires l.Framed() && l.Timed() && l.Matches() < 371 && (o.Permanent? || Trailing(l.verdicts) < 81)
    ensures var j := Judged(panics, l, o); j.halted || j.Sound()
  {
  }

  lemma VerdictSound(panics: bool, l: Log, stuck: bool)
    requires l.Sound() && !l.halted
    ensures var a := ObserveVerdict(panics, l, stuck); a.halted || a.Sound()
  {
    TrailingAppend(l.verdicts, stuck);
    var k := l.(verdicts := l.verdicts + [stuck]);
    assert k.Framed() && k.Timed() && k.Matches() == l.Matches();
    JudgedSound(panics, k, if stuck then Judge(Trailing(l.verdicts) + 1, 31, 81) else Quiet);
  }

  lemma ObserveSound(requested: bool, panics: bool, l: Log, r: Reading)
    requires l.halted || l.Sound()
    ensures var a := Observe(requested, panics, l, r); a.halted || a.Sound()
  {
    if requested && !l.halted {
      SampleSound(panics, l, r.now % 16);
      var a := ObserveSample(panics, l, r.now % 16);
      if !a.halted {
        VerdictSound(panics, a, r.stuck);
      }
    }
  }

  datatype StuckTest = StuckTest(lastTime: Time, lastDelta: Time, lastDelta2: Time)

  class SourceHealth {
    /** FIPS mode, and whether a permanent failure halts the machine. */
    const requested: bool
    const panics: bool
    var enabled: bool
    var stuck: seq<StuckTest>
    var rctCount: nat
    var aptCount: nat
    var aptBase: int
    var aptTrigger: int
    var aptBaseSet: bool
    var startupDone: bool
    var startupBlocks: int
    var halted: bool
    /** Calls of esdm_reset_state, which drop all collected entropy. */
    var invalidations: nat

    /** Time stamps per CPU. */
    ghost var times: seq<seq<Time>>
    ghost var log: Log

    ghost predicate StuckAgrees()
      reads this
    {
      && |times| == |stuck|
      && forall c :: 0 <= c < |stuck| ==>
           stuck[c] == StuckTest(Back(times[c], 0), Diff1(times[c]), Diff2(times[c]))
    }

    ghost predicate AptAgrees()
      reads this
    {
      && log.Framed() && aptBaseSet == log.baseSet && aptBase == log.base
      && aptTrigger == 512 - |log.window| && aptCount == log.Matches()
    }

    ghost predicate StartupAgrees()
      reads this
    {
      && (startupDone <==> log.closings >= 2) && (!startupDone ==> startupBlocks == 2 - log.closings)
      && invalidations == log.failures && halted == log.halted
    }

    /** Every counter is what the log of the run makes of it. */
    ghost predicate TestsAgree()
      reads this
    {
      log.Sound() && AptAgrees() && rctCount == Trailing(log.verdicts) && StartupAgrees()
    }

    ghost predicate Valid()
      reads this
    {
      StuckAgrees() && TestsAgree()
    }

    constructor (requested: bool, panics: bool, cpus: nat)
      ensures Valid() && this.requested == requested && this.panics == panics && enabled && !halted
      ensures |times| == cpus && forall c :: 0 <= c < cpus ==> times[c] == []
      ensures log == FRESH
    {
      this.requested, this.panics := requested, panics;
      enabled, halted, invalidations := true, false, 0;
      stuck := seq(cpus, i => StuckTest(0, 0, 0));
      rctCount, aptCount, aptBase, aptTrigger, aptBaseSet := 0, 0, -1, 512, false;
      startupDone, startupBlocks := false, 2;
      times, log := seq(cpus, i => []), FRESH;
      new;
      NoHistory();
      assert StuckAgrees();
    }

    /** esdm_sp80090b_startup, at the end of an APT window that the log has noted. */
    method Startup()
      requires startupDone <==> log.closings >= 3
      requires log.closings >= 1 && (!startupDone ==> startupBlocks == 3 - log.closings)
      requires invalidations == log.failures && halted == log.halted
      modifies this`startupDone, this`startupBlocks
      ensures StartupAgrees()
    {
      if !startupDone {
        startupBlocks := startupBlocks - 1;
        if startupBlocks == 0 {
          startupDone := true;
        }
      }
    }

    method StartupFailure()
      modifies this`startupBlocks, this`invalidations, this`log
      ensures startupBlocks == 2 && invalidations == old(invalidations) + 1 && log == Fail(old(log))
    {
      invalidations := invalidations + 1;
      startupBlocks := 2;
      log := Fail(log);
    }

    method RuntimeFailure()
      requires StartupAgrees()
      modifies this`startupDone, this`startupBlocks, this`invalidations, this`log
      ensures StartupAgrees() && log == Fail(old(log))
    {
      StartupFailure();
      startupDone := false;
    }

    method Failure()
      requires StartupAgrees()
      modifies this`startupDone, this`startupBlocks, this`invalidations, this`log
      ensures StartupAgrees() && log == Fail(old(log))
    {
      if startupDone {
        RuntimeFailure();
      } else {
        StartupFailure();
      }
    }

    method PermanentFailure()
      requires !halted && StartupAgrees() && log.baseSet && aptBaseSet
      modifies this`halted, this`startupDone, this`startupBlocks, this`invalidations, this`log,
               this`rctCount, this`aptCount, this`aptBase, this`aptTrigger
      ensures log == FailForGood(panics, old(log)) && halted == log.halted
      ensures !halted ==> AptAgrees() && StartupAgrees() && rctCount == 0
    {
      if panics {
        halted, log := true, FailForGood(true, log);
        return;
      }
      RuntimeFailure();
      rctCount := 0;
      aptCount, aptBase, aptTrigger := 0, 0, 512;
      log := log.(verdicts := [], window := [], skipped := 0, base := 0, zeroed := true);
    }

    /** esdm_irq_stuck on the given CPU. */
    method Stuck(cpu: nat, now: Time) returns (result: bool)
      requires StuckAgrees() && cpu < |stuck|
      modifies this`stuck, this`times
      ensures StuckAgrees() && times == old(times)[cpu := old(times)[cpu] + [now]]
      ensures result <==> IsStuck(times[cpu])
    {
      var s := stuck[cpu];
      var delta := Delta(s.lastTime, now);
      var delta2 := Delta(s.lastDelta, delta);
      var delta3 := Delta(s.lastDelta2, delta2);
      DiffAppend(times[cpu], now);
      times := times[cpu := times[cpu] + [now]];
      stuck := stuck[cpu := StuckTest(now, delta, delta2)];
      BackAppend(old(times)[cpu], now, 0);
      result := delta == 0 || delta2 == 0 || delta3 == 0;
    }

    /** A sample that equals the APT base is counted and judged. */
    method AptMatch()
      requires !halted && TestsAgree() && aptBaseSet
      modifies this`halted, this`startupDone, this`startupBlocks, this`invalidations, this`log,
               this`rctCount, this`aptCount, this`aptBase, this`aptTrigger
      ensures log == Judged(panics, old(log), Judge(old(aptCount) + 1, 325, 371)) && halted == log.halted
      ensures !halted ==> StartupAgrees() && rctCount == Trailing(log.verdicts)
      ensures !halted ==> aptBase == log.base && aptTrigger == 512 - |log.window|
      ensures !halted ==> aptCount == if old(aptCount) + 1 >= 371 then 0 else old(aptCount) + 1
    {
      aptCount := aptCount + 1;
      if aptCount >= 371 {
        PermanentFailure();
      } else if aptCount >= 325 {
        Failure();
      }
    }

    /** The window closes: the sample is the base of the next one, and start-up is a window nearer. */
    method AptRestart(v: int)
      requires !halted && StartupAgrees() && log.baseSet && aptBaseSet && |log.window| == 511
      modifies this`startupDone, this`startupBlocks, this`log, this`aptCount, this`aptBase, this`aptTrigger
      ensures log == Advance(old(log), v, false) && AptAgrees() && StartupAgrees()
    {
      aptTrigger := 512;
      aptCount, aptBase := 0, v;
      log := Advance(log, v, false);
      Startup();
    }

    /** The window counter runs down, and restarts at the end of the window. */
    method AptAdvance(v: int, ghost skip: bool)
      requires !halted && StartupAgrees() && log.Framed() && log.baseSet && aptBaseSet && aptBase == log.base
      requires aptTrigger == 512 - |log.window| && (skip ==> log.window == [])
      requires |log.window| < 511 ==> aptCount == Advance(log, v, skip).Matches()
      modifies this`startupDone, this`startupBlocks, this`log, this`aptCount, this`aptBase, this`aptTrigger
      ensures log == Advance(old(log), v, skip)
      ensures halted || (AptAgrees() && StartupAgrees())
    {
      aptTrigger := aptTrigger - 1;
      if aptTrigger == 0 {
        AptRestart(v);
      } else {
        log := Advance(log, v, skip);
      }
    }

    method AptSample(v: int)
      requires !halted && TestsAgree() && aptBaseSet
      modifies this`halted, this`startupDone, this`startupBlocks, this`invalidations, this`log,
               this`rctCount, this`aptCount, this`aptBase, this`aptTrigger
      ensures log == ObserveSample(panics, old(log), v) && halted == log.halted
      ensures halted || TestsAgree()
    {
      SampleSound(panics, log, v);
      ghost var o := AptOutcome(log, v);
      SampleAdvance(panics, log, v, o, Judged(panics, log, o));
      if v == aptBase {
        AptMatch();
        if halted {
          return;
        }
      }
      AptAdvance(v, o.Permanent?);
    }

    /** esdm_apt_insert: the first sample sets the base. */
    method AptInsert(now: Time)
      requires !halted && TestsAgree()
      modifies this`halted, this`startupDone, this`startupBlocks, this`invalidations, this`log,
               this`rctCount, this`aptCount, this`aptBase, this`aptTrigger, this`aptBaseSet
      ensures log == (if requested then ObserveSample(panics, old(log), now % 16) else old(log))
      ensures halted == log.halted && (halted || TestsAgree())
    {
      if !requested {
        return;
      }
      var v := now % 16;
      if !aptBaseSet {
        aptBase, aptBaseSet := v, true;
        log := ObserveSample(panics, log, v);
        return;
      }
      AptSample(v);
    }

    /** A stuck verdict, already in the log, is counted and judged. */
    method RctCount()
      requires !halted && aptBaseSet && Trailing(log.verdicts) == rctCount + 1
      requires AptAgrees() && StartupAgrees()
      modifies this`halted, this`startupDone, this`startupBlocks, this`invalidations, this`log,
               this`rctCount, this`aptCount, this`aptBase, this`aptTrigger
      ensures log == Judged(panics, old(log), Judge(old(rctCount) + 1, 31, 81)) && halted == log.halted
      ensures halted || (AptAgrees() && StartupAgrees() && rctCount == Trailing(log.verdicts))
    {
      rctCount := rctCount + 1;
      if rctCount >= 81 {
        PermanentFailure();
        assert halted || log.verdicts == [];
      } else if rctCount >= 31 {
        Failure();
        assert log.verdicts == old(log).verdicts;
      }
    }

    method RctStep(verdict: bool)
      requires !halted && aptBaseSet && AptAgrees() && StartupAgrees() && rctCount == Trailing(log.verdicts)
      modifies this`halted, this`startupDone, this`startupBlocks, this`invalidations, this`log,
               this`rctCount, this`aptCount, this`aptBase, this`aptTrigger
      ensures log == ObserveVerdict(panics, old(log), verdict) && halted == log.halted
      ensures halted || (AptAgrees() && StartupAgrees() && rctCount == Trailing(log.verdicts))
    {
      TrailingAppend(log.verdicts, verdict);
      log := log.(verdicts := log.verdicts + [verdict]);
      if verdict {
        RctCount();
      } else {
        rctCount := 0;
      }
    }

    /** esdm_rct on a stuck verdict. */
    method Rct(verdict: bool)
      requires !halted && TestsAgree() && (requested ==> aptBaseSet)
      modifies this`halted, this`startupDone, this`startupBlocks, this`invalidations, this`log,
               this`rctCount, this`aptCount, this`aptBase, this`aptTrigger
      ensures log == (if requested then ObserveVerdict(panics, old(log), verdict) else old(log))
      ensures halted == log.halted && (halted || TestsAgree())
    {
      if !requested {
        return;
      }
      VerdictSound(panics, log, verdict);
      RctStep(verdict);
    }

    /** The tests on one event: its sample, then its stuck verdict. */
    method TestEvent(cpu: nat, now: Time) returns (result: Result)
      requires !halted && Valid() && cpu < |stuck|
      modifies this
      ensures log == Observe(requested, panics, old(log), Reading(now, IsStuck(old(times)[cpu] + [now])))
      ensures halted == log.halted && enabled == old(enabled)
      ensures halted || Valid()
      ensures halted || times == old(times)[cpu := old(times)[cpu] + [now]]
      ensures halted || result == Verdict(requested, old(times)[cpu] + [now])
    {
      result := Pass;
      AptInsert(now);
      if halted {
        return;
      }
      var s := Stuck(cpu, now);
      Rct(s);
      result := if !s then Pass else if requested then FailDrop else FailUse;
    }

    /** esdm_health_test on one event of the given CPU. */
    method Test(cpu: nat, now: Time) returns (result: Result)
      requires !halted && Valid() && cpu < |stuck|
      modifies this
      ensures !old(enabled) ==> result == Pass && unchanged(this)
      ensures old(enabled) ==>
                log == Observe(requested, panics, old(log), Reading(now, IsStuck(old(times)[cpu] + [now])))
      ensures halted == log.halted && enabled == old(enabled)
      ensures halted || Valid()
      ensures old(enabled) && !halted ==> times == old(times)[cpu := old(times)[cpu] + [now]]
      ensures old(enabled) && !halted ==> result == Verdict(requested, old(times)[cpu] + [now])
    {
      if enabled {
        result := TestEvent(cpu, now);
      } else {
        result := Pass;
      }
    }
  }

  /** A log after any sequence of readings, each of which changes it by f. */
  function Fold(f: (Log, Reading) -> Log, l: Log, rs: seq<Reading>): Log {
    if rs == [] then l else f(Fold(f, l, rs[..|rs| - 1]), rs[|rs| - 1])
  }

  /** What the tests remember after any sequence of readings. */
  function Observed(requested: bool, panics: bool, l: Log, rs: seq<Reading>): Log {
    Fold((k, r) => Observe(requested, panics, k, r), l, rs)
  }

  lemma {:induction false} ObservedSound(requested: bool, panics: bool, l: Log, rs: seq<Reading>)
    requires l.halted || l.Sound()
    ensures var r := Observed(requested, panics, l, rs); r.halted || r.Sound()
  {
    if rs == [] {
    } else {
      var before := rs[..|rs| - 1];
      ObservedSound(requested, panics, l, before);
      ObserveSound(requested, panics, Observed(requested, panics, l, before), rs[|rs| - 1]);
    }
  }

  lemma FoldAppend(f: (Log, Reading) -> Log, l: Log, rs: seq<Reading>, r: Reading)
    ensures Fold(f, l, rs + [r]) == f(Fold(f, l, rs), r)
  {
    assert (rs + [r])[..|rs|] == rs;
  }

  /** A halted machine observes nothing more. */
  lemma {:induction false} HaltedStays(f: (Log, Reading) -> Log, l: Log, rs: seq<Reading>, n: nat)
    requires forall k: Log, r: Reading :: k.halted ==> f(k, r) == k
    requires n <= |rs| && Fold(f, l, rs[..n]).halted
    ensures Fold(f, l, rs) == Fold(f, l, rs[..n])
  {
    if n == |rs| {
      assert rs[..n] == rs;
    } else {
      assert rs[..|rs| - 1][..n] == rs[..n];
      HaltedStays(f, l, rs[..|rs| - 1], n);
    }
  }

  function Samples(rs: seq<Reading>): seq<int> {
    seq(|rs|, i requires 0 <= i < |rs| => rs[i].now % 16)
  }

  function Stucks(rs: seq<Reading>): seq<bool> {
    seq(|rs|, i requires 0 <= i < |rs| => rs[i].stuck)
  }

  lemma SamplesOfPrefix(rs: seq<Reading>)
    requires rs != []
    ensures Samples(rs) == Samples(rs[..|rs| - 1]) + [rs[|rs| - 1].now % 16]
    ensures Stucks(rs) == Stucks(rs[..|rs| - 1]) + [rs[|rs| - 1].stuck]
  {
  }

  /** The log in terms of all readings: the window holds the last samples and its base is the sample before
      them, or zero after a permanent failure; the verdicts are the last ones. */
  ghost predicate Recent(l: Log, samples: seq<int>, stucks: seq<bool>) {
    && l.baseSet && |l.window| < |samples| && |l.verdicts| <= |stucks|
    && l.window == samples[|samples| - |l.window|..]
    && l.verdicts == stucks[|stucks| - |l.verdicts|..]
    && l.base == (if l.zeroed then 0 else samples[|samples| - |l.window| - 1])
    && l.skipped <= (if l.zeroed then 1 else 0)
    && l.since < |samples|
  }

  lemma RecentJudged(panics: bool, l: Log, o: Outcome, samples: seq<int>, stucks: seq<bool>)
    requires Recent(l, samples, stucks)
    ensures var j := Judged(panics, l, o); j.halted || Recent(j, samples, stucks)
  {
  }

  lemma RecentAdvance(l: Log, v: int, skip: bool, samples: seq<int>, stucks: seq<bool>)
    requires Recent(l, samples, stucks) && |l.window| < 512 && (skip ==> l.zeroed)
    ensures Recent(Advance(l, v, skip), samples + [v], stucks)
  {
    var all, w := samples + [v], l.window + [v];
    if |l.window| < 511 {
      assert w == all[|all| - |w|..];
      assert !l.zeroed ==> all[|all| - |w| - 1] == samples[|samples| - |l.window| - 1];
    }
  }

  lemma RecentSample(panics: bool, l: Log, samples: seq<int>, stucks: seq<bool>, v: int)
    requires l.Framed() && !l.halted && Recent(l, samples, stucks)
    ensures var a := ObserveSample(panics, l, v); a.halted || Recent(a, samples + [v], stucks)
  {
    var o := AptOutcome(l, v);
    RecentJudged(panics, l, o, samples, stucks);
    var j := Judged(panics, l, o);
    if !j.halted {
      RecentAdvance(j, v, o.Permanent?, samples, stucks);
    }
  }

  lemma RecentVerdict(panics: bool, l: Log, samples: seq<int>, stucks: seq<bool>, stuck: bool)
    requires Recent(l, samples, stucks)
    ensures var a := ObserveVerdict(panics, l, stuck); a.halted || Recent(a, samples, stucks + [stuck])
  {
    var all := stucks + [stuck];
    assert l.verdicts + [stuck] == all[|all| - |l.verdicts| - 1..];
  }

  /** After any run from the start the log is what the last readings make of it. */
  lemma {:induction false} LogIsRecent(panics: bool, rs: seq<Reading>)
    requires rs != []
    ensures var l := Observed(true, panics, FRESH, rs); l.halted || Recent(l, Samples(rs), Stucks(rs))
  {
    var before, last := rs[..|rs| - 1], rs[|rs| - 1];
    var l := Observed(true, panics, FRESH, before);
    SamplesOfPrefix(rs);
    ObservedSound(true, panics, FRESH, before);
    if before == [] {
      RecentVerdict(panics, ObserveSample(panics, FRESH, last.now % 16), Samples(rs), [], last.stuck);
    } else if l.halted {
    } else {
      LogIsRecent(panics, before);
      RecentSample(panics, l, Samples(before), Stucks(before), last.now % 16);
      var a := ObserveSample(panics, l, last.now % 16);
      if !a.halted {
        RecentVerdict(panics, a, Samples(rs), Stucks(before), last.stuck);
      }
    }
  }

  /** The place of the base of the window that sample m falls into: every 512th sample is a base. */
  function BaseOf(m: nat): (b: nat)
    requires m >= 1
    ensures b < m <= b + 512
  {
    512 * ((m - 1) / 512)
  }

  /** Up to sample m its window holds fewer than 325 repetitions of its base, and verdict m ends fewer than 31
      stuck ones. */
  ghost predicate HealthyAt(samples: seq<int>, stucks: seq<bool>, m: nat)
    requires m < |samples| == |stucks|
  {
    && (m >= 1 ==> Count(samples[BaseOf(m) + 1..m + 1], samples[BaseOf(m)]) < 325)
    && Trailing(stucks[..m + 1]) < 31
  }

  ghost predicate Healthy(samples: seq<int>, stucks: seq<bool>)
    requires |samples| == |stucks|
  {
    forall m :: 0 <= m < |samples| ==> HealthyAt(samples, stucks, m)
  }

  lemma HealthyPrefix(samples: seq<int>, stucks: seq<bool>, v: int, stuck: bool)
    requires |samples| == |stucks|
    ensures Healthy(samples + [v], stucks + [stuck]) <==>
            Healthy(samples, stucks) && HealthyAt(samples + [v], stucks + [stuck], |samples|)
  {
    forall m | 0 <= m < |samples|
      ensures HealthyAt(samples + [v], stucks + [stuck], m) <==> HealthyAt(samples, stucks, m)
    {
      assert (stucks + [stuck])[..m + 1] == stucks[..m + 1];
      if m >= 1 {
        assert (samples + [v])[BaseOf(m) + 1..m + 1] == samples[BaseOf(m) + 1..m + 1];
      }
    }
  }

  /** A run that has failed. */
  predicate Spoilt(l: Log) {
    l.failures > 0 || l.halted
  }

  /** The log of a run without a failure. */
  ghost predicate Regular(l: Log, samples: seq<int>, stucks: seq<bool>) {
    && samples != [] && l.baseSet && l.skipped == 0 && !l.zeroed && l.failures == 0 && !l.halted
    && l.verdicts == stucks && l.since == |samples| - 1
    && l.closings == (|samples| - 1) / 512
    && l.base == samples[BaseOf(|samples|)] && l.window == samples[BaseOf(|samples|) + 1..]
    && Count(l.window, l.base) < 325
  }

  lemma NextBase(n: nat)
    requires n >= 1
    ensures n - BaseOf(n) == 512 ==> BaseOf(n + 1) == n && n / 512 == (n - 1) / 512 + 1
    ensures n - BaseOf(n) < 512 ==> BaseOf(n + 1) == BaseOf(n) && n / 512 == (n - 1) / 512
  {
  }

  lemma RegularAdvance(l: Log, samples: seq<int>, stucks: seq<bool>, v: int)
    requires Regular(l, samples, stucks) && Count(l.window + [v], l.base) < 325
    ensures Regular(Advance(l, v, false), samples + [v], stucks)
  {
    var all := samples + [v];
    NextBase(|samples|);
    if |l.window| < 511 {
      assert l.window + [v] == all[BaseOf(|all|) + 1..];
    }
  }

  lemma RegularSample(panics: bool, l: Log, samples: seq<int>, stucks: seq<bool>, v: int)
    requires Regular(l, samples, stucks) && Count(l.window + [v], l.base) < 325
    ensures ObserveSample(panics, l, v) == Advance(l, v, false)
  {
    CountAppend(l.window, v, l.base);
    assert l.window[0..] == l.window;
  }

  lemma SpoiltSample(panics: bool, l: Log, samples: seq<int>, stucks: seq<bool>, v: int)
    requires Regular(l, samples, stucks) && Count(l.window + [v], l.base) >= 325
    ensures Spoilt(ObserveSample(panics, l, v))
  {
    CountAppend(l.window, v, l.base);
    assert l.window[0..] == l.window;
  }

  lemma RegularVerdict(panics: bool, l: Log, samples: seq<int>, stucks: seq<bool>, stuck: bool)
    requires Regular(l, samples, stucks)
    ensures var a := ObserveVerdict(panics, l, stuck);
            (Trailing(stucks + [stuck]) < 31 && Regular(a, samples, stucks + [stuck]))
            || (Trailing(stucks + [stuck]) >= 31 && Spoilt(a))
  {
    TrailingAppend(stucks, stuck);
  }

  lemma RegularObserve(panics: bool, l: Log, samples: seq<int>, stucks: seq<bool>, r: Reading)
    requires Regular(l, samples, stucks)
    ensures var a := Observe(true, panics, l, r);
            var healthy := Count(l.window + [r.now % 16], l.base) < 325 && Trailing(stucks + [r.stuck]) < 31;
            (healthy && Regular(a, samples + [r.now % 16], stucks + [r.stuck])) || (!healthy && Spoilt(a))
  {
    var v := r.now % 16;
    if Count(l.window + [v], l.base) < 325 {
      RegularSample(panics, l, samples, stucks, v);
      RegularAdvance(l, samples, stucks, v);
      RegularVerdict(panics, Advance(l, v, false), samples + [v], stucks, r.stuck);
    } else {
      SpoiltSample(panics, l, samples, stucks, v);
      var a := ObserveSample(panics, l, v);
      if !a.halted {
        VerdictStaysSpoilt(panics, a, r.stuck);
      }
    }
  }

  lemma SampleStaysSpoilt(panics: bool, l: Log, v: int)
    requires l.failures > 0
    ensures Spoilt(ObserveSample(panics, l, v))
  {
  }

  lemma VerdictStaysSpoilt(panics: bool, l: Log, stuck: bool)
    requires Spoilt(l)
    ensures Spoilt(ObserveVerdict(panics, l, stuck))
  {
  }

  lemma SpoiltStays(panics: bool, l: Log, r: Reading)
    requires Spoilt(l)
    ensures Spoilt(Observe(true, panics, l, r))
  {
    if !l.halted {
      SampleStaysSpoilt(panics, l, r.now % 16);
      VerdictStaysSpoilt(panics, ObserveSample(panics, l, r.now % 16), r.stuck);
    }
  }

  /** Whether the last reading is healthy, by the log of those before it. */
  lemma HealthyByLog(l: Log, samples: seq<int>, stucks: seq<bool>, v: int, stuck: bool)
    requires |samples| == |stucks| && Regular(l, samples, stucks)
    ensures HealthyAt(samples + [v], stucks + [stuck], |samples|) <==>
            Count(l.window + [v], l.base) < 325 && Trailing(stucks + [stuck]) < 31
  {
    WindowByLog(l, samples, BaseOf(|samples|), v);
    assert (stucks + [stuck])[..|samples| + 1] == stucks + [stuck];
  }

  lemma WindowByLog(l: Log, samples: seq<int>, b: nat, v: int)
    requires b < |samples| && l.base == samples[b] && l.window == samples[b + 1..]
    ensures (samples + [v])[b + 1..|samples| + 1] == l.window + [v] && (samples + [v])[b] == l.base
  {
  }

  lemma FirstReading(panics: bool, r: Reading)
    ensures Healthy([r.now % 16], [r.stuck])
    ensures Regular(Observe(true, panics, FRESH, r), [r.now % 16], [r.stuck])
  {
    TrailingAppend([], r.stuck);
    assert [r.stuck][..1] == [] + [r.stuck];
  }

  /** The exact meaning of a failure: a run from the start fails if and only if some sample or verdict of it is
      not healthy, and the log of a run that does not fail is known. */
  lemma {:induction false} FailsIff(panics: bool, rs: seq<Reading>)
    requires rs != []
    ensures var l := Observed(true, panics, FRESH, rs);
            if Healthy(Samples(rs), Stucks(rs)) then Regular(l, Samples(rs), Stucks(rs)) else Spoilt(l)
  {
    var before, last := rs[..|rs| - 1], rs[|rs| - 1];
    SamplesOfPrefix(rs);
    if before == [] {
      assert Observed(true, panics, FRESH, before) == FRESH;
      FirstReading(panics, last);
      assert Samples(rs) == [last.now % 16] && Stucks(rs) == [last.stuck];
    } else {
      FailsIff(panics, before);
      var l, v := Observed(true, panics, FRESH, before), last.now % 16;
      HealthyPrefix(Samples(before), Stucks(before), v, last.stuck);
      if Healthy(Samples(before), Stucks(before)) {
        HealthyByLog(l, Samples(before), Stucks(before), v, last.stuck);
        RegularObserve(panics, l, Samples(before), Stucks(before), last);
      } else {
        SpoiltStays(panics, l, last);
      }
    }
  }

  /** Start-up of a run without a failure is complete exactly from 1025 readings on: the first sets the base. */
  lemma StartupExact(panics: bool, rs: seq<Reading>)
    requires rs != [] && Healthy(Samples(rs), Stucks(rs))
    ensures Observed(true, panics, FRESH, rs).closings >= 2 <==> |rs| >= 1025
  {
    FailsIff(panics, rs);
  }

  /** The history of the CPU of event i, up to that event. */
  function HistoryAt(before: seq<seq<Time>>, events: seq<Event>, i: nat): seq<Time>
    requires i < |events| && events[i].cpu < |before|
  {
    before[events[i].cpu] + TimesOf(events[..i + 1], events[i].cpu)
  }

  ghost predicate OnCpus(events: seq<Event>, cpus: nat) {
    forall i :: 0 <= i < |events| ==> events[i].cpu < cpus
  }

  /** The readings that the events give: each is judged by the history of its own CPU. */
  function Readings(before: seq<seq<Time>>, events: seq<Event>): seq<Reading>
    requires OnCpus(events, |before|)
  {
    seq(|events|, i requires 0 <= i < |events| => Reading(events[i].now, IsStuck(HistoryAt(before, events, i))))
  }

  function ResultOf(requested: bool, r: Reading): Result {
    if !r.stuck then Pass else if requested then FailDrop else FailUse
  }

  /** The first results are those of the readings. */
  ghost predicate Answered(requested: bool, rs: seq<Reading>, results: seq<Result>) {
    |results| <= |rs| && forall i :: 0 <= i < |results| ==> results[i] == ResultOf(requested, rs[i])
  }

  /** The histories grew by the events of their own CPU. */
  ghost predicate Grown(before: seq<seq<Time>>, events: seq<Event>, after: seq<seq<Time>>) {
    |after| == |before| && forall c :: 0 <= c < |before| ==> after[c] == before[c] + TimesOf(events, c)
  }

  lemma GrownStep(before: seq<seq<Time>>, events: seq<Event>, after: seq<seq<Time>>, e: Event)
    requires Grown(before, events, after) && e.cpu < |before|
    ensures Grown(before, events + [e], after[e.cpu := after[e.cpu] + [e.now]])
  {
    var es := events + [e];
    assert es[..|events|] == events;
    assert after[e.cpu] + [e.now] == before[e.cpu] + TimesOf(es, e.cpu);
    forall c | 0 <= c < |before| && c != e.cpu ensures TimesOf(es, c) == TimesOf(events, c) { }
  }

  lemma StepReading(before: seq<seq<Time>>, events: seq<Event>, i: nat)
    requires OnCpus(events, |before|) && i < |events|
    ensures var e := events[i]; var all := Readings(before, events);
            && events[..i + 1] == events[..i] + [e] && all[..i + 1] == all[..i] + [all[i]]
            && all[i] == Reading(e.now, IsStuck(before[e.cpu] + TimesOf(events[..i], e.cpu) + [e.now]))
  {
    var e := events[i];
    assert events[..i + 1] == events[..i] + [e];
    assert HistoryAt(before, events, i) == before[e.cpu] + TimesOf(events[..i], e.cpu) + [e.now] by {
      assert events[..i + 1][..i] == events[..i];
    }
  }

  /** After the first n events: the log is what their readings make of it, the histories grew by them, and the
      results are theirs. */
  ghost predicate Fed(f: (Log, Reading) -> Log, requested: bool, l: Log, before: seq<seq<Time>>, events: seq<Event>,
                      n: nat, log: Log, times: seq<seq<Time>>, results: seq<Result>)
    requires OnCpus(events, |before|) && n <= |events|
  {
    && log == Fold(f, l, Readings(before, events)[..n])
    && Grown(before, events[..n], times)
    && |results| == n && Answered(requested, Readings(before, events), results)
  }

  lemma FedStep(f: (Log, Reading) -> Log, requested: bool, l: Log, before: seq<seq<Time>>, events: seq<Event>,
                n: nat, log: Log, times: seq<seq<Time>>, results: seq<Result>)
    requires OnCpus(events, |before|) && n < |events|
    requires Fed(f, requested, l, before, events, n, log, times, results)
    ensures var e := events[n]; var history := times[e.cpu] + [e.now];
            && f(log, Reading(e.now, IsStuck(history))) == Fold(f, l, Readings(before, events)[..n + 1])
            && Fed(f, requested, l, before, events, n + 1, f(log, Reading(e.now, IsStuck(history))),
                   times[e.cpu := history], results + [Verdict(requested, history)])
  {
    StepReading(before, events, n);
    var all := Readings(before, events);
    FoldAppend(f, l, all[..n], all[n]);
    GrownStep(before, events[..n], times, events[n]);
  }

  /** A step function that is the one of the source. */
  ghost predicate Follows(f: (Log, Reading) -> Log, h: SourceHealth) {
    forall k, r {:trigger Observe(h.requested, h.panics, k, r)} :: f(k, r) == Observe(h.requested, h.panics, k, r)
  }

  /** One more event. */
  method FeedOne(ghost f: (Log, Reading) -> Log, h: SourceHealth, ghost l: Log, ghost before: seq<seq<Time>>,
                 events: seq<Event>, i: nat, results: seq<Result>)
    returns (results': seq<Result>)
    requires h.Valid() && h.enabled && !h.halted && Follows(f, h)
    requires OnCpus(events, |before|) && i < |events|
    requires Fed(f, h.requested, l, before, events, i, h.log, h.times, results)
    modifies h
    ensures h.enabled && h.halted == h.log.halted
    ensures h.log == Fold(f, l, Readings(before, events)[..i + 1])
    ensures h.halted || h.Valid()
    ensures if h.halted then results' == results
            else Fed(f, h.requested, l, before, events, i + 1, h.log, h.times, results')
  {
    FedStep(f, h.requested, l, before, events, i, h.log, h.times, results);
    results' := results;
    var result := h.Test(events[i].cpu, events[i].now);
    if !h.halted {
      results' := results + [result];
    }
  }

  method FeedWith(ghost f: (Log, Reading) -> Log, h: SourceHealth, events: seq<Event>) returns (results: seq<Result>)
    requires h.Valid() && h.enabled && !h.halted && OnCpus(events, |h.stuck|)
    requires Follows(f, h) && forall k: Log, r: Reading :: k.halted ==> f(k, r) == k
    modifies h
    ensures h.halted == h.log.halted && h.log == Fold(f, old(h.log), Readings(old(h.times), events))
    ensures Answered(h.requested, Readings(old(h.times), events), results)
    ensures h.halted || (h.Valid() && |results| == |events| && Grown(old(h.times), events, h.times))
    ensures h.halted ==>
              |results| < |events| && !Fold(f, old(h.log), Readings(old(h.times), events)[..|results|]).halted
  {
    results := [];
    ghost var l, before := h.log, h.times;
    for i := 0 to |events|
      invariant !h.halted && h.enabled
      invariant h.halted || h.Valid()
      invariant h.halted || Fed(f, h.requested, l, before, events, i, h.log, h.times, results)
    {
      results := FeedOne(f, h, l, before, events, i, results);
      if h.halted {
        HaltedStays(f, l, Readings(before, events), i + 1);
        return;
      }
    }
    assert events[..|events|] == events && Readings(before, events)[..|events|] == Readings(before, events);
  }

  /** Any run of events on any number of CPUs: the log, and with it every counter, is what the readings of the
      events make of it; the machine halts at the first event whose reading halts it. */
  method Feed(h: SourceHealth, events: seq<Event>) returns (results: seq<Result>)
    requires h.Valid() && h.enabled && !h.halted && OnCpus(events, |h.stuck|)
    modifies h
    ensures h.halted == h.log.halted
    ensures h.log == Observed(h.requested, h.panics, old(h.log), Readings(old(h.times), events))
    ensures Answered(h.requested, Readings(old(h.times), events), results)
    ensures h.halted || (h.Valid() && |results| == |events| && Grown(old(h.times), events, h.times))
    ensures h.halted ==>
              && |results| < |events|
              && !Observed(h.requested, h.panics, old(h.log), Readings(old(h.times), events)[..|results|]).halted
  {
    results := FeedWith((k, r) => Observe(h.requested, h.panics, k, r), h, events);
  }

  /** Start-up that is complete took two whole windows, or one and a sample after a failure. */
  lemma StartupTakes(l: Log)
    requires l.Timed() && l.closings >= 2
    ensures l.since >= if l.failures == 0 then 1024 else 513
  {
  }

  lemma RecentMatches(l: Log, samples: seq<int>, stucks: seq<bool>)
    requires l.Framed() && Recent(l, samples, stucks)
    ensures l.Matches() == Count(samples[|samples| - |l.window| + l.skipped..], l.base)
  {
    assert l.window[l.skipped..] == samples[|samples| - |l.window| + l.skipped..];
  }

  /** The counters in terms of the readings. */
  lemma CountersMean(h: SourceHealth, rs: seq<Reading>)
    requires h.TestsAgree() && Recent(h.log, Samples(rs), Stucks(rs))
    ensures h.aptCount == Count(Samples(rs)[|rs| - |h.log.window| + h.log.skipped..], h.aptBase)
    ensures h.rctCount == Trailing(Stucks(rs)[|rs| - |h.log.verdicts|..])
    ensures h.startupDone ==> |rs| > if h.invalidations == 0 then 1024 else 513
  {
    RecentMatches(h.log, Samples(rs), Stucks(rs));
    if h.startupDone {
      StartupTakes(h.log);
    }
  }

  function NoTimes(cpus: nat): seq<seq<Time>> {
    seq(cpus, i => [])
  }

  /** Any run of a fresh source in FIPS mode: its log is that of the readings, and its counters are what the last
      of them make of them. */
  method RunFromStart(panics: bool, cpus: nat, events: seq<Event>) returns (h: SourceHealth, results: seq<Result>)
    requires OnCpus(events, cpus) && events != []
    ensures fresh(h) && h.requested && h.panics == panics
    ensures h.log == Observed(true, panics, FRESH, Readings(NoTimes(cpus), events))
    ensures Answered(true, Readings(NoTimes(cpus), events), results)
    ensures h.halted || h.TestsAgree()
    ensures h.halted || Recent(h.log, Samples(Readings(NoTimes(cpus), events)), Stucks(Readings(NoTimes(cpus), events)))
  {
    h := new SourceHealth(true, panics, cpus);
    assert h.times == NoTimes(cpus);
    results := Feed(h, events);
    LogIsRecent(panics, Readings(NoTimes(cpus), events));
  }
}
