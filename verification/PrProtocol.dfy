/** Prediction resistance requests interleaved with reseeding in the background and with resets. Seeding, generating
    and resetting hold the DRNG's lock; the step that takes the fully seeded mark away does not. */
module PrProtocol {

  /** A request: waiting for the lock, holding it, holding it with a budget in bits, holding it after it
      generated, and on its way to remove the mark. */
  datatype Request = Absent | Ready | Locked | Budget(bits: nat) | Generated | Unsetting

  datatype Reseed = Resting | Wanted | Holding | Leaving

  /** The mark, all bits pulled for the DRNG, all bytes it handed out, whether its lock is taken. */
  datatype State = State(marked: bool, pulled: nat, handed: nat, locked: bool,
                         requests: seq<Request>, reseeds: seq<Reseed>)

  /** One request at a time, as the lock in the blocking call enforces it. */
  ghost predicate Alone(s: State, p: nat) {
    forall q :: 0 <= q < |s.requests| && q != p ==> s.requests[q].Absent?
  }

  /** A request arrives; if the DRNG is over its limit, the mark goes. */
  ghost predicate Admit(s: State, s': State, p: nat, over: bool) {
    && p < |s.requests| && s.requests[p].Absent?
    && s' == s.(marked := s.marked && !over, requests := s.requests[p := Ready])
  }

  /** The DRNG is reset under its lock. */
  ghost predicate Reset(s: State, s': State) {
    !s.locked && s' == s.(marked := false)
  }

  ghost predicate Lock(s: State, s': State, p: nat) {
    && p < |s.requests| && s.requests[p].Ready? && !s.locked
    && s' == s.(locked := true, requests := s.requests[p := Locked])
  }

  /** The mark is set: a full seed's worth may be generated. */
  ghost predicate Trust(strength: nat, s: State, s': State, p: nat) {
    && p < |s.requests| && s.requests[p].Locked? && s.marked
    && s' == s.(requests := s.requests[p := Budget(strength)])
  }

  /** It is not: got bits are pulled, which may set it, and bound what is generated. */
  ghost predicate Pull(strength: nat, s: State, s': State, p: nat, got: nat, mark: bool) {
    && p < |s.requests| && s.requests[p].Locked? && !s.marked && got > 0 && (mark ==> got >= strength)
    && s' == s.(marked := mark, pulled := s.pulled + got, requests := s.requests[p := Budget(got)])
  }

  /** Nothing could be pulled, or generating failed: the request ends with the mark as it is. */
  ghost predicate Abandon(s: State, s': State, p: nat) {
    && p < |s.requests| && ((s.requests[p].Locked? && !s.marked) || s.requests[p].Budget?)
    && s' == s.(locked := false, requests := s.requests[p := Absent])
  }

  ghost predicate Generate(strength: nat, s: State, s': State, p: nat, bytes: nat) {
    && p < |s.requests| && s.requests[p].Budget?
    && 8 * bytes <= s.requests[p].bits && 8 * bytes <= strength
    && s' == s.(handed := s.handed + bytes, requests := s.requests[p := Generated])
  }

  ghost predicate Unlock(s: State, s': State, p: nat) {
    && p < |s.requests| && s.requests[p].Generated?
    && s' == s.(locked := false, requests := s.requests[p := Unsetting])
  }

  /** The mark goes; the request continues or ends. */
  ghost predicate Unset(s: State, s': State, p: nat, more: bool) {
    && p < |s.requests| && s.requests[p].Unsetting?
    && s' == s.(marked := false, requests := s.requests[p := if more then Ready else Absent])
  }

  /** A background reseed looks at the mark without the lock. */
  ghost predicate Notice(s: State, s': State, q: nat) {
    && q < |s.reseeds| && s.reseeds[q].Resting? && !s.marked && s' == s.(reseeds := s.reseeds[q := Wanted])
  }

  ghost predicate Enter(s: State, s': State, q: nat) {
    && q < |s.reseeds| && s.reseeds[q].Wanted? && !s.locked
    && s' == s.(locked := true, reseeds := s.reseeds[q := Holding])
  }

  /** got bits are pulled; the mark stays, or is set on at least a full seed. */
  ghost predicate Feed(strength: nat, s: State, s': State, q: nat, got: nat, mark: bool) {
    && q < |s.reseeds| && s.reseeds[q].Holding? && (mark ==> s.marked || got >= strength) && (s.marked ==> mark)
    && s' == s.(marked := mark, pulled := s.pulled + got, reseeds := s.reseeds[q := Leaving])
  }

  ghost predicate Exit(s: State, s': State, q: nat) {
    && q < |s.reseeds| && s.reseeds[q].Leaving?
    && s' == s.(locked := false, reseeds := s.reseeds[q := Resting])
  }

  datatype Step =
    | Arrive(over: bool) | Acquire | UseMark | PullNow(got: nat, mark: bool) | GiveUp | Produce(bytes: nat) | Release
    | Clear(more: bool) | See | Begin | Supply(got: nat, mark: bool) | End | Forget

  ghost predicate Takes(strength: nat, s: State, s': State, p: nat, step: Step) {
    match step
    case Arrive(over) => Admit(s, s', p, over)
    case Acquire => Lock(s, s', p)
    case UseMark => Trust(strength, s, s', p)
    case PullNow(got, mark) => Pull(strength, s, s', p, got, mark)
    case GiveUp => Abandon(s, s', p)
    case Produce(bytes) => Generate(strength, s, s', p, bytes)
    case Release => Unlock(s, s', p)
    case Clear(more) => Unset(s, s', p, more)
    case See => Notice(s, s', p)
    case Begin => Enter(s, s', p)
    case Supply(got, mark) => Feed(strength, s, s', p, got, mark)
    case End => Exit(s, s', p)
    case Forget => Reset(s, s')
  }

  /** A step; with exclusive a request arrives only when there is no other. */
  ghost predicate Next(strength: nat, exclusive: bool, s: State, s': State) {
    exists p: nat, step :: Takes(strength, s, s', p, step) && (exclusive && step.Arrive? ==> Alone(s, p))
  }

  ghost predicate Init(s: State) {
    && !s.marked && s.pulled == s.handed == 0 && !s.locked
    && (forall p :: 0 <= p < |s.requests| ==> s.requests[p].Absent?)
    && (forall q :: 0 <= q < |s.reseeds| ==> s.reseeds[q].Resting?)
  }

  ghost predicate Run(strength: nat, exclusive: bool, ss: seq<State>) {
    && 0 < |ss| && Init(ss[0])
    && forall k :: 0 <= k < |ss| - 1 ==> Next(strength, exclusive, ss[k], ss[k + 1])
  }

  ghost predicate OneRequest(s: State) {
    forall p, q :: 0 <= p < q < |s.requests| ==> s.requests[p].Absent? || s.requests[q].Absent?
  }

  predicate Inside(r: Request) { r.Locked? || r.Budget? || r.Generated? }

  predicate Working(r: Reseed) { r.Holding? || r.Leaving? }

  /** The lock has one holder at most. */
  ghost predicate LockAgrees(s: State) {
    && (forall p :: 0 <= p < |s.requests| && Inside(s.requests[p]) ==> s.locked)
    && (forall q :: 0 <= q < |s.reseeds| && Working(s.reseeds[q]) ==> s.locked)
    && (forall p, q :: 0 <= p < |s.requests| && 0 <= q < |s.reseeds| ==>
         !(Inside(s.requests[p]) && Working(s.reseeds[q])))
    && (forall p, q :: 0 <= p < q < |s.reseeds| ==> !(Working(s.reseeds[p]) && Working(s.reseeds[q])))
  }

  /** While a request is past its decision, its budget stands in for the mark. */
  predicate Spoken(r: Request) { r.Budget? || r.Generated? || r.Unsetting? }

  /** What is handed out, and what may still be on the strength of the mark or a budget, is covered. */
  ghost predicate Covered(strength: nat, s: State) {
    && 8 * s.handed <= s.pulled
    && (s.marked && (forall p :: 0 <= p < |s.requests| ==> !Spoken(s.requests[p])) ==>
         8 * s.handed + strength <= s.pulled)
    && (forall p :: 0 <= p < |s.requests| && s.requests[p].Budget? ==>
         && 8 * s.handed + s.requests[p].bits <= s.pulled
         && (s.marked ==> strength <= s.requests[p].bits))
  }

  ghost predicate Inv(strength: nat, s: State) {
    OneRequest(s) && LockAgrees(s) && Covered(strength, s)
  }

  lemma AdmitInv(strength: nat, s: State, s': State, p: nat, over: bool)
    requires Inv(strength, s) && Admit(s, s', p, over) && Alone(s, p)
    ensures Inv(strength, s')
  {
  }

  lemma LockInv(strength: nat, s: State, s': State, p: nat)
    requires Inv(strength, s) && Lock(s, s', p)
    ensures Inv(strength, s')
  {
  }

  lemma TrustInv(strength: nat, s: State, s': State, p: nat)
    requires Inv(strength, s) && Trust(strength, s, s', p)
    ensures Inv(strength, s')
  {
  }

  lemma PullInv(strength: nat, s: State, s': State, p: nat, got: nat, mark: bool)
    requires Inv(strength, s) && Pull(strength, s, s', p, got, mark)
    ensures Inv(strength, s')
  {
  }

  lemma AbandonInv(strength: nat, s: State, s': State, p: nat)
    requires Inv(strength, s) && Abandon(s, s', p)
    ensures Inv(strength, s')
  {
  }

  lemma GenerateInv(strength: nat, s: State, s': State, p: nat, bytes: nat)
    requires Inv(strength, s) && Generate(strength, s, s', p, bytes)
    ensures Inv(strength, s')
  {
    assert Spoken(s'.requests[p]);
  }

  lemma UnlockInv(strength: nat, s: State, s': State, p: nat)
    requires Inv(strength, s) && Unlock(s, s', p)
    ensures Inv(strength, s')
  {
    assert Spoken(s'.requests[p]);
  }

  lemma UnsetInv(strength: nat, s: State, s': State, p: nat, more: bool)
    requires Inv(strength, s) && Unset(s, s', p, more)
    ensures Inv(strength, s')
  {
  }

  lemma NoticeInv(strength: nat, s: State, s': State, q: nat)
    requires Inv(strength, s) && Notice(s, s', q)
    ensures Inv(strength, s')
  {
  }

  lemma EnterInv(strength: nat, s: State, s': State, q: nat)
    requires Inv(strength, s) && Enter(s, s', q)
    ensures Inv(strength, s')
  {
  }

  lemma FeedInv(strength: nat, s: State, s': State, q: nat, got: nat, mark: bool)
    requires Inv(strength, s) && Feed(strength, s, s', q, got, mark)
    ensures Inv(strength, s')
  {
  }

  lemma ExitInv(strength: nat, s: State, s': State, q: nat)
    requires Inv(strength, s) && Exit(s, s', q)
    ensures Inv(strength, s')
  {
  }

  lemma ResetInv(strength: nat, s: State, s': State)
    requires Inv(strength, s) && Reset(s, s')
    ensures Inv(strength, s')
  {
  }

  lemma NextInv(strength: nat, s: State, s': State)
    requires Inv(strength, s) && Next(strength, true, s, s')
    ensures Inv(strength, s')
  {
    var p: nat, step :| Takes(strength, s, s', p, step) && (step.Arrive? ==> Alone(s, p));
    match step {
      case Arrive(over) => AdmitInv(strength, s, s', p, over);
      case Acquire => LockInv(strength, s, s', p);
      case UseMark => TrustInv(strength, s, s', p);
      case PullNow(got, mark) => PullInv(strength, s, s', p, got, mark);
      case GiveUp => AbandonInv(strength, s, s', p);
      case Produce(bytes) => GenerateInv(strength, s, s', p, bytes);
      case Release => UnlockInv(strength, s, s', p);
      case Clear(more) => UnsetInv(strength, s, s', p, more);
      case See => NoticeInv(strength, s, s', p);
      case Begin => EnterInv(strength, s, s', p);
      case Supply(got, mark) => FeedInv(strength, s, s', p, got, mark);
      case End => ExitInv(strength, s, s', p);
      case Forget => ResetInv(strength, s, s');
    }
  }

  lemma InitInv(strength: nat, s: State)
    requires Init(s)
    ensures Inv(strength, s)
  {
  }

  lemma RunStep(strength: nat, ss: seq<State>, k: nat)
    requires Run(strength, true, ss) && k + 1 < |ss| && Inv(strength, ss[k])
    ensures Inv(strength, ss[k + 1])
  {
    NextInv(strength, ss[k], ss[k + 1]);
  }

  lemma {:induction false} RunInv(strength: nat, ss: seq<State>, k: nat)
    requires Run(strength, true, ss) && k < |ss|
    ensures Inv(strength, ss[k])
  {
    if k == 0 {
      InitInv(strength, ss[0]);
    } else {
      RunInv(strength, ss, k - 1);
      RunStep(strength, ss, k - 1);
    }
  }

  /** With one request in flight, in every state of every run: the bytes handed out are covered by the bits
      pulled, and outside the window between the decision to generate and the removal of the mark so is a
      full seed on top while the mark is set. */
  lemma Conserves(strength: nat, ss: seq<State>, k: nat)
    requires Run(strength, true, ss) && k < |ss|
    ensures 8 * ss[k].handed <= ss[k].pulled
    ensures ss[k].marked && (forall p :: 0 <= p < |ss[k].requests| ==> !Spoken(ss[k].requests[p])) ==>
              8 * ss[k].handed + strength <= ss[k].pulled
  {
    RunInv(strength, ss, k);
  }

  lemma Extend(strength: nat, ss: seq<State>, s': State, p: nat, step: Step)
    requires Run(strength, false, ss) && Takes(strength, ss[|ss| - 1], s', p, step)
    ensures Run(strength, false, ss + [s'])
  {
    var ts := ss + [s'];
    forall k | 0 <= k < |ts| - 1 ensures Next(strength, false, ts[k], ts[k + 1]) {
      if k < |ss| - 1 {
        assert Next(strength, false, ss[k], ss[k + 1]);
      }
    }
  }

  lemma Then(strength: nat, ss: seq<State>, s: State, s': State, p: nat, step: Step) returns (ts: seq<State>)
    requires Run(strength, false, ss) && ss[|ss| - 1] == s && Takes(strength, s, s', p, step)
    ensures Run(strength, false, ts) && ts[|ts| - 1] == s' && ts[0] == ss[0]
  {
    Extend(strength, ss, s', p, step);
    ts := ss + [s'];
  }

  /** Request p, holding the lock with a budget of the strength, generates what it may and comes to the point of
      removing the mark. */
  lemma Spend(strength: nat, ss: seq<State>, s: State, p: nat) returns (ts: seq<State>)
    requires Run(strength, false, ss) && ss[|ss| - 1] == s
    requires p < |s.requests| && s.requests[p] == Budget(strength) && s.locked
    ensures Run(strength, false, ts) && ts[0] == ss[0]
    ensures ts[|ts| - 1]
         == s.(handed := s.handed + strength / 8, locked := false, requests := s.requests[p := Unsetting])
  {
    var s1 := s.(handed := s.handed + strength / 8, requests := s.requests[p := Generated]);
    ts := Then(strength, ss, s, s1, p, Produce(strength / 8));
    var s2 := s1.(locked := false, requests := s1.requests[p := Unsetting]);
    ts := Then(strength, ts, s1, s2, p, Release);
    assert s2.requests == s.requests[p := Unsetting];
  }

  /** A first request pulls just the strength, which sets the mark. */
  lemma ServeFirst(strength: nat, ss: seq<State>, s: State, p: nat) returns (ts: seq<State>)
    requires Run(strength, false, ss) && ss[|ss| - 1] == s && strength > 0
    requires p < |s.requests| && s.requests[p].Ready? && !s.marked && !s.locked
    ensures Run(strength, false, ts) && ts[0] == ss[0]
    ensures ts[|ts| - 1] == s.(marked := true, pulled := s.pulled + strength, handed := s.handed + strength / 8,
                               requests := s.requests[p := Unsetting])
  {
    var s1 := s.(locked := true, requests := s.requests[p := Locked]);
    ts := Then(strength, ss, s, s1, p, Acquire);
    var s2 := s1.(marked := true, pulled := s1.pulled + strength, requests := s1.requests[p := Budget(strength)]);
    ts := Then(strength, ts, s1, s2, p, PullNow(strength, true));
    ts := Spend(strength, ts, s2, p);
    assert s2.requests[p := Unsetting] == s.requests[p := Unsetting];
  }

  /** A second one trusts the mark. */
  lemma ServeSecond(strength: nat, ss: seq<State>, s: State, p: nat) returns (ts: seq<State>)
    requires Run(strength, false, ss) && ss[|ss| - 1] == s
    requires p < |s.requests| && s.requests[p].Ready? && s.marked && !s.locked
    ensures Run(strength, false, ts) && ts[0] == ss[0]
    ensures ts[|ts| - 1] == s.(handed := s.handed + strength / 8, requests := s.requests[p := Unsetting])
  {
    var s1 := s.(locked := true, requests := s.requests[p := Locked]);
    ts := Then(strength, ss, s, s1, p, Acquire);
    var s2 := s1.(requests := s1.requests[p := Budget(strength)]);
    ts := Then(strength, ts, s1, s2, p, UseMark);
    ts := Spend(strength, ts, s2, p);
    assert s2.requests[p := Unsetting] == s.requests[p := Unsetting];
  }

  /** With two requests in flight it fails, for every strength of at least a byte and any number of places for requests
      and reseeds: both generate on the one full seed that the first of them pulled, before either removes the mark. */
  lemma TwoRequestsOverdraw(strength: nat, requests: nat, reseeds: nat) returns (ss: seq<State>)
    requires strength >= 8 && requests >= 2
    ensures Run(strength, false, ss) && |ss[0].requests| == requests && |ss[0].reseeds| == reseeds
    ensures 8 * ss[|ss| - 1].handed > ss[|ss| - 1].pulled
  {
    var s := State(false, 0, 0, false, seq(requests, i => Absent), seq(reseeds, i => Resting));
    ss := [s];
    var s1 := s.(requests := s.requests[0 := Ready]);
    ss := Then(strength, ss, s, s1, 0, Arrive(false));
    var s2 := s1.(requests := s1.requests[1 := Ready]);
    ss := Then(strength, ss, s1, s2, 1, Arrive(false));
    ss := ServeFirst(strength, ss, s2, 0);
    ss := ServeSecond(strength, ss, ss[|ss| - 1], 1);
  }

  /** Below a byte nothing is ever handed out. */
  lemma {:induction false} NothingHanded(strength: nat, ss: seq<State>, k: nat)
    requires Run(strength, false, ss) && k < |ss| && strength < 8
    ensures ss[k].handed == 0
  {
    if k == 0 {
    } else {
      NothingHanded(strength, ss, k - 1);
      assert Next(strength, false, ss[k - 1], ss[k - 1 + 1]);
    }
  }

  lemma {:induction false} SameSlots(strength: nat, ss: seq<State>, k: nat)
    requires Run(strength, false, ss) && k < |ss|
    ensures |ss[k].requests| == |ss[0].requests|
  {
    if k == 0 {
    } else {
      SameSlots(strength, ss, k - 1);
      assert Next(strength, false, ss[k - 1], ss[k - 1 + 1]);
    }
  }

  /** With one place for requests there is no other request. */
  lemma SingleIsExclusive(strength: nat, ss: seq<State>)
    requires Run(strength, false, ss) && |ss[0].requests| <= 1
    ensures Run(strength, true, ss)
  {
    forall k | 0 <= k < |ss| - 1 ensures Next(strength, true, ss[k], ss[k + 1]) {
      SameSlots(strength, ss, k);
      assert Next(strength, false, ss[k], ss[k + 1]);
      var p: nat, step :| Takes(strength, ss[k], ss[k + 1], p, step);
      assert step.Arrive? ==> Alone(ss[k], p);
    }
  }

  /** A run with so many places for requests and reseeds. */
  ghost predicate RunOf(strength: nat, requests: nat, reseeds: nat, ss: seq<State>) {
    Run(strength, false, ss) && |ss[0].requests| == requests && |ss[0].reseeds| == reseeds
  }

  /** In every state of every run with so many places, the bytes handed out are covered by the bits pulled. */
  ghost predicate AlwaysCovered(strength: nat, requests: nat, reseeds: nat) {
    forall ss: seq<State>, k: nat :: RunOf(strength, requests, reseeds, ss) && k < |ss| ==>
      8 * ss[k].handed <= ss[k].pulled
  }

  /** Exactly when that holds: with no more than one request in flight, or a strength below a byte. */
  lemma CoveredIff(strength: nat, requests: nat, reseeds: nat)
    ensures AlwaysCovered(strength, requests, reseeds) <==> requests <= 1 || strength < 8
  {
    if requests <= 1 || strength < 8 {
      forall ss: seq<State>, k: nat | RunOf(strength, requests, reseeds, ss) && k < |ss|
        ensures 8 * ss[k].handed <= ss[k].pulled
      {
        if strength < 8 {
          NothingHanded(strength, ss, k);
        } else {
          SingleIsExclusive(strength, ss);
          Conserves(strength, ss, k);
        }
      }
    } else {
      var ss := TwoRequestsOverdraw(strength, requests, reseeds);
      assert 8 * ss[|ss| - 1].handed > ss[|ss| - 1].pulled;
    }
  }
}
