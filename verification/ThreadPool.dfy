/** The thread pool: callers schedule jobs into slots and wait for them, one worker per slot runs
    them, all interleaved. A slot's lock is taken by trylock (callers) or lock (worker); thread_pending
    and parent are also read without it. Shutdown and failing thread creation are not part of this. */
module ThreadPool {
  import opened Lists
  import opened Octets
  import opened Options

  /** max regular slots shared by groups groups, as thread_init leaves them; three special slots follow. */
  datatype Shape = Shape(max: nat, groups: nat)

  type Config = c: Shape | 1 <= c.groups <= c.max < 0xffff_fff0 witness Shape(1, 1)

  /** A thread group identifier, 32 bits wide. */
  type Group = g: int | 0 <= g < 0x1_0000_0000

  function PerGroup(c: Config): nat { c.max / c.groups }

  /** thread_get_special_slot, in 32-bit arithmetic; 0 stands for a regular group. */
  function SpecialSlot(c: Config, group: Group): nat {
    if group <= c.max then 0 else Wrap32(c.max + (0xffff_ffff - group))
  }

  /** The test at the head of thread_schedule. */
  predicate GroupAccepted(c: Config, group: Group) {
    !(c.groups < group && SpecialSlot(c, group) == 0)
  }

  /** The slots searched for a group: the first one, and the first one behind them. */
  function From(c: Config, group: Group): nat {
    if SpecialSlot(c, group) != 0 then SpecialSlot(c, group) else Wrap32(group * PerGroup(c))
  }

  function Upper(c: Config, group: Group): nat {
    if SpecialSlot(c, group) != 0 then Wrap32(SpecialSlot(c, group) + 1) else Wrap32((group + 1) * PerGroup(c))
  }

  /** A group thread_init provided for, or one of the three reserved identifiers. */
  predicate Proper(c: Config, group: Group) {
    group < c.groups || 0xffff_fffd <= group
  }

  datatype Holder = Free | Worker | Caller(c: nat)

  datatype WorkerPc = Absent | Outside | Locked | Running(job: nat) | Finishing | Parked

  datatype Slot = Slot(lock: Holder, pending: bool, job: Option<nat>, parent: nat, scheduled: bool, worker: WorkerPc)

  /** A caller between, or inside, thread_schedule and thread_wait. */
  datatype CallerPc =
    | Idle
    | Searching(group: Group, i: nat)
    | Inspecting(group: Group, i: nat)
    | Claimed(group: Group, i: nat)
    | JobSet(i: nat)
    | ParentSet(i: nat)
    | FlagSet(i: nat)
    | Waiting(i: nat, again: bool)
    | Trying(i: nat, again: bool)
    | Checking(i: nat, again: bool)

  datatype Accepted = Accepted(group: Group, caller: nat, slot: nat)

  /** accepted, started and finished are history variables. A job is named by its place in accepted. */
  datatype Pool = Pool(slots: seq<Slot>, callers: seq<CallerPc>,
                       accepted: seq<Accepted>, started: seq<nat>, finished: seq<nat>)

  predicate Holds(pc: CallerPc) {
    pc.Inspecting? || pc.Claimed? || pc.JobSet? || pc.ParentSet? || pc.FlagSet? || pc.Checking?
  }

  predicate Locks(w: WorkerPc) { w.Locked? || w.Running? || w.Finishing? }

  ghost predicate At(s: Pool, c: nat) {
    c < |s.callers| && !s.callers[c].Idle? && s.callers[c].i < |s.slots|
  }

  function Moved(s: Pool, c: nat, pc: CallerPc, i: nat, slot: Slot): Pool
    requires c < |s.callers| && i < |s.slots|
  {
    s.(callers := s.callers[c := pc], slots := s.slots[i := slot])
  }

  // thread_schedule

  ghost predicate StartSchedule(k: Config, s: Pool, s': Pool, c: nat, group: Group) {
    && c < |s.callers| && s.callers[c].Idle? && GroupAccepted(k, group)
    && s' == s.(callers := s.callers[c := Searching(group, From(k, group))])
  }

  /** trylock fails. */
  ghost predicate NextSlot(k: Config, s: Pool, s': Pool, c: nat) {
    && At(s, c) && s.callers[c].Searching?
    && var pc := s.callers[c];
    && pc.i < Upper(k, pc.group) && s.slots[pc.i].lock != Free
    && s' == s.(callers := s.callers[c := Searching(pc.group, pc.i + 1)])
  }

  /** trylock succeeds. */
  ghost predicate Inspect(k: Config, s: Pool, s': Pool, c: nat) {
    && At(s, c) && s.callers[c].Searching?
    && var pc := s.callers[c]; var slot := s.slots[pc.i];
    && pc.i < Upper(k, pc.group) && slot.lock == Free
    && s' == Moved(s, c, Inspecting(pc.group, pc.i), pc.i, slot.(lock := Caller(c)))
  }

  /** The slot is busy, or its result waits for another caller. */
  predicate Unusable(slot: Slot, c: nat) {
    slot.job.Some? || (slot.scheduled && slot.parent != c)
  }

  ghost predicate LeaveSlot(s: Pool, s': Pool, c: nat) {
    && At(s, c) && s.callers[c].Inspecting?
    && var pc := s.callers[c]; var slot := s.slots[pc.i];
    && Unusable(slot, c) && s' == Moved(s, c, Searching(pc.group, pc.i + 1), pc.i, slot.(lock := Free))
  }

  ghost predicate NoneFree(k: Config, s: Pool, s': Pool, c: nat) {
    && c < |s.callers| && s.callers[c].Searching?
    && s.callers[c].i >= Upper(k, s.callers[c].group)
    && s' == s.(callers := s.callers[c := Idle])
  }

  /** The slot is usable; without a thread it gets one. */
  ghost predicate Claim(s: Pool, s': Pool, c: nat) {
    && At(s, c) && s.callers[c].Inspecting?
    && var pc := s.callers[c]; var slot := s.slots[pc.i];
    && !Unusable(slot, c)
    && s' == Moved(s, c, Claimed(pc.group, pc.i), pc.i,
                   slot.(pending := true, worker := if slot.pending then slot.worker else Outside))
  }

  ghost predicate SetJob(s: Pool, s': Pool, c: nat) {
    && At(s, c) && s.callers[c].Claimed?
    && var pc := s.callers[c]; var slot := s.slots[pc.i];
    && s' == Moved(s, c, JobSet(pc.i), pc.i, slot.(job := Some(|s.accepted|)))
             .(accepted := s.accepted + [Accepted(pc.group, c, pc.i)])
  }

  ghost predicate SetParent(s: Pool, s': Pool, c: nat) {
    && At(s, c) && s.callers[c].JobSet?
    && var i := s.callers[c].i;
    && s' == Moved(s, c, ParentSet(i), i, s.slots[i].(parent := c))
  }

  ghost predicate SetScheduled(s: Pool, s': Pool, c: nat) {
    && At(s, c) && s.callers[c].ParentSet?
    && var i := s.callers[c].i;
    && s' == Moved(s, c, FlagSet(i), i, s.slots[i].(scheduled := true))
  }

  ghost predicate Unlock(s: Pool, s': Pool, c: nat) {
    && At(s, c) && s.callers[c].FlagSet?
    && var i := s.callers[c].i;
    && s' == Moved(s, c, Idle, i, s.slots[i].(lock := Free))
  }

  // thread_wait

  ghost predicate StartWait(s: Pool, s': Pool, c: nat) {
    && c < |s.callers| && s.callers[c].Idle? && s' == s.(callers := s.callers[c := Waiting(0, false)])
  }

  /** No thread in the slot, or not a child of the caller: both read without the lock. */
  ghost predicate PassOver(k: Config, s: Pool, s': Pool, c: nat) {
    && At(s, c) && s.callers[c].Waiting? && s.callers[c].i < k.max
    && var pc := s.callers[c];
    && (!s.slots[pc.i].pending || s.slots[pc.i].parent != c)
    && s' == s.(callers := s.callers[c := Waiting(pc.i + 1, pc.again)])
  }

  ghost predicate SeeChild(k: Config, s: Pool, s': Pool, c: nat) {
    && At(s, c) && s.callers[c].Waiting? && s.callers[c].i < k.max
    && var pc := s.callers[c];
    && s.slots[pc.i].pending && s.slots[pc.i].parent == c
    && s' == s.(callers := s.callers[c := Trying(pc.i, pc.again)])
  }

  /** trylock fails: the worker, or another caller, is at it. */
  ghost predicate FindLocked(s: Pool, s': Pool, c: nat) {
    && At(s, c) && s.callers[c].Trying? && s.slots[s.callers[c].i].lock != Free
    && s' == s.(callers := s.callers[c := Waiting(s.callers[c].i + 1, true)])
  }

  ghost predicate LockChild(s: Pool, s': Pool, c: nat) {
    && At(s, c) && s.callers[c].Trying?
    && var pc := s.callers[c]; var slot := s.slots[pc.i];
    && slot.lock == Free && s' == Moved(s, c, Checking(pc.i, pc.again), pc.i, slot.(lock := Caller(c)))
  }

  /** A pending job means another round; otherwise the result is collected. */
  ghost predicate CheckChild(s: Pool, s': Pool, c: nat) {
    && At(s, c) && s.callers[c].Checking?
    && var pc := s.callers[c]; var slot := s.slots[pc.i];
    && s' == if slot.job.Some?
             then Moved(s, c, Waiting(pc.i + 1, true), pc.i, slot.(lock := Free))
             else Moved(s, c, Waiting(pc.i + 1, pc.again), pc.i, slot.(lock := Free, scheduled := false))
  }

  ghost predicate WaitAgain(k: Config, s: Pool, s': Pool, c: nat) {
    && c < |s.callers| && s.callers[c].Waiting? && s.callers[c].i >= k.max && s.callers[c].again
    && s' == s.(callers := s.callers[c := Waiting(0, false)])
  }

  ghost predicate WaitReturns(k: Config, s: Pool, s': Pool, c: nat) {
    && c < |s.callers| && s.callers[c].Waiting? && s.callers[c].i >= k.max && !s.callers[c].again
    && s' == s.(callers := s.callers[c := Idle])
  }

  // thread_worker of slot i

  function Worked(s: Pool, i: nat, slot: Slot): Pool
    requires i < |s.slots|
  {
    s.(slots := s.slots[i := slot])
  }

  ghost predicate WorkerLock(s: Pool, s': Pool, i: nat) {
    && i < |s.slots| && (s.slots[i].worker.Outside? || s.slots[i].worker.Parked?) && s.slots[i].lock == Free
    && s' == Worked(s, i, s.slots[i].(lock := Worker, worker := Locked))
  }

  ghost predicate WorkerStart(s: Pool, s': Pool, i: nat) {
    && i < |s.slots| && s.slots[i].worker.Locked? && s.slots[i].job.Some?
    && var j := s.slots[i].job.value;
    && s' == Worked(s, i, s.slots[i].(worker := Running(j))).(started := s.started + [j])
  }

  /** The job returns; thread_cleanup empties the slot. */
  ghost predicate WorkerFinish(k: Config, s: Pool, s': Pool, i: nat) {
    && i < |s.slots| && s.slots[i].worker.Running?
    && var slot := s.slots[i];
    && s' == Worked(s, i, slot.(job := None, worker := Finishing,
                                scheduled := if i >= k.max then false else slot.scheduled))
             .(finished := s.finished + [slot.worker.job])
  }

  ghost predicate WorkerUnlock(s: Pool, s': Pool, i: nat) {
    && i < |s.slots| && s.slots[i].worker.Finishing?
    && s' == Worked(s, i, s.slots[i].(lock := Free, worker := Outside))
  }

  /** The condition wait releases the lock until the worker is woken. */
  ghost predicate WorkerPark(s: Pool, s': Pool, i: nat) {
    && i < |s.slots| && s.slots[i].worker.Locked? && s.slots[i].job == None
    && s' == Worked(s, i, s.slots[i].(lock := Free, worker := Parked))
  }

  datatype Step =
    | Schedule(group: Group) | Skip | TryLock | PutBack | GiveUp | TakeSlot | StoreJob | StoreParent | StoreFlag | Leave
    | Wait | Pass | See | Busy | LockSlot | Collect | Repeat | Return
    | Acquire | Begin | Complete | LetGo | Park

  /** Caller or slot n takes the step. */
  ghost predicate Takes(k: Config, s: Pool, s': Pool, n: nat, step: Step) {
    match step
    case Schedule(group) => Proper(k, group) && StartSchedule(k, s, s', n, group)
    case Skip => NextSlot(k, s, s', n)
    case TryLock => Inspect(k, s, s', n)
    case PutBack => LeaveSlot(s, s', n)
    case GiveUp => NoneFree(k, s, s', n)
    case TakeSlot => Claim(s, s', n)
    case StoreJob => SetJob(s, s', n)
    case StoreParent => SetParent(s, s', n)
    case StoreFlag => SetScheduled(s, s', n)
    case Leave => Unlock(s, s', n)
    case Wait => StartWait(s, s', n)
    case Pass => PassOver(k, s, s', n)
    case See => SeeChild(k, s, s', n)
    case Busy => FindLocked(s, s', n)
    case LockSlot => LockChild(s, s', n)
    case Collect => CheckChild(s, s', n)
    case Repeat => WaitAgain(k, s, s', n)
    case Return => WaitReturns(k, s, s', n)
    case Acquire => WorkerLock(s, s', n)
    case Begin => WorkerStart(s, s', n)
    case Complete => WorkerFinish(k, s, s', n)
    case LetGo => WorkerUnlock(s, s', n)
    case Park => WorkerPark(s, s', n)
  }

  ghost predicate Next(k: Config, s: Pool, s': Pool) {
    exists n: nat, step :: Takes(k, s, s', n, step)
  }

  ghost predicate Init(k: Config, s: Pool) {
    && |s.slots| == k.max + 3
    && s.accepted == [] && s.started == [] && s.finished == []
    && (forall i :: 0 <= i < |s.slots| ==> s.slots[i] == Slot(Free, false, None, s.slots[i].parent, false, Absent))
    && (forall c :: 0 <= c < |s.callers| ==> s.callers[c] == Idle)
  }

  ghost predicate Run(k: Config, ss: seq<Pool>) {
    && 0 < |ss| && Init(k, ss[0])
    && forall n :: 0 <= n < |ss| - 1 ==> Next(k, ss[n], ss[n + 1])
  }

  /** Every slot index a caller computes lies in its group, hence in the array. */
  ghost predicate InGroup(k: Config, s: Pool) {
    forall c :: 0 <= c < |s.callers| ==>
      var pc := s.callers[c];
      && (pc.Searching? || pc.Inspecting? || pc.Claimed? ==>
           Proper(k, pc.group) && From(k, pc.group) <= pc.i <= Upper(k, pc.group))
      && (pc.Inspecting? || pc.Claimed? ==> pc.i < Upper(k, pc.group))
      && (Holds(pc) || pc.Trying? ==> pc.i < |s.slots|)
      && (pc.Waiting? ==> pc.i <= k.max)
      && (pc.Trying? || pc.Checking? ==> pc.i < k.max)
  }

  /** A lock has the holder that thinks it has it. */
  ghost predicate LocksAgree(s: Pool) {
    && (forall i :: 0 <= i < |s.slots| ==> (s.slots[i].lock == Worker <==> Locks(s.slots[i].worker)))
    && (forall c :: 0 <= c < |s.callers| && Holds(s.callers[c]) && s.callers[c].i < |s.slots| ==>
         s.slots[s.callers[c].i].lock == Caller(c))
  }

  ghost predicate WorkersAgree(s: Pool) {
    forall i :: 0 <= i < |s.slots| ==>
      var slot := s.slots[i];
      && (slot.pending <==> !slot.worker.Absent?)
      && (slot.worker.Absent? || slot.worker.Finishing? ==> slot.job == None)
      && (slot.worker.Running? ==> slot.job == Some(slot.worker.job))
  }

  /** A caller that claimed a slot finds it empty, and its own job there once it stored it. */
  ghost predicate ClaimsAgree(s: Pool) {
    forall c :: 0 <= c < |s.callers| && Holds(s.callers[c]) && s.callers[c].i < |s.slots| ==>
      var slot := s.slots[s.callers[c].i];
      && (s.callers[c].Claimed? ==> slot.job == None && slot.pending)
      && (s.callers[c].JobSet? ==>
           slot.job.Some? && slot.job.value < |s.accepted| && s.accepted[slot.job.value].caller == c)
  }

  /** A job in a slot is an accepted, unfinished job of that slot; it has started if and only if the
      worker runs it. */
  ghost predicate JobsInSlots(s: Pool) {
    forall i :: 0 <= i < |s.slots| && s.slots[i].job.Some? ==>
      var j := s.slots[i].job.value;
      && j < |s.accepted| && s.accepted[j].slot == i && j !in s.finished
      && (j in s.started <==> s.slots[i].worker == Running(j))
  }

  /** Every accepted job went to a slot of its own group and stays there until it is finished. */
  ghost predicate JobsKept(k: Config, s: Pool) {
    forall j :: 0 <= j < |s.accepted| ==>
      var a := s.accepted[j];
      && Proper(k, a.group) && From(k, a.group) <= a.slot < Upper(k, a.group) && a.slot < |s.slots|
      && (j !in s.finished ==> s.slots[a.slot].job == Some(j))
  }

  /** No job starts or finishes twice, and only started jobs finish. */
  ghost predicate OnceEach(s: Pool) {
    && Distinct(s.started) && Distinct(s.finished)
    && (forall j :: j in s.started ==> j < |s.accepted|)
    && (forall j :: j in s.finished ==> j in s.started)
  }

  /** The parent recorded beside a job is the caller that scheduled it, once that caller got so far. */
  ghost predicate ParentsAgree(s: Pool) {
    forall i :: 0 <= i < |s.slots| && s.slots[i].job.Some? && s.slots[i].job.value < |s.accepted| ==>
      var c := s.accepted[s.slots[i].job.value].caller;
      s.slots[i].parent == c || (c < |s.callers| && s.callers[c] == JobSet(i))
  }

  /** A waiting caller that needs no other round has finished jobs only in the slots it passed. */
  ghost predicate WaitsAgree(s: Pool) {
    forall j :: 0 <= j < |s.accepted| && s.accepted[j].caller < |s.callers| ==>
      var pc := s.callers[s.accepted[j].caller];
      (pc.Waiting? || pc.Trying? || pc.Checking?) && !pc.again && s.accepted[j].slot < pc.i ==> j in s.finished
  }

  ghost predicate Places(k: Config, s: Pool) {
    |s.slots| == k.max + 3 && InGroup(k, s) && LocksAgree(s) && WorkersAgree(s) && ClaimsAgree(s)
  }

  ghost predicate Jobs(k: Config, s: Pool) {
    JobsInSlots(s) && JobsKept(k, s) && OnceEach(s)
  }

  ghost predicate Parents(s: Pool) {
    ParentsAgree(s) && WaitsAgree(s)
  }

  ghost predicate Inv(k: Config, s: Pool) {
    Places(k, s) && Jobs(k, s) && Parents(s)
  }

  lemma InitInv(k: Config, s: Pool)
    requires Init(k, s)
    ensures Inv(k, s)
  {
  }

  lemma StartScheduleStep(k: Config, s: Pool, s': Pool, c: nat, group: Group)
    requires Inv(k, s) && Proper(k, group) && StartSchedule(k, s, s', c, group)
    ensures Inv(k, s')
  {
    GroupRange(k, group);
    StartSchedulePlaces(k, s, s', c, group);
    StartScheduleJobs(k, s, s', c, group);
  }

  lemma StartSchedulePlaces(k: Config, s: Pool, s': Pool, c: nat, group: Group)
    requires Places(k, s) && StartSchedule(k, s, s', c, group)
    requires From(k, group) < Upper(k, group) <= k.max + 3 && Proper(k, group)
    ensures Places(k, s')
  {
  }

  lemma StartScheduleJobs(k: Config, s: Pool, s': Pool, c: nat, group: Group)
    requires Inv(k, s) && StartSchedule(k, s, s', c, group)
    ensures Jobs(k, s') && Parents(s')
  {
  }

  lemma NextSlotStep(k: Config, s: Pool, s': Pool, c: nat)
    requires Inv(k, s) && NextSlot(k, s, s', c)
    ensures Inv(k, s')
  {
    NextSlotPlaces(k, s, s', c);
    NextSlotJobs(k, s, s', c);
  }

  lemma NextSlotPlaces(k: Config, s: Pool, s': Pool, c: nat)
    requires Places(k, s) && NextSlot(k, s, s', c)
    ensures Places(k, s')
  {
  }

  lemma NextSlotJobs(k: Config, s: Pool, s': Pool, c: nat)
    requires Inv(k, s) && NextSlot(k, s, s', c)
    ensures Jobs(k, s') && Parents(s')
  {
  }

  lemma InspectPlaces(k: Config, s: Pool, s': Pool, c: nat)
    requires Places(k, s) && Inspect(k, s, s', c)
    ensures Places(k, s')
  {
  }

  lemma InspectJobs(k: Config, s: Pool, s': Pool, c: nat)
    requires Inv(k, s) && Inspect(k, s, s', c)
    ensures Jobs(k, s') && Parents(s')
  {
  }

  lemma LeaveSlotPlaces(k: Config, s: Pool, s': Pool, c: nat)
    requires Places(k, s) && LeaveSlot(s, s', c)
    ensures Places(k, s')
  {
  }

  lemma LeaveSlotJobs(k: Config, s: Pool, s': Pool, c: nat)
    requires Inv(k, s) && LeaveSlot(s, s', c)
    ensures Jobs(k, s') && Parents(s')
  {
  }

  lemma NoneFreeStep(k: Config, s: Pool, s': Pool, c: nat)
    requires Inv(k, s) && NoneFree(k, s, s', c)
    ensures Inv(k, s')
  {
  }

  lemma ClaimPlaces(k: Config, s: Pool, s': Pool, c: nat)
    requires Places(k, s) && Claim(s, s', c)
    ensures Places(k, s')
  {
  }

  lemma ClaimJobs(k: Config, s: Pool, s': Pool, c: nat)
    requires Inv(k, s) && Claim(s, s', c)
    ensures Jobs(k, s') && Parents(s')
  {
  }

  lemma SetJobPlaces(k: Config, s: Pool, s': Pool, c: nat)
    requires Places(k, s) && SetJob(s, s', c)
    ensures Places(k, s')
  {
  }

  lemma SetJobJobs(k: Config, s: Pool, s': Pool, c: nat)
    requires Inv(k, s) && SetJob(s, s', c)
    ensures Jobs(k, s')
  {
  }

  lemma SetJobParents(k: Config, s: Pool, s': Pool, c: nat)
    requires Inv(k, s) && SetJob(s, s', c)
    ensures Parents(s')
  {
  }

  lemma SetParentPlaces(k: Config, s: Pool, s': Pool, c: nat)
    requires Places(k, s) && SetParent(s, s', c)
    ensures Places(k, s')
  {
  }

  lemma SetParentJobs(k: Config, s: Pool, s': Pool, c: nat)
    requires Inv(k, s) && SetParent(s, s', c)
    ensures Jobs(k, s') && Parents(s')
  {
  }

  lemma SetScheduledPlaces(k: Config, s: Pool, s': Pool, c: nat)
    requires Places(k, s) && SetScheduled(s, s', c)
    ensures Places(k, s')
  {
  }

  lemma SetScheduledJobs(k: Config, s: Pool, s': Pool, c: nat)
    requires Inv(k, s) && SetScheduled(s, s', c)
    ensures Jobs(k, s') && Parents(s')
  {
  }

  lemma UnlockPlaces(k: Config, s: Pool, s': Pool, c: nat)
    requires Places(k, s) && Unlock(s, s', c)
    ensures Places(k, s')
  {
  }

  lemma UnlockJobs(k: Config, s: Pool, s': Pool, c: nat)
    requires Inv(k, s) && Unlock(s, s', c)
    ensures Jobs(k, s') && Parents(s')
  {
  }

  lemma StartWaitStep(k: Config, s: Pool, s': Pool, c: nat)
    requires Inv(k, s) && StartWait(s, s', c)
    ensures Inv(k, s')
  {
  }

  lemma PassOverPlaces(k: Config, s: Pool, s': Pool, c: nat)
    requires Places(k, s) && PassOver(k, s, s', c)
    ensures Places(k, s')
  {
  }

  lemma PassOverJobs(k: Config, s: Pool, s': Pool, c: nat)
    requires Inv(k, s) && PassOver(k, s, s', c)
    ensures Jobs(k, s')
  {
  }

  lemma PassOverWaits(k: Config, s: Pool, s': Pool, c: nat)
    requires Places(k, s) && Jobs(k, s) && Parents(s) && PassOver(k, s, s', c)
    ensures WaitsAgree(s')
  {
  }

  lemma PassOverParents(k: Config, s: Pool, s': Pool, c: nat)
    requires Inv(k, s) && PassOver(k, s, s', c)
    ensures Parents(s')
  {
    PassOverWaits(k, s, s', c);
  }

  lemma SeeChildStep(k: Config, s: Pool, s': Pool, c: nat)
    requires Inv(k, s) && SeeChild(k, s, s', c)
    ensures Inv(k, s')
  {
  }

  lemma FindLockedStep(k: Config, s: Pool, s': Pool, c: nat)
    requires Inv(k, s) && FindLocked(s, s', c)
    ensures Inv(k, s')
  {
  }

  lemma LockChildPlaces(k: Config, s: Pool, s': Pool, c: nat)
    requires Places(k, s) && LockChild(s, s', c)
    ensures Places(k, s')
  {
  }

  lemma LockChildJobs(k: Config, s: Pool, s': Pool, c: nat)
    requires Inv(k, s) && LockChild(s, s', c)
    ensures Jobs(k, s') && Parents(s')
  {
  }

  lemma CheckChildPlaces(k: Config, s: Pool, s': Pool, c: nat)
    requires Places(k, s) && CheckChild(s, s', c)
    ensures Places(k, s')
  {
  }

  lemma CheckChildJobs(k: Config, s: Pool, s': Pool, c: nat)
    requires Inv(k, s) && CheckChild(s, s', c)
    ensures Jobs(k, s')
  {
  }

  lemma CheckChildParents(k: Config, s: Pool, s': Pool, c: nat)
    requires Inv(k, s) && CheckChild(s, s', c)
    ensures Parents(s')
  {
    CheckChildKnown(k, s, s', c);
    CheckChildWaits(k, s, s', c);
  }

  lemma CheckChildKnown(k: Config, s: Pool, s': Pool, c: nat)
    requires Inv(k, s) && CheckChild(s, s', c)
    ensures ParentsAgree(s')
  {
  }

  lemma CheckChildWaits(k: Config, s: Pool, s': Pool, c: nat)
    requires Inv(k, s) && CheckChild(s, s', c)
    ensures WaitsAgree(s')
  {
  }

  lemma WaitAgainStep(k: Config, s: Pool, s': Pool, c: nat)
    requires Inv(k, s) && WaitAgain(k, s, s', c)
    ensures Inv(k, s')
  {
  }

  lemma WaitReturnsStep(k: Config, s: Pool, s': Pool, c: nat)
    requires Inv(k, s) && WaitReturns(k, s, s', c)
    ensures Inv(k, s')
  {
  }

  lemma WorkerLockStep(k: Config, s: Pool, s': Pool, i: nat)
    requires Inv(k, s) && WorkerLock(s, s', i)
    ensures Inv(k, s')
  {
  }

  lemma WorkerStartPlaces(k: Config, s: Pool, s': Pool, i: nat)
    requires Places(k, s) && WorkerStart(s, s', i)
    ensures Places(k, s')
  {
  }

  lemma WorkerStartJobs(k: Config, s: Pool, s': Pool, i: nat)
    requires Inv(k, s) && WorkerStart(s, s', i)
    ensures Jobs(k, s') && Parents(s')
  {
  }

  lemma WorkerFinishPlaces(k: Config, s: Pool, s': Pool, i: nat)
    requires Places(k, s) && WorkerFinish(k, s, s', i)
    ensures Places(k, s')
  {
  }

  lemma WorkerFinishJobs(k: Config, s: Pool, s': Pool, i: nat)
    requires Inv(k, s) && WorkerFinish(k, s, s', i)
    ensures Jobs(k, s')
  {
  }

  lemma WorkerFinishParents(k: Config, s: Pool, s': Pool, i: nat)
    requires Inv(k, s) && WorkerFinish(k, s, s', i)
    ensures Parents(s')
  {
  }

  lemma WorkerUnlockStep(k: Config, s: Pool, s': Pool, i: nat)
    requires Inv(k, s) && WorkerUnlock(s, s', i)
    ensures Inv(k, s')
  {
  }

  lemma WorkerParkStep(k: Config, s: Pool, s': Pool, i: nat)
    requires Inv(k, s) && WorkerPark(s, s', i)
    ensures Inv(k, s')
  {
  }

  lemma CallerStepInv(k: Config, s: Pool, s': Pool, c: nat, step: Step)
    requires Inv(k, s) && Takes(k, s, s', c, step)
    requires !step.Acquire? && !step.Begin? && !step.Complete? && !step.LetGo? && !step.Park?
    ensures Inv(k, s')
  {
    match step {
      case Schedule(group) => StartScheduleStep(k, s, s', c, group);
      case Skip => NextSlotStep(k, s, s', c);
      case TryLock => InspectPlaces(k, s, s', c); InspectJobs(k, s, s', c);
      case PutBack => LeaveSlotPlaces(k, s, s', c); LeaveSlotJobs(k, s, s', c);
      case GiveUp => NoneFreeStep(k, s, s', c);
      case TakeSlot => ClaimPlaces(k, s, s', c); ClaimJobs(k, s, s', c);
      case StoreJob => SetJobPlaces(k, s, s', c); SetJobJobs(k, s, s', c); SetJobParents(k, s, s', c);
      case StoreParent => SetParentPlaces(k, s, s', c); SetParentJobs(k, s, s', c);
      case StoreFlag => SetScheduledPlaces(k, s, s', c); SetScheduledJobs(k, s, s', c);
      case Leave => UnlockPlaces(k, s, s', c); UnlockJobs(k, s, s', c);
      case Wait => StartWaitStep(k, s, s', c);
      case Pass => PassOverPlaces(k, s, s', c); PassOverJobs(k, s, s', c); PassOverParents(k, s, s', c);
      case See => SeeChildStep(k, s, s', c);
      case Busy => FindLockedStep(k, s, s', c);
      case LockSlot => LockChildPlaces(k, s, s', c); LockChildJobs(k, s, s', c);
      case Collect => CheckChildPlaces(k, s, s', c); CheckChildJobs(k, s, s', c); CheckChildParents(k, s, s', c);
      case Repeat => WaitAgainStep(k, s, s', c);
      case Return => WaitReturnsStep(k, s, s', c);
    }
  }

  lemma WorkerStepInv(k: Config, s: Pool, s': Pool, i: nat, step: Step)
    requires Inv(k, s) && Takes(k, s, s', i, step)
    requires step.Acquire? || step.Begin? || step.Complete? || step.LetGo? || step.Park?
    ensures Inv(k, s')
  {
    match step {
      case Acquire => WorkerLockStep(k, s, s', i);
      case Begin => WorkerStartPlaces(k, s, s', i); WorkerStartJobs(k, s, s', i);
      case Complete => WorkerFinishPlaces(k, s, s', i); WorkerFinishJobs(k, s, s', i); WorkerFinishParents(k, s, s', i);
      case LetGo => WorkerUnlockStep(k, s, s', i);
      case Park => WorkerParkStep(k, s, s', i);
    }
  }

  lemma NextInv(k: Config, s: Pool, s': Pool)
    requires Inv(k, s) && Next(k, s, s')
    ensures Inv(k, s')
  {
    var n: nat, step :| Takes(k, s, s', n, step);
    if step.Acquire? || step.Begin? || step.Complete? || step.LetGo? || step.Park? {
      WorkerStepInv(k, s, s', n, step);
    } else {
      CallerStepInv(k, s, s', n, step);
    }
  }

  lemma RunStep(k: Config, ss: seq<Pool>, n: nat)
    requires Run(k, ss) && n + 1 < |ss| && Inv(k, ss[n])
    ensures Inv(k, ss[n + 1])
  {
    NextInv(k, ss[n], ss[n + 1]);
  }

  lemma {:induction false} RunInv(k: Config, ss: seq<Pool>, n: nat)
    requires Run(k, ss) && n < |ss|
    ensures Inv(k, ss[n])
  {
    if n == 0 {
      InitInv(k, ss[0]);
    } else {
      RunInv(k, ss, n - 1);
      RunStep(k, ss, n - 1);
    }
  }

  /** In every state of every run: each accepted job went to a slot of its own group; it starts and
      finishes at most once; until it is finished it is the one job of its slot, and it runs there
      exactly when it has started. */
  lemma Safety(k: Config, ss: seq<Pool>, n: nat, j: nat)
    requires Run(k, ss) && n < |ss| && j < |ss[n].accepted|
    ensures var s := ss[n]; var a := s.accepted[j];
      && Proper(k, a.group) && From(k, a.group) <= a.slot < Upper(k, a.group) <= |s.slots|
      && Distinct(s.started) && Distinct(s.finished) && (j in s.finished ==> j in s.started)
      && (j !in s.finished <==> s.slots[a.slot].job == Some(j))
      && (j in s.started && j !in s.finished <==> s.slots[a.slot].worker == Running(j))
  {
    RunInv(k, ss, n);
    GroupRange(k, ss[n].accepted[j].group);
  }

  /** Callers never look outside the array. */
  lemma InBounds(k: Config, ss: seq<Pool>, n: nat, c: nat)
    requires Run(k, ss) && n < |ss| && c < |ss[n].callers| && ss[n].callers[c].Searching?
    requires ss[n].callers[c].i < Upper(k, ss[n].callers[c].group)
    ensures ss[n].callers[c].i < |ss[n].slots|
  {
    RunInv(k, ss, n);
    GroupRange(k, ss[n].callers[c].group);
  }

  /** When thread_wait returns, every regular job of the caller is finished. */
  lemma WaitIsComplete(k: Config, ss: seq<Pool>, n: nat, c: nat, j: nat)
    requires Run(k, ss) && n + 1 < |ss| && WaitReturns(k, ss[n], ss[n + 1], c)
    requires j < |ss[n].accepted| && ss[n].accepted[j].caller == c && ss[n].accepted[j].group < k.groups
    ensures j in ss[n + 1].finished
  {
    RunInv(k, ss, n);
    GroupRange(k, ss[n].accepted[j].group);
  }

  /** A proper group has its own, non-empty stretch of the array. */
  lemma GroupRange(k: Config, group: Group)
    requires Proper(k, group)
    ensures From(k, group) < Upper(k, group) <= k.max + 3
    ensures group < k.groups ==> Upper(k, group) <= k.max
  {
    if group < k.groups {
      RegularRange(k, group);
    } else {
      SpecialRange(k, group);
    }
  }

  lemma RegularRange(k: Config, group: Group)
    requires group < k.groups
    ensures From(k, group) == group * PerGroup(k)
    ensures Upper(k, group) == From(k, group) + PerGroup(k) <= k.max && PerGroup(k) >= 1
  {
    GroupMultiples(k, group, group * PerGroup(k), (group + 1) * PerGroup(k));
  }

  lemma GroupMultiples(k: Config, group: nat, low: nat, high: nat)
    requires group < k.groups && low == group * PerGroup(k) && high == (group + 1) * PerGroup(k)
    ensures high == low + PerGroup(k) <= k.max && PerGroup(k) >= 1
  {
    PerGroupFits(k);
    Monotone(group + 1, k.groups, PerGroup(k));
    NextMultiple(group, PerGroup(k));
  }

  lemma SpecialRange(k: Config, group: Group)
    requires k.max < group
    ensures From(k, group) == k.max + (0xffff_ffff - group) && Upper(k, group) == From(k, group) + 1
  {
  }

  /** Slots of the array, regular ones for a regular group and special ones for a special one. */
  ghost predicate InPlace(k: Config, group: Group) {
    From(k, group) < Upper(k, group) && Upper(k, group) <= if group <= k.max then k.max else k.max + 3
  }

  ghost predicate Disjoint(k: Config, g: Group, h: Group) {
    Upper(k, g) <= From(k, h) || Upper(k, h) <= From(k, g)
  }

  /** The slots of a group are its alone: no proper group shares one. */
  ghost predicate OwnSlots(k: Config, group: Group) {
    InPlace(k, group) && forall h :: Proper(k, h) && h != group ==> Disjoint(k, group, h)
  }

  /** The test accepts one group too many, and every identifier between the regular and the reserved
      ones. Of what it accepts, exactly the proper groups have slots of their own, and the surplus
      group when the division left enough slots over. */
  lemma GroupTestExact(k: Config, group: Group)
    ensures GroupAccepted(k, group) <==> group <= k.groups || k.max < group
    ensures GroupAccepted(k, group) ==>
              (OwnSlots(k, group) <==> Proper(k, group) || (group == k.groups && (k.groups + 1) * PerGroup(k) <= k.max))
  {
    if Proper(k, group) {
      GroupRange(k, group);
      forall h | Proper(k, h) && h != group ensures Disjoint(k, group, h) {
        if group < h {
          GroupsDisjoint(k, group, h);
        } else {
          GroupsDisjoint(k, h, group);
        }
      }
      ProperInPlace(k, group);
    } else if k.max < group {
      SpecialRange(k, group);
    } else if group == k.groups {
      SurplusRange(k, group);
      if InPlace(k, group) {
        forall h | Proper(k, h) ensures Disjoint(k, group, h) {
          SurplusDisjoint(k, group, h);
        }
      }
    }
  }

  lemma ProperInPlace(k: Config, group: Group)
    requires Proper(k, group)
    ensures InPlace(k, group)
  {
    if group < k.groups {
      RegularRange(k, group);
    } else {
      SpecialRange(k, group);
    }
  }

  lemma SurplusRange(k: Config, group: Group)
    requires group == k.groups
    ensures From(k, group) == k.groups * PerGroup(k)
    ensures InPlace(k, group) <==> (k.groups + 1) * PerGroup(k) <= k.max
  {
    var per := PerGroup(k);
    PerGroupFits(k);
    NextMultiple(group, per);
    PerGroupBound(k);
    WrappedRange(group * per, per, k.max);
  }

  lemma SurplusDisjoint(k: Config, group: Group, h: Group)
    requires group == k.groups && InPlace(k, group) && Proper(k, h)
    ensures Disjoint(k, group, h)
  {
    SurplusRange(k, group);
    if h < k.groups {
      RegularRange(k, h);
      Monotone(h + 1, k.groups, PerGroup(k));
      NextMultiple(h, PerGroup(k));
    } else {
      SpecialRange(k, h);
    }
  }

  lemma WrappedRange(p: nat, per: nat, max: nat)
    requires p <= max < 0xffff_fff0 && 1 <= per <= max
    ensures Wrap32(p) < Wrap32(p + per) <= max <==> p + per <= max
  {
  }

  lemma PerGroupBound(k: Config)
    ensures PerGroup(k) <= k.max
  {
    PerGroupFits(k);
    Monotone(1, k.groups, PerGroup(k));
  }

  /** With one group of 64 slots, group 1 is accepted and shares the slot of the reserved identifier -1;
      thread_wait, which looks at slots below 64, never sees its jobs. */
  lemma SurplusGroupMeetsSpecial()
    ensures GroupAccepted(Shape(64, 1), 1) && !Proper(Shape(64, 1), 1)
    ensures From(Shape(64, 1), 1) == From(Shape(64, 1), 0xffff_ffff) == 64
  {
  }

  /** Two proper groups never share a slot. */
  lemma GroupsDisjoint(k: Config, g: Group, h: Group)
    requires Proper(k, g) && Proper(k, h) && g < h
    ensures Upper(k, g) <= From(k, h) || Upper(k, h) <= From(k, g)
  {
    if h < k.groups {
      RegularRange(k, g);
      RegularRange(k, h);
      Monotone(g + 1, h, PerGroup(k));
      NextMultiple(g, PerGroup(k));
    } else {
      SpecialRange(k, h);
      if g < k.groups {
        RegularRange(k, g);
      } else {
        SpecialRange(k, g);
      }
    }
  }

  lemma NextMultiple(g: nat, p: nat)
    ensures (g + 1) * p == g * p + p
  {
  }

  lemma PerGroupFits(k: Config)
    ensures 1 <= PerGroup(k) && k.groups * PerGroup(k) <= k.max
  {
    assert k.max == k.groups * (k.max / k.groups) + k.max % k.groups;
  }

  lemma Monotone(a: nat, b: nat, p: nat)
    requires a <= b
    ensures a * p <= b * p
  {
    assert b * p == a * p + (b - a) * p;
  }
}
