/**
 Leader election over one session-owned advisory lock. Each process runs the
 session loop of the source; a step is what happens between two of its awaits, a
 step of the environment (session loss, a scheduler tick), or time passing.
 */
module Leader {
  import opened Prelude

  const WATCHDOG_BUDGET := 4 * 60 * 60
  const CHECK_INTERVAL := 30

  /** Where a process stands in `spawn` and `run_one_session`. */
  datatype Pc =
    | Between   // no session; about to connect
    | Trying    // session open, lock not held
    | Acquired  // lock granted, flag not yet stored
    | Flagged   // flag stored, synthetic tick not yet recorded
    | Holding   // in the hold loop, asleep until the next check
    | Released  // watchdog gave the lock back, flag not yet cleared
    | Ended     // session function returned, flag not yet cleared by `spawn`

  /** `due` is when the current 30 s sleep of the hold loop ends. */
  datatype Proc = Proc(pc: Pc, session: bool, flag: bool, lastTick: Option<int>, due: int)

  const FRESH := Proc(Between, false, false, None, 0)

  datatype State = State(procs: map<int, Proc>, lock: Option<int>, now: int)

  datatype Step =
    | Connect(p: int)
    | TryLock(p: int)
    | SetFlag(p: int)
    | StampTick(p: int)
    | Check(p: int)
    | ClearFlag(p: int)
    | EndSession(p: int)
    | Tick(p: int)
    | Lose(p: int)
    | Advance(dt: nat)

  function ProcOf(s: State, p: int): Proc {
    if p in s.procs then s.procs[p] else FRESH
  }

  predicate Enabled(s: State, step: Step) {
    match step
    case Connect(p) => ProcOf(s, p).pc == Between
    case TryLock(p) => ProcOf(s, p).pc == Trying
    case SetFlag(p) => ProcOf(s, p).pc == Acquired
    case StampTick(p) => ProcOf(s, p).pc == Flagged
    case Check(p) => ProcOf(s, p).pc == Holding
    case ClearFlag(p) => ProcOf(s, p).pc == Released
    case EndSession(p) => ProcOf(s, p).pc == Ended
    case Tick(_) => true
    case Lose(p) => ProcOf(s, p).session
    case Advance(_) => true
  }

  function Put(s: State, p: int, r: Proc): State {
    s.(procs := s.procs[p := r])
  }

  /** The lock after `p`'s session gives it up; nobody else's hold is touched. */
  function Unlocked(s: State, p: int): Option<int> {
    if s.lock == Some(p) then None else s.lock
  }

  /** Time since the last recorded tick; none recorded counts as just now. */
  function Elapsed(s: State, p: int): int {
    match ProcOf(s, p).lastTick
    case None => 0
    case Some(t) => s.now - t
  }

  function Next(s: State, step: Step): State
    requires Enabled(s, step)
  {
    match step
    case Connect(p) => Put(s, p, ProcOf(s, p).(pc := Trying, session := true))
    case TryLock(p) =>
      var r := ProcOf(s, p);
      if !r.session then Put(s, p, r.(pc := Ended))
      else if s.lock.None? then Put(s, p, r.(pc := Acquired)).(lock := Some(p))
      else s
    case SetFlag(p) => Put(s, p, ProcOf(s, p).(pc := Flagged, flag := true))
    case StampTick(p) =>
      Put(s, p, ProcOf(s, p).(pc := Holding, lastTick := Some(s.now), due := s.now + CHECK_INTERVAL))
    case Check(p) =>
      var r := ProcOf(s, p);
      if Elapsed(s, p) > WATCHDOG_BUDGET then Put(s, p, r.(pc := Released)).(lock := Unlocked(s, p))
      else if r.session then Put(s, p, r.(due := s.now + CHECK_INTERVAL))
      else Put(s, p, r.(pc := Ended))
    case ClearFlag(p) => Put(s, p, ProcOf(s, p).(pc := Ended, flag := false))
    case EndSession(p) => Put(s, p, ProcOf(s, p).(pc := Between, session := false, flag := false))
    case Tick(p) => Put(s, p, ProcOf(s, p).(lastTick := Some(s.now)))
    case Lose(p) => Put(s, p, ProcOf(s, p).(session := false)).(lock := Unlocked(s, p))
    case Advance(dt) => s.(now := s.now + dt)
  }

  predicate ValidRun(s: State, steps: seq<Step>)
    decreases |steps|, 0
  {
    steps == [] || (ValidRun(s, steps[..|steps| - 1]) && Enabled(Exec(s, steps[..|steps| - 1]), steps[|steps| - 1]))
  }

  function Exec(s: State, steps: seq<Step>): State
    requires ValidRun(s, steps)
    decreases |steps|, 1
  {
    if steps == [] then s else Next(Exec(s, steps[..|steps| - 1]), steps[|steps| - 1])
  }

  // ----- the invariant ------------------------------------------------------

  /** Between being granted the lock and leaving the hold loop. */
  predicate InHold(r: Proc) {
    r.pc == Acquired || r.pc == Flagged || r.pc == Holding
  }

  predicate ProcInv(s: State, p: int) {
    var r := ProcOf(s, p);
    && (s.lock == Some(p) <==> InHold(r) && r.session)
    && (r.pc == Between ==> !r.session)
    && (r.pc == Between || r.pc == Trying || r.pc == Acquired ==> !r.flag)
    && (r.pc == Flagged || r.pc == Holding ==> r.flag)
    && (r.pc == Holding ==> r.lastTick.Some?)
    && (r.lastTick.Some? ==> r.lastTick.value <= s.now)
    && (r.pc == Holding ==> r.due <= r.lastTick.value + WATCHDOG_BUDGET + CHECK_INTERVAL)
  }

  ghost predicate Inv(s: State) {
    forall p :: ProcInv(s, p)
  }

  lemma StepKeeps(s: State, step: Step)
    requires Inv(s) && Enabled(s, step)
    ensures Inv(Next(s, step))
  {
    hide ProcInv, Next, Enabled;
    var s' := Next(s, step);
    forall p
      ensures ProcInv(s', p)
    {
      assert ProcInv(s, p);
      if step.Advance? || step.p == p {
        OwnStepKeeps(s, step, p);
      } else {
        assert ProcInv(s, step.p);
        OtherStepKeeps(s, step, p);
      }
    }
  }

  lemma OwnStepKeeps(s: State, step: Step, p: int)
    requires ProcInv(s, p) && Enabled(s, step) && (step.Advance? || step.p == p)
    ensures ProcInv(Next(s, step), p)
  {
  }

  lemma OtherStepKeeps(s: State, step: Step, p: int)
    requires ProcInv(s, p) && Enabled(s, step) && !step.Advance? && step.p != p && ProcInv(s, step.p)
    ensures ProcInv(Next(s, step), p)
  {
    assert ProcOf(Next(s, step), p) == ProcOf(s, p);
  }

  lemma {:induction false} RunKeeps(s: State, steps: seq<Step>)
    requires Inv(s) && ValidRun(s, steps)
    ensures Inv(Exec(s, steps))
    decreases |steps|
  {
    hide Inv, Next, Enabled;
    if steps != [] {
      RunKeeps(s, steps[..|steps| - 1]);
      StepKeeps(Exec(s, steps[..|steps| - 1]), steps[|steps| - 1]);
    }
  }

  const START := State(map[], None, 0)

  /**
   Mutual exclusion over every run: two processes in the hold loop whose sessions
   are both alive are one process, and it owns the lock.
   */
  lemma AtMostOneLiveLeader(steps: seq<Step>, p: int, q: int)
    requires ValidRun(START, steps)
    requires var s := Exec(START, steps);
             && InHold(ProcOf(s, p)) && ProcOf(s, p).session
             && InHold(ProcOf(s, q)) && ProcOf(s, q).session
    ensures p == q && Exec(START, steps).lock == Some(p)
  {
    hide ValidRun, Exec;
    assert Inv(START);
    RunKeeps(START, steps);
    var s := Exec(START, steps);
    assert ProcInv(s, p) && ProcInv(s, q);
  }

  // ----- flags without the lock ---------------------------------------------

  /** The step makes `p` lose the lock: its session dies, or its watchdog unlocks. */
  predicate GivesUp(s: State, step: Step, p: int) {
    step == Lose(p) || (step == Check(p) && Elapsed(s, p) > WATCHDOG_BUDGET)
  }

  predicate Clears(step: Step, p: int) {
    step == ClearFlag(p) || step == EndSession(p)
  }

  /** A flag, or a stay in the hold loop, that the lock does not back. */
  predicate Unbacked(s: State, p: int) {
    s.lock != Some(p) && (ProcOf(s, p).flag || InHold(ProcOf(s, p)))
  }

  /** Some step gave the lock up, and the flag has not been cleared since. */
  ghost predicate GaveUpSinceClear(s: State, steps: seq<Step>, p: int)
    requires ValidRun(s, steps)
    decreases |steps|
  {
    steps != [] &&
    var init, last := steps[..|steps| - 1], steps[|steps| - 1];
    !Clears(last, p) && (GivesUp(Exec(s, init), last, p) || GaveUpSinceClear(s, init, p))
  }

  lemma UnbackedArises(s: State, step: Step, p: int)
    requires Inv(s) && Enabled(s, step) && Unbacked(Next(s, step), p)
    ensures !Clears(step, p)
    ensures Unbacked(s, p) || GivesUp(s, step, p)
  {
    assert ProcInv(s, p);
    StepKeeps(s, step);
    assert ProcInv(Next(s, step), p);
    if !step.Advance? {
      assert ProcInv(s, step.p);
    }
  }

  /**
   A process shows the leader flag without owning the lock only between the step
   that gave the lock up and the next time its flag is cleared.
   */
  lemma {:induction false} StaleFlagExplained(steps: seq<Step>, p: int)
    requires ValidRun(START, steps) && Unbacked(Exec(START, steps), p)
    ensures GaveUpSinceClear(START, steps, p)
    decreases |steps|
  {
    hide Inv, Next, Enabled, GivesUp, Unbacked;
    if steps == [] {
      NothingAtStart(p);
    } else {
      var init, last := steps[..|steps| - 1], steps[|steps| - 1];
      assert Inv(START) by { StartInv(); }
      RunKeeps(START, init);
      UnbackedArises(Exec(START, init), last, p);
      if Unbacked(Exec(START, init), p) {
        StaleFlagExplained(init, p);
      }
    }
  }

  lemma StartInv()
    ensures Inv(START)
  {
  }

  lemma NothingAtStart(p: int)
    ensures !Unbacked(START, p)
  {
  }

  // ----- the watchdog -------------------------------------------------------

  lemma {:induction false} LastTickStays(s: State, steps: seq<Step>, p: int)
    requires ValidRun(s, steps)
    requires forall i :: 0 <= i < |steps| ==> steps[i] != Tick(p) && steps[i] != StampTick(p)
    ensures ProcOf(Exec(s, steps), p).lastTick == ProcOf(s, p).lastTick
    decreases |steps|
  {
    if steps != [] {
      LastTickStays(s, steps[..|steps| - 1], p);
      assert steps[|steps| - 1] != Tick(p) && steps[|steps| - 1] != StampTick(p);
    }
  }

  /**
   Once ticks stop, a check leaves the hold loop and frees the lock iff it comes
   past the budget or finds the session dead.
   */
  lemma CheckLeavesIff(s: State, steps: seq<Step>, p: int)
    requires Inv(s) && ValidRun(s, steps) && ProcOf(s, p).lastTick.Some?
    requires forall i :: 0 <= i < |steps| ==> steps[i] != Tick(p) && steps[i] != StampTick(p)
    requires Enabled(Exec(s, steps), Check(p))
    ensures var s' := Exec(s, steps);
            var after := Next(s', Check(p));
            && (ProcOf(after, p).pc != Holding
                <==> s'.now > ProcOf(s, p).lastTick.value + WATCHDOG_BUDGET || !ProcOf(s', p).session)
            && (ProcOf(after, p).pc != Holding ==> after.lock != Some(p))
  {
    hide ValidRun, Exec;
    LastTickStays(s, steps, p);
    RunKeeps(s, steps);
    StepKeeps(Exec(s, steps), Check(p));
    assert ProcInv(Next(Exec(s, steps), Check(p)), p);
  }

  /** If its sleeps end on time, no process holds on longer than budget plus one sleep without a tick. */
  lemma HoldIsBounded(steps: seq<Step>, p: int)
    requires ValidRun(START, steps)
    requires ProcOf(Exec(START, steps), p).pc == Holding
    requires Exec(START, steps).now <= ProcOf(Exec(START, steps), p).due
    ensures ProcOf(Exec(START, steps), p).lastTick.Some?
    ensures Exec(START, steps).now
         <= ProcOf(Exec(START, steps), p).lastTick.value + WATCHDOG_BUDGET + CHECK_INTERVAL
  {
    hide ValidRun, Exec;
    StartInv();
    RunKeeps(START, steps);
    assert ProcInv(Exec(START, steps), p);
  }

  lemma AppendStep(s: State, steps: seq<Step>, last: Step)
    requires ValidRun(s, steps) && Enabled(Exec(s, steps), last)
    ensures ValidRun(s, steps + [last]) && Exec(s, steps + [last]) == Next(Exec(s, steps), last)
  {
    assert (steps + [last])[..|steps|] == steps;
  }

  /** Failover: whoever tries next while the lock is free becomes the flagged leader. */
  lemma FreeLockIsTaken(s: State, p: int)
    requires Inv(s) && s.lock.None? && ProcOf(s, p).pc == Trying && ProcOf(s, p).session
    ensures var steps := [] + [TryLock(p)] + [SetFlag(p)] + [StampTick(p)];
            && ValidRun(s, steps)
            && Exec(s, steps).lock == Some(p)
            && ProcOf(Exec(s, steps), p).pc == Holding && ProcOf(Exec(s, steps), p).flag
  {
    AppendStep(s, [], TryLock(p));
    AppendStep(s, [] + [TryLock(p)], SetFlag(p));
    AppendStep(s, [] + [TryLock(p)] + [SetFlag(p)], StampTick(p));
  }
}
