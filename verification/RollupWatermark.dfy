/** Whole passes as runs of the step system, and where the stored watermark goes. */
module RollupWatermark {
  import opened Prelude
  import opened Rollup
  import opened RollupRunners
  import opened RollupResults

  // ----- one runner at a time -----------------------------------------------

  /** The steps of one uninterrupted `run_once` call. */
  function CatchUpSteps(p: int, wm: int, target: int, budget: nat): seq<Step>
    decreases budget
  {
    if wm >= target then [Finish(p)]
    else if budget == 0 then [Crash(p)]
    else [Hour(p)] + CatchUpSteps(p, wm + HOUR, target, budget - 1)
  }

  function PassSteps(db: Db, p: int, now: int, budget: nat): seq<Step> {
    var target := Target(now);
    [Read(p), Clock(p, now)] +
    if target - db.watermark > COLD_START_GAP then
      match EarliestHour(db.events)
      case Some(earliest) => [Probe(p)] + CatchUpSteps(p, Max(db.watermark, earliest), target, budget)
      case None => [Probe(p), if budget == 0 then Crash(p) else Jump(p)]
    else CatchUpSteps(p, db.watermark, target, budget)
  }

  lemma {:induction false} CatchUpIsARun(s: State, p: int, budget: nat)
    requires RunnerOf(s, p).Looping?
    ensures var r := RunnerOf(s, p);
            var steps := CatchUpSteps(p, r.wm, r.target, budget);
            && ValidRun(s, steps)
            && Exec(s, steps).db == CatchUp(s.db, r.wm, r.target, budget).0
    decreases budget
  {
    hide AggregateAndAdvance, Remaining;
    var r := RunnerOf(s, p);
    if r.wm < r.target && budget > 0 {
      var s' := Next(s, Hour(p));
      var rest := CatchUpSteps(p, r.wm + HOUR, r.target, budget - 1);
      assert RunnerOf(s', p) == Looping(r.wm + HOUR, r.target);
      CatchUpIsARun(s', p, budget - 1);
      hide ValidRun, Exec;
      PrependStep(s, Hour(p), rest);
    } else {
      var last := CatchUpSteps(p, r.wm, r.target, budget);
      assert last[1..] == [] && Enabled(s, last[0]);
    }
  }

  lemma PrependStep(s: State, step: Step, steps: seq<Step>)
    requires Enabled(s, step) && ValidRun(Next(s, step), steps)
    ensures ValidRun(s, [step] + steps) && Exec(s, [step] + steps) == Exec(Next(s, step), steps)
  {
    assert ([step] + steps)[1..] == steps;
  }

  /** A whole pass, killed or not, is a run of the step system. */
  lemma PassIsARun(s: State, p: int, now: int, budget: nat)
    requires RunnerOf(s, p).Idle?
    ensures ValidRun(s, PassSteps(s.db, p, now, budget))
    ensures Exec(s, PassSteps(s.db, p, now, budget)).db == RunOnce(s.db, now, budget).0
  {
    var steps := PassSteps(s.db, p, now, budget);
    var s1 := Next(s, Read(p));
    var s2 := Next(s1, Clock(p, now));
    var rest := steps[2..];
    if RunnerOf(s2, p).Probing? {
      var s3 := Next(s2, Probe(p));
      if RunnerOf(s3, p).Looping? {
        CatchUpIsARun(s3, p, budget);
        PrependStep(s2, Probe(p), rest[1..]);
        assert rest == [Probe(p)] + rest[1..];
      } else {
        var last := if budget == 0 then Crash(p) else Jump(p);
        PrependStep(s3, last, []);
        PrependStep(s2, Probe(p), [last]);
        assert [last] + [] == [last] && rest == [Probe(p)] + [last];
      }
    } else {
      CatchUpIsARun(s2, p, budget);
    }
    PrependStep(s1, Clock(p, now), rest);
    PrependStep(s, Read(p), [Clock(p, now)] + rest);
    assert steps == [Read(p)] + ([Clock(p, now)] + rest);
  }

  lemma {:induction false} CatchUpOnlyAdvances(db: Db, wm: int, target: int, budget: nat)
    requires db.watermark <= wm && db.watermark % HOUR == 0 && wm % HOUR == 0 && target % HOUR == 0
    ensures var (db', r) := CatchUp(db, wm, target, budget);
            && db.watermark <= db'.watermark && db'.watermark % HOUR == 0
            && (r.Some? ==> r.value == Max(wm, target))
            && (r.Some? ==> db'.watermark == if wm < target then target else db.watermark)
    decreases budget
  {
    hide AggregateAndAdvance;
    if wm < target && budget > 0 {
      WatermarkAfterHour(db, wm);
      CatchUpOnlyAdvances(AggregateAndAdvance(db, wm, wm + HOUR), wm + HOUR, target, budget - 1);
    }
  }

  /** The earliest event hour, when the pass is far enough behind to look for it. */
  function Probed(db: Db, now: int): Option<int> {
    if Target(now) - db.watermark > COLD_START_GAP then EarliestHour(db.events) else None
  }

  /**
   A runner on its own never moves the stored watermark back. A pass that ends
   returns the stored watermark, unless the raw events start at or past the target:
   then it returns their first hour and stores nothing.
   */
  lemma PassOnlyAdvances(db: Db, now: int, budget: nat)
    requires db.watermark % HOUR == 0
    ensures var (db', r) := RunOnce(db, now, budget);
            var late := Probed(db, now).Some? && Probed(db, now).value >= Target(now);
            && db.watermark <= db'.watermark && db'.watermark % HOUR == 0
            && (r.Some? ==> (r.value == db'.watermark <==> !late))
            && (r.Some? && !late ==> db'.watermark == Max(db.watermark, Target(now)))
            && (r.Some? && late ==> r.value == Probed(db, now).value && db'.watermark == db.watermark)
  {
    hide AggregateAndAdvance, CatchUp;
    var target := Target(now);
    assert target % HOUR == 0;
    EarliestIsLeast(db.events);
    if target - db.watermark > COLD_START_GAP && EarliestHour(db.events).Some? {
      CatchUpOnlyAdvances(db, Max(db.watermark, EarliestHour(db.events).value), target, budget);
    } else {
      CatchUpOnlyAdvances(db, db.watermark, target, budget);
    }
  }

  // ----- when the watermark goes back ---------------------------------------

  /** Exactly the steps that set the stored watermark back: a runner writing below what another has stored. */
  lemma StepLowersWatermarkIff(s: State, step: Step)
    requires Enabled(s, step)
    ensures Next(s, step).db.watermark < s.db.watermark
       <==> || (step.Hour? && RunnerOf(s, step.p).wm + HOUR < s.db.watermark)
            || (step.Jump? && RunnerOf(s, step.p).target < s.db.watermark)
  {
    hide AggregateAndAdvance, Remaining;
    if step.Hour? {
      WatermarkAfterHour(s.db, RunnerOf(s, step.p).wm);
    }
  }

  /** At most one runner is in the middle of a pass. */
  predicate Solo(s: State) {
    forall p, q :: p in s.runners && q in s.runners && !s.runners[p].Idle? && !s.runners[q].Idle? ==> p == q
  }

  predicate SoloRun(s: State, steps: seq<Step>)
    requires ValidRun(s, steps)
    decreases |steps|
  {
    Solo(s) && (steps == [] || SoloRun(Next(s, steps[0]), steps[1..]))
  }

  /** What a runner knows of the stored watermark when nobody else writes it. */
  predicate UpToDate(watermark: int, r: Runner) {
    match r
    case Idle => true
    case Started(wm) => wm == watermark
    case Probing(wm, target) => wm == watermark && target - wm > COLD_START_GAP
    case Looping(wm, target) => wm == watermark || (wm > watermark && target - watermark > COLD_START_GAP)
    case Jumping(target) => target - watermark > COLD_START_GAP
  }

  predicate AllUpToDate(s: State) {
    forall p :: p in s.runners ==> UpToDate(s.db.watermark, s.runners[p])
  }

  lemma LoneStep(s: State, step: Step)
    requires Enabled(s, step) && Solo(s) && AllUpToDate(s)
    ensures AllUpToDate(Next(s, step)) && s.db.watermark <= Next(s, step).db.watermark
  {
    hide AggregateAndAdvance, Remaining;
    if step.Hour? {
      WatermarkAfterHour(s.db, RunnerOf(s, step.p).wm);
    }
  }

  /**
   As long as no two runners are in the middle of a pass at once, the stored
   watermark never decreases, with events arriving, leaves going and runners dying
   at any point. Only overlapping leadership can set it back.
   */
  lemma {:induction false} LoneRunnersOnlyAdvance(s: State, steps: seq<Step>)
    requires ValidRun(s, steps) && SoloRun(s, steps) && AllUpToDate(s)
    ensures s.db.watermark <= Exec(s, steps).db.watermark && AllUpToDate(Exec(s, steps))
    decreases |steps|
  {
    hide Next, Enabled, AllUpToDate, Solo;
    if steps != [] {
      LoneStep(s, steps[0]);
      LoneRunnersOnlyAdvance(Next(s, steps[0]), steps[1..]);
    }
  }

  /** No row is ahead of the stored watermark. */
  ghost predicate RowsBehind(s: State) {
    forall k :: k in s.db.rollup ==> k.hour < s.db.watermark
  }

  lemma LoneStepKeepsRowsBehind(s: State, step: Step)
    requires Enabled(s, step) && Solo(s) && AllUpToDate(s) && AlignedRunners(s) && RowsBehind(s)
    ensures RowsBehind(Next(s, step))
  {
    hide AggregateAndAdvance, Remaining;
    LoneStep(s, step);
    if step.Hour? {
      var h := RunnerOf(s, step.p).wm;
      WatermarkAfterHour(s.db, h);
      forall k | k in Next(s, step).db.rollup
        ensures k in s.db.rollup || k.hour == h
      {
        NewRowsAreOfTheHour(s.db, h, k);
      }
    }
  }

  lemma NewRowsAreOfTheHour(db: Db, h: int, k: Key)
    requires h % HOUR == 0 && k in AggregateAndAdvance(db, h, h + HOUR).rollup
    ensures k in db.rollup || k.hour == h
  {
    hide Window, Count, GroupBy;
    GroupByAt(Window(db.events, h, h + HOUR), k);
    if k !in db.rollup {
      GroupHasHour(db.events, h, k);
    }
  }

  lemma {:induction false} LoneRunnersStayBehind(s: State, steps: seq<Step>)
    requires ValidRun(s, steps) && SoloRun(s, steps) && AllUpToDate(s) && AlignedRunners(s) && RowsBehind(s)
    ensures RowsBehind(Exec(s, steps)) && AlignedRunners(Exec(s, steps))
    decreases |steps|
  {
    hide Next, Enabled, AllUpToDate, Solo, AlignedRunners, RowsBehind;
    if steps != [] {
      LoneStep(s, steps[0]);
      LoneStepKeepsRowsBehind(s, steps[0]);
      StepKeepsAligned(s, steps[0]);
      LoneRunnersStayBehind(Next(s, steps[0]), steps[1..]);
    }
  }

  /**
   What a lone runner's pass reports when it ends: the stored watermark, which has
   reached the target; or, if it was far behind and found its first event at or
   past the target, the hour of that event, which it does not store.
   */
  lemma LoneFinish(s: State, p: int)
    requires AllUpToDate(s) && Enabled(s, Finish(p))
    ensures var Looping(wm, target) := RunnerOf(s, p);
            && target <= wm
            && (wm == s.db.watermark || (s.db.watermark + COLD_START_GAP < target && s.db.watermark < wm))
  {
  }

  /** Two runners that both read watermark 0 and mean to go on to hour two. */
  function Overlapping(): State {
    Fresh([], 0, 0).(runners := map[1 := Looping(0, 2 * HOUR), 2 := Looping(0, 2 * HOUR)], settled := 2 * HOUR)
  }

  lemma TwoRunnersStart(s: State, tail: seq<Step>)
    requires s == Fresh([], 0, 0)
    ensures var both := Overlapping();
            var start := [Read(1)] + ([Clock(1, 3 * HOUR)] + ([Read(2)] + ([Clock(2, 3 * HOUR)] + tail)));
            ValidRun(both, tail) ==> ValidRun(s, start) && Exec(s, start) == Exec(both, tail)
  {
    hide ValidRun, Exec;
    var s1 := Next(s, Read(1));
    var s2 := Next(s1, Clock(1, 3 * HOUR));
    var s3 := Next(s2, Read(2));
    var both := Next(s3, Clock(2, 3 * HOUR));
    assert both == Overlapping();
    if ValidRun(both, tail) {
      PrependStep(s3, Clock(2, 3 * HOUR), tail);
      PrependStep(s2, Read(2), [Clock(2, 3 * HOUR)] + tail);
      PrependStep(s1, Clock(1, 3 * HOUR), [Read(2)] + ([Clock(2, 3 * HOUR)] + tail));
      PrependStep(s, Read(1), [Clock(1, 3 * HOUR)] + ([Read(2)] + ([Clock(2, 3 * HOUR)] + tail)));
    }
  }

  /** With two runners the stored watermark can go back, though no row is lost. */
  lemma OverlapCanSetWatermarkBack(s: State)
    requires s == Fresh([], 0, 0)
    ensures exists steps ::
              && ValidRun(s, steps) && Enabled(Exec(s, steps), Hour(2))
              && Next(Exec(s, steps), Hour(2)).db.watermark < Exec(s, steps).db.watermark
  {
    hide AggregateAndAdvance, ValidRun, Exec;
    var tail := [Hour(1)] + ([Hour(1)] + []);
    var steps := [Read(1)] + ([Clock(1, 3 * HOUR)] + ([Read(2)] + ([Clock(2, 3 * HOUR)] + tail)));
    var both := Overlapping();
    WatermarkAfterHour(both.db, 0);
    var one := Next(both, Hour(1));
    WatermarkAfterHour(one.db, HOUR);
    var two := Next(one, Hour(1));
    WatermarkAfterHour(two.db, 0);
    EmptyRun(two);
    PrependStep(one, Hour(1), []);
    PrependStep(both, Hour(1), [Hour(1)] + []);
    TwoRunnersStart(s, tail);
    assert Exec(s, steps) == two;
    assert Next(two, Hour(2)).db.watermark == HOUR < 2 * HOUR == two.db.watermark;
  }

  lemma EmptyRun(s: State)
    ensures ValidRun(s, []) && Exec(s, []) == s
  {
  }
}
