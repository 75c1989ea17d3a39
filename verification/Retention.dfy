/** The retention sweep and the rollup together: when a leaf goes before its last hour is rolled up. */
module Retention {
  import opened Prelude
  import opened Calendar
  import opened LeafNames
  import opened Partitions
  import opened PartitionRuns
  import opened Rollup
  import opened RollupRunners
  import opened RollupResults
  import opened RollupWatermark

  /** `now` is in the first hour of its UTC day. */
  predicate FirstHour(now: int) {
    now % SECS_PER_DAY < HOUR
  }

  /**
   A rollup that is up to date lags one to two hours. So all days before the cutoff
   have been rolled up iff retention is at least a day, or it is 0 and the first
   hour of the day is over.
   */
  lemma CutoffIsRolledUpIff(now: int, retention: int)
    ensures (forall day :: day < DayOf(now) - retention ==> DayRange(day).hi <= Target(now))
       <==> retention >= 1 || (retention == 0 && !FirstHour(now))
  {
    TargetOfDay(now);
    if !(retention >= 1 || (retention == 0 && !FirstHour(now))) {
      var day := DayOf(now) - retention - 1;
      assert DayRange(day).hi > Target(now);
    }
  }

  /** The target in terms of the day: its midnight or later, but in its first hour the hour before. */
  lemma TargetOfDay(now: int)
    ensures FirstHour(now) ==> Target(now) == DayOf(now) * SECS_PER_DAY - HOUR
    ensures !FirstHour(now) ==> DayOf(now) * SECS_PER_DAY <= Target(now)
    ensures Target(now) < (DayOf(now) + 1) * SECS_PER_DAY
  {
    var secs := now % SECS_PER_DAY;
    assert now == DayOf(now) * SECS_PER_DAY + secs && now == 24 * DayOf(now) * HOUR + secs;
    assert now % HOUR == secs % HOUR;
    TargetIsSettledHour(now);
  }

  /** What the pass detaches of the leaves it found. */
  predicate Detached(c: Catalog, now: int, retention: int, n: string) {
    n in c.leaves && n !in Pass(c, now, retention, NO_FAULTS).0.leaves
  }

  /** A catalog that some run of passes from a fresh install leaves, and a pass after it. */
  ghost predicate Reached(c: Catalog, from: int, now: int, retention: int) {
    && Installed(c, from) && from <= DayOf(now) && Sane(now, retention)
  }

  lemma RunsReach(from: int, passes: seq<PassInput>, now: int, retention: int)
    requires SaneRun(passes, from) && LastDay(passes, from) <= DayOf(now) && Sane(now, retention)
    ensures Reached(Run(FRESH_INSTALL, passes), LastDay(passes, from), now, retention)
  {
    hide Installed;
    FreshInstallIsInstalled(from);
    RunStaysInstalled(FRESH_INSTALL, from, passes);
  }

  /** A pass detaches the daily leaves before its cutoff, if it succeeds. */
  lemma DailyDetachedIff(c: Catalog, from: int, now: int, retention: int, day: int)
    requires Reached(c, from, now, retention) && InEra(day) && Attached(c, day)
    ensures Detached(c, now, retention, LeafOfDay(day))
       <==> Pass(c, now, retention, NO_FAULTS).1 && day < DayOf(now) - retention
  {
    hide LeafOfDay, Free, Premade, Disjoint, SeedOrDaily, Pass;
    PassIsExact(c, from, now, retention, day);
    PassKeepsEraRanges(c, from, now, retention, day);
  }

  lemma PassKeepsEraRanges(c: Catalog, from: int, now: int, retention: int, day: int)
    requires Reached(c, from, now, retention) && InEra(day)
    ensures LeafOfDay(day) in Pass(c, now, retention, NO_FAULTS).0.leaves
       <==> Attached(Pass(c, now, retention, NO_FAULTS).0, day)
  {
    hide LeafOfDay, Pass, Disjoint, SeedOrDaily;
    PassKeeps(c, from, now, retention, NO_FAULTS);
  }

  /** And the seed leaf, in 2027 or later, until the cutoff has left 2025. */
  lemma SeedDetachedIff(c: Catalog, from: int, now: int, retention: int)
    requires Reached(c, from, now, retention) && SEED in c.leaves
    ensures Detached(c, now, retention, SEED)
       <==> SEED_END_DAY <= DayOf(now) && SEED_FIRST_DAY <= DayOf(now) - retention
  {
    hide LeafOfDay, Premake, WellKept, Disjoint, SeedOrDaily, Sweep, StrLess;
    var today := DayOf(now);
    InstalledSucceedsIff(c, from, now, retention);
    var made := Premake(c, today, 0, NO_FAULTS).0;
    KeysAreTables(c, from);
    PremakeKeepsNames(c, today, 0, NO_FAULTS, SEED);
    SeedSweptIff(made, today - retention);
    assert SEED in c.tables && SEED in made.leaves;
    if SEED_FIRST_DAY <= today - retention {
      assert In2026(today) <==> today < SEED_END_DAY;
    }
  }

  /** The pass outruns the rollup: it takes the seed, or at retention 0 yesterday's leaf, an hour too early. */
  predicate Outruns(c: Catalog, now: int, retention: int) {
    && FirstHour(now)
    && ((SEED in c.leaves && DayOf(now) == SEED_END_DAY && retention <= SEED_END_DAY - SEED_FIRST_DAY)
        || (retention == 0 && Attached(c, DayOf(now) - 1) && Pass(c, now, retention, NO_FAULTS).1))
  }

  lemma DailyWaits(c: Catalog, from: int, now: int, retention: int, day: int)
    requires Reached(c, from, now, retention) && InEra(day) && Attached(c, day)
    requires Detached(c, now, retention, LeafOfDay(day)) && DayRange(day).hi > Target(now)
    ensures Outruns(c, now, retention)
  {
    hide LeafOfDay, Pass, Installed;
    DailyDetachedIff(c, from, now, retention, day);
    TargetOfDay(now);
    assert day == DayOf(now) - 1;
  }

  lemma SeedWaits(c: Catalog, from: int, now: int, retention: int)
    requires Reached(c, from, now, retention) && Detached(c, now, retention, SEED) && SEED_RANGE.hi > Target(now)
    ensures Outruns(c, now, retention)
  {
    hide LeafOfDay, Pass, Installed;
    SeedDetachedIff(c, from, now, retention);
    TargetOfDay(now);
  }

  /**
   The exact condition on the sweep's own inputs: on a catalog reached from a fresh
   install, an undisturbed pass detaches only leaves that an up-to-date rollup has
   finished with, unless it runs in the first hour of a day and either retention is 0
   and yesterday's leaf is there, or that day is the first of 2027, the seed leaf is
   still there and retention is at most 365.
   */
  lemma PassWaitsForRollupIff(c: Catalog, from: int, now: int, retention: int)
    requires Reached(c, from, now, retention)
    ensures (forall n :: Detached(c, now, retention, n) ==> n in c.leaves && c.leaves[n].hi <= Target(now))
       <==> !Outruns(c, now, retention)
  {
    hide LeafOfDay, Pass, Detached;
    forall n | Detached(c, now, retention, n) && n in c.leaves && c.leaves[n].hi > Target(now)
      ensures Outruns(c, now, retention)
    {
      LeafKind(c, from, n);
      if n == SEED && c.leaves[n] == SEED_RANGE {
        SeedWaits(c, from, now, retention);
      } else {
        DailyWaits(c, from, now, retention, DayOf(c.leaves[n].lo));
      }
    }
    forall n | Detached(c, now, retention, n)
      ensures n in c.leaves
    {
      DetachedWasThere(c, now, retention, n);
    }
    if Outruns(c, now, retention) {
      OutrunsTooEarly(c, from, now, retention);
    }
  }

  lemma DetachedWasThere(c: Catalog, now: int, retention: int, n: string)
    requires Detached(c, now, retention, n)
    ensures n in c.leaves
  {
    hide Pass;
  }

  lemma LeafKind(c: Catalog, from: int, n: string)
    requires Installed(c, from) && n in c.leaves
    ensures (n == SEED && c.leaves[n] == SEED_RANGE) || DailyLeaf(n, c.leaves[n])
  {
    hide LeafOfDay;
  }

  lemma OutrunsTooEarly(c: Catalog, from: int, now: int, retention: int)
    requires Reached(c, from, now, retention) && Outruns(c, now, retention)
    ensures exists n :: Detached(c, now, retention, n) && n in c.leaves && c.leaves[n].hi > Target(now)
  {
    hide LeafOfDay, Pass, Installed, Detached;
    TargetOfDay(now);
    if SEED in c.leaves && DayOf(now) == SEED_END_DAY && retention <= SEED_END_DAY - SEED_FIRST_DAY {
      SeedDetachedIff(c, from, now, retention);
      SeedIsWhole(c, from);
      assert Detached(c, now, retention, SEED);
    } else {
      var day := DayOf(now) - 1;
      AttachedInEra(c, from, day);
      DailyDetachedIff(c, from, now, retention, day);
      assert Detached(c, now, retention, LeafOfDay(day));
    }
  }

  lemma AttachedInEra(c: Catalog, from: int, day: int)
    requires Installed(c, from) && Attached(c, day)
    ensures InEra(day)
  {
    hide LeafOfDay;
    LeafKind(c, from, LeafOfDay(day));
    assert DayOf(DayRange(day).lo) == day;
    assert DayRange(day) != SEED_RANGE;
  }

  // ----- what is lost -------------------------------------------------------

  predicate Holds(r: Range, day: int) {
    DayOf(r.lo) <= day < DayOf(r.hi)
  }

  /** The days a leaf holds. */
  function DaysOf(r: Range): set<int> {
    set day | DayOf(r.lo) <= day < DayOf(r.hi) && Holds(r, day)
  }

  /** A pass that does not outrun an up-to-date rollup gives it every leaf it may take. */
  lemma WaitingIsPassed(c: Catalog, from: int, now: int, retention: int, n: string, s: State)
    requires Reached(c, from, now, retention) && Detached(c, now, retention, n) && !Outruns(c, now, retention)
    requires Target(now) <= s.db.watermark
    ensures n in c.leaves && Passed(s, DaysOf(c.leaves[n]))
  {
    hide LeafOfDay, Pass, Detached, Outruns, Reached;
    PassWaitsForRollupIff(c, from, now, retention);
    DetachedWasThere(c, now, retention, n);
    var r := c.leaves[n];
    forall day | day in DaysOf(r)
      ensures (day + 1) * DAY <= s.db.watermark
    {
      assert (day + 1) * SECS_PER_DAY <= DayOf(r.hi) * SECS_PER_DAY <= r.hi;
    }
  }

  /**
   The failing case, end to end: an installation whose passes all ran in 2026 so far
   takes the whole of 2026 away in the first hour of 2027, with any retention up to a
   year, while the last hour of 2026 cannot have been rolled up; a row of that hour
   that has events is then wrong after every further run.
   */
  lemma LastHourOf2026IsLost(passes: seq<PassInput>, now: int, retention: int, s: State, steps: seq<Step>, k: Key)
    requires forall i :: 0 <= i < |passes| ==> In2026(DayOf(passes[i].now))
    requires DayOf(now) == SEED_END_DAY && FirstHour(now) && 0 <= retention <= SEED_END_DAY - SEED_FIRST_DAY
    requires AlignedRunners(s) && s.db.events == Remaining(s.all, s.detached) && RowsBehind(s)
    requires s.db.watermark <= Target(now)
    requires k.hour == SEED_RANGE.hi - HOUR && Tally(s.all, k) > 0
    requires ValidRun(Next(s, Detach(DaysOf(SEED_RANGE))), steps)
    ensures Run(FRESH_INSTALL, passes) == FRESH_INSTALL && Detached(FRESH_INSTALL, now, retention, SEED)
    ensures !ExactAt(Full(Exec(Next(s, Detach(DaysOf(SEED_RANGE))), steps)), k)
  {
    hide Pass, ExactAt, ValidRun, Exec, Tally, Remaining, Installed;
    SeedStalls2026(passes);
    FreshInstallIsInstalled(SEED_END_DAY);
    SeedSanity(now, retention);
    SeedDetachedIff(FRESH_INSTALL, SEED_END_DAY, now, retention);
    TargetOfDay(now);
    var days := DaysOf(SEED_RANGE);
    assert k.hour / DAY == SEED_END_DAY - 1 && Holds(SEED_RANGE, SEED_END_DAY - 1);
    assert k.hour / DAY in days;
    MissingRowIsWrong(Full(s), k);
    RemainingTwice(s.all, s.detached, days);
    assert Full(Next(s, Detach(days))) == Full(s);
    DetachedRowsAreFrozen(Next(s, Detach(days)), steps, k);
  }

  lemma SeedSanity(now: int, retention: int)
    requires DayOf(now) == SEED_END_DAY && 0 <= retention <= SEED_END_DAY - SEED_FIRST_DAY
    ensures Sane(now, retention)
  {
  }

  lemma MissingRowIsWrong(db: Db, k: Key)
    requires k !in db.rollup && k.hour % HOUR == 0 && Tally(db.events, k) > 0
    ensures !ExactAt(db, k)
  {
    hide Tally, Window, Count;
    TallyIsCount(db.events, k);
  }
}
