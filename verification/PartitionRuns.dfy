/** What maintenance passes achieve: exact sweeps, coverage over runs, idempotence. */
module PartitionRuns {
  import opened Prelude
  import opened Calendar
  import opened LeafNames
  import opened Partitions

  /** `n` is the name the program gives to the day that `r` spans. */
  predicate DailyLeaf(n: string, r: Range) {
    var day := DayOf(r.lo);
    r == DayRange(day) && n == LeafOfDay(day) && InEra(day)
  }

  /** Day `day` has its leaf, with its own bounds. */
  predicate Attached(c: Catalog, day: int) {
    LeafOfDay(day) in c.leaves && c.leaves[LeafOfDay(day)] == DayRange(day)
  }

  /**
   Leaves named after a day span that day, and none from day `from` on has been
   detached. Leaves with other names may be there too.
   */
  ghost predicate WellKept(c: Catalog, from: int) {
    && c.leaves.Keys <= c.tables
    && (forall day :: InEra(day) && LeafOfDay(day) in c.leaves ==> c.leaves[LeafOfDay(day)] == DayRange(day))
    && (forall day :: from <= day && InEra(day) && LeafOfDay(day) in c.tables ==> LeafOfDay(day) in c.leaves)
  }

  /** No two leaves overlap, whatever they are called. */
  ghost predicate Disjoint(c: Catalog) {
    && c.leaves.Keys <= c.tables
    && forall m, n :: m in c.leaves && n in c.leaves && Overlaps(c.leaves[m], c.leaves[n]) ==> m == n
  }

  /** Leaves of day `from` and later that `c` has are still there in `c'`. */
  ghost predicate KeepsFrom(c: Catalog, c': Catalog, from: int) {
    forall day :: from <= day && InEra(day) && Attached(c, day) ==> Attached(c', day)
  }

  lemma SameName(m: int, n: int)
    requires InEra(m) && InEra(n) && LeafOfDay(m) == LeafOfDay(n)
    ensures m == n
  {
    LeafOrderIsDayOrder(m, n);
  }

  /** The one leaf that accepts instant `t` is the leaf of its UTC day. */
  lemma InstantIsRouted(c: Catalog, t: int, n: string)
    requires Disjoint(c) && Attached(c, DayOf(t)) && n in c.leaves
    ensures c.leaves[n].lo <= t < c.leaves[n].hi <==> n == LeafOfDay(DayOf(t))
  {
    hide LeafOfDay;
    if c.leaves[n].lo <= t < c.leaves[n].hi {
      assert Overlaps(c.leaves[n], c.leaves[LeafOfDay(DayOf(t))]);
    }
  }

  // ----- premaking ----------------------------------------------------------

  lemma CreateKeeps(c: Catalog, from: int, day: int)
    requires WellKept(c, from) && from <= day && InEra(day)
    ensures var made := CreateLeaf(c, LeafOfDay(day), DayRange(day));
            made.Some? ==>
              && WellKept(made.value, from)
              && KeepsFrom(c, made.value, from)
              && Attached(made.value, day)
  {
    hide LeafOfDay;
    var name := LeafOfDay(day);
    forall other | InEra(other) && LeafOfDay(other) == name
      ensures other == day
    {
      SameName(other, day);
    }
  }

  lemma {:induction false} PremakeKeeps(c: Catalog, from: int, today: int, d: nat, f: Faults)
    requires WellKept(c, from) && from <= today && d <= PREMAKE_DAYS
    requires InEra(today) && InEra(today + PREMAKE_DAYS - 1)
    ensures var (c', ok) := Premake(c, today, d, f);
            && WellKept(c', from)
            && KeepsFrom(c, c', from)
            && (ok ==> forall k :: today + d <= k < today + PREMAKE_DAYS ==> Attached(c', k))
    decreases PREMAKE_DAYS - d
  {
    hide LeafOfDay, WellKept, Attached, CreateLeaf;
    if d < PREMAKE_DAYS && f.ddl(d) != CreateFails {
      CreateKeeps(c, from, today + d);
      var made := CreateLeaf(c, LeafOfDay(today + d), DayRange(today + d));
      if made.Some? {
        PremakeKeeps(made.value, from, today, d + 1, f);
      }
    }
  }

  lemma {:induction false} PremakeKeepsDisjoint(c: Catalog, today: int, d: nat, f: Faults)
    requires Disjoint(c) && d <= PREMAKE_DAYS
    ensures Disjoint(Premake(c, today, d, f).0)
    decreases PREMAKE_DAYS - d
  {
    hide LeafOfDay, Disjoint, CreateLeaf;
    if d < PREMAKE_DAYS && f.ddl(d) != CreateFails {
      var made := CreateLeaf(c, LeafOfDay(today + d), DayRange(today + d));
      CreateKeepsDisjoint(c, LeafOfDay(today + d), DayRange(today + d));
      if made.Some? {
        PremakeKeepsDisjoint(made.value, today, d + 1, f);
      }
    }
  }

  lemma CreateKeepsDisjoint(c: Catalog, name: string, r: Range)
    requires Disjoint(c)
    ensures CreateLeaf(c, name, r).Some? ==> Disjoint(CreateLeaf(c, name, r).value)
  {
  }

  /** No pass ever makes leaves overlap, on any catalog and whatever fails. */
  lemma PassKeepsDisjoint(c: Catalog, now: int, retention: int, f: Faults)
    requires Disjoint(c)
    ensures Disjoint(Pass(c, now, retention, f).0)
  {
    hide LeafOfDay, Premake, Aged;
    PremakeKeepsDisjoint(c, DayOf(now), 0, f);
  }

  // ----- the sweep ----------------------------------------------------------

  lemma DailyLeafHasPrefix(day: int)
    ensures StartsWith(LeafOfDay(day), LEAF_PREFIX)
  {
  }

  /**
   The sweep, though it compares names, detaches exactly the daily leaves whose
   whole day ends at or before the cutoff midnight, where the detach works.
   */
  lemma SweepIsExact(c: Catalog, from: int, cutoff: int, f: Faults, day: int)
    requires WellKept(c, from) && Nameable(cutoff) && InEra(day) && LeafOfDay(day) in c.leaves
    ensures var n := LeafOfDay(day);
            (n !in Sweep(c, LeafOfDay(cutoff), f).leaves
             <==> c.leaves[n].hi <= cutoff * SECS_PER_DAY && !f.detachFails(n))
  {
    hide LeafOfDay, StartsWith;
    LeafOrderIsDayOrder(day, cutoff);
    DailyLeafHasPrefix(day);
  }

  lemma SweepKeeps(c: Catalog, from: int, cutoff: int, f: Faults)
    requires WellKept(c, from) && Nameable(cutoff) && cutoff <= from
    ensures WellKept(Sweep(c, LeafOfDay(cutoff), f), from)
    ensures KeepsFrom(c, Sweep(c, LeafOfDay(cutoff), f), from)
  {
    hide LeafOfDay, Aged;
    forall day | from <= day && InEra(day) && LeafOfDay(day) in c.leaves
      ensures LeafOfDay(day) in Sweep(c, LeafOfDay(cutoff), f).leaves
    {
      SweepIsExact(c, from, cutoff, f, day);
    }
  }

  // ----- one pass -----------------------------------------------------------

  /** What a pass needs: retention at least 0 and dates the program can name. */
  predicate Sane(now: int, retention: int) {
    && InEra(DayOf(now)) && InEra(DayOf(now) + PREMAKE_DAYS - 1)
    && 0 <= retention && Nameable(DayOf(now) - retention)
  }

  /** Any pass, failed or not, keeps today and later; a successful one covers four days. */
  lemma PassKeeps(c: Catalog, from: int, now: int, retention: int, f: Faults)
    requires WellKept(c, from) && from <= DayOf(now) && Sane(now, retention)
    ensures var (c', ok) := Pass(c, now, retention, f);
            && WellKept(c', DayOf(now))
            && KeepsFrom(c, c', DayOf(now))
            && (ok ==> forall k :: DayOf(now) <= k < DayOf(now) + PREMAKE_DAYS ==> Attached(c', k))
  {
    hide LeafOfDay, Attached, WellKept, Premake, Sweep;
    var today := DayOf(now);
    PremakeKeeps(c, from, today, 0, f);
    var made := Premake(c, today, 0, f).0;
    KeptFromLater(made, from, today);
    SweepKeeps(made, today, today - retention, f);
  }

  lemma KeptFromLater(c: Catalog, from: int, later: int)
    requires WellKept(c, from) && from <= later
    ensures WellKept(c, later)
  {
    hide LeafOfDay;
  }

  // ----- runs of passes -----------------------------------------------------

  datatype PassInput = PassInput(now: int, retention: int, faults: Faults)

  function Run(c: Catalog, passes: seq<PassInput>): Catalog {
    if passes == [] then c
    else
      var p := passes[|passes| - 1];
      Pass(Run(c, passes[..|passes| - 1]), p.now, p.retention, p.faults).0
  }

  /** Whether the `i`-th pass of the run reported success. */
  predicate Succeeded(c: Catalog, passes: seq<PassInput>, i: nat)
    requires i < |passes|
  {
    Pass(Run(c, passes[..i]), passes[i].now, passes[i].retention, passes[i].faults).1
  }

  /** Sane passes under a clock that never goes back a day, from day `from` on. */
  ghost predicate SaneRun(passes: seq<PassInput>, from: int) {
    && (forall i :: 0 <= i < |passes| ==> from <= DayOf(passes[i].now) && Sane(passes[i].now, passes[i].retention))
    && (forall i, j :: 0 <= i < j < |passes| ==> DayOf(passes[i].now) <= DayOf(passes[j].now))
  }

  function LastDay(passes: seq<PassInput>, from: int): int {
    if passes == [] then from else DayOf(passes[|passes| - 1].now)
  }

  /**
   After any run, whatever fails in it, the catalog is well kept from the last
   pass's day on, and every day from there up to three days after any successful
   pass has its leaf.
   */
  lemma {:induction false} RunCovers(c: Catalog, from: int, passes: seq<PassInput>)
    requires WellKept(c, from) && SaneRun(passes, from)
    ensures WellKept(Run(c, passes), LastDay(passes, from))
    ensures forall i, day {:trigger Succeeded(c, passes, i), Attached(Run(c, passes), day)} ::
              0 <= i < |passes| && Succeeded(c, passes, i)
              && LastDay(passes, from) <= day < DayOf(passes[i].now) + PREMAKE_DAYS
              ==> Attached(Run(c, passes), day)
  {
    hide LeafOfDay, Attached, WellKept, Pass;
    if passes != [] {
      var n := |passes| - 1;
      var init, p := passes[..n], passes[n];
      RunCovers(c, from, init);
      KeptFromLater(Run(c, init), LastDay(init, from), DayOf(p.now));
      PassKeeps(Run(c, init), DayOf(p.now), p.now, p.retention, p.faults);
      forall i, day | 0 <= i < |passes| && Succeeded(c, passes, i)
                      && DayOf(p.now) <= day < DayOf(passes[i].now) + PREMAKE_DAYS
        ensures Attached(Run(c, passes), day)
      {
        assert InEra(day);
        if i < n {
          assert init[..i] == passes[..i];
          assert Succeeded(c, init, i);
          assert Attached(Run(c, init), day);
        }
      }
    }
  }

  /** Nor does any run of passes, whatever their clocks, retentions and faults. */
  lemma {:induction false} RunKeepsDisjoint(c: Catalog, passes: seq<PassInput>)
    requires Disjoint(c)
    ensures Disjoint(Run(c, passes))
  {
    hide Disjoint, Pass;
    if passes != [] {
      var n := |passes| - 1;
      RunKeepsDisjoint(c, passes[..n]);
      PassKeepsDisjoint(Run(c, passes[..n]), passes[n].now, passes[n].retention, passes[n].faults);
    }
  }

  // ----- repeated passes ----------------------------------------------------

  lemma {:induction false} PremakeAgain(c: Catalog, today: int, d: nat)
    requires d <= PREMAKE_DAYS
    requires forall day :: today + d <= day < today + PREMAKE_DAYS ==> LeafOfDay(day) in c.tables
    ensures Premake(c, today, d, NO_FAULTS) == (c, true)
    decreases PREMAKE_DAYS - d
  {
    hide LeafOfDay;
    if d < PREMAKE_DAYS {
      PremakeAgain(c, today, d + 1);
    }
  }

  lemma {:induction false} PremakeFillsTables(c: Catalog, today: int, d: nat, f: Faults)
    requires d <= PREMAKE_DAYS && Premake(c, today, d, f).1
    ensures c.tables <= Premake(c, today, d, f).0.tables
    ensures forall day :: today + d <= day < today + PREMAKE_DAYS ==>
              LeafOfDay(day) in Premake(c, today, d, f).0.tables
    decreases PREMAKE_DAYS - d
  {
    hide LeafOfDay, Blocked;
    if d < PREMAKE_DAYS {
      var made := CreateLeaf(c, LeafOfDay(today + d), DayRange(today + d)).value;
      PremakeFillsTables(made, today, d + 1, f);
    }
  }

  /** On any catalog whatever: a second pass on the same day changes nothing. */
  lemma SecondPassIsIdle(c: Catalog, now: int, later: int, retention: int, f: Faults)
    requires DayOf(now) == DayOf(later) && Pass(c, now, retention, f).1
    requires forall n :: !f.detachFails(n)
    ensures var once := Pass(c, now, retention, f).0;
            Pass(once, later, retention, NO_FAULTS) == (once, true)
  {
    hide LeafOfDay, Aged;
    var today := DayOf(now);
    var made := Premake(c, today, 0, f).0;
    var once := Pass(c, now, retention, f).0;
    PremakeFillsTables(c, today, 0, f);
    assert once.tables == made.tables;
    PremakeAgain(once, today, 0);
    assert Sweep(once, LeafOfDay(today - retention), NO_FAULTS).leaves == once.leaves;
  }

  // ----- exactly what an undisturbed pass does ------------------------------

  /** The day's leaf can be made, or its name is taken already. */
  predicate Free(c: Catalog, day: int) {
    LeafOfDay(day) in c.tables || !Blocked(c, DayRange(day))
  }

  /**
   With working DDL, premaking any catalog succeeds exactly when each missing day
   is free of the ranges already attached.
   */
  lemma {:induction false} PremakeSucceedsIff(c: Catalog, today: int, d: nat)
    requires d <= PREMAKE_DAYS && c.leaves.Keys <= c.tables
    requires InEra(today) && InEra(today + PREMAKE_DAYS - 1)
    ensures Premake(c, today, d, NO_FAULTS).1
       <==> forall day :: today + d <= day < today + PREMAKE_DAYS ==> Free(c, day)
    decreases PREMAKE_DAYS - d
  {
    hide LeafOfDay, Blocked;
    if d < PREMAKE_DAYS {
      var first := today + d;
      var created := CreateLeaf(c, LeafOfDay(first), DayRange(first));
      assert created.Some? <==> Free(c, first);
      if created.Some? {
        hide Free;
        forall day | first < day < today + PREMAKE_DAYS
          ensures Free(created.value, day) <==> Free(c, day)
        {
          NewLeafIrrelevant(c, first, day);
        }
        PremakeSucceedsIff(created.value, today, d + 1);
      }
    }
  }

  /** Creating one day's leaf neither blocks nor names another day. */
  lemma NewLeafIrrelevant(c: Catalog, first: int, day: int)
    requires c.leaves.Keys <= c.tables && InEra(first) && InEra(day) && first != day
    requires CreateLeaf(c, LeafOfDay(first), DayRange(first)).Some?
    ensures var made := CreateLeaf(c, LeafOfDay(first), DayRange(first)).value;
            && made.leaves.Keys <= made.tables
            && (Free(made, day) <==> Free(c, day))
            && (Attached(made, day) <==> Attached(c, day))
  {
    hide LeafOfDay;
    LeafOrderIsDayOrder(first, day);
    var name := LeafOfDay(first);
    var made := CreateLeaf(c, name, DayRange(first)).value;
    assert !Overlaps(DayRange(first), DayRange(day));
    forall n | n in c.leaves && Overlaps(c.leaves[n], DayRange(day))
      ensures n in made.leaves && Overlaps(made.leaves[n], DayRange(day))
    {
      assert n in c.tables;
    }
  }

  /** `day` is premade: it is one of the days from `first` up to the first one not free. */
  predicate Premade(c: Catalog, first: int, today: int, day: int) {
    first <= day < today + PREMAKE_DAYS && forall k :: first <= k <= day ==> Free(c, k)
  }

  lemma {:induction false} PremakeGrows(c: Catalog, from: int, today: int, d: nat, day: int)
    requires WellKept(c, from) && from <= today && d <= PREMAKE_DAYS && InEra(day)
    requires InEra(today) && InEra(today + PREMAKE_DAYS - 1)
    ensures Attached(Premake(c, today, d, NO_FAULTS).0, day) <==> Attached(c, day) || Premade(c, today + d, today, day)
    decreases PREMAKE_DAYS - d
  {
    hide LeafOfDay, WellKept, Attached, CreateLeaf, Free;
    if d < PREMAKE_DAYS {
      var first := today + d;
      var created := CreateLeaf(c, LeafOfDay(first), DayRange(first));
      assert created.Some? <==> Free(c, first) by { CreatedIffFree(c, first); }
      if created.Some? {
        KeysAreTables(c, from);
        CreateKeeps(c, from, first);
        forall k | first < k < today + PREMAKE_DAYS
          ensures Free(created.value, k) <==> Free(c, k)
        {
          NewLeafIrrelevant(c, first, k);
        }
        if day != first {
          NewLeafIrrelevant(c, first, day);
        }
        PremakeGrows(created.value, from, today, d + 1, day);
      }
    }
  }

  lemma CreatedIffFree(c: Catalog, day: int)
    ensures CreateLeaf(c, LeafOfDay(day), DayRange(day)).Some? <==> Free(c, day)
  {
    hide LeafOfDay;
  }

  lemma KeysAreTables(c: Catalog, from: int)
    requires WellKept(c, from)
    ensures c.leaves.Keys <= c.tables
  {
  }

  /**
   The whole effect of an undisturbed pass, for any retention, even a negative
   one. It succeeds iff its four days are free. A day has its leaf afterwards iff
   it had it, or is one of the four and no day before it in the pass was blocked;
   and, if the pass got as far as sweeping, it is not before the cutoff day.
   */
  lemma PassIsExact(c: Catalog, from: int, now: int, retention: int, day: int)
    requires WellKept(c, from) && from <= DayOf(now) && InEra(day)
    requires InEra(DayOf(now)) && InEra(DayOf(now) + PREMAKE_DAYS - 1) && Nameable(DayOf(now) - retention)
    ensures var (c', ok) := Pass(c, now, retention, NO_FAULTS);
            && (ok <==> forall k :: DayOf(now) <= k < DayOf(now) + PREMAKE_DAYS ==> Free(c, k))
            && (Attached(c', day) <==> (Attached(c, day) || Premade(c, DayOf(now), DayOf(now), day))
                                       && (ok ==> day >= DayOf(now) - retention))
  {
    hide LeafOfDay, StartsWith, WellKept, Premake, Free;
    var today := DayOf(now);
    KeysAreTables(c, from);
    PremakeSucceedsIff(c, today, 0);
    PremakeKeeps(c, from, today, 0, NO_FAULTS);
    PremakeGrows(c, from, today, 0, day);
    var made := Premake(c, today, 0, NO_FAULTS).0;
    if Attached(made, day) {
      SweepIsExact(made, from, today - retention, NO_FAULTS, day);
    }
  }

  /** Hence a pass that succeeds keeps the day it runs on iff retention is not negative. */
  lemma TodaySurvivesIff(c: Catalog, from: int, now: int, retention: int)
    requires WellKept(c, from) && from <= DayOf(now)
    requires InEra(DayOf(now)) && InEra(DayOf(now) + PREMAKE_DAYS - 1) && Nameable(DayOf(now) - retention)
    requires Pass(c, now, retention, NO_FAULTS).1
    ensures Attached(Pass(c, now, retention, NO_FAULTS).0, DayOf(now)) <==> retention >= 0
  {
    hide LeafOfDay, WellKept, Pass, Attached;
    PassIsExact(c, from, now, retention, DayOf(now));
  }

  // ----- names that are taken -----------------------------------------------

  /** Premaking leaves alone every name that is a table already. */
  lemma {:induction false} PremakeKeepsNames(c: Catalog, today: int, d: nat, f: Faults, n: string)
    requires d <= PREMAKE_DAYS && n in c.tables
    ensures n in Premake(c, today, d, f).0.leaves <==> n in c.leaves
    ensures n in Premake(c, today, d, f).0.tables
    decreases PREMAKE_DAYS - d
  {
    hide LeafOfDay, Blocked;
    if d < PREMAKE_DAYS && f.ddl(d) != CreateFails {
      var made := CreateLeaf(c, LeafOfDay(today + d), DayRange(today + d));
      if made.Some? {
        PremakeKeepsNames(made.value, today, d + 1, f, n);
      }
    }
  }

  lemma PremakeStep(c: Catalog, today: int, d: nat, f: Faults)
    requires d < PREMAKE_DAYS && Premake(c, today, d, f).1
    ensures var made := CreateLeaf(c, LeafOfDay(today + d), DayRange(today + d));
            made.Some? && Premake(c, today, d, f) == Premake(made.value, today, d + 1, f)
  {
    hide LeafOfDay, CreateLeaf;
  }

  lemma {:induction false} PremakeMakesMissing(c: Catalog, today: int, d: nat, f: Faults, day: int)
    requires d <= PREMAKE_DAYS && c.leaves.Keys <= c.tables && Premake(c, today, d, f).1
    requires InEra(today) && InEra(today + PREMAKE_DAYS - 1) && today + d <= day < today + PREMAKE_DAYS
    ensures LeafOfDay(day) in Premake(c, today, d, f).0.leaves
       <==> LeafOfDay(day) in c.leaves || LeafOfDay(day) !in c.tables
    decreases PREMAKE_DAYS - d
  {
    hide LeafOfDay, Blocked, StrLess;
    var first := today + d;
    var made := CreateLeaf(c, LeafOfDay(first), DayRange(first)).value;
    if day == first {
      hide Premake;
      PremakeStep(c, today, d, f);
      PremakeKeepsNames(made, today, d + 1, f, LeafOfDay(day));
    } else {
      hide Premake;
      PremakeStep(c, today, d, f);
      LeafOrderIsDayOrder(first, day);
      PremakeMakesMissing(made, today, d + 1, f, day);
    }
  }

  /**
   What a reported success is worth, on any catalog: each of the pass's four days
   has its leaf iff it had it, or its name was not a table. A day whose leaf was
   detached earlier keeps its name, so a pass that runs on it once more, the clock
   having gone back, reports success and leaves it without a partition.
   */
  lemma SuccessCoversIff(c: Catalog, now: int, retention: int, f: Faults, day: int)
    requires c.leaves.Keys <= c.tables && Sane(now, retention) && Pass(c, now, retention, f).1
    requires DayOf(now) <= day < DayOf(now) + PREMAKE_DAYS
    ensures LeafOfDay(day) in Pass(c, now, retention, f).0.leaves
       <==> LeafOfDay(day) in c.leaves || LeafOfDay(day) !in c.tables
  {
    hide LeafOfDay, Premake, StartsWith;
    PremakeMakesMissing(c, DayOf(now), 0, f, day);
    LeafOrderIsDayOrder(day, DayOf(now) - retention);
  }

  // ----- the seed leaf of a fresh install -----------------------------------

  const SEED := "events_raw_p2026"
  const SEED_FIRST_DAY := 20_454
  const SEED_END_DAY := 20_819
  const SEED_RANGE := Range(SEED_FIRST_DAY * SECS_PER_DAY, SEED_END_DAY * SECS_PER_DAY)
  const FRESH_INSTALL := Catalog({SEED}, map[SEED := SEED_RANGE])

  predicate In2026(day: int) {
    SEED_FIRST_DAY <= day < SEED_END_DAY
  }

  /** The seed leaf spans the year 2026. */
  lemma SeedIs2026(day: int)
    ensures In2026(day) <==> CivilFromDays(day).year == 2026
  {
    hide CivilFromDays;
    YearBoundary(2026, day);
    YearBoundary(2027, day);
  }

  lemma DailyNameIsLong(day: int)
    requires InEra(day)
    ensures |LeafOfDay(day)| == 22 && LeafOfDay(day) != SEED
  {
    hide CivilFromDays, LeafOfDay;
    EraInYears(day);
    LeafSpellsDate(day);
    CivilFromDaysCorrect(day);
    var d := CivilFromDays(day);
    assert Pow10(2) == 100 && Pow10(3) == 1000 && Pow10(4) == 10_000;
    ZeroFilledLength(d.year, 4);
    ZeroFilledLength(d.month, 2);
    ZeroFilledLength(d.day, 2);
    assert |SEED| == 16;
  }

  /** Every leaf is the seed, with its own range, or a daily one. */
  ghost predicate SeedOrDaily(c: Catalog) {
    forall n :: n in c.leaves ==> (n == SEED && c.leaves[n] == SEED_RANGE) || DailyLeaf(n, c.leaves[n])
  }

  /** What holds from installation on. */
  ghost predicate Installed(c: Catalog, from: int) {
    WellKept(c, from) && Disjoint(c) && SeedOrDaily(c)
  }

  lemma FreshInstallIsInstalled(from: int)
    ensures Installed(FRESH_INSTALL, from)
  {
    hide LeafOfDay;
    forall day | InEra(day)
      ensures LeafOfDay(day) != SEED
    {
      DailyNameIsLong(day);
    }
  }

  lemma CreateKeepsDaily(c: Catalog, day: int)
    requires SeedOrDaily(c) && InEra(day)
    ensures var made := CreateLeaf(c, LeafOfDay(day), DayRange(day));
            made.Some? ==> SeedOrDaily(made.value)
  {
    hide LeafOfDay, Blocked;
  }

  lemma {:induction false} PremakeKeepsDaily(c: Catalog, today: int, d: nat, f: Faults)
    requires SeedOrDaily(c) && d <= PREMAKE_DAYS && InEra(today) && InEra(today + PREMAKE_DAYS - 1)
    ensures SeedOrDaily(Premake(c, today, d, f).0)
    decreases PREMAKE_DAYS - d
  {
    hide LeafOfDay, CreateLeaf, SeedOrDaily;
    if d < PREMAKE_DAYS {
      CreateKeepsDaily(c, today + d);
      var made := CreateLeaf(c, LeafOfDay(today + d), DayRange(today + d));
      if made.Some? {
        PremakeKeepsDaily(made.value, today, d + 1, f);
      }
    }
  }

  lemma SweepKeepsDaily(c: Catalog, cutoffLeaf: string, f: Faults)
    requires SeedOrDaily(c)
    ensures SeedOrDaily(Sweep(c, cutoffLeaf, f))
  {
    hide DailyLeaf, Aged;
  }

  lemma PassStaysInstalled(c: Catalog, from: int, now: int, retention: int, f: Faults)
    requires Installed(c, from) && from <= DayOf(now) && Sane(now, retention)
    ensures Installed(Pass(c, now, retention, f).0, DayOf(now))
  {
    hide LeafOfDay, WellKept, Disjoint, Premake, SeedOrDaily, Sweep;
    PassKeeps(c, from, now, retention, f);
    PassKeepsDisjoint(c, now, retention, f);
    PremakeKeepsDaily(c, DayOf(now), 0, f);
    SweepKeepsDaily(Premake(c, DayOf(now), 0, f).0, LeafOfDay(DayOf(now) - retention), f);
  }

  lemma {:induction false} RunStaysInstalled(c: Catalog, from: int, passes: seq<PassInput>)
    requires Installed(c, from) && SaneRun(passes, from)
    ensures Installed(Run(c, passes), LastDay(passes, from))
  {
    hide Installed, Pass;
    if passes != [] {
      var n := |passes| - 1;
      RunStaysInstalled(c, from, passes[..n]);
      var p := passes[n];
      PassStaysInstalled(Run(c, passes[..n]), LastDay(passes[..n], from), p.now, p.retention, p.faults);
    }
  }

  lemma SeedIsWhole(c: Catalog, from: int)
    requires Installed(c, from) && SEED in c.leaves
    ensures c.leaves[SEED] == SEED_RANGE
  {
    hide LeafOfDay;
    if DailyLeaf(SEED, c.leaves[SEED]) {
      DailyNameIsLong(DayOf(c.leaves[SEED].lo));
    }
  }

  /** Beside the seed, only a day in 2026 that has no leaf yet is blocked. */
  lemma InstalledFreeIff(c: Catalog, from: int, day: int)
    requires Installed(c, from) && from <= day && InEra(day)
    ensures Free(c, day) <==> SEED !in c.leaves || !In2026(day)
  {
    hide LeafOfDay;
    DailyNameIsLong(day);
    if SEED in c.leaves && In2026(day) {
      SeedIsWhole(c, from);
      assert Overlaps(c.leaves[SEED], DayRange(day));
    } else if LeafOfDay(day) !in c.tables {
      forall n | n in c.leaves
        ensures !Overlaps(c.leaves[n], DayRange(day))
      {
      }
    }
  }

  lemma InstalledSucceedsIff(c: Catalog, from: int, now: int, retention: int)
    requires Installed(c, from) && from <= DayOf(now)
    requires InEra(DayOf(now)) && InEra(DayOf(now) + PREMAKE_DAYS - 1)
    ensures Pass(c, now, retention, NO_FAULTS).1
       <==> SEED !in c.leaves || forall k :: DayOf(now) <= k < DayOf(now) + PREMAKE_DAYS ==> !In2026(k)
  {
    hide LeafOfDay, Free, WellKept, Disjoint, SeedOrDaily, Premake;
    KeysAreTables(c, from);
    PremakeSucceedsIff(c, DayOf(now), 0);
    forall k | DayOf(now) <= k < DayOf(now) + PREMAKE_DAYS
      ensures Free(c, k) <==> SEED !in c.leaves || !In2026(k)
    {
      InstalledFreeIff(c, from, k);
    }
  }

  /**
   After any run of passes from a fresh install, the next undisturbed pass
   succeeds iff the seed leaf is gone or none of the pass's four days is in 2026.
   */
  lemma InstalledPassIff(from: int, passes: seq<PassInput>, now: int, retention: int)
    requires SaneRun(passes, from) && LastDay(passes, from) <= DayOf(now)
    requires InEra(DayOf(now)) && InEra(DayOf(now) + PREMAKE_DAYS - 1)
    ensures var c := Run(FRESH_INSTALL, passes);
            (Pass(c, now, retention, NO_FAULTS).1
             <==> SEED !in c.leaves || forall k :: DayOf(now) <= k < DayOf(now) + PREMAKE_DAYS ==> !In2026(k))
  {
    hide LeafOfDay, Installed, Pass;
    FreshInstallIsInstalled(from);
    RunStaysInstalled(FRESH_INSTALL, from, passes);
    InstalledSucceedsIff(Run(FRESH_INSTALL, passes), LastDay(passes, from), now, retention);
  }

  /** A pass that runs in 2026 fails and changes nothing while only the seed is there. */
  lemma SeedBlocksPass(now: int, retention: int, f: Faults)
    requires In2026(DayOf(now))
    ensures Pass(FRESH_INSTALL, now, retention, f) == (FRESH_INSTALL, false)
  {
    hide LeafOfDay;
    var today := DayOf(now);
    FreshInstallIsInstalled(today);
    InstalledFreeIff(FRESH_INSTALL, today, today);
    assert SEED in FRESH_INSTALL.leaves;
    CreatedIffFree(FRESH_INSTALL, today);
  }

  /**
   Whatever passes run during 2026 after an installation, the catalog stays the
   installed one: no instant outside 2026 has a leaf until the first pass in 2027.
   */
  lemma {:induction false} SeedStalls2026(passes: seq<PassInput>)
    requires forall i :: 0 <= i < |passes| ==> In2026(DayOf(passes[i].now))
    ensures Run(FRESH_INSTALL, passes) == FRESH_INSTALL
    ensures forall i :: 0 <= i < |passes| ==> !Succeeded(FRESH_INSTALL, passes, i)
    ensures forall n, t :: n in Run(FRESH_INSTALL, passes).leaves
                           && Run(FRESH_INSTALL, passes).leaves[n].lo <= t < Run(FRESH_INSTALL, passes).leaves[n].hi
                           ==> In2026(DayOf(t))
  {
    hide Pass;
    if passes != [] {
      var n := |passes| - 1;
      SeedStalls2026(passes[..n]);
      SeedBlocksPass(passes[n].now, passes[n].retention, passes[n].faults);
      forall i | 0 <= i < n
        ensures !Succeeded(FRESH_INSTALL, passes, i)
      {
        assert passes[..n][..i] == passes[..i];
        assert !Succeeded(FRESH_INSTALL, passes[..n], i);
      }
    }
  }

  /**
   The sweep takes the seed leaf as soon as the cutoff enters 2026, although its
   rows go on to the end of that year.
   */
  lemma SeedSweptIff(c: Catalog, cutoff: int)
    requires SEED in c.leaves && Nameable(cutoff)
    ensures SEED !in Sweep(c, LeafOfDay(cutoff), NO_FAULTS).leaves <==> cutoff >= SEED_FIRST_DAY
  {
    hide LeafOfDay, StrLess, StartsWith;
    SeedHasPrefix();
    SeedBeforeIff(cutoff);
  }

  lemma SeedHasPrefix()
    ensures SEED == LEAF_PREFIX + "2026" && StartsWith(SEED, LEAF_PREFIX)
  {
  }

  lemma SeedBeforeIff(cutoff: int)
    requires Nameable(cutoff)
    ensures StrLess(SEED, LeafOfDay(cutoff)) <==> cutoff >= SEED_FIRST_DAY
  {
    hide CivilFromDays, LeafOfDay, DateSuffix, StrLess;
    SeedHasPrefix();
    EraInYears(cutoff);
    LeafSpellsDate(cutoff);
    YearBoundary(2026, cutoff);
    SeedAgedIff(CivilFromDays(cutoff));
  }

  lemma SeedAgedIff(d: Date)
    requires d.year <= 9999
    ensures StrLess(LEAF_PREFIX + "2026", LEAF_PREFIX + DateSuffix(d)) <==> d.year >= 2026
  {
    hide StrLess, DateSuffix;
    StrLessAppend(LEAF_PREFIX, "2026", DateSuffix(d));
    Suffix2026(d);
  }

  lemma Numeral2026()
    ensures ZeroFilled(2026, 4) == "2026"
  {
    hide ZeroFilled;
    OneDigit(2);
    NextDigit(2, 1, 0);
    NextDigit(20, 2, 2);
    NextDigit(202, 3, 6);
  }

  lemma Suffix2026(d: Date)
    requires d.year <= 9999
    ensures StrLess("2026", DateSuffix(d)) <==> d.year >= 2026
  {
    hide StrLess, ZeroFilled;
    var rest := "_" + (Formatted(d.month, 2) + ("_" + Formatted(d.day, 2)));
    Numeral2026();
    assert "2026" + "" == "2026";
    assert Pow10(0) == 1 && Pow10(1) == 10 && Pow10(2) == 100 && Pow10(3) == 1000 && Pow10(4) == 10_000;
    StrLessAsymmetric("2026", DateSuffix(d));
    if d.year < 0 {
      MinusSortsFirst("2026", DateSuffix(d));
    } else if d.year < 2026 {
      NumeralOrder(d.year, 2026, 4, rest, "");
    } else if d.year > 2026 {
      NumeralOrder(2026, d.year, 4, "", rest);
    } else {
      StrLessAppend("2026", "", rest);
      EmptyIsLeast(rest);
    }
  }

  lemma MinusSortsFirst(s: string, t: string)
    requires s != "" && t != "" && '-' == t[0] && '-' < s[0]
    ensures !StrLess(s, t)
  {
  }

  lemma EmptyIsLeast(t: string)
    ensures StrLess("", t) <==> t != ""
  {
  }
}
