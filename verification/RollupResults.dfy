/** What the rollup table says in the end: one GROUP BY over every event ever inserted. */
module RollupResults {
  import opened Prelude
  import opened Rollup
  import opened RollupRunners

  // ----- the one-shot GROUP BY ----------------------------------------------

  /** Rollup rows of the hours in `[lo, hi)`. */
  function RowsBetween(rollup: map<Key, nat>, lo: int, hi: int): map<Key, nat> {
    map k | k in rollup && lo <= k.hour < hi :: rollup[k]
  }

  ghost function RowTotal(m: map<Key, nat>): nat {
    if m == map[] then 0 else var k :| k in m; m[k] + RowTotal(m - {k})
  }

  lemma {:induction false} RowTotalRemove(m: map<Key, nat>, k: Key)
    requires k in m
    ensures RowTotal(m) == m[k] + RowTotal(m - {k})
  {
    var j :| j in m && RowTotal(m) == m[j] + RowTotal(m - {j});
    if j != k {
      RowTotalRemove(m - {j}, k);
      RowTotalRemove(m - {k}, j);
      assert m - {j} - {k} == m - {k} - {j};
    }
  }

  lemma RowTotalAdd(m: map<Key, nat>, k: Key)
    ensures RowTotal(m[k := (if k in m then m[k] else 0) + 1]) == RowTotal(m) + 1
  {
    var m' := m[k := (if k in m then m[k] else 0) + 1];
    RowTotalRemove(m', k);
    assert m' - {k} == m - {k};
    if k in m {
      RowTotalRemove(m, k);
    } else {
      assert m - {k} == m;
    }
  }

  lemma GroupByAppend(es: seq<Event>, e: Event)
    ensures var g, k := GroupBy(es), KeyOf(e);
            GroupBy(es + [e]) == g[k := (if k in g then g[k] else 0) + 1]
  {
    hide KeyOf, GroupBy, Count;
    var g, g' := GroupBy(es), GroupBy(es + [e]);
    forall k
      ensures k in g' <==> k in g || k == KeyOf(e)
      ensures k in g' ==> g'[k] == (if k in g then g[k] else 0) + if k == KeyOf(e) then 1 else 0
    {
      GroupByAt(es, k);
      GroupByAt(es + [e], k);
      CountAppend(es, e, k);
    }
  }

  lemma NoGroups()
    ensures GroupBy([]) == map[] && RowTotal(map[]) == 0
  {
  }

  /** Grouping loses no event: the counts add up to the number of rows grouped. */
  lemma {:induction false} GroupTotals(es: seq<Event>)
    ensures RowTotal(GroupBy(es)) == |es|
  {
    hide GroupBy, KeyOf, RowTotal, Count;
    if es == [] {
      NoGroups();
    } else {
      var init, last := es[..|es| - 1], es[|es| - 1];
      GroupTotals(init);
      GroupByAppend(init, last);
      RowTotalAdd(GroupBy(init), KeyOf(last));
      assert es == init + [last];
    }
  }

  lemma GroupKeysInRange(es: seq<Event>, lo: int, hi: int, k: Key)
    requires lo % HOUR == 0 && hi % HOUR == 0 && k in GroupBy(Window(es, lo, hi))
    ensures k.hour % HOUR == 0 && lo <= k.hour < hi
  {
    hide Window, Count, GroupBy;
    var w := Window(es, lo, hi);
    GroupByAt(w, k);
    CountPositive(w, k);
    var e :| e in w && KeyOf(e) == k;
    WindowMembers(es, lo, hi, e);
    HourBounds(e, lo);
    HourBounds(e, hi);
  }

  /** Exact hours, taken together, are one GROUP BY over their whole span. */
  lemma ExactIsOneGroupBy(db: Db, lo: int, hi: int)
    requires Exact(db, lo, hi) && NoEmptyRows(db, lo) && lo % HOUR == 0 && hi % HOUR == 0
    ensures RowsBetween(db.rollup, lo, hi) == GroupBy(Window(db.events, lo, hi))
  {
    hide Window, Count, GroupBy;
    var groups := GroupBy(Window(db.events, lo, hi));
    var rows := RowsBetween(db.rollup, lo, hi);
    forall k | k in rows
      ensures k in groups && rows[k] == groups[k]
    {
      assert ExactAt(db, k);
      CountInWiderWindow(db.events, lo, hi, k);
      GroupByAt(Window(db.events, lo, hi), k);
    }
    forall k | k in groups
      ensures k in rows
    {
      GroupKeysInRange(db.events, lo, hi, k);
      assert ExactAt(db, k);
      CountInWiderWindow(db.events, lo, hi, k);
      GroupByAt(Window(db.events, lo, hi), k);
    }
  }

  /**
   Main result, for any number of overlapping runners and any retention that waits
   for the watermark: below the stored watermark the table is what one GROUP BY
   over all events ever inserted would produce, detached ones included, and its
   counts add up to the number of non-duplicate events there.
   */
  lemma RollupIsOneGroupBy(events: seq<Event>, lo: int, settled: int, steps: seq<Step>)
    requires lo % HOUR == 0 && settled % HOUR == 0 && lo <= settled
    requires ValidRun(Fresh(events, lo, settled), steps) && PassedDays(Fresh(events, lo, settled), steps)
    ensures var s := Exec(Fresh(events, lo, settled), steps);
            && s.db.watermark % HOUR == 0
            && RowsBetween(s.db.rollup, lo, s.db.watermark) == GroupBy(Window(s.all, lo, s.db.watermark))
            && RowTotal(RowsBetween(s.db.rollup, lo, s.db.watermark)) == |Window(s.all, lo, s.db.watermark)|
  {
    hide ValidRun, Exec, NoEmptyRows, Exact, RunnerInv, PassedDays, DaysDone;
    InitInv(events, lo, settled);
    RunKeeps(Fresh(events, lo, settled), lo, steps);
    var s := Exec(Fresh(events, lo, settled), steps);
    ExactIsOneGroupBy(Full(s), lo, s.db.watermark);
    GroupTotals(Window(s.all, lo, s.db.watermark));
  }

  /** A dimension of a row stands for an event's own value, 0 also for a missing one. */
  predicate Covers(column: int, value: Option<int>) {
    match value case None => column == 0 case Some(v) => column == v
  }

  /** The event belongs to the row, column by column. */
  predicate BelongsTo(e: Event, k: Key) {
    && !e.duplicate && k.hour * 1000 <= e.ts < (k.hour + HOUR) * 1000
    && e.project == k.project && e.kind == k.kind
    && Covers(k.site, e.site) && Covers(k.zone, e.zone) && Covers(k.flight, e.flight)
    && Covers(k.ad, e.ad) && Covers(k.creative, e.creative)
  }

  function Tally(es: seq<Event>, k: Key): nat {
    if es == [] then 0 else Tally(es[..|es| - 1], k) + if BelongsTo(es[|es| - 1], k) then 1 else 0
  }

  lemma BelongsIsKey(e: Event, k: Key)
    requires k.hour % HOUR == 0
    ensures BelongsTo(e, k)
       <==> !e.duplicate && k.hour * 1000 <= e.ts < (k.hour + HOUR) * 1000 && KeyOf(e) == k
  {
    HourBounds(e, k.hour);
  }

  lemma {:induction false} TallyIsCount(es: seq<Event>, k: Key)
    requires k.hour % HOUR == 0
    ensures Tally(es, k) == Count(Window(es, k.hour, k.hour + HOUR), k)
  {
    hide KeyOf, BelongsTo, Window, Count;
    if es == [] {
      EmptyWindow(k);
    } else {
      var init, last := es[..|es| - 1], es[|es| - 1];
      TallyIsCount(init, k);
      BelongsIsKey(last, k);
      WindowStep(es, k.hour, k.hour + HOUR);
      CountAppend(Window(init, k.hour, k.hour + HOUR), last, k);
    }
  }

  lemma EmptyCount(k: Key)
    ensures Count([], k) == 0
  {
  }

  lemma EmptyWindow(k: Key)
    ensures Count(Window([], k.hour, k.hour + HOUR), k) == 0
  {
  }

  /** Row by row: below the watermark a row says how many events belong to it, or is absent. */
  lemma RowsCountTheirEvents(s: State, lo: int, steps: seq<Step>, k: Key)
    requires Inv(s, lo) && ValidRun(s, steps) && PassedDays(s, steps) && k.hour % HOUR == 0
    requires lo <= k.hour < Exec(s, steps).db.watermark
    ensures var s' := Exec(s, steps);
            if Tally(s'.all, k) == 0 then k !in s'.db.rollup
            else k in s'.db.rollup && s'.db.rollup[k] == Tally(s'.all, k)
  {
    hide ValidRun, Exec, NoEmptyRows, RunnerInv, PassedDays, DaysDone;
    RunKeeps(s, lo, steps);
    var s' := Exec(s, steps);
    assert ExactAt(Full(s'), k);
    TallyIsCount(s'.all, k);
  }

  /** And each runner is right about the hours it has passed, however old its view. */
  lemma RunnersAreRight(s: State, lo: int, steps: seq<Step>, p: int)
    requires Inv(s, lo) && ValidRun(s, steps) && PassedDays(s, steps) && RunnerOf(Exec(s, steps), p).Looping?
    ensures var s' := Exec(s, steps);
            var done := Min(RunnerOf(s', p).wm, RunnerOf(s', p).target);
            RowsBetween(s'.db.rollup, lo, done) == GroupBy(Window(s'.all, lo, done))
  {
    hide ValidRun, Exec, NoEmptyRows, Exact, PassedDays, DaysDone;
    RunKeeps(s, lo, steps);
    var s' := Exec(s, steps);
    ExactIsOneGroupBy(Full(s'), lo, Min(RunnerOf(s', p).wm, RunnerOf(s', p).target));
  }

  // ----- detaching too early ------------------------------------------------

  /** A step leaves the rows of a day that is detached before it as they are, and their events too. */
  lemma StepFreezesDetached(s: State, step: Step, k: Key)
    requires Enabled(s, step) && s.db.events == Remaining(s.all, s.detached)
    requires k.hour % HOUR == 0 && k.hour / DAY in s.detached
    requires forall p :: p in s.runners && s.runners[p].Looping? ==> s.runners[p].wm % HOUR == 0
    ensures var s' := Next(s, step);
            && s'.db.events == Remaining(s'.all, s'.detached) && k.hour / DAY in s'.detached
            && (ExactAt(Full(s'), k) <==> ExactAt(Full(s), k))
  {
    hide Remaining, ExactAt, AggregateAndAdvance;
    match step
    case Insert(e) => InsertFreezes(s, e, k);
    case Detach(days) => RemainingTwice(s.all, s.detached, days);
    case Hour(p) => HourFreezes(s, RunnerOf(s, p).wm, k);
    case Jump(p) => WatermarkIrrelevant(Full(s), RunnerOf(s, p).target, k);
    case _ =>
  }

  lemma InsertFreezes(s: State, e: Event, k: Key)
    requires Enabled(s, Insert(e)) && s.db.events == Remaining(s.all, s.detached)
    requires k.hour % HOUR == 0 && k.hour / DAY in s.detached
    ensures var s' := Next(s, Insert(e));
            s'.db.events == Remaining(s'.all, s'.detached) && (ExactAt(Full(s'), k) <==> ExactAt(Full(s), k))
  {
    hide Window, Count;
    var all := s.all + [e];
    assert all[..|s.all|] == s.all;
    if k.hour * 1000 <= e.ts < (k.hour + HOUR) * 1000 {
      HourInDay(e, k.hour);
    }
    WindowStep(all, k.hour, k.hour + HOUR);
  }

  lemma HourFreezes(s: State, h: int, k: Key)
    requires s.db.events == Remaining(s.all, s.detached) && h % HOUR == 0
    requires k.hour % HOUR == 0 && k.hour / DAY in s.detached
    ensures var after := AggregateAndAdvance(s.db, h, h + HOUR);
            after.events == s.db.events && (ExactAt(after.(events := s.all), k) <==> ExactAt(Full(s), k))
  {
    hide Window, Count, Remaining, GroupBy;
    WatermarkAfterHour(s.db, h);
    WindowOfRemaining(s.all, s.detached, h);
    var w := Window(s.db.events, h, h + HOUR);
    GroupByAt(w, k);
    if Count(w, k) > 0 {
      GroupHasHour(s.db.events, h, k);
      EmptyCount(k);
    }
  }

  predicate AlignedRunners(s: State) {
    && s.db.watermark % HOUR == 0
    && forall p :: p in s.runners ==>
         match s.runners[p]
         case Idle => true
         case Started(wm) => wm % HOUR == 0
         case Probing(wm, target) => wm % HOUR == 0 && target % HOUR == 0
         case Looping(wm, target) => wm % HOUR == 0 && target % HOUR == 0
         case Jumping(target) => target % HOUR == 0
  }

  lemma StepKeepsAligned(s: State, step: Step)
    requires AlignedRunners(s) && Enabled(s, step)
    ensures AlignedRunners(Next(s, step))
  {
    hide AggregateAndAdvance, Remaining;
    match step
    case Clock(_, now) => TargetIsSettledHour(now);
    case Probe(_) => EarliestIsLeast(s.db.events);
    case Hour(p) => WatermarkAfterHour(s.db, s.runners[p].wm);
    case _ =>
  }

  /**
   Why retention has to wait: once a day is detached, whether a row of it is right
   never changes again. A day detached before it is summarised stays wrong for ever,
   although the watermark goes on past it.
   */
  lemma {:induction false} DetachedRowsAreFrozen(s: State, steps: seq<Step>, k: Key)
    requires ValidRun(s, steps) && AlignedRunners(s) && s.db.events == Remaining(s.all, s.detached)
    requires k.hour % HOUR == 0 && k.hour / DAY in s.detached
    ensures ExactAt(Full(Exec(s, steps)), k) <==> ExactAt(Full(s), k)
    decreases |steps|
  {
    hide ExactAt, Next, Enabled, Remaining;
    if steps != [] {
      assert forall p :: p in s.runners && s.runners[p].Looping? ==> s.runners[p].wm % HOUR == 0;
      StepFreezesDetached(s, steps[0], k);
      StepKeepsAligned(s, steps[0]);
      DetachedRowsAreFrozen(Next(s, steps[0]), steps[1..], k);
    }
  }
}
