/**
 Any number of rollup runners, interleaved transaction by transaction with each
 other, with crashes, with arriving events and with the retention sweep, which
 takes whole days of raw events away. Leadership may overlap, so nothing here
 assumes that only one runner is active.
 */
module RollupRunners {
  import opened Prelude
  import opened Rollup

  const DAY := 24 * HOUR

  /** Where one `run_once` call stands between two transactions. */
  datatype Runner =
    | Idle
    | Started(wm: int)
    | Probing(wm: int, target: int)
    | Looping(wm: int, target: int)
    | Jumping(target: int)

  /**
   `all` are the events ever inserted; `db.events` are those of them whose day has
   not been detached. No event before second `settled` arrives any more.
   */
  datatype State = State(db: Db, all: seq<Event>, detached: set<int>, runners: map<int, Runner>, settled: int)

  datatype Step =
    | Insert(e: Event)
    | Detach(days: set<int>)
    | Read(p: int)
    | Clock(p: int, now: int)
    | Probe(p: int)
    | Jump(p: int)
    | Hour(p: int)
    | Finish(p: int)
    | Crash(p: int)

  function RunnerOf(s: State, p: int): Runner {
    if p in s.runners then s.runners[p] else Idle
  }

  function EventDay(e: Event): int {
    e.ts / (DAY * 1000)
  }

  /** Events of the days that are still attached. */
  function Remaining(es: seq<Event>, detached: set<int>): seq<Event> {
    if es == [] then []
    else
      var e := es[|es| - 1];
      Remaining(es[..|es| - 1], detached) + if EventDay(e) in detached then [] else [e]
  }

  /** An event of a detached day has no partition to go to. */
  predicate Enabled(s: State, step: Step) {
    match step
    case Insert(e) => s.settled * 1000 <= e.ts && EventDay(e) !in s.detached
    case Detach(_) => true
    case Read(p) => RunnerOf(s, p).Idle?
    case Clock(p, _) => RunnerOf(s, p).Started?
    case Probe(p) => RunnerOf(s, p).Probing?
    case Jump(p) => RunnerOf(s, p).Jumping?
    case Hour(p) => RunnerOf(s, p).Looping? && RunnerOf(s, p).wm < RunnerOf(s, p).target
    case Finish(p) => RunnerOf(s, p).Looping? && RunnerOf(s, p).wm >= RunnerOf(s, p).target
    case Crash(p) => true
  }

  function Put(s: State, p: int, r: Runner): State {
    s.(runners := s.runners[p := r])
  }

  function Next(s: State, step: Step): State
    requires Enabled(s, step)
  {
    match step
    case Insert(e) => s.(db := s.db.(events := s.db.events + [e]), all := s.all + [e])
    case Detach(days) =>
      s.(db := s.db.(events := Remaining(s.db.events, days)), detached := s.detached + days)
    case Read(p) => Put(s, p, Started(s.db.watermark))
    case Clock(p, now) =>
      var wm, target := RunnerOf(s, p).wm, Target(now);
      Put(s, p, if target - wm > COLD_START_GAP then Probing(wm, target) else Looping(wm, target))
      .(settled := Max(s.settled, target))
    case Probe(p) =>
      var Probing(wm, target) := RunnerOf(s, p);
      (match EarliestHour(s.db.events)
       case Some(earliest) => Put(s, p, Looping(Max(wm, earliest), target))
       case None => Put(s, p, Jumping(target)))
    case Jump(p) => Put(s, p, Idle).(db := s.db.(watermark := RunnerOf(s, p).target))
    case Hour(p) =>
      var Looping(wm, target) := RunnerOf(s, p);
      Put(s, p, Looping(wm + HOUR, target)).(db := AggregateAndAdvance(s.db, wm, wm + HOUR))
    case Finish(p) => Put(s, p, Idle)
    case Crash(p) => Put(s, p, Idle)
  }

  predicate ValidRun(s: State, steps: seq<Step>)
    decreases |steps|
  {
    steps == [] || (Enabled(s, steps[0]) && ValidRun(Next(s, steps[0]), steps[1..]))
  }

  function Exec(s: State, steps: seq<Step>): State
    requires ValidRun(s, steps)
    decreases |steps|
  {
    if steps == [] then s else Exec(Next(s, steps[0]), steps[1..])
  }

  // ----- the invariant ------------------------------------------------------

  /** The tables as they would be had no leaf ever been detached. */
  function Full(s: State): Db {
    s.db.(events := s.all)
  }

  ghost predicate RunnerInv(full: Db, settled: int, lo: int, r: Runner) {
    match r
    case Idle => true
    case Started(wm) => wm % HOUR == 0 && wm <= settled && Exact(full, lo, wm)
    case Probing(wm, target) =>
      wm % HOUR == 0 && wm <= settled && Exact(full, lo, wm) && target % HOUR == 0 && target <= settled
    case Looping(wm, target) =>
      wm % HOUR == 0 && target % HOUR == 0 && target <= settled && Exact(full, lo, Min(wm, target))
    case Jumping(target) => target % HOUR == 0 && target <= settled && Exact(full, lo, target)
  }

  /** The rows of detached days count the events that have gone. */
  ghost predicate DaysDone(full: Db, lo: int, detached: set<int>) {
    forall k: Key :: k.hour % HOUR == 0 && lo <= k.hour && k.hour / DAY in detached ==> ExactAt(full, k)
  }

  /**
   Below the stored watermark, below what each runner believes, and on detached
   days, all rows are exact with respect to the events ever inserted.
   */
  ghost predicate Inv(s: State, lo: int) {
    && lo % HOUR == 0 && s.db.watermark % HOUR == 0 && s.settled % HOUR == 0
    && s.db.watermark <= s.settled
    && s.db.events == Remaining(s.all, s.detached)
    && NoEmptyRows(Full(s), lo)
    && Exact(Full(s), lo, s.db.watermark)
    && DaysDone(Full(s), lo, s.detached)
    && forall p :: p in s.runners ==> RunnerInv(Full(s), s.settled, lo, s.runners[p])
  }

  /** A fresh system: `events` so far, nothing rolled up, nobody running. */
  function Fresh(events: seq<Event>, lo: int, settled: int): State {
    State(Db(events, map[], lo), events, {}, map[], settled)
  }

  /** A fresh system with an empty rollup starts exact from its watermark on. */
  lemma InitInv(events: seq<Event>, lo: int, settled: int)
    requires lo % HOUR == 0 && settled % HOUR == 0 && lo <= settled
    ensures Inv(Fresh(events, lo, settled), lo)
  {
    AllRemain(events);
  }

  lemma {:induction false} AllRemain(es: seq<Event>)
    ensures Remaining(es, {}) == es
  {
    if es != [] {
      AllRemain(es[..|es| - 1]);
    }
  }

  // ----- detached days ------------------------------------------------------

  lemma {:induction false} RemainingTwice(es: seq<Event>, detached: set<int>, days: set<int>)
    ensures Remaining(Remaining(es, detached), days) == Remaining(es, detached + days)
  {
    if es != [] {
      var init, last := es[..|es| - 1], es[|es| - 1];
      RemainingTwice(init, detached, days);
      assert (Remaining(init, detached) + [last])[..|Remaining(init, detached)|] == Remaining(init, detached);
      assert Remaining(init, detached) + [] == Remaining(init, detached);
      assert Remaining(init, detached + days) + [] == Remaining(init, detached + days);
    }
  }

  lemma {:induction false} RemainingMembers(es: seq<Event>, detached: set<int>, e: Event)
    ensures e in Remaining(es, detached) <==> e in es && EventDay(e) !in detached
  {
    if es != [] {
      RemainingMembers(es[..|es| - 1], detached, e);
      assert es == es[..|es| - 1] + [es[|es| - 1]];
    }
  }

  /** The events of an hour are those of its day's leaf: all there, or all gone. */
  lemma HourInDay(e: Event, h: int)
    requires h % HOUR == 0 && h * 1000 <= e.ts < (h + HOUR) * 1000
    ensures EventDay(e) == h / DAY
  {
    var day, hour := h / DAY, h / HOUR;
    assert h == hour * HOUR && 24 * day <= hour < 24 * (day + 1);
    assert day * (DAY * 1000) <= e.ts < (day + 1) * (DAY * 1000);
  }

  lemma {:induction false} WindowOfRemaining(es: seq<Event>, detached: set<int>, h: int)
    requires h % HOUR == 0
    ensures Window(Remaining(es, detached), h, h + HOUR)
         == if h / DAY in detached then [] else Window(es, h, h + HOUR)
  {
    if es != [] {
      hide Window;
      var init, last := es[..|es| - 1], es[|es| - 1];
      WindowOfRemaining(init, detached, h);
      WindowStep(es, h, h + HOUR);
      if h * 1000 <= last.ts < (h + HOUR) * 1000 {
        HourInDay(last, h);
      }
      if EventDay(last) in detached {
        assert Remaining(es, detached) == Remaining(init, detached);
      } else {
        var left := Remaining(init, detached) + [last];
        assert Remaining(es, detached) == left && left[..|left| - 1] == Remaining(init, detached);
        WindowStep(left, h, h + HOUR);
      }
    }
  }

  /**
   The condition for taking a leaf away: the stored watermark has passed all its
   days. The sweep does not look at it; it relies on a long enough retention.
   */
  predicate Passed(s: State, days: set<int>) {
    forall day :: day in days ==> (day + 1) * DAY <= s.db.watermark
  }

  lemma DetachKeeps(s: State, lo: int, days: set<int>)
    requires Inv(s, lo) && Passed(s, days)
    ensures Inv(Next(s, Detach(days)), lo)
  {
    hide ExactAt, NoEmptyRows, RunnerInv, Remaining;
    RemainingTwice(s.all, s.detached, days);
    var s' := Next(s, Detach(days));
    assert Full(s') == Full(s);
    forall k: Key | k.hour % HOUR == 0 && lo <= k.hour && k.hour / DAY in s'.detached
      ensures ExactAt(Full(s'), k)
    {
      if k.hour / DAY in days {
        assert (k.hour / DAY + 1) * DAY <= s.db.watermark;
      }
    }
  }

  // ----- arrivals -----------------------------------------------------------

  lemma InsertKeepsKey(db: Db, e: Event, k: Key)
    ensures var db' := db.(events := db.events + [e]);
            && Count(Window(db'.events, k.hour, k.hour + HOUR), k)
               >= Count(Window(db.events, k.hour, k.hour + HOUR), k)
            && (!(k.hour * 1000 <= e.ts < (k.hour + HOUR) * 1000) && ExactAt(db, k) ==> ExactAt(db', k))
  {
    hide KeyOf, Window, Count;
    assert (db.events + [e])[..|db.events|] == db.events;
    WindowStep(db.events + [e], k.hour, k.hour + HOUR);
    CountAppend(Window(db.events, k.hour, k.hour + HOUR), e, k);
  }

  lemma InsertKeepsExact(db: Db, e: Event, lo: int, hi: int)
    requires Exact(db, lo, hi) && hi % HOUR == 0 && hi * 1000 <= e.ts
    ensures Exact(db.(events := db.events + [e]), lo, hi)
  {
    hide ExactAt, Window, Count;
    forall k: Key | k.hour % HOUR == 0 && lo <= k.hour < hi
      ensures ExactAt(db.(events := db.events + [e]), k)
    {
      InsertKeepsKey(db, e, k);
    }
  }

  lemma InsertKeepsDays(db: Db, e: Event, lo: int, detached: set<int>)
    requires DaysDone(db, lo, detached) && EventDay(e) !in detached
    ensures DaysDone(db.(events := db.events + [e]), lo, detached)
  {
    hide ExactAt, Window, Count;
    forall k: Key | k.hour % HOUR == 0 && lo <= k.hour && k.hour / DAY in detached
      ensures ExactAt(db.(events := db.events + [e]), k)
    {
      InsertKeepsKey(db, e, k);
      if k.hour * 1000 <= e.ts < (k.hour + HOUR) * 1000 {
        HourInDay(e, k.hour);
      }
    }
  }

  lemma InsertKeepsRows(db: Db, e: Event, lo: int)
    requires NoEmptyRows(db, lo)
    ensures NoEmptyRows(db.(events := db.events + [e]), lo)
  {
    hide ExactAt, Window, Count;
    var db' := db.(events := db.events + [e]);
    forall k | k in db'.rollup && lo <= k.hour
      ensures k.hour % HOUR == 0 && Count(Window(db'.events, k.hour, k.hour + HOUR), k) > 0
    {
      InsertKeepsKey(db, e, k);
    }
  }

  lemma InsertKeepsRunner(db: Db, e: Event, settled: int, lo: int, r: Runner)
    requires RunnerInv(db, settled, lo, r) && settled * 1000 <= e.ts
    ensures RunnerInv(db.(events := db.events + [e]), settled, lo, r)
  {
    hide Exact;
    match r
    case Idle =>
    case Started(wm) => InsertKeepsExact(db, e, lo, wm);
    case Probing(wm, _) => InsertKeepsExact(db, e, lo, wm);
    case Looping(wm, target) => InsertKeepsExact(db, e, lo, Min(wm, target));
    case Jumping(target) => InsertKeepsExact(db, e, lo, target);
  }

  lemma InsertKeeps(s: State, lo: int, e: Event)
    requires Inv(s, lo) && Enabled(s, Insert(e))
    ensures Inv(Next(s, Insert(e)), lo)
  {
    hide Exact, NoEmptyRows, DaysDone, RunnerInv;
    var s' := Next(s, Insert(e));
    assert Full(s') == Full(s).(events := Full(s).events + [e]);
    assert s'.all[..|s.all|] == s.all;
    InsertKeepsExact(Full(s), e, lo, s.db.watermark);
    InsertKeepsRows(Full(s), e, lo);
    InsertKeepsDays(Full(s), e, lo, s.detached);
    forall p | p in s'.runners
      ensures RunnerInv(Full(s'), s'.settled, lo, s'.runners[p])
    {
      InsertKeepsRunner(Full(s), e, s.settled, lo, s.runners[p]);
    }
  }

  // ----- the runners --------------------------------------------------------

  /** An hour's transaction keeps all exact stretches and adds its own hour. */
  lemma HourKeepsExact(db: Db, lo: int, hi: int, h: int)
    requires NoEmptyRows(db, lo) && Exact(db, lo, hi) && h % HOUR == 0
    ensures Exact(AggregateAndAdvance(db, h, h + HOUR), lo, hi)
    ensures hi == h ==> Exact(AggregateAndAdvance(db, h, h + HOUR), lo, h + HOUR)
  {
    hide ExactAt, AggregateAndAdvance, NoEmptyRows;
    var db' := AggregateAndAdvance(db, h, h + HOUR);
    forall k: Key | k.hour % HOUR == 0 && lo <= k.hour && (ExactAt(db, k) || k.hour == h)
      ensures ExactAt(db', k)
    {
      RowHasEvents(db, lo, k);
      HourBecomesExact(db, h, k);
    }
    if hi == h {
      forall k: Key | k.hour % HOUR == 0 && lo <= k.hour < h + HOUR
        ensures ExactAt(db', k)
      {
        NoHourBetween(k.hour, h);
      }
    }
  }

  lemma RowHasEvents(db: Db, lo: int, k: Key)
    requires NoEmptyRows(db, lo) && lo <= k.hour
    ensures k in db.rollup ==> Count(Window(db.events, k.hour, k.hour + HOUR), k) > 0
  {
    hide Window, Count;
  }

  lemma HourKeepsRows(db: Db, lo: int, h: int)
    requires NoEmptyRows(db, lo) && h % HOUR == 0
    ensures NoEmptyRows(AggregateAndAdvance(db, h, h + HOUR), lo)
  {
    hide AggregateAndAdvance, Window, Count;
    var db' := AggregateAndAdvance(db, h, h + HOUR);
    WatermarkAfterHour(db, h);
    forall k | k in db'.rollup && lo <= k.hour
      ensures k.hour % HOUR == 0 && Count(Window(db.events, k.hour, k.hour + HOUR), k) > 0
    {
      NewRowsAreAligned(db, h, k);
      HourBecomesExact(db, h, k);
    }
  }

  lemma NewRowsAreAligned(db: Db, h: int, k: Key)
    requires k in AggregateAndAdvance(db, h, h + HOUR).rollup
    ensures k in db.rollup || k.hour % HOUR == 0
  {
    hide Window, Count;
    if k !in db.rollup {
      var e :| e in Window(db.events, h, h + HOUR) && KeyOf(e) == k;
    }
  }

  /** `db` after the transaction of hour `h`, as seen with all events: it did its hour, or the hour's day is gone. */
  lemma HourOnFull(s: State, lo: int, h: int)
    requires Inv(s, lo) && h % HOUR == 0
    ensures var after := AggregateAndAdvance(s.db, h, h + HOUR).(events := s.all);
            after == if h / DAY in s.detached then Full(s).(watermark := h + HOUR)
                     else AggregateAndAdvance(Full(s), h, h + HOUR)
  {
    hide Remaining, Window, Inv;
    assert s.db.events == Remaining(s.all, s.detached) by { InvRemaining(s, lo); }
    WindowOfRemaining(s.all, s.detached, h);
    assert GroupBy([]) == map[];
    assert s.db.rollup + map[] == s.db.rollup;
  }

  lemma InvRemaining(s: State, lo: int)
    requires Inv(s, lo)
    ensures s.db.events == Remaining(s.all, s.detached)
  {
  }

  /** Either way exact stretches stay exact, and one that ended at `h` now includes `h`. */
  lemma HourKeepsStretch(s: State, lo: int, hi: int, h: int)
    requires Inv(s, lo) && Exact(Full(s), lo, hi) && h % HOUR == 0
    ensures var after := AggregateAndAdvance(s.db, h, h + HOUR).(events := s.all);
            Exact(after, lo, hi) && (hi == h ==> Exact(after, lo, h + HOUR))
  {
    hide AggregateAndAdvance, NoEmptyRows, Remaining, ExactAt, RunnerInv, Exact;
    HourOnFull(s, lo, h);
    if h / DAY in s.detached {
      DoneHourKeepsStretch(Full(s), lo, hi, h, s.detached);
    } else {
      HourKeepsExact(Full(s), lo, hi, h);
    }
  }

  /** On a day that is done, moving the watermark alone is as good as aggregating the hour. */
  lemma DoneHourKeepsStretch(full: Db, lo: int, hi: int, h: int, detached: set<int>)
    requires Exact(full, lo, hi) && DaysDone(full, lo, detached) && h % HOUR == 0 && h / DAY in detached
    ensures var after := full.(watermark := h + HOUR);
            Exact(after, lo, hi) && (hi == h ==> Exact(after, lo, h + HOUR))
  {
    hide ExactAt;
    var after := full.(watermark := h + HOUR);
    forall k: Key
      ensures ExactAt(after, k) <==> ExactAt(full, k)
    {
      WatermarkIrrelevant(full, h + HOUR, k);
    }
    if hi == h {
      forall k: Key | k.hour % HOUR == 0 && lo <= k.hour < h + HOUR
        ensures ExactAt(after, k)
      {
        NoHourBetween(k.hour, h);
      }
    }
  }

  lemma NoHourBetween(a: int, h: int)
    requires a % HOUR == 0 && h % HOUR == 0 && a < h + HOUR
    ensures a <= h
  {
  }

  lemma WatermarkIrrelevant(db: Db, w: int, k: Key)
    ensures ExactAt(db.(watermark := w), k) <==> ExactAt(db, k)
  {
  }

  lemma HourKeepsDays(s: State, lo: int, h: int)
    requires Inv(s, lo) && h % HOUR == 0
    ensures var after := AggregateAndAdvance(s.db, h, h + HOUR).(events := s.all);
            DaysDone(after, lo, s.detached) && NoEmptyRows(after, lo)
  {
    hide AggregateAndAdvance, Remaining, ExactAt, Exact, RunnerInv, Window, Count;
    HourOnFull(s, lo, h);
    var after := AggregateAndAdvance(s.db, h, h + HOUR).(events := s.all);
    if h / DAY !in s.detached {
      HourKeepsRows(Full(s), lo, h);
    }
    forall k: Key | k.hour % HOUR == 0 && lo <= k.hour && k.hour / DAY in s.detached
      ensures ExactAt(after, k)
    {
      assert ExactAt(Full(s), k);
      WatermarkIrrelevant(Full(s), h + HOUR, k);
      if h / DAY !in s.detached {
        HourBecomesExact(Full(s), h, k);
      }
    }
  }

  lemma HourKeepsRunner(s: State, lo: int, h: int, r: Runner)
    requires Inv(s, lo) && h % HOUR == 0 && RunnerInv(Full(s), s.settled, lo, r)
    ensures RunnerInv(AggregateAndAdvance(s.db, h, h + HOUR).(events := s.all), s.settled, lo, r)
  {
    hide Exact, AggregateAndAdvance, Inv;
    match r
    case Idle =>
    case Started(wm) => HourKeepsStretch(s, lo, wm, h);
    case Probing(wm, _) => HourKeepsStretch(s, lo, wm, h);
    case Looping(wm, t) => HourKeepsStretch(s, lo, Min(wm, t), h);
    case Jumping(t) => HourKeepsStretch(s, lo, t, h);
  }

  /** The runner that did hour `h`, a step further on. */
  lemma OwnRunnerKeeps(s: State, lo: int, h: int, target: int)
    requires Inv(s, lo) && h < target && RunnerInv(Full(s), s.settled, lo, Looping(h, target))
    ensures h % HOUR == 0 && h + HOUR <= target
    ensures var after := AggregateAndAdvance(s.db, h, h + HOUR).(events := s.all);
            RunnerInv(after, s.settled, lo, Looping(h + HOUR, target)) && Exact(after, lo, h + HOUR)
  {
    hide Exact, AggregateAndAdvance, Inv;
    HourKeepsStretch(s, lo, h, h);
  }

  lemma HourKeeps(s: State, lo: int, p: int)
    requires Inv(s, lo) && Enabled(s, Hour(p))
    ensures Inv(Next(s, Hour(p)), lo)
  {
    hide Exact, AggregateAndAdvance, NoEmptyRows, DaysDone, Remaining, RunnerInv;
    var s' := Next(s, Hour(p));
    var Looping(h, target) := s.runners[p];
    assert s'.db.watermark == h + HOUR && s'.db.events == s.db.events by { WatermarkAfterHour(s.db, h); }
    assert Full(s') == AggregateAndAdvance(s.db, h, h + HOUR).(events := s.all);
    OwnRunnerKeeps(s, lo, h, target);
    TargetSettled(Full(s), s.settled, lo, h, target);
    HourKeepsDays(s, lo, h);
    forall q | q in s'.runners
      ensures RunnerInv(Full(s'), s'.settled, lo, s'.runners[q])
    {
      if q != p {
        HourKeepsRunner(s, lo, h, s.runners[q]);
      }
    }
  }

  lemma TargetSettled(full: Db, settled: int, lo: int, wm: int, target: int)
    requires RunnerInv(full, settled, lo, Looping(wm, target))
    ensures target <= settled
  {
  }

  lemma WatermarkAfterHour(db: Db, h: int)
    ensures AggregateAndAdvance(db, h, h + HOUR).watermark == h + HOUR
    ensures AggregateAndAdvance(db, h, h + HOUR).events == db.events
  {
  }

  lemma {:induction false} EarliestIsLeast(es: seq<Event>)
    ensures EarliestHour(es).None? <==> es == []
    ensures EarliestHour(es).Some? ==> EarliestHour(es).value % HOUR == 0
    ensures forall e :: e in es ==> EarliestHour(es).Some? && EarliestHour(es).value <= HourOf(e)
  {
    if es != [] {
      var init, last := es[..|es| - 1], es[|es| - 1];
      EarliestIsLeast(init);
      assert es == init + [last];
    }
  }

  /** Where there are no events but detached ones, and no empty rows, every hour is already exact. */
  lemma EmptyHoursAreExact(s: State, lo: int, from: int, to: int)
    requires Inv(s, lo) && Exact(Full(s), lo, from)
    requires forall e :: e in s.db.events ==> to <= HourOf(e)
    ensures Exact(Full(s), lo, Max(from, to))
  {
    hide RunnerInv, Remaining, ExactAt, Window, Count;
    forall k: Key | k.hour % HOUR == 0 && lo <= k.hour < Max(from, to)
      ensures ExactAt(Full(s), k)
    {
      if k.hour >= from && k.hour / DAY !in s.detached {
        if Count(Window(s.all, k.hour, k.hour + HOUR), k) > 0 {
          GroupWitness(s.all, s.detached, k);
        }
        NoGroupIsExact(Full(s), k);
      }
    }
  }

  /** A group of an attached day has an event that is still there. */
  lemma GroupWitness(es: seq<Event>, detached: set<int>, k: Key)
    requires k.hour % HOUR == 0 && Count(Window(es, k.hour, k.hour + HOUR), k) > 0 && k.hour / DAY !in detached
    ensures exists e :: e in Remaining(es, detached) && HourOf(e) == k.hour
  {
    hide Remaining, Window, Count;
    var w := Window(es, k.hour, k.hour + HOUR);
    CountPositive(w, k);
    var e :| e in w && KeyOf(e) == k;
    WindowMembers(es, k.hour, k.hour + HOUR, e);
    HourInDay(e, k.hour);
    RemainingMembers(es, detached, e);
  }

  lemma NoGroupIsExact(db: Db, k: Key)
    requires k !in db.rollup && Count(Window(db.events, k.hour, k.hour + HOUR), k) == 0
    ensures ExactAt(db, k)
  {
  }

  lemma ProbeKeeps(s: State, lo: int, p: int)
    requires Inv(s, lo) && Enabled(s, Probe(p))
    ensures Inv(Next(s, Probe(p)), lo)
  {
    hide Exact, Remaining, NoEmptyRows, DaysDone;
    var Probing(wm, target) := s.runners[p];
    EarliestIsLeast(s.db.events);
    match EarliestHour(s.db.events)
    case Some(earliest) =>
      EmptyHoursAreExact(s, lo, wm, earliest);
      ShorterIsExact(Full(s), lo, Max(wm, earliest), Min(Max(wm, earliest), target));
    case None =>
      EmptyHoursAreExact(s, lo, wm, target);
      ShorterIsExact(Full(s), lo, Max(wm, target), target);
  }

  lemma ShorterIsExact(db: Db, lo: int, hi: int, less: int)
    requires Exact(db, lo, hi) && less <= hi
    ensures Exact(db, lo, less)
  {
  }

  lemma StepKeeps(s: State, lo: int, step: Step)
    requires Inv(s, lo) && Enabled(s, step) && (step.Detach? ==> Passed(s, step.days))
    ensures Inv(Next(s, step), lo)
  {
    hide Inv, Next, Enabled;
    match step
    case Insert(e) => InsertKeeps(s, lo, e);
    case Detach(days) => DetachKeeps(s, lo, days);
    case Hour(p) => HourKeeps(s, lo, p);
    case Probe(p) => ProbeKeeps(s, lo, p);
    case Clock(p, now) => ClockKeeps(s, lo, p, now);
    case _ => QuietStepKeeps(s, lo, step);
  }

  lemma QuietStepKeeps(s: State, lo: int, step: Step)
    requires Inv(s, lo) && Enabled(s, step) && (step.Read? || step.Jump? || step.Finish? || step.Crash?)
    ensures Inv(Next(s, step), lo)
  {
    hide ExactAt, Remaining, NoEmptyRows;
    if step.Jump? {
      JumpKeeps(s, lo, step.p);
    }
  }

  lemma JumpKeeps(s: State, lo: int, p: int)
    requires Inv(s, lo) && Enabled(s, Jump(p))
    ensures Inv(Next(s, Jump(p)), lo)
  {
    hide ExactAt, Remaining;
    var s' := Next(s, Jump(p));
    forall k
      ensures ExactAt(Full(s'), k) <==> ExactAt(Full(s), k)
    {
      WatermarkIrrelevant(Full(s), s'.db.watermark, k);
    }
  }

  /** The target is the last hour boundary that is at least an hour old. */
  lemma TargetIsSettledHour(now: int)
    ensures Target(now) % HOUR == 0 && Target(now) + HOUR <= now < Target(now) + 2 * HOUR
  {
  }

  lemma ClockKeeps(s: State, lo: int, p: int, now: int)
    requires Inv(s, lo) && Enabled(s, Clock(p, now))
    ensures Inv(Next(s, Clock(p, now)), lo)
  {
    hide ExactAt, Remaining, NoEmptyRows, DaysDone;
    TargetIsSettledHour(now);
  }

  /** Throughout the run, leaves are only detached once the watermark has passed their day. */
  predicate PassedDays(s: State, steps: seq<Step>)
    requires ValidRun(s, steps)
    decreases |steps|
  {
    steps == []
    || ((steps[0].Detach? ==> Passed(s, steps[0].days)) && PassedDays(Next(s, steps[0]), steps[1..]))
  }

  /** Every interleaving of runners, crashes and arrivals keeps the invariant. */
  lemma {:induction false} RunKeeps(s: State, lo: int, steps: seq<Step>)
    requires Inv(s, lo) && ValidRun(s, steps) && PassedDays(s, steps)
    ensures Inv(Exec(s, steps), lo)
    decreases |steps|
  {
    hide Inv, Next, Enabled, Passed;
    if steps != [] {
      StepKeeps(s, lo, steps[0]);
      RunKeeps(Next(s, steps[0]), lo, steps[1..]);
    }
  }
}
