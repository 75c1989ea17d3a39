/**
 Hourly rollup of raw events. An incremental job aggregates one hour per
 transaction and advances a stored watermark; the lemmas relate what it leaves in
 the rollup table to one GROUP BY over everything.
 */
module Rollup {
  import opened Prelude

  const HOUR := 3600
  const COLD_START_GAP := 60 * 24 * 3600

  /** A raw event; `ts` in epoch milliseconds, dimensions nullable. */
  datatype Event = Event(ts: int, project: string, kind: int, site: Option<int>, zone: Option<int>,
                         flight: Option<int>, ad: Option<int>, creative: Option<int>, duplicate: bool)

  /** Primary key of a rollup row; a missing dimension is stored as 0. */
  datatype Key = Key(hour: int, project: string, kind: int, site: int, zone: int, flight: int, ad: int, creative: int)

  datatype Db = Db(events: seq<Event>, rollup: map<Key, nat>, watermark: int)

  /** Start of the hour an event falls in, in epoch seconds. */
  function HourOf(e: Event): int {
    e.ts / (HOUR * 1000) * HOUR
  }

  function OrZero(x: Option<int>): int {
    if x.Some? then x.value else 0
  }

  function KeyOf(e: Event): Key {
    Key(HourOf(e), e.project, e.kind, OrZero(e.site), OrZero(e.zone), OrZero(e.flight), OrZero(e.ad),
        OrZero(e.creative))
  }

  /** `WHERE NOT is_duplicate AND ts >= lo AND ts < hi`. */
  function Window(es: seq<Event>, lo: int, hi: int): seq<Event> {
    if es == [] then []
    else
      var e := es[|es| - 1];
      Window(es[..|es| - 1], lo, hi) + if !e.duplicate && lo * 1000 <= e.ts < hi * 1000 then [e] else []
  }

  /** `count(*)` of one group. */
  function Count(es: seq<Event>, k: Key): nat {
    if es == [] then 0
    else Count(es[..|es| - 1], k) + if KeyOf(es[|es| - 1]) == k then 1 else 0
  }

  /** `SELECT key, count(*) ... GROUP BY key`. */
  function GroupBy(es: seq<Event>): map<Key, nat> {
    map k | k in (set e | e in es :: KeyOf(e)) :: Count(es, k)
  }

  /** One hour's transaction: upsert its groups and move the watermark, or nothing. */
  function AggregateAndAdvance(db: Db, hourStart: int, hourEnd: int): Db {
    Db(db.events, db.rollup + GroupBy(Window(db.events, hourStart, hourEnd)), hourEnd)
  }

  /** `date_trunc('hour', min(ts))` over all raw events. */
  function EarliestHour(es: seq<Event>): Option<int> {
    if es == [] then None
    else
      var h := HourOf(es[|es| - 1]);
      match EarliestHour(es[..|es| - 1])
      case None => Some(h)
      case Some(g) => Some(Min(g, h))
  }

  /** The last settled hour boundary at time `now`. */
  function Target(now: int): int {
    now - now % HOUR - HOUR
  }

  // ----- exactness of rollup rows -------------------------------------------

  /** Row `k` says exactly how many non-duplicate events its group has. */
  predicate ExactAt(db: Db, k: Key) {
    var n := Count(Window(db.events, k.hour, k.hour + HOUR), k);
    (k in db.rollup <==> n > 0) && (k in db.rollup ==> db.rollup[k] == n)
  }

  /** Every group of the hours in `[lo, hi)` has its exact row, and no other row is there. */
  ghost predicate Exact(db: Db, lo: int, hi: int) {
    forall k: Key :: k.hour % HOUR == 0 && lo <= k.hour < hi ==> ExactAt(db, k)
  }

  /** A row that exists has events behind it. */
  ghost predicate NoEmptyRows(db: Db, lo: int) {
    forall k :: k in db.rollup && lo <= k.hour ==>
                  k.hour % HOUR == 0 && Count(Window(db.events, k.hour, k.hour + HOUR), k) > 0
  }

  lemma {:induction false} CountPositive(es: seq<Event>, k: Key)
    ensures Count(es, k) > 0 <==> exists e :: e in es && KeyOf(e) == k
  {
    if es != [] {
      var init, last := es[..|es| - 1], es[|es| - 1];
      CountPositive(init, k);
      assert es == init + [last];
    }
  }

  lemma {:induction false} WindowMembers(es: seq<Event>, lo: int, hi: int, e: Event)
    ensures e in Window(es, lo, hi) <==> e in es && !e.duplicate && lo * 1000 <= e.ts < hi * 1000
  {
    if es != [] {
      var init, last := es[..|es| - 1], es[|es| - 1];
      WindowMembers(init, lo, hi, e);
      assert es == init + [last];
    }
  }

  /** On an hour boundary, being inside the hour's bounds is having that hour. */
  lemma HourBounds(e: Event, h: int)
    requires h % HOUR == 0
    ensures h * 1000 <= e.ts < (h + HOUR) * 1000 <==> HourOf(e) == h
    ensures h * 1000 <= e.ts <==> h <= HourOf(e)
  {
  }

  lemma WindowStep(es: seq<Event>, lo: int, hi: int)
    requires es != []
    ensures var last := es[|es| - 1];
            Window(es, lo, hi) == if !last.duplicate && lo * 1000 <= last.ts < hi * 1000
                                  then Window(es[..|es| - 1], lo, hi) + [last]
                                  else Window(es[..|es| - 1], lo, hi)
  {
    assert Window(es[..|es| - 1], lo, hi) + [] == Window(es[..|es| - 1], lo, hi);
  }

  /** An event of group `k` is in any aligned window that contains the group's hour. */
  lemma GroupInWindow(e: Event, lo: int, hi: int, k: Key)
    requires lo % HOUR == 0 && hi % HOUR == 0 && lo <= k.hour < hi && KeyOf(e) == k
    ensures lo * 1000 <= e.ts < hi * 1000
  {
    HourBounds(e, lo);
    HourBounds(e, hi);
  }

  /** Groups of one hour can be counted in any aligned window around it. */
  lemma {:induction false} CountInWiderWindow(es: seq<Event>, lo: int, hi: int, k: Key)
    requires lo % HOUR == 0 && hi % HOUR == 0 && k.hour % HOUR == 0 && lo <= k.hour < hi
    ensures Count(Window(es, lo, hi), k) == Count(Window(es, k.hour, k.hour + HOUR), k)
  {
    if es != [] {
      hide KeyOf, Window, Count;
      var init, last := es[..|es| - 1], es[|es| - 1];
      CountInWiderWindow(init, lo, hi, k);
      WindowStep(es, lo, hi);
      WindowStep(es, k.hour, k.hour + HOUR);
      CountAppend(Window(init, lo, hi), last, k);
      CountAppend(Window(init, k.hour, k.hour + HOUR), last, k);
      if KeyOf(last) == k {
        GroupInWindow(last, lo, hi, k);
        GroupInWindow(last, k.hour, k.hour + HOUR, k);
      }
    }
  }

  lemma CountAppend(es: seq<Event>, e: Event, k: Key)
    ensures Count(es + [e], k) == Count(es, k) + if KeyOf(e) == k then 1 else 0
  {
    assert (es + [e])[..|es|] == es;
  }

  lemma GroupByAt(es: seq<Event>, k: Key)
    ensures k in GroupBy(es) <==> Count(es, k) > 0
    ensures k in GroupBy(es) ==> GroupBy(es)[k] == Count(es, k)
  {
    CountPositive(es, k);
  }

  /** A group found in one hour's window has that hour. */
  lemma GroupHasHour(es: seq<Event>, h: int, k: Key)
    requires h % HOUR == 0 && Count(Window(es, h, h + HOUR), k) > 0
    ensures k.hour == h
  {
    var w := Window(es, h, h + HOUR);
    CountPositive(w, k);
    var e :| e in w && KeyOf(e) == k;
    WindowMembers(es, h, h + HOUR, e);
    HourBounds(e, h);
  }

  /** The hour's transaction makes that hour exact and leaves every exact row exact. */
  lemma HourBecomesExact(db: Db, h: int, k: Key)
    requires h % HOUR == 0 && k.hour % HOUR == 0
    requires k in db.rollup ==> Count(Window(db.events, k.hour, k.hour + HOUR), k) > 0
    ensures ExactAt(db, k) || k.hour == h ==> ExactAt(AggregateAndAdvance(db, h, h + HOUR), k)
    ensures k in AggregateAndAdvance(db, h, h + HOUR).rollup ==>
              Count(Window(db.events, k.hour, k.hour + HOUR), k) > 0
  {
    hide Window, Count, GroupBy;
    var w := Window(db.events, h, h + HOUR);
    GroupByAt(w, k);
    if Count(w, k) > 0 {
      GroupHasHour(db.events, h, k);
    }
  }

  // ----- one pass -----------------------------------------------------------

  /** `while wm < target`; the pass is killed after `budget` committed hours. */
  function CatchUp(db: Db, wm: int, target: int, budget: nat): (Db, Option<int>)
    decreases budget
  {
    if wm >= target then (db, Some(wm))
    else if budget == 0 then (db, None)
    else CatchUp(AggregateAndAdvance(db, wm, wm + HOUR), wm + HOUR, target, budget - 1)
  }

  /** A pass at time `now`; the second part is the watermark it returns, if it ends. */
  function RunOnce(db: Db, now: int, budget: nat): (Db, Option<int>) {
    var target := Target(now);
    if target - db.watermark > COLD_START_GAP then
      match EarliestHour(db.events)
      case Some(earliest) => CatchUp(db, Max(db.watermark, earliest), target, budget)
      case None =>
        if budget == 0 then (db, None) else (db.(watermark := target), Some(target))
    else CatchUp(db, db.watermark, target, budget)
  }

  /** The job's tables, updated in place one committed transaction at a time. */
  class RollupJob {
    var db: Db

    constructor (initial: Db)
      ensures db == initial
    {
      db := initial;
    }

    /** `budget` is how many transactions commit before the process dies. */
    method RunOnceOnDb(now: int, budget: nat) returns (r: Option<int>)
      modifies this
      ensures (db, r) == RunOnce(old(db), now, budget)
    {
      var wm := db.watermark;
      var left := budget;
      var hourFloor := now - now % HOUR;
      var target := hourFloor - HOUR;
      if target - wm > COLD_START_GAP {
        var earliest := EarliestEvent();
        match earliest {
          case Some(h) =>
            wm := Max(wm, h);
          case None =>
            if left == 0 {
              return None;
            }
            db := db.(watermark := target);
            return Some(target);
        }
      }
      while wm < target
        invariant RunOnce(old(db), now, budget) == CatchUp(db, wm, target, left)
        decreases left
      {
        if left == 0 {
          return None;
        }
        var next := wm + HOUR;
        db := AggregateAndAdvance(db, wm, next);
        wm := next;
        left := left - 1;
      }
      return Some(wm);
    }

    method EarliestEvent() returns (r: Option<int>)
      ensures r == EarliestHour(db.events)
    {
      r := None;
      for i := 0 to |db.events|
        invariant r == EarliestHour(db.events[..i])
      {
        var h := HourOf(db.events[i]);
        r := Some(if r.Some? then Min(r.value, h) else h);
        assert db.events[..i + 1][..i] == db.events[..i];
      }
      assert db.events[..|db.events|] == db.events;
    }
  }
}
