/**
 Partition maintenance of the raw event table: premake the coming days, detach
 the aged ones. The catalog is what Postgres would hold; DDL outcomes that the
 program cannot decide are inputs of a pass.
 */
module Partitions {
  import opened Prelude
  import opened Calendar
  import opened LeafNames

  const PREMAKE_DAYS := 4

  /** Bounds of a partition in epoch seconds, upper end excluded. */
  datatype Range = Range(lo: int, hi: int)

  predicate Overlaps(a: Range, b: Range) {
    a.lo < b.hi && b.lo < a.hi
  }

  /**
   `tables` are the relation names in use, `leaves` the attached partitions. A
   detached leaf stays a table.
   */
  datatype Catalog = Catalog(tables: set<string>, leaves: map<string, Range>)

  datatype Ddl = Works | CreateFails | AlterFails

  /** Outcomes of the environment during one pass. */
  datatype Faults = Faults(ddl: nat -> Ddl, listFails: bool, detachFails: string -> bool)

  const NO_FAULTS := Faults(_ => Works, false, _ => false)

  /** Epoch day of an instant; UTC midnight of a day. */
  function DayOf(secs: int): int {
    secs / SECS_PER_DAY
  }

  function DayStart(secs: int): (r: int)
    ensures r == DayOf(secs) * SECS_PER_DAY
  {
    secs - secs % SECS_PER_DAY
  }

  function DayRange(day: int): Range {
    Range(day * SECS_PER_DAY, (day + 1) * SECS_PER_DAY)
  }

  predicate Blocked(c: Catalog, r: Range) {
    exists n :: n in c.leaves && Overlaps(c.leaves[n], r)
  }

  /** `CREATE TABLE IF NOT EXISTS name PARTITION OF events_raw FOR VALUES ...`. */
  function CreateLeaf(c: Catalog, name: string, r: Range): Option<Catalog> {
    if name in c.tables then Some(c)
    else if Blocked(c, r) then None
    else Some(Catalog(c.tables + {name}, c.leaves[name := r]))
  }

  function Premake(c: Catalog, today: int, d: nat, f: Faults): (Catalog, bool)
    requires d <= PREMAKE_DAYS
    decreases PREMAKE_DAYS - d
  {
    if d == PREMAKE_DAYS then (c, true)
    else if f.ddl(d) == CreateFails then (c, false)
    else match CreateLeaf(c, LeafOfDay(today + d), DayRange(today + d))
      case None => (c, false)
      case Some(made) => if f.ddl(d) == AlterFails then (made, false) else Premake(made, today, d + 1, f)
  }

  predicate Aged(leaf: string, cutoffLeaf: string) {
    StrLess(leaf, cutoffLeaf) && StartsWith(leaf, LEAF_PREFIX)
  }

  /** The sweep goes by name only; a failed detach is logged and skipped. */
  function Sweep(c: Catalog, cutoffLeaf: string, f: Faults): Catalog {
    c.(leaves := map n | n in c.leaves && !(Aged(n, cutoffLeaf) && !f.detachFails(n)) :: c.leaves[n])
  }

  /** One maintenance pass: the catalog after it, and whether it reported success. */
  function Pass(c: Catalog, now: int, retention: int, f: Faults): (Catalog, bool) {
    var (made, ok) := Premake(c, DayOf(now), 0, f);
    if !ok || f.listFails then (made, false)
    else (Sweep(made, LeafOfDay(DayOf(now) - retention), f), true)
  }

  /** The partitioned table, changed in place statement by statement. */
  class PartitionedTable {
    var catalog: Catalog

    constructor (c: Catalog)
      ensures catalog == c
    {
      catalog := c;
    }

    method RunOnce(now: int, retention: int, f: Faults) returns (ok: bool)
      modifies this
      ensures (catalog, ok) == Pass(old(catalog), now, retention, f)
    {
      hide LeafName;
      var todayStart := DayStart(now);
      ok := PremakeLeaves(todayStart, DayOf(now), f);
      if !ok {
        return false;
      }
      var cutoff := todayStart - retention * SECS_PER_DAY;
      assert cutoff == (DayOf(now) - retention) * SECS_PER_DAY;
      var cutoffLeaf := LeafName(cutoff);
      if f.listFails {
        return false;
      }
      DetachAged(cutoffLeaf, f);
    }

    method PremakeLeaves(todayStart: int, ghost today: int, f: Faults) returns (ok: bool)
      requires todayStart == today * SECS_PER_DAY
      modifies this
      ensures (catalog, ok) == Premake(old(catalog), today, 0, f)
    {
      hide LeafName;
      for d := 0 to PREMAKE_DAYS
        invariant Premake(old(catalog), today, 0, f) == Premake(catalog, today, d, f)
      {
        var dayStart := todayStart + d * SECS_PER_DAY;
        var dayEnd := dayStart + SECS_PER_DAY;
        assert dayStart == (today + d) * SECS_PER_DAY;
        var leaf := LeafName(dayStart);
        if f.ddl(d) == CreateFails {
          return false;
        }
        var created := CreateLeaf(catalog, leaf, Range(dayStart, dayEnd));
        if created.None? {
          return false;
        }
        catalog := created.value;
        if f.ddl(d) == AlterFails {
          return false;
        }
      }
      return true;
    }

    method DetachAged(cutoffLeaf: string, f: Faults)
      modifies this
      ensures catalog == Sweep(old(catalog), cutoffLeaf, f)
    {
      var rows := catalog.leaves.Keys;
      while rows != {}
        invariant rows <= catalog.leaves.Keys
        invariant catalog.tables == old(catalog.tables)
        invariant forall n :: n in catalog.leaves <==>
                    n in old(catalog.leaves) && (n in rows || !(Aged(n, cutoffLeaf) && !f.detachFails(n)))
        invariant forall n :: n in catalog.leaves ==> catalog.leaves[n] == old(catalog.leaves)[n]
        decreases rows
      {
        var leaf :| leaf in rows;
        rows := rows - {leaf};
        if StrLess(leaf, cutoffLeaf) && StartsWith(leaf, LEAF_PREFIX) {
          if !f.detachFails(leaf) {
            catalog := catalog.(leaves := map n | n in catalog.leaves && n != leaf :: catalog.leaves[n]);
          }
        }
      }
      assert catalog.leaves == Sweep(old(catalog), cutoffLeaf, f).leaves;
    }
  }
}
