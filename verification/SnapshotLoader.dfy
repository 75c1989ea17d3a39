/**
 The snapshot loader against a live database: writers draw version numbers and
 commit between any two of its statements, each of which sees the latest state.
 The version is a Postgres sequence: drawing a number shows at once, before the
 drawing transaction commits, and the first number drawn from a new sequence is
 the one it shows already. A reload reads the version before the tables.
 */
module SnapshotLoader {
  import opened Prelude
  import opened Snapshots

  /**
   What a statement can see: `last_value` of the sequence, whether a number was
   ever drawn from it, and the committed data. `pending` are the numbers drawn by
   transactions that are still open; `unnumbered` counts the commits that had drawn
   none.
   */
  datatype Seen = Seen(version: int, drawn: bool, pending: set<int>, unnumbered: nat, db: Database)

  /** Statements of one reload: the version first, then seven table queries. */
  const STATEMENTS := 8

  /** `Reading(at)`: statement `i` of the reload ran when `history[at[i]]` was the latest. */
  datatype Pc = Waiting | Reading(at: seq<nat>)

  /** `servedAt` says when the statements behind the served snapshot ran; empty before the first. */
  datatype State = State(history: seq<Seen>, served: Snapshot, servedAt: seq<nat>, pc: Pc)

  datatype Step =
    | Bump
    | Commit(numbers: set<int>, db: Database)
    | Abort(numbers: set<int>)
    | Poll
    | PollFails
    | Statement
    | ReloadFails
    | Swap

  function Latest(s: State): Seen
    requires s.history != []
  {
    s.history[|s.history| - 1]
  }

  /** `nextval`: the next number, and what the sequence shows from then on. */
  function NextNumber(c: Seen): int {
    if c.drawn then c.version + 1 else c.version
  }

  function AfterBump(c: Seen): Seen {
    Seen(NextNumber(c), true, c.pending + {NextNumber(c)}, c.unnumbered, c.db)
  }

  function AfterCommit(c: Seen, numbers: set<int>, db: Database): Seen {
    c.(pending := c.pending - numbers, db := db, unnumbered := c.unnumbered + if numbers == {} then 1 else 0)
  }

  function AfterAbort(c: Seen, numbers: set<int>): Seen {
    c.(pending := c.pending - numbers)
  }

  /** A transaction that changes data may have drawn numbers before it commits, or none. */
  predicate Enabled(s: State, step: Step) {
    && s.history != []
    && match step
       case Bump => true
       case Commit(numbers, _) => numbers <= Latest(s).pending
       case Abort(numbers) => numbers <= Latest(s).pending
       case Poll => s.pc.Waiting?
       case PollFails => s.pc.Waiting?
       case Statement => s.pc.Reading? && |s.pc.at| < STATEMENTS
       case ReloadFails => s.pc.Reading?
       case Swap => s.pc.Reading? && |s.pc.at| == STATEMENTS && InRange(s.history, s.pc.at)
  }

  predicate InRange(history: seq<Seen>, at: seq<nat>) {
    forall i :: 0 <= i < |at| ==> at[i] < |history|
  }

  /** What the reload returns if its statements ran at the given points. */
  function Loaded(history: seq<Seen>, at: seq<nat>): Snapshot
    requires |at| == STATEMENTS && InRange(history, at)
  {
    var db := (i: nat) requires i < STATEMENTS => history[at[i]].db;
    Snapshot(history[at[0]].version,
             Assemble(ActiveProjects(db(1).projects),
                      FlightRows(db(2).flights, db(2).tiers, db(2).advertisers),
                      db(3).ads, db(4).sites, db(5).zones,
                      ClickRows(db(6).ads, db(6).creatives),
                      CreativeRows(db(7).creatives, db(7).templates)))
  }

  function Grow(s: State, c: Seen): State {
    s.(history := s.history + [c])
  }

  function Next(s: State, step: Step): State
    requires Enabled(s, step)
  {
    match step
    case Bump => Grow(s, AfterBump(Latest(s)))
    case Commit(numbers, db) => Grow(s, AfterCommit(Latest(s), numbers, db))
    case Abort(numbers) => Grow(s, AfterAbort(Latest(s), numbers))
    case Poll => if Latest(s).version <= s.served.configVersion then s else s.(pc := Reading([]))
    case PollFails => s
    case Statement => s.(pc := Reading(s.pc.at + [|s.history| - 1]))
    case ReloadFails => s.(pc := Waiting)
    case Swap => s.(served := Loaded(s.history, s.pc.at), servedAt := s.pc.at, pc := Waiting)
  }

  predicate ValidRun(s: State, steps: seq<Step>)
    decreases |steps|
  {
    steps == [] || (Enabled(s, steps[0]) && ValidRun(Next(s, steps[0]), steps[1..]))
  }

  function Exec(s: State, steps: seq<Step>): State
    requires ValidRun(s, steps)
    decreases |steps|
  {
    if steps == [] then s else Exec(Next(s, steps[0]), steps[1..])
  }

  /** At boot the store is empty at version 0 and the cold load is about to run. */
  function Boot(c: Seen): State {
    State([c], EMPTY, [], Reading([]))
  }

  // ----- the invariant ------------------------------------------------------

  predicate Ascending(at: seq<nat>) {
    forall i, j :: 0 <= i < j < |at| ==> at[i] <= at[j]
  }

  /** Write number `v` was drawn, and its transaction is over. */
  predicate Settled(c: Seen, v: int) {
    v < NextNumber(c) && v !in c.pending
  }

  /** No write is between its number and its commit, and the sequence is past its first number. */
  predicate Quiescent(c: Seen) {
    c.drawn && c.pending == {}
  }

  /** How a later state of the database relates to an earlier one. */
  ghost predicate Later(a: Seen, b: Seen) {
    && a.version <= b.version && (a.drawn ==> b.drawn)
    && (forall v :: Settled(a, v) ==> Settled(b, v))
    && a.unnumbered <= b.unnumbered
    && (Quiescent(a) && a.version == b.version && a.unnumbered == b.unnumbered ==> b == a)
  }

  ghost predicate Growing(history: seq<Seen>) {
    && (forall i :: 0 <= i < |history| ==> 1 <= history[i].version)
    && (forall i, v :: 0 <= i < |history| && v in history[i].pending ==> v < NextNumber(history[i]))
    && forall i, j :: 0 <= i <= j < |history| ==> Later(history[i], history[j])
  }

  predicate ReadInv(s: State, at: seq<nat>) {
    && |at| <= STATEMENTS && InRange(s.history, at) && Ascending(at)
    && (at != [] ==> s.served.configVersion < s.history[at[0]].version)
    && (at == [] && s.history != [] ==> s.served.configVersion < Latest(s).version)
  }

  /** The served snapshot came from statements run in order on the real history. */
  ghost predicate Inv(s: State) {
    && s.history != [] && Growing(s.history)
    && (if s.servedAt == [] then s.served == EMPTY
        else && |s.servedAt| == STATEMENTS && InRange(s.history, s.servedAt) && Ascending(s.servedAt)
             && s.served == Loaded(s.history, s.servedAt))
    && (s.pc.Reading? ==> ReadInv(s, s.pc.at))
  }

  lemma LoadedGrows(history: seq<Seen>, c: Seen, at: seq<nat>)
    requires |at| == STATEMENTS && InRange(history, at)
    ensures InRange(history + [c], at) && Loaded(history + [c], at) == Loaded(history, at)
  {
    var longer := history + [c];
    assert forall i :: 0 <= i < STATEMENTS ==> longer[at[i]] == history[at[i]];
  }

  lemma LaterStep(a: Seen, b: Seen, c: Seen)
    requires Later(a, b) && (forall v :: v in b.pending ==> v < NextNumber(b))
    requires c == AfterBump(b)
             || (exists numbers, db :: numbers <= b.pending && c == AfterCommit(b, numbers, db))
             || (exists numbers :: numbers <= b.pending && c == AfterAbort(b, numbers))
    ensures Later(a, c) && Later(c, c)
  {
  }

  /** Any writer step appends a later state of the database. */
  lemma WriterStepGrows(s: State, step: Step)
    requires s.history != [] && Growing(s.history) && Enabled(s, step) && (step.Bump? || step.Commit? || step.Abort?)
    ensures Growing(Next(s, step).history) && Next(s, step) == Grow(s, Latest(Next(s, step)))
  {
    hide Later;
    var last := Latest(s);
    var s' := Next(s, step);
    var c := Latest(s');
    assert s'.history == s.history + [c];
    forall i | 0 <= i < |s.history|
      ensures Later(s.history[i], c) && Later(c, c)
    {
      assert Later(s.history[i], s.history[|s.history| - 1]);
      if step.Commit? {
        assert c == AfterCommit(last, step.numbers, step.db);
      } else if step.Abort? {
        assert c == AfterAbort(last, step.numbers);
      }
      LaterStep(s.history[i], last, c);
    }
    assert Later(s.history[0], c);
  }

  lemma WriterStepKeeps(s: State, step: Step)
    requires Inv(s) && Enabled(s, step) && (step.Bump? || step.Commit? || step.Abort?)
    ensures Inv(Next(s, step)) && Next(s, step).served == s.served
  {
    hide Loaded, Growing, Next, Settled;
    WriterStepGrows(s, step);
    var c := Latest(Next(s, step));
    if s.servedAt != [] {
      LoadedGrows(s.history, c, s.servedAt);
    }
    assert Later(Latest(s), c) by { LastIsLater(s, c); }
  }

  lemma LastIsLater(s: State, c: Seen)
    requires s.history != [] && Growing(s.history + [c])
    ensures Later(Latest(s), c)
  {
    var longer := s.history + [c];
    assert longer[|s.history| - 1] == Latest(s) && longer[|s.history|] == c;
  }

  /** Each step keeps the invariant and never lowers the served version; a swap raises it. */
  lemma StepKeeps(s: State, step: Step)
    requires Inv(s) && Enabled(s, step)
    ensures Inv(Next(s, step))
    ensures s.served.configVersion <= Next(s, step).served.configVersion
    ensures step.Swap? ==> s.served.configVersion < Next(s, step).served.configVersion
  {
    hide Inv, Next, Loaded;
    if step.Bump? || step.Commit? || step.Abort? {
      WriterStepKeeps(s, step);
    } else {
      LoaderStepKeeps(s, step);
    }
  }

  lemma LoaderStepKeeps(s: State, step: Step)
    requires Inv(s) && Enabled(s, step) && !(step.Bump? || step.Commit? || step.Abort?)
    ensures Inv(Next(s, step))
    ensures s.served.configVersion <= Next(s, step).served.configVersion
    ensures step.Swap? ==> s.served.configVersion < Next(s, step).served.configVersion
  {
    hide Growing, Loaded;
    if step.Swap? {
      LoadedVersion(s.history, s.pc.at);
    }
  }

  lemma LoadedVersion(history: seq<Seen>, at: seq<nat>)
    requires |at| == STATEMENTS && InRange(history, at)
    ensures Loaded(history, at).configVersion == history[at[0]].version
  {
  }

  lemma {:induction false} RunKeeps(s: State, steps: seq<Step>)
    requires Inv(s) && ValidRun(s, steps)
    ensures Inv(Exec(s, steps))
    ensures s.served.configVersion <= Exec(s, steps).served.configVersion
    decreases |steps|
  {
    hide Inv, Next, Enabled;
    if steps != [] {
      StepKeeps(s, steps[0]);
      RunKeeps(Next(s, steps[0]), steps[1..]);
    }
  }

  lemma BootInv(c: Seen)
    requires 1 <= c.version && forall v :: v in c.pending ==> v < NextNumber(c)
    ensures Inv(Boot(c))
  {
  }

  // ----- what a served snapshot is worth ------------------------------------

  /**
   Table `i` of the served snapshot was read when every write up to the snapshot's
   version was over, except those whose transaction was open, or whose number was
   not drawn yet, when the version was read.
   */
  ghost predicate CoversItsVersion(s: State)
    requires |s.servedAt| == STATEMENTS && InRange(s.history, s.servedAt)
  {
    forall i, v {:trigger Settled(s.history[s.servedAt[i]], v)} ::
      0 <= i < STATEMENTS && v <= s.served.configVersion && Settled(s.history[s.servedAt[0]], v)
      ==> Settled(s.history[s.servedAt[i]], v)
  }

  /**
   After any run: no table of the served snapshot is older than its version says,
   and if nothing was open when the version was read, every table has every write
   up to that version.
   */
  lemma ServedCoversItsVersion(c: Seen, steps: seq<Step>)
    requires 1 <= c.version && (forall v :: v in c.pending ==> v < NextNumber(c)) && ValidRun(Boot(c), steps)
    ensures var s := Exec(Boot(c), steps);
            s.servedAt == []
            || (&& |s.servedAt| == STATEMENTS && InRange(s.history, s.servedAt)
                && s.served == Loaded(s.history, s.servedAt)
                && CoversItsVersion(s)
                && (forall i :: 0 <= i < STATEMENTS ==> s.served.configVersion <= s.history[s.servedAt[i]].version)
                && (Quiescent(s.history[s.servedAt[0]]) ==>
                      forall i, v {:trigger Settled(s.history[s.servedAt[i]], v)} ::
                        0 <= i < STATEMENTS && v <= s.served.configVersion ==> Settled(s.history[s.servedAt[i]], v)))
  {
    hide ValidRun, Exec, Loaded, Settled;
    BootInv(c);
    RunKeeps(Boot(c), steps);
    var s := Exec(Boot(c), steps);
    if s.servedAt != [] {
      var at := s.servedAt;
      LoadedVersion(s.history, at);
      forall i | 0 <= i < STATEMENTS
        ensures Later(s.history[at[0]], s.history[at[i]])
      {
        assert at[0] <= at[i];
      }
      forall v | v <= s.served.configVersion && Quiescent(s.history[at[0]])
        ensures Settled(s.history[at[0]], v)
      {
        QuiescentIsSettled(s.history[at[0]], v);
      }
    }
  }

  lemma QuiescentIsSettled(c: Seen, v: int)
    requires Quiescent(c) && v <= c.version
    ensures Settled(c, v)
  {
  }

  /** The snapshot a reload of an idle database gives. */
  function Current(s: State): Snapshot
    requires s.history != []
  {
    var last := |s.history| - 1;
    Loaded(s.history, seq(STATEMENTS, _ => last))
  }

  /** Nothing was open when the served version was read, and nothing was committed without a number since. */
  predicate CleanlyServed(s: State) {
    && s.servedAt != [] && s.servedAt[0] < |s.history| && Quiescent(s.history[s.servedAt[0]])
    && s.history[s.servedAt[0]].unnumbered == s.history[|s.history| - 1].unnumbered
  }

  /**
   If the served version is the database's, so are all the contents, provided
   nothing was open when that version was read and no commit went unnumbered since.
   */
  lemma EqualVersionsEqualContents(s: State)
    requires Inv(s) && s.served.configVersion == Latest(s).version && CleanlyServed(s)
    ensures s.served == Current(s)
  {
    hide Settled;
    var at, last := s.servedAt, |s.history| - 1;
    LoadedVersion(s.history, at);
    forall i | 0 <= i < STATEMENTS
      ensures s.history[at[i]] == Latest(s)
    {
      assert at[0] <= at[i] <= last;
      assert Later(s.history[at[0]], s.history[at[i]]) && Later(s.history[at[i]], s.history[last]);
      assert Later(s.history[at[0]], s.history[last]);
    }
    SameStatesLoadSame(s.history, at, seq(STATEMENTS, _ => last));
  }

  lemma SameStatesLoadSame(history: seq<Seen>, at: seq<nat>, at': seq<nat>)
    requires |at| == STATEMENTS && InRange(history, at) && |at'| == STATEMENTS && InRange(history, at')
    requires forall i :: 0 <= i < STATEMENTS ==> history[at[i]] == history[at'[i]]
    ensures Loaded(history, at) == Loaded(history, at')
  {
  }

  lemma ServedNeverAhead(s: State)
    requires Inv(s)
    ensures s.served.configVersion <= Latest(s).version
  {
    hide Loaded, Settled;
    if s.servedAt != [] {
      LoadedVersion(s.history, s.servedAt);
      assert Later(s.history[s.servedAt[0]], Latest(s));
    }
  }

  // ----- one quiet tick -----------------------------------------------------

  /** The rest of a reload nobody disturbs. */
  function FinishReload(s: State): State
    requires s.history != [] && s.pc.Reading? && |s.pc.at| <= STATEMENTS && InRange(s.history, s.pc.at)
    decreases STATEMENTS - |s.pc.at|
  {
    if |s.pc.at| == STATEMENTS then Next(s, Swap) else FinishReload(Next(s, Statement))
  }

  function Everywhere(s: State): seq<nat>
    requires s.history != []
  {
    var last := |s.history| - 1;
    seq(STATEMENTS, _ => last)
  }

  lemma {:induction false} FinishReloadIsCurrent(s: State)
    requires s.history != [] && s.pc.Reading? && |s.pc.at| <= STATEMENTS
    requires forall i :: 0 <= i < |s.pc.at| ==> s.pc.at[i] == |s.history| - 1
    ensures FinishReload(s) == s.(served := Current(s), servedAt := Everywhere(s), pc := Waiting)
    decreases STATEMENTS - |s.pc.at|
  {
    hide Loaded;
    if |s.pc.at| == STATEMENTS {
      assert s.pc.at == seq(STATEMENTS, _ => |s.history| - 1);
    } else {
      FinishReloadIsCurrent(Next(s, Statement));
    }
  }

  /** A whole undisturbed tick: poll, and reload if the version moved. */
  function QuietTick(s: State): State
    requires s.history != [] && s.pc.Waiting?
  {
    var polled := Next(s, Poll);
    if polled.pc.Reading? then FinishReload(polled) else polled
  }

  lemma QuietTickKeeps(s: State)
    requires Inv(s) && s.pc.Waiting?
    ensures Inv(QuietTick(s)) && QuietTick(s).pc.Waiting? && QuietTick(s).history == s.history
    ensures QuietTick(s) == if Latest(s).version > s.served.configVersion
                            then s.(served := Current(s), servedAt := Everywhere(s)) else s
    ensures QuietTick(s).served.configVersion == Latest(s).version
  {
    hide Loaded, Growing;
    ServedNeverAhead(s);
    var polled := Next(s, Poll);
    if polled.pc.Reading? {
      FinishReloadIsCurrent(polled);
      LoadedVersion(s.history, Everywhere(s));
    }
  }

  /**
   Once writes stop, one successful tick makes the snapshot equal the database, if
   the version has moved, or nothing was open when the served one was read and no
   commit went unnumbered since; further ticks change nothing in any case.
   */
  lemma QuietTickCatchesUp(s: State)
    requires Inv(s) && s.pc.Waiting?
    ensures Latest(s).version > s.served.configVersion || CleanlyServed(s) ==> QuietTick(s).served == Current(s)
    ensures var once := QuietTick(s);
            once.history != [] && once.pc.Waiting? && QuietTick(once) == once
  {
    hide Loaded, Growing, Current;
    QuietTickKeeps(s);
    if Latest(s).version > s.served.configVersion {
      QuietTickKeeps(QuietTick(s));
    } else if CleanlyServed(s) {
      ServedNeverAhead(s);
      EqualVersionsEqualContents(s);
    }
  }

  // ----- writes that are missed ---------------------------------------------

  /** A database whose snapshot differs from that of `db`. */
  function Different(db: Database): Database {
    if ActiveProjects(db.projects) == []
    then db.(projects := [ProjectRow([], "", [], false, true)]) else db.(projects := [])
  }

  lemma {:induction false} SeededIffActive(rows: seq<ProjectRow>)
    ensures SeedAll(rows) == map[] <==> rows == []
  {
    if rows != [] {
      assert rows[|rows| - 1].id in SeedAll(rows);
    }
  }

  lemma DifferentIsSeen(s: State, c: Seen)
    requires s.history != [] && c.db == Different(Latest(s).db)
    ensures Current(Grow(s, c)).projects != Current(s).projects
  {
    hide Current, ActiveProjects, SeedAll, Different;
    var later := Grow(s, c);
    CurrentKeys(s);
    CurrentKeys(later);
    DifferentFlips(Latest(s).db);
    SeededIffActive(ActiveProjects(Latest(s).db.projects));
    SeededIffActive(ActiveProjects(Latest(later).db.projects));
    assert Latest(later) == c;
  }

  lemma CurrentKeys(s: State)
    requires s.history != []
    ensures Current(s).projects.Keys == SeedAll(ActiveProjects(Latest(s).db.projects)).Keys
  {
    hide FlightRows, ClickRows, CreativeRows, Group, ClickMap, CreativeMap, ActiveProjects, SeedAll;
  }

  lemma DifferentFlips(db: Database)
    ensures ActiveProjects(Different(db).projects) == [] <==> ActiveProjects(db.projects) != []
  {
    OneActive(Different(db).projects);
  }

  lemma OneActive(rows: seq<ProjectRow>)
    ensures |rows| <= 1 ==> (ActiveProjects(rows) == [] <==> rows == [] || !rows[0].isActive)
  {
    assert |rows| == 1 ==> rows[..0] == [];
  }

  /**
   A commit alone never triggers a reload: once the version its number belongs to
   has been polled, the tick after it leaves the old contents in place.
   */
  lemma CommitAloneIsMissed(s: State, numbers: set<int>, db: Database)
    requires Inv(s) && s.pc.Waiting? && s.served.configVersion == Latest(s).version
    requires Enabled(s, Commit(numbers, db))
    ensures QuietTick(Next(s, Commit(numbers, db))).served == s.served
  {
    hide Loaded, Growing;
  }

  /**
   The exact condition, for an up-to-date system: every open write that has drawn a
   number and now commits, whatever it writes, reaches the next quiet tick's
   snapshot iff no such write is open.
   */
  lemma OpenWritesArePickedUpIff(s: State)
    requires Inv(s) && s.pc.Waiting? && s.served == Current(s)
    ensures (forall numbers, db :: numbers != {} && Enabled(s, Commit(numbers, db)) ==>
               QuietTick(Next(s, Commit(numbers, db))).served == Current(Next(s, Commit(numbers, db))))
       <==> Latest(s).pending == {}
  {
    hide Loaded, Growing, Current;
    CurrentVersion(s);
    if Latest(s).pending != {} {
      var all, db := Latest(s).pending, Different(Latest(s).db);
      CommitAloneIsMissed(s, all, db);
      DifferentIsSeen(s, AfterCommit(Latest(s), all, db));
      assert Enabled(s, Commit(all, db));
      assert Next(s, Commit(all, db)) == Grow(s, AfterCommit(Latest(s), all, db));
    }
  }

  /**
   A change whose transaction draws no number is not picked up, however long the
   loader goes on: without a number drawn, an up-to-date store is never loaded again,
   whatever is committed meanwhile.
   */
  lemma {:induction false} WithoutNumbersNothingReloads(s: State, steps: seq<Step>)
    requires ValidRun(s, steps) && s.history != [] && s.pc.Waiting?
    requires s.served.configVersion == Latest(s).version && forall step :: step in steps ==> !step.Bump?
    ensures Exec(s, steps).served == s.served && Exec(s, steps).pc.Waiting?
    decreases |steps|
  {
    hide Loaded;
    if steps != [] {
      var s' := Next(s, steps[0]);
      assert s'.served == s.served && s'.pc.Waiting? && Latest(s').version == Latest(s).version;
      WithoutNumbersNothingReloads(s', steps[1..]);
    }
  }

  /** So such a change to an up-to-date system is served iff it changes nothing that is loaded. */
  lemma UnnumberedWriteIsServedIff(s: State, db: Database)
    requires Inv(s) && s.pc.Waiting? && s.served == Current(s)
    ensures var written := Next(s, Commit({}, db));
            && QuietTick(written).served == s.served
            && (QuietTick(written).served == Current(written) <==> Current(written) == Current(s))
  {
    hide Loaded, Growing, Current;
    CurrentVersion(s);
    CommitAloneIsMissed(s, {}, db);
  }

  lemma CurrentVersion(s: State)
    requires s.history != []
    ensures Current(s).configVersion == Latest(s).version
  {
    hide Loaded;
    LoadedVersion(s.history, Everywhere(s));
  }

  /** One writer's transaction with no statement of the loader in between. */
  function Written(s: State, db: Database): State
    requires s.history != []
  {
    var bumped := Next(s, Bump);
    Next(bumped, Commit({Latest(bumped).version}, db))
  }

  /**
   A whole write to an up-to-date system reaches the next tick's snapshot exactly
   when the sequence has been drawn from before: the first number ever drawn is the
   one the sequence showed already, so the poll does not move.
   */
  lemma WriteIsPickedUpIff(s: State, db: Database)
    requires Inv(s) && s.pc.Waiting? && s.served == Current(s)
    ensures QuietTick(Written(s, db)).served == if Latest(s).drawn then Current(Written(s, db)) else s.served
  {
    hide Loaded, Growing, Current;
    CurrentVersion(s);
    var bumped := Next(s, Bump);
    StepKeeps(s, Bump);
    StepKeeps(bumped, Commit({Latest(bumped).version}, db));
    QuietTickKeeps(Written(s, db));
  }

  // ----- the loader loop ----------------------------------------------------

  /** What one tick of the loop sees: the polled version, and the reload's result. */
  datatype Tick = Tick(polled: Option<int>, reload: Option<Snapshot>)

  function AfterTick(served: Snapshot, t: Tick): Snapshot {
    if t.polled.Some? && t.polled.value > served.configVersion && t.reload.Some? then t.reload.value else served
  }

  function AfterTicks(served: Snapshot, ticks: seq<Tick>): Snapshot {
    if ticks == [] then served else AfterTick(AfterTicks(served, ticks[..|ticks| - 1]), ticks[|ticks| - 1])
  }

  /** The shared pointer that readers clone and the loader replaces. */
  class SnapshotStore {
    var inner: Snapshot

    constructor (initial: Snapshot)
      ensures inner == initial
    {
      inner := initial;
    }

    method Read() returns (r: Snapshot)
      ensures r == inner
    {
      return inner;
    }

    method Swap(next: Snapshot)
      modifies this
      ensures inner == next
    {
      inner := next;
    }

    method RunLoader(cold: Option<Snapshot>, ticks: seq<Tick>)
      modifies this
      ensures inner == AfterTicks(if cold.Some? then cold.value else old(inner), ticks)
    {
      if cold.Some? {
        Swap(cold.value);
      }
      ghost var start := inner;
      for i := 0 to |ticks|
        invariant inner == AfterTicks(start, ticks[..i])
      {
        assert ticks[..i + 1][..i] == ticks[..i];
        var curVersion := inner.configVersion;
        if ticks[i].polled.None? {
          continue;
        }
        var dbVersion := ticks[i].polled.value;
        if dbVersion <= curVersion {
          continue;
        }
        if ticks[i].reload.Some? {
          Swap(ticks[i].reload.value);
        }
      }
      assert ticks[..|ticks|] == ticks;
    }
  }

  /**
   Because a reload's label is never below the version just polled, the loop never
   serves an older version again, and after any tick that worked it serves at
   least the version that tick polled.
   */
  lemma {:induction false} LoopNeverGoesBack(served: Snapshot, ticks: seq<Tick>, i: nat)
    requires i <= |ticks|
    requires forall t :: t in ticks && t.polled.Some? && t.reload.Some? ==>
               t.polled.value <= t.reload.value.configVersion
    ensures AfterTicks(served, ticks[..i]).configVersion <= AfterTicks(served, ticks).configVersion
    ensures i < |ticks| && ticks[i].polled.Some? && ticks[i].reload.Some? ==>
              ticks[i].polled.value <= AfterTicks(served, ticks).configVersion
    decreases |ticks|
  {
    if i < |ticks| {
      var init, last := ticks[..|ticks| - 1], ticks[|ticks| - 1];
      assert last in ticks;
      LoopNeverGoesBack(served, init, i);
      assert init[..i] == ticks[..i];
      if i < |init| {
        assert init[i] == ticks[i];
      }
    } else {
      assert ticks[..i] == ticks;
    }
  }
}
