/**
 Batch upserts: each row runs under its own savepoint of one outer transaction, so
 that a failing row undoes itself only. `Tx` is what Postgres keeps for the
 transaction; `S` is the data it has changed so far.
 */
module Batch {
  import opened Prelude

  datatype Savepoint<S> = Savepoint(name: string, saved: S)

  /** After an error the transaction refuses commands until a rollback to a savepoint. */
  datatype Tx<S> = Tx(state: S, savepoints: seq<Savepoint<S>>, aborted: bool, issued: nat)

  /** What a row's own SQL does: new data, its result, whether it left the transaction aborted. */
  datatype RowRun<S, T, E> = RowRun(state: S, result: Result<T, E>, aborts: bool)

  /** A row's entry in the answer: its own error, or that of a savepoint command. */
  datatype RowError<E> = OwnError(e: E) | CommandFailed

  function Decimal(n: nat): string {
    if n == 0 then "0" else Digits(n)
  }

  function RowSavepoint(idx: nat): string {
    "knievel_batch_row_" + Decimal(idx)
  }

  /** The most recent savepoint of that name. */
  function Find<S>(sps: seq<Savepoint<S>>, name: string): Option<nat> {
    if sps == [] then None
    else if sps[|sps| - 1].name == name then Some(|sps| - 1)
    else Find(sps[..|sps| - 1], name)
  }

  // Savepoint commands. `faults(k)` says that the k-th command fails by itself.

  function FailedCommand<S>(tx: Tx<S>): Tx<S> {
    tx.(aborted := true, issued := tx.issued + 1)
  }

  function DoSavepoint<S>(tx: Tx<S>, name: string, faults: nat -> bool): (Tx<S>, bool) {
    if faults(tx.issued) || tx.aborted then (FailedCommand(tx), false)
    else (tx.(savepoints := tx.savepoints + [Savepoint(name, tx.state)], issued := tx.issued + 1), true)
  }

  function DoRelease<S>(tx: Tx<S>, name: string, faults: nat -> bool): (Tx<S>, bool) {
    var at := Find(tx.savepoints, name);
    if faults(tx.issued) || tx.aborted || at.None? || at.value >= |tx.savepoints| then (FailedCommand(tx), false)
    else (tx.(savepoints := tx.savepoints[..at.value], issued := tx.issued + 1), true)
  }

  function DoRollbackTo<S>(tx: Tx<S>, name: string, faults: nat -> bool): (Tx<S>, bool) {
    var at := Find(tx.savepoints, name);
    if faults(tx.issued) || at.None? || at.value >= |tx.savepoints| then (FailedCommand(tx), false)
    else (Tx(tx.savepoints[at.value].saved, tx.savepoints[..at.value + 1], false, tx.issued + 1), true)
  }

  function DoRow<S, R, T, E>(tx: Tx<S>, idx: nat, row: R, perRow: (S, nat, R) -> RowRun<S, T, E>)
    : (Tx<S>, Result<T, E>)
  {
    var run := perRow(tx.state, idx, row);
    (tx.(state := run.state, aborted := run.aborts), run.result)
  }

  /** Everything done for one row. */
  function RunRow<S, R, T, E>(tx: Tx<S>, idx: nat, row: R, perRow: (S, nat, R) -> RowRun<S, T, E>, faults: nat -> bool)
    : (Tx<S>, Result<T, RowError<E>>)
  {
    var sp := RowSavepoint(idx);
    var (saved, ok) := DoSavepoint(tx, sp, faults);
    if !ok then (saved, Err(CommandFailed))
    else
      var (ran, result) := DoRow(saved, idx, row, perRow);
      match result
      case Ok(t) =>
        var (released, ok2) := DoRelease(ran, sp, faults);
        (released, if ok2 then Ok(t) else Err(CommandFailed))
      case Err(e) =>
        var (back, ok2) := DoRollbackTo(ran, sp, faults);
        if !ok2 then (back, Err(CommandFailed))
        else
          var (released, ok3) := DoRelease(back, sp, faults);
          (released, if ok3 then Err(OwnError(e)) else Err(CommandFailed))
  }

  function RunRows<S, R, T, E>(tx: Tx<S>, rows: seq<R>, perRow: (S, nat, R) -> RowRun<S, T, E>, faults: nat -> bool)
    : (Tx<S>, seq<Result<T, RowError<E>>>)
  {
    if rows == [] then (tx, [])
    else
      var n := |rows| - 1;
      var (before, out) := RunRows(tx, rows[..n], perRow, faults);
      var (after, r) := RunRow(before, n, rows[n], perRow, faults);
      (after, out + [r])
  }

  /** The open transaction the handler lends to the batch runner. */
  class Transaction<S> {
    var tx: Tx<S>

    constructor (initial: S)
      ensures tx == Tx(initial, [], false, 0)
    {
      tx := Tx(initial, [], false, 0);
    }

    method SavepointCmd(name: string, faults: nat -> bool) returns (ok: bool)
      modifies this
      ensures (tx, ok) == DoSavepoint(old(tx), name, faults)
    {
      var (next, done) := DoSavepoint(tx, name, faults);
      tx := next;
      return done;
    }

    method ReleaseCmd(name: string, faults: nat -> bool) returns (ok: bool)
      modifies this
      ensures (tx, ok) == DoRelease(old(tx), name, faults)
    {
      var (next, done) := DoRelease(tx, name, faults);
      tx := next;
      return done;
    }

    method RollbackToCmd(name: string, faults: nat -> bool) returns (ok: bool)
      modifies this
      ensures (tx, ok) == DoRollbackTo(old(tx), name, faults)
    {
      var (next, done) := DoRollbackTo(tx, name, faults);
      tx := next;
      return done;
    }

    method RunBatchWithSavepoints<R, T, E>(rows: seq<R>, perRow: (S, nat, R) -> RowRun<S, T, E>, faults: nat -> bool)
      returns (out: seq<Result<T, RowError<E>>>)
      modifies this
      ensures (tx, out) == RunRows(old(tx), rows, perRow, faults)
    {
      hide DoSavepoint, DoRelease, DoRollbackTo, RowSavepoint;
      out := [];
      for idx := 0 to |rows|
        invariant (tx, out) == RunRows(old(tx), rows[..idx], perRow, faults)
      {
        assert rows[..idx + 1][..idx] == rows[..idx];
        var sp := RowSavepoint(idx);
        var ok := SavepointCmd(sp, faults);
        if !ok {
          out := out + [Err(CommandFailed)];
          continue;
        }
        var (ran, rowResult) := DoRow(tx, idx, rows[idx], perRow);
        tx := ran;
        match rowResult {
          case Ok(t) =>
            ok := ReleaseCmd(sp, faults);
            if !ok {
              out := out + [Err(CommandFailed)];
              continue;
            }
            out := out + [Ok(t)];
          case Err(e) =>
            ok := RollbackToCmd(sp, faults);
            if !ok {
              out := out + [Err(CommandFailed)];
              continue;
            }
            ok := ReleaseCmd(sp, faults);
            if !ok {
              out := out + [Err(CommandFailed)];
              continue;
            }
            out := out + [Err(OwnError(e))];
        }
      }
      assert rows[..|rows|] == rows;
    }
  }

  // ----- isolation of rows --------------------------------------------------

  /** The data after applying only the rows that succeed, each on what came before. */
  function ApplyOk<S, R, T, E>(start: S, rows: seq<R>, perRow: (S, nat, R) -> RowRun<S, T, E>): S {
    if rows == [] then start
    else
      var n := |rows| - 1;
      var before := ApplyOk(start, rows[..n], perRow);
      var run := perRow(before, n, rows[n]);
      if run.result.Ok? then run.state else before
  }

  /** Each row's own result, on the data the earlier successes left. */
  function OwnResult<S, R, T, E>(start: S, rows: seq<R>, perRow: (S, nat, R) -> RowRun<S, T, E>, i: nat)
    : Result<T, RowError<E>>
    requires i < |rows|
  {
    match perRow(ApplyOk(start, rows[..i], perRow), i, rows[i]).result
    case Ok(t) => Ok(t)
    case Err(e) => Err(OwnError(e))
  }

  lemma FindOnTop<S>(sps: seq<Savepoint<S>>, s: Savepoint<S>)
    ensures Find(sps + [s], s.name) == Some(|sps|)
  {
  }

  /**
   One row: either all its savepoint commands worked, and then the stack is as
   before and the data moved only if the row succeeded; or one failed, and then the
   transaction is left aborted.
   */
  lemma RowIsIsolated<S, R, T, E>(tx: Tx<S>, idx: nat, row: R, perRow: (S, nat, R) -> RowRun<S, T, E>,
                                  faults: nat -> bool)
    ensures var (after, r) := RunRow(tx, idx, row, perRow, faults);
            var run := perRow(tx.state, idx, row);
            && (r == Err(CommandFailed) <==> after.aborted)
            && (tx.aborted ==> after.aborted)
            && (!after.aborted ==>
                  && after.savepoints == tx.savepoints
                  && after.state == (if run.result.Ok? then run.state else tx.state)
                  && r == match run.result case Ok(t) => Ok(t) case Err(e) => Err(OwnError(e)))
  {
    hide RowSavepoint, Find;
    var sp := RowSavepoint(idx);
    FindOnTop(tx.savepoints, Savepoint(sp, tx.state));
    var stack := tx.savepoints + [Savepoint(sp, tx.state)];
    assert stack[..|tx.savepoints|] == tx.savepoints && stack[..|tx.savepoints| + 1] == stack;
  }

  lemma ApplyOkStep<S, R, T, E>(start: S, rows: seq<R>, perRow: (S, nat, R) -> RowRun<S, T, E>)
    requires rows != []
    ensures var n := |rows| - 1;
            var before := ApplyOk(start, rows[..n], perRow);
            var run := perRow(before, n, rows[n]);
            ApplyOk(start, rows, perRow) == if run.result.Ok? then run.state else before
  {
  }

  /** `after` and `out` are what isolating every row of `rows` from the others gives. */
  ghost predicate Isolated<S, R, T, E>(tx: Tx<S>, rows: seq<R>, perRow: (S, nat, R) -> RowRun<S, T, E>,
                                       after: Tx<S>, out: seq<Result<T, RowError<E>>>)
  {
    && |out| == |rows|
    && (after.aborted <==> Err(CommandFailed) in out)
    && (forall i, j :: 0 <= i < j < |out| && out[i] == Err(CommandFailed) ==> out[j] == Err(CommandFailed))
    && (forall i :: 0 <= i < |out| && out[i] != Err(CommandFailed) ==> out[i] == OwnResult(tx.state, rows, perRow, i))
    && (!after.aborted ==> after.savepoints == tx.savepoints && after.state == ApplyOk(tx.state, rows, perRow))
  }

  lemma IsolatedStep<S, R, T, E>(tx: Tx<S>, init: seq<R>, row: R, perRow: (S, nat, R) -> RowRun<S, T, E>,
                                 faults: nat -> bool, before: Tx<S>, out: seq<Result<T, RowError<E>>>)
    requires Isolated(tx, init, perRow, before, out)
    ensures var (after, r) := RunRow(before, |init|, row, perRow, faults);
            Isolated(tx, init + [row], perRow, after, out + [r])
  {
    hide RunRow, ApplyOk;
    var rows := init + [row];
    var (after, r) := RunRow(before, |init|, row, perRow, faults);
    RowIsIsolated(before, |init|, row, perRow, faults);
    ApplyOkStep(tx.state, rows, perRow);
    assert rows[..|init|] == init;
    forall i | 0 <= i < |init|
      ensures rows[..i] == init[..i]
    {
    }
  }

  /**
   A batch on a healthy transaction: one result per row, in order. If no savepoint
   command failed, the data is what the successful rows alone would have left, the
   stack is as deep as before and nothing is aborted. If one failed at row `i`,
   every later row reports a failure too and the transaction stays aborted.
   */
  lemma {:induction false} BatchIsolatesRows<S, R, T, E>(tx: Tx<S>, rows: seq<R>,
                                                         perRow: (S, nat, R) -> RowRun<S, T, E>, faults: nat -> bool)
    requires !tx.aborted
    ensures var (after, out) := RunRows(tx, rows, perRow, faults);
            Isolated(tx, rows, perRow, after, out)
  {
    hide RunRow;
    if rows != [] {
      hide Isolated;
      var n := |rows| - 1;
      BatchIsolatesRows(tx, rows[..n], perRow, faults);
      var (before, out) := RunRows(tx, rows[..n], perRow, faults);
      IsolatedStep(tx, rows[..n], rows[n], perRow, faults, before, out);
      assert rows[..n] + [rows[n]] == rows;
    }
  }

  /** Row `i`, run on what the earlier successes left, reports success and leaves the transaction aborted. */
  predicate OkWhileAborted<S, R, T, E>(start: S, rows: seq<R>, perRow: (S, nat, R) -> RowRun<S, T, E>, i: nat)
    requires i < |rows|
  {
    var run := perRow(ApplyOk(start, rows[..i], perRow), i, rows[i]);
    run.result.Ok? && run.aborts
  }

  ghost predicate SomeOkWhileAborted<S, R, T, E>(start: S, rows: seq<R>, perRow: (S, nat, R) -> RowRun<S, T, E>) {
    exists i :: 0 <= i < |rows| && OkWhileAborted(start, rows, perRow, i)
  }

  /** One row, when no command fails by itself: only a row that swallows its own error aborts. */
  lemma RowAbortsIff<S, R, T, E>(tx: Tx<S>, idx: nat, row: R, perRow: (S, nat, R) -> RowRun<S, T, E>,
                                 faults: nat -> bool)
    requires !tx.aborted && (forall k :: !faults(k))
    ensures var run := perRow(tx.state, idx, row);
            RunRow(tx, idx, row, perRow, faults).0.aborted <==> run.result.Ok? && run.aborts
  {
    hide RowSavepoint, Find;
    var sp := RowSavepoint(idx);
    FindOnTop(tx.savepoints, Savepoint(sp, tx.state));
    var stack := tx.savepoints + [Savepoint(sp, tx.state)];
    assert stack[..|tx.savepoints| + 1] == stack;
  }

  /**
   When no savepoint command fails by itself, the batch is aborted exactly if some
   row reports success while aborted: its release is refused, and so is everything
   after it. Otherwise every row's own result stands.
   */
  lemma {:induction false} BatchAbortsIff<S, R, T, E>(tx: Tx<S>, rows: seq<R>,
                                                      perRow: (S, nat, R) -> RowRun<S, T, E>, faults: nat -> bool)
    requires !tx.aborted && (forall k :: !faults(k))
    ensures RunRows(tx, rows, perRow, faults).0.aborted
       <==> SomeOkWhileAborted(tx.state, rows, perRow)
  {
    if rows != [] {
      hide RunRows, SomeOkWhileAborted, OkWhileAborted;
      BatchAbortsIff(tx, rows[..|rows| - 1], perRow, faults);
      LastRowAbortsIff(tx, rows, perRow, faults);
      SomeRowStep(tx.state, rows, perRow);
    }
  }

  lemma SomeRowStep<S, R, T, E>(start: S, rows: seq<R>, perRow: (S, nat, R) -> RowRun<S, T, E>)
    requires rows != []
    ensures SomeOkWhileAborted(start, rows, perRow)
       <==> SomeOkWhileAborted(start, rows[..|rows| - 1], perRow) || OkWhileAborted(start, rows, perRow, |rows| - 1)
  {
    hide OkWhileAborted;
    var init := rows[..|rows| - 1];
    forall i | 0 <= i < |init|
      ensures OkWhileAborted(start, rows, perRow, i) <==> OkWhileAborted(start, init, perRow, i)
    {
      EarlierRowUnchanged(start, rows, perRow, i);
    }
  }

  lemma EarlierRowUnchanged<S, R, T, E>(start: S, rows: seq<R>, perRow: (S, nat, R) -> RowRun<S, T, E>, i: nat)
    requires i < |rows| - 1
    ensures OkWhileAborted(start, rows, perRow, i) <==> OkWhileAborted(start, rows[..|rows| - 1], perRow, i)
  {
    hide ApplyOk;
    assert rows[..i] == rows[..|rows| - 1][..i];
  }

  lemma LastRowAbortsIff<S, R, T, E>(tx: Tx<S>, rows: seq<R>, perRow: (S, nat, R) -> RowRun<S, T, E>,
                                     faults: nat -> bool)
    requires !tx.aborted && (forall k :: !faults(k)) && rows != []
    ensures RunRows(tx, rows, perRow, faults).0.aborted
       <==> RunRows(tx, rows[..|rows| - 1], perRow, faults).0.aborted
            || OkWhileAborted(tx.state, rows, perRow, |rows| - 1)
  {
    hide RunRow, Isolated, ApplyOk;
    var n := |rows| - 1;
    var (before, out) := RunRows(tx, rows[..n], perRow, faults);
    RowIsIsolated(before, n, rows[n], perRow, faults);
    BatchIsolatesRows(tx, rows[..n], perRow, faults);
    if !before.aborted {
      IsolatedState(tx, rows[..n], perRow, before, out);
      RowAbortsIff(before, n, rows[n], perRow, faults);
    }
  }

  lemma IsolatedState<S, R, T, E>(tx: Tx<S>, rows: seq<R>, perRow: (S, nat, R) -> RowRun<S, T, E>, after: Tx<S>,
                                  out: seq<Result<T, RowError<E>>>)
    requires Isolated(tx, rows, perRow, after, out) && !after.aborted
    ensures after.state == ApplyOk(tx.state, rows, perRow)
  {
  }
}
