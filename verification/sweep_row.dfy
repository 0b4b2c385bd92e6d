/** The per-row evaluate / reinitialise / retry rule of the deprecated
    parameter sweep (recursive_parameter_sweep.py, lines 449-494).

    The optimisation, the optimality check and the reinitialisation are an
    outcome oracle per row; the outputs read back from the model after an
    attempt are part of that oracle. */
module SweepRow {
  import opened Wrappers

  /** How the first optimisation attempt of a row ends. `NonOptimal` is a
      solve that returns but fails `assert_optimal_termination`. */
  datatype Attempt = Raises | NonOptimal | Optimal

  /** Everything the environment decides about one row. */
  datatype RowOracle = RowOracle(
    preReinitRaises: bool,      // the forced reinitialisation before the solve raises
    first: Attempt,             // outcome of the first optimisation
    firstValues: seq<real>,     // output values after a successful first attempt
    retryReinitRaises: bool,    // the reinitialisation before the retry raises
    retryOptimizeRaises: bool,  // the retried optimisation raises
    retryValues: seq<real>      // output values after the retry
  )

  /** An entry of the results row: a value or NaN. */
  datatype Cell = Value(v: real) | NaN

  /** Exceptions that escape the row rule. The forced reinitialisation sits
      outside the `try`, so a missing reinitialise function (calling `None`,
      a TypeError) or a raising one ends the sweep. */
  datatype RowError = ReinitMissing | ReinitRaised

  /** The row written to the results, and whether the first attempt failed,
      and how often reinitialise and optimise were called. */
  datatype RowOutcome = RowOutcome(outputs: seq<Cell>, firstFailed: bool, reinitCalls: nat, optimizeCalls: nat)

  function Values(xs: seq<real>): (cells: seq<Cell>)
    ensures |cells| == |xs| && forall i :: 0 <= i < |xs| ==> cells[i] == Value(xs[i])
  {
    seq(|xs|, i requires 0 <= i < |xs| => Value(xs[i]))
  }

  function NaNRow(n: nat): (cells: seq<Cell>)
    ensures |cells| == n && forall i :: 0 <= i < n ==> cells[i] == NaN
  {
    seq(n, _ => NaN)
  }

  ghost predicate IsNaNRow(cells: seq<Cell>)
  {
    forall i :: 0 <= i < |cells| ==> cells[i] == NaN
  }

  /** Whether the retry after a failed first attempt completes without raising. */
  predicate RetrySucceeds(o: RowOracle, hasReinit: bool)
  {
    hasReinit && !o.retryReinitRaises && !o.retryOptimizeRaises
  }

  /** One row of the deprecated sweep. */
  function EvaluateRow(o: RowOracle, nOut: nat, hasReinit: bool, reinitBeforeSweep: bool): (res: Result<RowOutcome, RowError>)
    requires |o.firstValues| == nOut && |o.retryValues| == nOut
    ensures res.Err? <==> reinitBeforeSweep && (!hasReinit || o.preReinitRaises)
    ensures res.Ok? ==> |res.value.outputs| == nOut
    ensures res.Ok? ==> (res.value.firstFailed <==> o.first != Optimal)
    ensures res.Ok? && o.first == Optimal ==> res.value.outputs == Values(o.firstValues)
    ensures res.Ok? && o.first != Optimal && RetrySucceeds(o, hasReinit) ==> res.value.outputs == Values(o.retryValues)
    ensures res.Ok? && nOut > 0 ==> (IsNaNRow(res.value.outputs) <==> o.first != Optimal && !RetrySucceeds(o, hasReinit))
    ensures res.Ok? ==> res.value.optimizeCalls == (if o.first != Optimal && hasReinit && !o.retryReinitRaises then 2 else 1)
    ensures res.Ok? ==> res.value.reinitCalls == (if reinitBeforeSweep then 1 else 0) + (if o.first != Optimal && hasReinit then 1 else 0)
  {
    if reinitBeforeSweep && !hasReinit then Err(ReinitMissing)
    else if reinitBeforeSweep && o.preReinitRaises then Err(ReinitRaised)
    else
      var pre := if reinitBeforeSweep then 1 else 0;
      if o.first == Optimal then
        assert nOut > 0 ==> Values(o.firstValues)[0] != NaN;
        Ok(RowOutcome(Values(o.firstValues), false, pre, 1))
      else if !hasReinit then
        Ok(RowOutcome(NaNRow(nOut), true, pre, 1))
      else if o.retryReinitRaises then
        Ok(RowOutcome(NaNRow(nOut), true, pre + 1, 1))
      else if o.retryOptimizeRaises then
        Ok(RowOutcome(NaNRow(nOut), true, pre + 1, 2))
      else
        assert nOut > 0 ==> Values(o.retryValues)[0] != NaN;
        Ok(RowOutcome(Values(o.retryValues), true, pre + 1, 2))
  }

  /** Rows whose first attempt failed. */
  function CountFirstFailures(rows: seq<RowOracle>): nat
  {
    if |rows| == 0 then 0
    else CountFirstFailures(rows[..|rows| - 1]) + (if rows[|rows| - 1].first != Optimal then 1 else 0)
  }

  /** The case loop of the deprecated sweep: every row in turn, `fail_counter`
      counting first-attempt failures; an escaping exception ends the loop. */
  method SweepRows(rows: seq<RowOracle>, nOut: nat, hasReinit: bool, reinitBeforeSweep: bool)
    returns (res: Result<seq<seq<Cell>>, RowError>, failCounter: nat)
    requires forall k :: 0 <= k < |rows| ==> |rows[k].firstValues| == nOut && |rows[k].retryValues| == nOut
    ensures res.Ok? ==> |res.value| == |rows|
    ensures res.Ok? ==> forall k :: 0 <= k < |rows| ==>
              EvaluateRow(rows[k], nOut, hasReinit, reinitBeforeSweep).Ok?
              && res.value[k] == EvaluateRow(rows[k], nOut, hasReinit, reinitBeforeSweep).value.outputs
    ensures res.Ok? ==> failCounter == CountFirstFailures(rows)
    ensures res.Err? <==> |rows| > 0 && reinitBeforeSweep && (!hasReinit || exists k :: 0 <= k < |rows| && rows[k].preReinitRaises)
  {
    var results: seq<seq<Cell>> := [];
    failCounter := 0;
    var k := 0;
    while k < |rows|
      invariant k <= |rows|
      invariant |results| == k
      invariant forall i :: 0 <= i < k ==>
                  EvaluateRow(rows[i], nOut, hasReinit, reinitBeforeSweep).Ok?
                  && results[i] == EvaluateRow(rows[i], nOut, hasReinit, reinitBeforeSweep).value.outputs
      invariant failCounter == CountFirstFailures(rows[..k])
    {
      var row := EvaluateRow(rows[k], nOut, hasReinit, reinitBeforeSweep);
      if row.Err? {
        return Err(row.error), failCounter;
      }
      assert rows[..k + 1][..k] == rows[..k];
      if row.value.firstFailed {
        failCounter := failCounter + 1;
      }
      results := results + [row.value.outputs];
      k := k + 1;
    }
    assert rows[..k] == rows;
    return Ok(results), failCounter;
  }

  /** A NaN row in the results implies that row's first attempt failed, so
      the NaN rows never outnumber `fail_counter`. */
  lemma {:induction false} NaNRowsAreFailures(rows: seq<RowOracle>, nOut: nat, hasReinit: bool, reinitBeforeSweep: bool)
    requires nOut > 0
    requires forall k :: 0 <= k < |rows| ==> |rows[k].firstValues| == nOut && |rows[k].retryValues| == nOut
    requires forall k :: 0 <= k < |rows| ==> EvaluateRow(rows[k], nOut, hasReinit, reinitBeforeSweep).Ok?
    ensures NaNRowCount(rows, nOut, hasReinit, reinitBeforeSweep) <= CountFirstFailures(rows)
  {
    if |rows| > 0 {
      NaNRowsAreFailures(rows[..|rows| - 1], nOut, hasReinit, reinitBeforeSweep);
    }
  }

  /** Number of rows whose results row is all NaN. */
  function NaNRowCount(rows: seq<RowOracle>, nOut: nat, hasReinit: bool, reinitBeforeSweep: bool): nat
    requires forall k :: 0 <= k < |rows| ==> |rows[k].firstValues| == nOut && |rows[k].retryValues| == nOut
    requires forall k :: 0 <= k < |rows| ==> EvaluateRow(rows[k], nOut, hasReinit, reinitBeforeSweep).Ok?
  {
    if |rows| == 0 then 0
    else
      var last := EvaluateRow(rows[|rows| - 1], nOut, hasReinit, reinitBeforeSweep).value;
      NaNRowCount(rows[..|rows| - 1], nOut, hasReinit, reinitBeforeSweep)
      + (if last.outputs == NaNRow(nOut) then 1 else 0)
  }
}
