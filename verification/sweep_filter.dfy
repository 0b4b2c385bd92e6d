/** Compaction of the per-round sweep outputs into one table of successful
    solves (`_filter_recursive_solves`, recursive_parameter_sweep.py lines
    70-119) and the aggregated input array (`_aggregate_filtered_input_arr`,
    lines 125-140).

    A round's output dictionary is modelled as its success flags plus one
    value column per (key, subkey) entry of the dictionary, in a fixed order. */
module SweepFilter {
  import opened Wrappers
  import opened Sums

  /** One round's local output: flags and the value columns, each indexed by case. */
  datatype RoundContent = RoundContent(flags: seq<bool>, columns: seq<seq<real>>)

  /** The shape the sweep gives every round: `nc` columns, each holding one
      value per case. */
  ghost predicate WellShaped(nc: nat, rounds: seq<RoundContent>)
  {
    forall k :: 0 <= k < |rounds| ==>
      && |rounds[k].columns| == nc
      && forall j :: 0 <= j < nc ==> |rounds[k].columns[j]| == |rounds[k].flags|
  }

  /** `list(itertools.compress(range(len(flags)), flags))`. */
  function OptimalIndices(flags: seq<bool>): (idx: seq<nat>)
    ensures |idx| == Count(flags)
    ensures forall i :: 0 <= i < |idx| ==> idx[i] < |flags|
  {
    if |flags| == 0 then []
    else
      OptimalIndices(flags[..|flags| - 1])
      + (if flags[|flags| - 1] then [|flags| - 1] else [])
  }

  /** The indices `OptimalIndices` returns are exactly those of the true flags,
      in increasing order. */
  lemma {:induction false} OptimalIndicesExact(flags: seq<bool>)
    ensures forall i :: 0 <= i < |OptimalIndices(flags)| ==> flags[OptimalIndices(flags)[i]]
    ensures forall i, j :: 0 <= i < j < |OptimalIndices(flags)| ==> OptimalIndices(flags)[i] < OptimalIndices(flags)[j]
    ensures forall p :: 0 <= p < |flags| && flags[p] ==> p in OptimalIndices(flags)
  {
    if |flags| > 0 {
      var init := flags[..|flags| - 1];
      OptimalIndicesExact(init);
      assert forall p :: 0 <= p < |init| ==> init[p] == flags[p];
    }
  }

  /** Numpy fancy indexing `column[indices]`. */
  function Select(column: seq<real>, indices: seq<nat>): (out: seq<real>)
    requires forall i :: 0 <= i < |indices| ==> indices[i] < |column|
    ensures |out| == |indices|
    ensures forall i :: 0 <= i < |indices| ==> out[i] == column[indices[i]]
  {
    seq(|indices|, i requires 0 <= i < |indices| => column[indices[i]])
  }

  /** Reference definition: the entries of `column` whose flag is true, in order. */
  function KeepFlagged(column: seq<real>, flags: seq<bool>): seq<real>
    requires |column| == |flags|
  {
    if |flags| == 0 then []
    else
      KeepFlagged(column[..|column| - 1], flags[..|flags| - 1])
      + (if flags[|flags| - 1] then [column[|column| - 1]] else [])
  }

  /** Fancy indexing by the compressed index list keeps exactly the flagged entries. */
  lemma {:induction false} SelectOptimalIsKeepFlagged(column: seq<real>, flags: seq<bool>)
    requires |column| == |flags|
    ensures Select(column, OptimalIndices(flags)) == KeepFlagged(column, flags)
  {
    if |flags| > 0 {
      var n := |flags| - 1;
      SelectOptimalIsKeepFlagged(column[..n], flags[..n]);
      var idx := OptimalIndices(flags[..n]);
      assert Select(column, idx) == Select(column[..n], idx);
      if flags[n] {
        assert Select(column, idx + [n]) == Select(column, idx) + [column[n]];
      }
    }
  }

  /** Total number of true flags over all rounds (`filter_counter`). */
  function TotalSuccess(rounds: seq<RoundContent>): nat
  {
    if |rounds| == 0 then 0
    else TotalSuccess(rounds[..|rounds| - 1]) + Count(rounds[|rounds| - 1].flags)
  }

  /** Where round `k` starts in the filtered table. */
  function Offset(rounds: seq<RoundContent>, k: nat): nat
    requires k <= |rounds|
  {
    TotalSuccess(rounds[..k])
  }

  /** The rows of column `j` a round keeps. */
  function RoundKept(r: RoundContent, j: nat): (out: seq<real>)
    requires j < |r.columns| && |r.columns[j]| == |r.flags|
    ensures |out| == Count(r.flags)
  {
    Select(r.columns[j], OptimalIndices(r.flags))
  }

  /** Column `j` of the filtered table: each round's kept rows, round after round. */
  function Kept(nc: nat, rounds: seq<RoundContent>, j: nat): (out: seq<real>)
    requires WellShaped(nc, rounds) && j < nc
    ensures |out| == TotalSuccess(rounds)
  {
    if |rounds| == 0 then []
    else
      assert WellShaped(nc, rounds[..|rounds| - 1]);
      Kept(nc, rounds[..|rounds| - 1], j) + RoundKept(rounds[|rounds| - 1], j)
  }

  lemma {:induction false} TotalSuccessAppend(rounds: seq<RoundContent>, r: RoundContent)
    ensures TotalSuccess(rounds + [r]) == TotalSuccess(rounds) + Count(r.flags)
  {
    assert (rounds + [r])[..|rounds|] == rounds;
  }

  /** Kept rows of a prefix extended by one round. */
  lemma KeptSnoc(nc: nat, rounds: seq<RoundContent>, k: nat, j: nat)
    requires WellShaped(nc, rounds) && k < |rounds| && j < nc
    ensures WellShaped(nc, rounds[..k]) && WellShaped(nc, rounds[..k + 1])
    ensures Kept(nc, rounds[..k + 1], j) == Kept(nc, rounds[..k], j) + RoundKept(rounds[k], j)
  {
    assert rounds[..k + 1][..k] == rounds[..k];
  }

  /** Numpy slice assignment `column[offset:stop] = kept` on every column of
      the table: the rows before `offset` and from `stop` on are untouched. */
  function WriteRound(table: seq<seq<real>>, offset: nat, r: RoundContent): (out: seq<seq<real>>)
    requires |table| <= |r.columns|
    requires forall j :: 0 <= j < |table| ==> |r.columns[j]| == |r.flags| && offset + Count(r.flags) <= |table[j]|
    ensures |out| == |table|
    ensures forall j :: 0 <= j < |table| ==>
              && |out[j]| == |table[j]| >= offset + Count(r.flags)
              && out[j][..offset] == table[j][..offset]
              && out[j][offset..offset + Count(r.flags)] == RoundKept(r, j)
              && out[j][offset + Count(r.flags)..] == table[j][offset + Count(r.flags)..]
  {
    var stop := offset + Count(r.flags);
    seq(|table|, j requires 0 <= j < |table| => table[j][..offset] + RoundKept(r, j) + table[j][stop..])
  }

  /** One iteration of the copy loop: after writing round `k` the table's
      first rows are the kept rows of rounds `0..k`. */
  lemma WriteRoundExtends(nc: nat, rounds: seq<RoundContent>, k: nat, table: seq<seq<real>>, offset: nat, counter: nat)
    requires WellShaped(nc, rounds) && k < |rounds|
    requires offset == TotalSuccess(rounds[..k]) <= counter == TotalSuccess(rounds)
    requires |table| == nc
    requires forall j :: 0 <= j < nc ==> |table[j]| == counter && table[j][..offset] == Kept(nc, rounds[..k], j)
    ensures offset + Count(rounds[k].flags) == TotalSuccess(rounds[..k + 1]) <= counter
    ensures WellShaped(nc, rounds[..k + 1])
    ensures var next := WriteRound(table, offset, rounds[k]);
      && |next| == nc
      && forall j :: 0 <= j < nc ==>
           |next[j]| == counter && next[j][..offset + Count(rounds[k].flags)] == Kept(nc, rounds[..k + 1], j)
  {
    var r := rounds[k];
    TotalSuccessAppend(rounds[..k], r);
    assert rounds[..k + 1] == rounds[..k] + [r];
    TotalSuccessPrefixBound(rounds, k + 1);
    var next := WriteRound(table, offset, r);
    var n := Count(r.flags);
    forall j | 0 <= j < nc
      ensures next[j][..offset + n] == Kept(nc, rounds[..k + 1], j)
    {
      KeptSnoc(nc, rounds, k, j);
      assert next[j][..offset + n] == next[j][..offset] + next[j][offset..offset + n];
    }
  }

  /** The first loop: `filter_counter` is the sum of all success flags. */
  method CountSuccesses(rounds: seq<RoundContent>) returns (counter: nat)
    ensures counter == TotalSuccess(rounds)
  {
    counter := 0;
    var k := 0;
    while k < |rounds|
      invariant k <= |rounds|
      invariant counter == TotalSuccess(rounds[..k])
    {
      TotalSuccessAppend(rounds[..k], rounds[k]);
      assert rounds[..k + 1] == rounds[..k] + [rounds[k]];
      counter := counter + Count(rounds[k].flags);
      k := k + 1;
    }
    assert rounds[..k] == rounds;
  }

  /** `flags[optimal_indices]`: the flags of the kept rows, all true. */
  function SelectedFlags(flags: seq<bool>): (r: seq<bool>)
    ensures |r| == Count(flags) && forall i :: 0 <= i < |r| ==> r[i]
  {
    OptimalIndicesExact(flags);
    var idx := OptimalIndices(flags);
    seq(|idx|, i requires 0 <= i < |idx| => flags[idx[i]])
  }

  /** `_filter_recursive_solves`: count the successes, size the table by that
      count, then copy each round's successful rows to `[offset, offset + n)`. */
  method FilterRecursiveSolves(nc: nat, rounds: seq<RoundContent>)
    returns (filtered: seq<seq<real>>, keptFlags: seq<bool>, counter: nat)
    requires WellShaped(nc, rounds)
    ensures counter == TotalSuccess(rounds)
    ensures |keptFlags| == counter && forall i :: 0 <= i < |keptFlags| ==> keptFlags[i]
    ensures |filtered| == nc
    ensures forall j :: 0 <= j < nc ==> filtered[j] == Kept(nc, rounds, j)
  {
    counter := CountSuccesses(rounds);
    filtered := seq(nc, _ => seq(counter, _ => 0.0));
    keptFlags := [];
    var offset: nat := 0;
    var k := 0;
    while k < |rounds|
      invariant k <= |rounds|
      invariant offset == TotalSuccess(rounds[..k]) <= counter
      invariant |keptFlags| == offset && forall i :: 0 <= i < offset ==> keptFlags[i]
      invariant |filtered| == nc
      invariant WellShaped(nc, rounds[..k])
      invariant forall j :: 0 <= j < nc ==> |filtered[j]| == counter
      invariant forall j :: 0 <= j < nc ==> filtered[j][..offset] == Kept(nc, rounds[..k], j)
    {
      var r := rounds[k];
      WriteRoundExtends(nc, rounds, k, filtered, offset, counter);
      filtered := WriteRound(filtered, offset, r);
      var kept := SelectedFlags(r.flags);
      keptFlags := keptFlags + kept;
      offset := offset + |kept|;
      k := k + 1;
    }
    assert rounds[..k] == rounds;
    forall j | 0 <= j < nc
      ensures filtered[j] == Kept(nc, rounds, j)
    {
      assert filtered[j][..offset] == filtered[j];
    }
  }

  lemma {:induction false} TotalSuccessPrefixBound(rounds: seq<RoundContent>, k: nat)
    requires k <= |rounds|
    ensures TotalSuccess(rounds[..k]) <= TotalSuccess(rounds)
    decreases |rounds| - k
  {
    if k < |rounds| {
      TotalSuccessPrefixBound(rounds, k + 1);
      assert rounds[..k + 1] == rounds[..k] + [rounds[k]];
      TotalSuccessAppend(rounds[..k], rounds[k]);
    } else {
      assert rounds[..k] == rounds;
    }
  }

  /** In the filtered table, round `k` occupies rows `[Offset(k), Offset(k) + n_k)`
      and those rows are exactly round `k`'s flagged entries, in their order. */
  lemma {:induction false} RoundOccupiesItsSlice(nc: nat, rounds: seq<RoundContent>, k: nat, j: nat)
    requires WellShaped(nc, rounds) && k < |rounds| && j < nc
    ensures Offset(rounds, k) + Count(rounds[k].flags) <= TotalSuccess(rounds)
    ensures Kept(nc, rounds, j)[Offset(rounds, k)..Offset(rounds, k) + Count(rounds[k].flags)]
            == KeepFlagged(rounds[k].columns[j], rounds[k].flags)
  {
    var n := |rounds| - 1;
    var init := rounds[..n];
    InitWellShaped(nc, rounds);
    if k < n {
      assert init[..k] == rounds[..k];
      assert init[k] == rounds[k];
      assert Offset(init, k) == Offset(rounds, k);
      RoundOccupiesItsSlice(nc, init, k, j);
      KeptPrefixSlice(nc, rounds, j, Offset(rounds, k), Offset(rounds, k) + Count(rounds[k].flags));
    } else {
      assert rounds[..k] == init;
      KeptLastSlice(nc, rounds, j);
      SelectOptimalIsKeepFlagged(rounds[k].columns[j], rounds[k].flags);
    }
  }

  /** Dropping the last round keeps the table well shaped. */
  lemma InitWellShaped(nc: nat, rounds: seq<RoundContent>)
    requires WellShaped(nc, rounds) && |rounds| > 0
    ensures WellShaped(nc, rounds[..|rounds| - 1])
  {
    var init := rounds[..|rounds| - 1];
    forall i | 0 <= i < |init| ensures init[i] == rounds[i] { }
  }

  /** The rows before the last round's are the kept rows of the earlier rounds. */
  lemma KeptPrefixSlice(nc: nat, rounds: seq<RoundContent>, j: nat, a: nat, b: nat)
    requires WellShaped(nc, rounds) && |rounds| > 0 && j < nc
    requires WellShaped(nc, rounds[..|rounds| - 1])
    requires a <= b <= TotalSuccess(rounds[..|rounds| - 1])
    ensures b <= TotalSuccess(rounds)
    ensures Kept(nc, rounds, j)[a..b] == Kept(nc, rounds[..|rounds| - 1], j)[a..b]
  {
  }

  /** The last round's kept rows close the table. */
  lemma KeptLastSlice(nc: nat, rounds: seq<RoundContent>, j: nat)
    requires WellShaped(nc, rounds) && |rounds| > 0 && j < nc
    ensures Offset(rounds, |rounds| - 1) + Count(rounds[|rounds| - 1].flags) == TotalSuccess(rounds)
    ensures Kept(nc, rounds, j)[Offset(rounds, |rounds| - 1)..] == RoundKept(rounds[|rounds| - 1], j)
  {
  }

  /** Numpy zeros of shape (rows, cols), as a list of rows. */
  function Zeros(rows: nat, cols: nat): (m: seq<seq<real>>)
    ensures |m| == rows && forall r :: 0 <= r < rows ==> |m[r]| == cols && forall i :: 0 <= i < cols ==> m[r][i] == 0.0
  {
    seq(rows, _ => seq(cols, _ => 0.0))
  }

  /** Numpy raises ValueError for a negative dimension and for a column whose
      length is neither the target length nor 1. `BroadcastNeverArrives` is
      the outcome of a rank other than 0 waiting in `Bcast` for a rank 0 that
      raised: that rank never returns. */
  datatype AggregateError = NegativeDimension | ShapeMismatch(column: nat) | BroadcastNeverArrives

  /** The value numpy stores at row `r` of a column assigned from `values[:req]`:
      a length-1 slice is broadcast to every row. */
  function ColumnEntry(values: seq<real>, req: nat, r: nat): real
    requires r < req && (|values| >= req || |values| == 1)
  {
    if |values| >= req then values[r] else values[0]
  }

  /** Whether `values[:req]` can be assigned to a column of `req` rows. */
  predicate Assignable(values: seq<real>, req: nat)
  {
    |values| >= req || |values| == 1
  }

  /** What rank 0 computes: a `req x |params|` array whose column `i` is the
      first `req` values of parameter `i`. */
  function RootArray(params: seq<seq<real>>, req: int): (res: Result<seq<seq<real>>, AggregateError>)
    ensures req < 0 <==> res == Err(NegativeDimension)
    ensures req >= 0 && (forall i :: 0 <= i < |params| ==> Assignable(params[i], req)) <==> res.Ok?
    ensures req >= 0 && res.Err? ==> exists i :: 0 <= i < |params| && res == Err(ShapeMismatch(i)) && !Assignable(params[i], req)
    ensures res.Ok? ==>
      && |res.value| == req
      && forall r :: 0 <= r < req ==>
           && |res.value[r]| == |params|
           && forall i :: 0 <= i < |params| ==>
                res.value[r][i] == (if |params[i]| >= req then params[i][r] else params[i][0])
  {
    if req < 0 then Err(NegativeDimension)
    else
      var bad := FirstUnassignable(params, req, 0);
      if bad < |params| then Err(ShapeMismatch(bad))
      else Ok(seq(req, r requires 0 <= r < req => seq(|params|, i requires 0 <= i < |params| => ColumnEntry(params[i], req, r))))
  }

  /** Index of the first column from `from` on that cannot be assigned, or `|params|`. */
  function FirstUnassignable(params: seq<seq<real>>, req: nat, from: nat): (i: nat)
    requires from <= |params|
    ensures from <= i <= |params|
    ensures forall p :: from <= p < i ==> Assignable(params[p], req)
    ensures i < |params| ==> !Assignable(params[i], req)
    decreases |params| - from
  {
    if from == |params| then from
    else if !Assignable(params[from], req) then from
    else FirstUnassignable(params, req, from + 1)
  }

  /** `_aggregate_filtered_input_arr` on `rank`: every rank allocates the zero
      array (a negative dimension raises everywhere); only rank 0 fills it
      from the gathered parameter columns, and can raise there. With more
      than one process the broadcast from rank 0 replaces every other rank's
      array, and a rank other than 0 waits forever when rank 0 raised. A rank
      other than 0 in a single-process run keeps the zero array. */
  function AggregateFilteredInputArr(params: seq<seq<real>>, req: int, rank: nat, numProcs: nat): (res: Result<seq<seq<real>>, AggregateError>)
    ensures req < 0 ==> res == Err(NegativeDimension)
    ensures rank == 0 ==> res == RootArray(params, req)
    ensures rank != 0 && numProcs > 1 && RootArray(params, req).Ok? ==> res == RootArray(params, req)
    ensures rank != 0 && numProcs > 1 && req >= 0 && RootArray(params, req).Err? ==> res == Err(BroadcastNeverArrives)
    ensures rank != 0 && numProcs <= 1 && req >= 0 ==> res == Ok(Zeros(req, |params|))
    ensures rank != 0 ==> !(res.Err? && res.error.ShapeMismatch?)
  {
    if req < 0 then Err(NegativeDimension)
    else if rank == 0 then RootArray(params, req)
    else if numProcs > 1 then
      if RootArray(params, req).Ok? then RootArray(params, req) else Err(BroadcastNeverArrives)
    else Ok(Zeros(req, |params|))
  }

  /** With more than one process, every rank that returns holds the same
      array: all ranks agree whenever rank 0 succeeds, and the ranks other
      than 0 always agree with each other. */
  lemma AggregateRankIndependent(params: seq<seq<real>>, req: int, rank1: nat, rank2: nat, numProcs: nat)
    requires numProcs > 1
    ensures var a1 := AggregateFilteredInputArr(params, req, rank1, numProcs);
      var a2 := AggregateFilteredInputArr(params, req, rank2, numProcs);
      (a1.Ok? && a2.Ok?) || (rank1 != 0 && rank2 != 0) ==> a1 == a2
    ensures RootArray(params, req).Ok? ==>
      AggregateFilteredInputArr(params, req, rank1, numProcs) == AggregateFilteredInputArr(params, req, rank2, numProcs)
  {
  }

  /** When every parameter holds at least `req` filtered values the array has
      exactly `req` rows and column `i` is the first `req` values of parameter `i`. */
  lemma AggregateTakesPrefix(params: seq<seq<real>>, req: nat)
    requires forall i :: 0 <= i < |params| ==> |params[i]| >= req
    ensures RootArray(params, req).Ok?
    ensures var m := RootArray(params, req).value;
      |m| == req && forall i, r :: 0 <= i < |params| && 0 <= r < req ==> m[r][i] == params[i][..req][r]
  {
  }
}
