/** The round loop of the recursive parameter sweep
    (watertap/tools/recursive_parameter_sweep.py, lines 200-259).

    Sampling, dividing the samples between ranks and running the solves are
    one abstract oracle `sweep(round, requested)` that yields, for every MPI
    rank, the number of local cases and the local success flags. The MPI
    `allgather` followed by `sum` is a sum over that per-rank sequence. */
module SweepRounds {
  import opened Wrappers
  import opened Sums

  /** The loop runs at most this many rounds. */
  const MaxRounds: nat := 10
  /** Each new round asks for this multiple of the still-missing successes. */
  const SafetyFactor: real := 2.0
  /** A success rate below this triggers a warning (never an error). */
  const WarnRate: real := 0.1

  /** What one rank reports for one round: its local case count and the
      solve-success flag of each case it ran. */
  datatype RankRound = RankRound(numCases: int, flags: seq<bool>)

  /** The bookkeeping of one completed round. */
  datatype RoundRecord = RoundRecord(
    requested: int,          // num_total_samples handed to the sampler
    ranks: seq<RankRound>,   // per-rank results of the round
    successes: int,          // global_success_count
    failures: int,           // global_failure_count
    rate: real,              // success_prob
    warned: bool,            // whether the low-success warning was issued
    remainingAfter: int      // n_samples_remaining at the end of the round
  )

  /** Python raises ZeroDivisionError when a round has no cases at all; the
      model keeps the rounds completed before it. */
  datatype SweepError = ZeroDivision(completed: seq<RoundRecord>)

  /** The list `allgather` returns: each rank's local success count. */
  function LocalSuccesses(ranks: seq<RankRound>): (xs: seq<int>)
    ensures |xs| == |ranks|
    ensures forall i :: 0 <= i < |ranks| ==> xs[i] == Count(ranks[i].flags)
  {
    seq(|ranks|, i requires 0 <= i < |ranks| => Count(ranks[i].flags))
  }

  /** Each rank's local failure count: its cases minus its successes. */
  function LocalFailures(ranks: seq<RankRound>): (xs: seq<int>)
    ensures |xs| == |ranks|
    ensures forall i :: 0 <= i < |ranks| ==> xs[i] == ranks[i].numCases - Count(ranks[i].flags)
  {
    seq(|ranks|, i requires 0 <= i < |ranks| => ranks[i].numCases - Count(ranks[i].flags))
  }

  function GlobalSuccess(ranks: seq<RankRound>): int
  {
    Sum(LocalSuccesses(ranks))
  }

  function GlobalFailure(ranks: seq<RankRound>): int
  {
    Sum(LocalFailures(ranks))
  }

  /** Each rank's local case count. */
  function CaseCounts(ranks: seq<RankRound>): seq<int>
  {
    seq(|ranks|, i requires 0 <= i < |ranks| => ranks[i].numCases)
  }

  /** Every rank's success flags, one rank after another. */
  function AllFlags(ranks: seq<RankRound>): seq<bool>
  {
    if |ranks| == 0 then [] else AllFlags(ranks[..|ranks| - 1]) + ranks[|ranks| - 1].flags
  }

  /** The gathered success total is the number of successful solves over all
      ranks' flags taken together. */
  lemma {:induction false} GlobalSuccessCountsAllFlags(ranks: seq<RankRound>)
    ensures GlobalSuccess(ranks) == Count(AllFlags(ranks))
  {
    if |ranks| > 0 {
      var n := |ranks| - 1;
      GlobalSuccessCountsAllFlags(ranks[..n]);
      assert LocalSuccesses(ranks) == LocalSuccesses(ranks[..n]) + [Count(ranks[n].flags)];
      SumAppend(LocalSuccesses(ranks[..n]), [Count(ranks[n].flags)]);
      assert Sum([Count(ranks[n].flags)]) == Count(ranks[n].flags);
      CountAppend(AllFlags(ranks[..n]), ranks[n].flags);
    }
  }

  /** The denominator of the success rate is the global case count: the
      gathered successes plus the gathered failures are the sum of the ranks'
      case counts. */
  lemma {:induction false} SuccessesPlusFailures(ranks: seq<RankRound>)
    ensures GlobalSuccess(ranks) + GlobalFailure(ranks) == Sum(CaseCounts(ranks))
  {
    if |ranks| > 0 {
      var n := |ranks| - 1;
      var c := Count(ranks[n].flags);
      SuccessesPlusFailures(ranks[..n]);
      assert LocalSuccesses(ranks) == LocalSuccesses(ranks[..n]) + [c];
      assert LocalFailures(ranks) == LocalFailures(ranks[..n]) + [ranks[n].numCases - c];
      assert CaseCounts(ranks) == CaseCounts(ranks[..n]) + [ranks[n].numCases];
      SumAppend(LocalSuccesses(ranks[..n]), [c]);
      SumAppend(LocalFailures(ranks[..n]), [ranks[n].numCases - c]);
      SumAppend(CaseCounts(ranks[..n]), [ranks[n].numCases]);
      assert Sum([c]) == c;
      assert Sum([ranks[n].numCases - c]) == ranks[n].numCases - c;
      assert Sum([ranks[n].numCases]) == ranks[n].numCases;
    }
  }

  /** A sum of success counts is never negative. */
  lemma GlobalSuccessNonNegative(ranks: seq<RankRound>)
    ensures GlobalSuccess(ranks) >= 0
  {
    SumNonNegative(LocalSuccesses(ranks));
  }

  /** `int(np.ceil(x))`: the least integer not below `x`. */
  function Ceil(x: real): (n: int)
    ensures x <= n as real < x + 1.0
  {
    -((-x).Floor)
  }

  /** The sample count requested for the next round. */
  function NextRequest(remaining: int, rate: real): (n: int)
    ensures rate > 0.0 ==> SafetyFactor * remaining as real / rate <= n as real
    ensures rate > 0.0 ==> (n - 1) as real < SafetyFactor * remaining as real / rate
    ensures rate <= 0.0 ==> SafetyFactor * remaining as real <= n as real < SafetyFactor * remaining as real + 1.0
  {
    if rate > 0.0 then Ceil(SafetyFactor * remaining as real / rate)
    else Ceil(SafetyFactor * remaining as real)
  }

  /** The remaining-success count after `rounds` (the requested count before any round). */
  function RemainingAfter(req: int, rounds: seq<RoundRecord>): int
  {
    if |rounds| == 0 then req else rounds[|rounds| - 1].remainingAfter
  }

  /** The sample count the round following `rounds` requests. */
  function RequestedNext(req: int, rounds: seq<RoundRecord>): int
  {
    if |rounds| == 0 then req
    else NextRequest(rounds[|rounds| - 1].remainingAfter, rounds[|rounds| - 1].rate)
  }

  /** Record `r` is round `k`, run with `requested` samples when `before`
      successes were still missing: the oracle's results, their global sums,
      the rate successes / (successes + failures), the warning iff that rate
      is below 0.1, and the missing count reduced by exactly the successes. */
  ghost predicate RoundOk(sweep: (nat, int) -> seq<RankRound>, k: nat, requested: int, before: int, r: RoundRecord)
  {
    && r.requested == requested
    && r.ranks == sweep(k, requested)
    && r.successes == GlobalSuccess(r.ranks)
    && r.failures == GlobalFailure(r.ranks)
    && r.successes + r.failures != 0
    && r.rate == r.successes as real / (r.successes + r.failures) as real
    && r.warned == (r.rate < WarnRate)
    && r.remainingAfter == before - r.successes
  }

  /** `rounds` is what the loop produces when it runs `|rounds|` rounds: each
      round was entered with successes still missing and follows its predecessor. */
  ghost predicate ValidPrefix(req: int, sweep: (nat, int) -> seq<RankRound>, rounds: seq<RoundRecord>)
  {
    && |rounds| <= MaxRounds
    && forall k :: 0 <= k < |rounds| ==>
         && RemainingAfter(req, rounds[..k]) > 0
         && RoundOk(sweep, k, RequestedNext(req, rounds[..k]), RemainingAfter(req, rounds[..k]), rounds[k])
  }

  /** A finished loop: a valid run that stopped because no successes are
      missing or because ten rounds have run. */
  ghost predicate Completed(req: int, sweep: (nat, int) -> seq<RankRound>, rounds: seq<RoundRecord>)
  {
    && ValidPrefix(req, sweep, rounds)
    && (RemainingAfter(req, rounds) <= 0 || |rounds| == MaxRounds)
  }

  /** An aborted loop: a valid run that entered one more round whose global
      case count (successes + failures) was zero. */
  ghost predicate Aborted(req: int, sweep: (nat, int) -> seq<RankRound>, done: seq<RoundRecord>)
  {
    && ValidPrefix(req, sweep, done)
    && |done| < MaxRounds
    && RemainingAfter(req, done) > 0
    && var ranks := sweep(|done|, RequestedNext(req, done));
       GlobalSuccess(ranks) + GlobalFailure(ranks) == 0
  }

  /** Appending the round the loop runs next keeps a run valid. */
  lemma ValidPrefixSnoc(req: int, sweep: (nat, int) -> seq<RankRound>, rounds: seq<RoundRecord>, r: RoundRecord)
    requires ValidPrefix(req, sweep, rounds)
    requires |rounds| < MaxRounds
    requires RemainingAfter(req, rounds) > 0
    requires RoundOk(sweep, |rounds|, RequestedNext(req, rounds), RemainingAfter(req, rounds), r)
    ensures ValidPrefix(req, sweep, rounds + [r])
  {
    var rs := rounds + [r];
    forall k | 0 <= k <= |rounds|
      ensures rs[..k] == rounds[..k]
    {
    }
    assert rs[..|rounds|] == rounds;
  }

  /** The controller: `while n_samples_remaining > 0 and loop_ctr < 10`. */
  method RunRounds(req: int, sweep: (nat, int) -> seq<RankRound>) returns (res: Result<seq<RoundRecord>, SweepError>)
    ensures res.Ok? ==> Completed(req, sweep, res.value)
    ensures res.Err? ==> Aborted(req, sweep, res.error.completed)
  {
    var remaining := req;
    var total := req;
    var rounds: seq<RoundRecord> := [];
    var loopCtr: nat := 0;
    while remaining > 0 && loopCtr < MaxRounds
      invariant loopCtr <= MaxRounds
      invariant |rounds| == loopCtr
      invariant ValidPrefix(req, sweep, rounds)
      invariant remaining == RemainingAfter(req, rounds)
      invariant total == RequestedNext(req, rounds)
      decreases MaxRounds - loopCtr
    {
      var ranks := sweep(loopCtr, total);
      var gs := GlobalSuccess(ranks);
      var gf := GlobalFailure(ranks);
      if gf + gs == 0 {
        return Err(ZeroDivision(rounds));
      }
      var rate := gs as real / (gf + gs) as real;
      var r := RoundRecord(total, ranks, gs, gf, rate, rate < WarnRate, remaining - gs);
      assert RoundOk(sweep, |rounds|, total, remaining, r);
      ValidPrefixSnoc(req, sweep, rounds, r);
      rounds := rounds + [r];
      remaining := r.remainingAfter;
      total := NextRequest(remaining, rate);
      loopCtr := loopCtr + 1;
    }
    return Ok(rounds);
  }

  /** The successes of each round, in order. */
  function Successes(rounds: seq<RoundRecord>): (xs: seq<int>)
    ensures |xs| == |rounds|
    ensures forall i :: 0 <= i < |rounds| ==> xs[i] == rounds[i].successes
  {
    seq(|rounds|, i requires 0 <= i < |rounds| => rounds[i].successes)
  }

  lemma {:induction false} ValidPrefixClosed(req: int, sweep: (nat, int) -> seq<RankRound>, rounds: seq<RoundRecord>, n: nat)
    requires ValidPrefix(req, sweep, rounds)
    requires n <= |rounds|
    ensures ValidPrefix(req, sweep, rounds[..n])
  {
    forall k | 0 <= k < n
      ensures rounds[..n][..k] == rounds[..k]
    {
    }
  }

  /** After any number of rounds the missing count is the requested count
      minus the sum of all global success counts so far. */
  lemma {:induction false} RemainingIsRequestedMinusSuccesses(req: int, sweep: (nat, int) -> seq<RankRound>, rounds: seq<RoundRecord>)
    requires ValidPrefix(req, sweep, rounds)
    ensures RemainingAfter(req, rounds) == req - Sum(Successes(rounds))
  {
    if |rounds| > 0 {
      var n := |rounds| - 1;
      ValidPrefixClosed(req, sweep, rounds, n);
      RemainingIsRequestedMinusSuccesses(req, sweep, rounds[..n]);
      assert Successes(rounds) == Successes(rounds[..n]) + [rounds[n].successes];
      SumAppend(Successes(rounds[..n]), [rounds[n].successes]);
      assert Sum([rounds[n].successes]) == rounds[n].successes;
    }
  }

  /** The missing count never increases from one round to the next, and never
      exceeds the requested count. */
  lemma RemainingNonIncreasing(req: int, sweep: (nat, int) -> seq<RankRound>, rounds: seq<RoundRecord>)
    requires ValidPrefix(req, sweep, rounds)
    ensures forall i :: 0 <= i < |rounds| ==> rounds[i].remainingAfter <= RemainingAfter(req, rounds[..i])
    ensures forall i :: 0 <= i < |rounds| ==> rounds[i].remainingAfter <= req
  {
    forall i | 0 <= i < |rounds|
      ensures rounds[i].remainingAfter <= RemainingAfter(req, rounds[..i])
      ensures rounds[i].remainingAfter <= req
    {
      RemainingStep(req, sweep, rounds, i);
    }
  }

  lemma RemainingStep(req: int, sweep: (nat, int) -> seq<RankRound>, rounds: seq<RoundRecord>, i: nat)
    requires ValidPrefix(req, sweep, rounds)
    requires i < |rounds|
    ensures rounds[i].remainingAfter <= RemainingAfter(req, rounds[..i])
    ensures rounds[i].remainingAfter <= req
  {
    GlobalSuccessNonNegative(rounds[i].ranks);
    var p := rounds[..i + 1];
    ValidPrefixClosed(req, sweep, rounds, i + 1);
    assert RemainingAfter(req, p) == rounds[i].remainingAfter;
    RemainingIsRequestedMinusSuccesses(req, sweep, p);
    SuccessesSumNonNegative(p);
  }

  lemma SuccessesSumNonNegative(rounds: seq<RoundRecord>)
    requires forall i :: 0 <= i < |rounds| ==> rounds[i].successes == GlobalSuccess(rounds[i].ranks)
    ensures Sum(Successes(rounds)) >= 0
  {
    forall i | 0 <= i < |rounds|
      ensures Successes(rounds)[i] >= 0
    {
      GlobalSuccessNonNegative(rounds[i].ranks);
    }
    SumNonNegative(Successes(rounds));
  }

  /** A request of zero or fewer samples runs no round at all; a positive one
      runs at least one and never more than ten. */
  lemma RoundCountBounds(req: int, sweep: (nat, int) -> seq<RankRound>, rounds: seq<RoundRecord>)
    requires Completed(req, sweep, rounds)
    ensures 1 <= |rounds| <= MaxRounds <==> req > 0
  {
    if |rounds| > 0 {
      assert rounds[..0] == [];
    }
  }
}
