/** The BSM2 dewatering unit (watertap/unit_models/dewatering.py): a
    separator whose overflow split fractions follow from the inlet's
    suspended solids, and the check of its outlet names. */
module Dewatering {
  import opened Wrappers

  // ---------------------------------------------------------------------------
  // Outlet check
  // ---------------------------------------------------------------------------

  datatype ConfigError = UnrecognisedOutletList

  const Underflow: string := "underflow"
  const Overflow: string := "overflow"

  /** Python's truthiness of a string: it is true when non-empty. */
  predicate Truthy(s: string)
  {
    |s| > 0
  }

  /** The outlet check as written: `"underflow" and "overflow" not in
      outlet_list`. The left operand is a non-empty literal, so `and`
      evaluates to its right operand, and only "overflow" is looked for. */
  function OutletCheckAsWritten(outlets: seq<string>): (r: Result<(), ConfigError>)
    ensures r.Err? <==> Overflow !in outlets
  {
    var refuse := if Truthy(Underflow) then Overflow !in outlets else false;
    if refuse then Err(UnrecognisedOutletList) else Ok(())
  }

  /** The written check lets a list without "underflow" through. */
  lemma OutletCheckAsWrittenAcceptsMissingUnderflow()
    ensures Underflow !in [Overflow] && OutletCheckAsWritten([Overflow]).Ok?
  {
    assert [Overflow][0] != Underflow;
  }

  /** The check the error message asks for: both outlets must be present. */
  function OutletCheck(outlets: seq<string>): (r: Result<(), ConfigError>)
    ensures r.Ok? <==> Underflow in outlets && Overflow in outlets
  {
    if Underflow in outlets && Overflow in outlets then Ok(()) else Err(UnrecognisedOutletList)
  }

  /** The two checks disagree exactly on lists that have "overflow" but not
      "underflow". */
  lemma OutletChecksDiffer(outlets: seq<string>)
    ensures OutletCheck(outlets) != OutletCheckAsWritten(outlets) <==>
            Overflow in outlets && Underflow !in outlets
  {
  }

  // ---------------------------------------------------------------------------
  // Parameters and expressions
  // ---------------------------------------------------------------------------

  /** The two mutable parameters: the solids fraction in the underflow and
      the fraction of suspended solids removed. */
  datatype Params = Params(pDewat: real, tssRem: real)

  /** The values `build` gives them. */
  const DefaultParams: Params := Params(0.28, 0.98)

  /** `build` as written: the written outlet check, then the parameters. */
  function Build(outlets: seq<string>): (r: Result<Params, ConfigError>)
    ensures r.Ok? <==> Overflow in outlets
    ensures r.Ok? ==> r.value == DefaultParams
  {
    var _ :- OutletCheckAsWritten(outlets);
    Ok(DefaultParams)
  }

  /** `build` with the check its error message asks for. */
  function BuildIntended(outlets: seq<string>): (r: Result<Params, ConfigError>)
    ensures r.Ok? <==> Underflow in outlets && Overflow in outlets
    ensures r.Ok? ==> r.value == DefaultParams
  {
    var _ :- OutletCheck(outlets);
    Ok(DefaultParams)
  }

  /** The two builds agree whenever "underflow" is among the outlets, and
      the written one accepts more lists than the intended one. */
  lemma BuildsAgreeWithUnderflow(outlets: seq<string>)
    ensures Underflow in outlets ==> Build(outlets) == BuildIntended(outlets)
    ensures BuildIntended(outlets).Ok? ==> Build(outlets) == BuildIntended(outlets)
  {
  }

  /** The particulates summed into the suspended solids. */
  const TssComponents: seq<string> := ["X_I", "X_P", "X_BH", "X_BA", "X_S"]

  /** The inlet's mass concentrations at every time point. */
  type Inlet = map<real, map<string, real>>

  /** Whether the inlet holds every concentration the suspended solids need
      at time 0. */
  predicate HasTssData(inlet: Inlet)
  {
    0.0 in inlet && forall c :: c in TssComponents ==> c in inlet[0.0]
  }

  /** `TSS[t]`: 0.75 times the five particulate concentrations, always read
      at time 0 whatever `t` is. */
  function Tss(inlet: Inlet, t: real): (r: Option<real>)
    ensures r.Some? <==> HasTssData(inlet)
    ensures r.Some? && (forall c :: c in TssComponents ==> inlet[0.0][c] >= 0.0) ==> r.value >= 0.0
    ensures r.Some? && (forall c :: c in TssComponents ==> inlet[0.0][c] > 0.0) ==> r.value > 0.0
    ensures r.Some? ==> r.value == 0.75 * (inlet[0.0]["X_I"] + inlet[0.0]["X_P"] + inlet[0.0]["X_BH"]
                                           + inlet[0.0]["X_BA"] + inlet[0.0]["X_S"])
  {
    if !HasTssData(inlet) then None
    else
      var x := inlet[0.0];
      assert forall c :: c in TssComponents ==> c in x;
      Some(0.75 * (x["X_I"] + x["X_P"] + x["X_BH"] + x["X_BA"] + x["X_S"]))
  }

  /** The suspended solids do not depend on the time point they are asked for. */
  lemma TssTimeInvariant(inlet: Inlet, t1: real, t2: real)
    ensures Tss(inlet, t1) == Tss(inlet, t2)
  {
  }

  /** `f_dewat[t] = p_dewat * (10 / TSS[t])`; None where the division by
      zero would raise. */
  function FDewat(p: Params, tss: real): (r: Option<real>)
    ensures r.Some? <==> tss != 0.0
    ensures r.Some? ==> r.value * tss == 10.0 * p.pDewat
  {
    if tss == 0.0 then None else Some(p.pDewat * (10.0 / tss))
  }

  /** `f_q_du[t] = TSS_rem / 100 / f_dewat[t]`; None where a division by
      zero would raise. */
  function FQDu(p: Params, tss: real): (r: Option<real>)
    ensures r.Some? <==> tss != 0.0 && p.pDewat != 0.0
    ensures r.Some? ==> r.value * FDewat(p, tss).value == p.tssRem / 100.0
  {
    var fd :- FDewat(p, tss);
    if fd == 0.0 then None else Some(p.tssRem / 100.0 / fd)
  }

  /** Unfolded, the removal factor is proportional to the suspended solids:
      f_q_du = TSS_rem * TSS / (1000 * p_dewat). */
  lemma FQDuClosedForm(p: Params, tss: real)
    requires tss != 0.0 && p.pDewat != 0.0
    ensures FQDu(p, tss) == Some(p.tssRem * tss / (1000.0 * p.pDewat))
  {
    var fd := FDewat(p, tss).value;
    var q := FQDu(p, tss).value;
    assert fd * tss == 10.0 * p.pDewat;
    assert q * fd == p.tssRem / 100.0;
    assert q * (fd * tss) == (p.tssRem / 100.0) * tss;
    assert q * (1000.0 * p.pDewat) == p.tssRem * tss;
    DivideBack(q, 1000.0 * p.pDewat, p.tssRem * tss);
  }

  /** a * k == b with k non-zero gives a == b / k. */
  lemma DivideBack(a: real, k: real, b: real)
    requires k != 0.0 && a * k == b
    ensures a == b / k
  {
  }

  /** With the default parameters, f_q_du = 0.0035 * TSS. */
  lemma DefaultRemovalFactor(tss: real)
    requires tss != 0.0
    ensures FQDu(DefaultParams, tss) == Some(0.0035 * tss)
  {
    FQDuClosedForm(DefaultParams, tss);
  }

  // ---------------------------------------------------------------------------
  // Split fractions
  // ---------------------------------------------------------------------------

  const NonParticulate: set<string> := {"S_I", "S_S", "S_O", "S_NO", "S_NH", "S_ND", "H2O", "S_ALK"}
  const Particulate: set<string> := {"X_I", "X_S", "X_P", "X_BH", "X_BA", "X_ND"}

  /** The two sets are disjoint, and every component of the suspended
      solids is a particulate. */
  lemma ComponentSets()
    ensures NonParticulate * Particulate == {}
    ensures forall c :: c in TssComponents ==> c in Particulate
  {
  }

  /** The sets hold 8 and 6 components. */
  lemma ComponentSetSizes()
    ensures |NonParticulate| == 8 && |Particulate| == 6
  {
  }

  /** The overflow split fraction the unit's constraints impose on component
      `c` at a time point with removal factor `fQDu`: 1 - TSS_rem for a
      particulate, 1 - f_q_du for a non-particulate, and none otherwise (the
      separator's own equations then decide). */
  function OverflowSplit(p: Params, fQDu: real, c: string): (r: Option<real>)
    ensures r.Some? <==> c in Particulate + NonParticulate
    ensures c in Particulate ==> r == Some(1.0 - p.tssRem)
    ensures c in NonParticulate ==> r == Some(1.0 - fQDu)
  {
    ComponentSets();
    if c in Particulate then Some(1.0 - p.tssRem)
    else if c in NonParticulate then Some(1.0 - fQDu)
    else None
  }

  /** The overflow split of component `c` at time `t`, from the inlet;
      None where TSS is unreadable or a division by zero would raise. */
  function OverflowSplitAt(p: Params, inlet: Inlet, t: real, c: string): (r: Option<real>)
    ensures c in Particulate ==> r == Some(1.0 - p.tssRem)
    ensures c in NonParticulate && HasTssData(inlet) && Tss(inlet, t).value != 0.0 && p.pDewat != 0.0 ==>
              r.Some? && r.value == 1.0 - p.tssRem * Tss(inlet, t).value / (1000.0 * p.pDewat)
    ensures c !in Particulate + NonParticulate ==> r.None?
  {
    if c in Particulate then OverflowSplit(p, 0.0, c)
    else if c !in NonParticulate then None
    else
      var tss :- Tss(inlet, t);
      var q :- FQDu(p, tss);
      FQDuClosedForm(p, tss);
      assert 1.0 - q == 1.0 - p.tssRem * Tss(inlet, t).value / (1000.0 * p.pDewat);
      OverflowSplit(p, q, c)
  }

  /** With the default parameters every particulate leaves 2% by the overflow. */
  lemma DefaultParticulateSplit(inlet: Inlet, t: real, c: string)
    requires c in Particulate
    ensures OverflowSplitAt(DefaultParams, inlet, t, c) == Some(0.02)
  {
  }

  // ---------------------------------------------------------------------------
  // Performance contents
  // ---------------------------------------------------------------------------

  /** An index of `split_fraction`: time, outlet, component. */
  datatype SplitIndex = SplitIndex(time: real, outlet: string, comp: string)

  /** `_get_performance_contents(time_point)`: the split fractions at that
      time point, keyed by outlet and component; nothing else. */
  function PerformanceContents(splits: map<SplitIndex, real>, timePoint: real): (r: map<(string, string), real>)
    ensures forall o, c :: (o, c) in r <==> SplitIndex(timePoint, o, c) in splits
    ensures forall o, c :: (o, c) in r ==> r[(o, c)] == splits[SplitIndex(timePoint, o, c)]
  {
    map k | k in splits && k.time == timePoint :: (k.outlet, k.comp) := splits[k]
  }
}
