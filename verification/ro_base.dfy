/** The solver-free parts of the reverse-osmosis base unit
    (watertap/unit_models/_reverse_osmosis_base.py): configuration checks,
    which performance variables a configuration creates, the initial-guess
    state arguments and the one-time permeate rescaling. */
module RoBase {
  import opened Wrappers
  import opened Sums

  datatype ConcentrationPolarizationType = CpNone | CpFixed | CpCalculated
  datatype MassTransferCoefficient = MtcNone | MtcFixed | MtcCalculated
  datatype PressureChangeType = FixedPerStage | FixedPerUnitLength | PressureCalculated

  /** The configuration options and the property-package facts `build` reads. */
  datatype Config = Config(
    solventCount: nat,
    phaseList: seq<string>,
    pressureChangeType: PressureChangeType,
    hasPressureChange: bool,
    cpType: ConcentrationPolarizationType,
    mtc: MassTransferCoefficient
  )

  /** The ConfigurationError raised, by check. */
  datatype ConfigError =
    | TooManySolvents
    | NotSingleLiquidPhase
    | PressureChangeConflict
    | CpCalculatedNeedsMtc
    | MtcNeedsCpCalculated

  /** The phase test of `build`: rejected when more than one phase or no 'Liq'. */
  predicate PhaseListRejected(phases: seq<string>)
  {
    |phases| > 1 || "Liq" !in phases
  }

  /** The checks of `build`, in the order they are made. */
  function CheckConfig(c: Config): (res: Result<Config, ConfigError>)
    ensures res.Ok? ==> res.value == c
    ensures res == Err(TooManySolvents) <==> c.solventCount > 1
    ensures res == Err(NotSingleLiquidPhase) <==> c.solventCount <= 1 && c.phaseList != ["Liq"]
    ensures res.Ok? <==>
      && c.solventCount <= 1
      && c.phaseList == ["Liq"]
      && (c.pressureChangeType == FixedPerStage || c.hasPressureChange)
      && (c.cpType == CpCalculated <==> c.mtc != MtcNone)
  {
    if c.solventCount > 1 then Err(TooManySolvents)
    else if PhaseListRejected(c.phaseList) then
      assert c.phaseList != ["Liq"];
      Err(NotSingleLiquidPhase)
    else if c.pressureChangeType != FixedPerStage && !c.hasPressureChange then Err(PressureChangeConflict)
    else if c.cpType == CpCalculated && c.mtc == MtcNone then Err(CpCalculatedNeedsMtc)
    else if c.cpType != CpCalculated && c.mtc != MtcNone then Err(MtcNeedsCpCalculated)
    else
      assert |c.phaseList| == 1 && c.phaseList[0] == "Liq";
      Ok(c)
  }

  /** Whether the feed-channel geometry is modelled (channel height, hydraulic
      diameter, spacer porosity, Reynolds number, `eq_dh`). */
  predicate ChannelGeometry(c: Config)
  {
    c.mtc == MtcCalculated || c.pressureChangeType == PressureCalculated
  }

  /** Variables and constraints `_make_performance` may create. */
  datatype PerformanceComponent =
    | AComp | BComp | DensSolvent | Area | RecoveryMassPhaseComp | RecoveryVolPhase | FluxMassPhaseComp
    | ChannelHeight | Dh | SpacerPorosity | NRe | EqDh
    | Kf
    | NSc | NSh
    | Velocity | FrictionFactorDarcy

  /** Components `_make_performance` creates for a configuration. */
  function PerformanceComponents(c: Config): (vars: set<PerformanceComponent>)
    ensures AComp in vars && BComp in vars && DensSolvent in vars && Area in vars
    ensures RecoveryMassPhaseComp in vars && RecoveryVolPhase in vars && FluxMassPhaseComp in vars
    ensures ChannelHeight in vars <==> c.mtc == MtcCalculated || c.pressureChangeType == PressureCalculated
    ensures Dh in vars <==> ChannelHeight in vars
    ensures SpacerPorosity in vars <==> ChannelHeight in vars
    ensures NRe in vars <==> ChannelHeight in vars
    ensures EqDh in vars <==> ChannelHeight in vars
    ensures Kf in vars <==> c.cpType == CpCalculated
    ensures NSc in vars <==> c.mtc == MtcCalculated
    ensures NSh in vars <==> c.mtc == MtcCalculated
    ensures Velocity in vars <==> c.pressureChangeType == PressureCalculated
    ensures FrictionFactorDarcy in vars <==> c.pressureChangeType == PressureCalculated
  {
    var always := {AComp, BComp, DensSolvent, Area, RecoveryMassPhaseComp, RecoveryVolPhase, FluxMassPhaseComp};
    var geometry := if ChannelGeometry(c) then {ChannelHeight, Dh, SpacerPorosity, NRe, EqDh} else {};
    var kf := if c.cpType == CpCalculated then {Kf} else {};
    var dimensionless := if c.mtc == MtcCalculated then {NSc, NSh} else {};
    var friction := if c.pressureChangeType == PressureCalculated then {Velocity, FrictionFactorDarcy} else {};
    always + geometry + kf + dimensionless + friction
  }

  /** In an accepted configuration the feed-side mass-transfer coefficient `Kf`
      exists exactly when a mass-transfer coefficient option is chosen, the
      Sherwood number is only created together with `Kf`, and a friction
      model implies pressure change is modelled. */
  lemma AcceptedConfigVariables(c: Config)
    requires CheckConfig(c).Ok?
    ensures Kf in PerformanceComponents(c) <==> c.mtc != MtcNone
    ensures NSh in PerformanceComponents(c) ==> Kf in PerformanceComponents(c)
    ensures Velocity in PerformanceComponents(c) ==> c.hasPressureChange
  {
  }

  /** Initial value and bounds of a membrane variable entry. */
  datatype VarSpec = VarSpec(init: real, lower: real, upper: real)

  /** `flux_mass_phase_comp` for a solvent or a solute component. */
  function FluxSpec(isSolvent: bool): (s: VarSpec)
    ensures s.lower < s.init < s.upper
    ensures isSolvent ==> s == VarSpec(5e-4, 1e-4, 3e-2)
    ensures !isSolvent ==> s == VarSpec(1e-6, 1e-8, 1e-3)
  {
    if isSolvent then VarSpec(5e-4, 1e-4, 3e-2) else VarSpec(1e-6, 1e-8, 1e-3)
  }

  /** `recovery_mass_phase_comp` for a solvent or a solute component. */
  function RecoverySpec(isSolvent: bool): (s: VarSpec)
    ensures s.lower < s.init < s.upper < 1.0
    ensures isSolvent ==> s == VarSpec(0.4037, 1e-2, 1.0 - 1e-6)
    ensures !isSolvent ==> s == VarSpec(0.0033, 1e-5, 1.0 - 1e-6)
  {
    if isSolvent then VarSpec(0.4037, 1e-2, 1.0 - 1e-6) else VarSpec(0.0033, 1e-5, 1.0 - 1e-6)
  }

  // ---------------------------------------------------------------------------
  // Initial-guess state arguments (`_get_state_args`)
  // ---------------------------------------------------------------------------

  /** A state argument: a scalar value or a dictionary indexed by (phase, component). */
  datatype Entry = Scalar(v: real) | Indexed(m: map<(string, string), real>)

  /** Keys of a state-argument dictionary: the two the guesses touch, and any other. */
  datatype StateKey = FlowMassPhaseComp | Pressure | OtherKey(name: string)

  type StateArgs = map<StateKey, Entry>

  const FlowKey := FlowMassPhaseComp
  const PressureKey := Pressure

  /** The guesses filled in when the caller leaves them out. */
  const DefaultGuess: map<string, real> :=
    map["deltaP" := -1e4, "solvent_recovery" := 0.5, "solute_recovery" := 0.01, "cp_modulus" := 1.1]

  /** Fill each missing guess with its default; given guesses are kept. */
  function FillGuessDefaults(guess: Option<map<string, real>>): (g: map<string, real>)
    ensures guess.None? ==> g == DefaultGuess
    ensures guess.Some? ==> g.Keys == guess.value.Keys + DefaultGuess.Keys
    ensures guess.Some? ==> forall k :: k in guess.value ==> g[k] == guess.value[k]
    ensures forall k :: k in DefaultGuess ==> k in g && (guess.None? || k !in guess.value ==> g[k] == DefaultGuess[k])
  {
    var given := guess.GetOr(map[]);
    map k | k in given.Keys + DefaultGuess.Keys :: if k in given then given[k] else DefaultGuess[k]
  }

  /** Filling the defaults a second time changes nothing. */
  lemma FillGuessDefaultsIdempotent(guess: Option<map<string, real>>)
    ensures FillGuessDefaults(Some(FillGuessDefaults(guess))) == FillGuessDefaults(guess)
  {
  }

  /** The error `_get_state_args` raises. */
  datatype StateArgsError =
    | MissingFlow          // ConfigurationError: no flow_mass_phase_comp
    | MissingKey           // KeyError: no pressure, or no ('Liq', j) flow entry
    | NotSubscriptable     // TypeError: a scalar flow, or an indexed pressure

  /** The five initial states `_get_state_args` returns. */
  datatype StateArgsSet = StateArgsSet(
    feedSide: StateArgs,
    retentate: StateArgs,
    permeate: StateArgs,
    interfaceIn: StateArgs,
    interfaceOut: StateArgs
  )

  /** Multiply the ('Liq', j) entries for `j` in `comps` by `factor` (`*=` in a loop). */
  function ScaleComps(flow: map<(string, string), real>, comps: set<string>, factor: real): (out: map<(string, string), real>)
    ensures out.Keys == flow.Keys
    ensures forall k :: k in flow ==> out[k] == (if k.0 == "Liq" && k.1 in comps then Product(flow[k], factor) else flow[k])
  {
    map k | k in flow :: if k.0 == "Liq" && k.1 in comps then Product(flow[k], factor) else flow[k]
  }

  /** Whether every ('Liq', j) entry the loops multiply exists. */
  predicate HasLiqEntries(flow: map<(string, string), real>, comps: set<string>)
  {
    forall j :: j in comps ==> ("Liq", j) in flow
  }

  function RetentateFlow(flow: map<(string, string), real>, solvents: set<string>, solutes: set<string>, g: map<string, real>): map<(string, string), real>
    requires "solvent_recovery" in g && "solute_recovery" in g
  {
    ScaleComps(ScaleComps(flow, solvents, 1.0 - g["solvent_recovery"]), solutes, 1.0 - g["solute_recovery"])
  }

  function PermeateFlow(flow: map<(string, string), real>, solvents: set<string>, solutes: set<string>, g: map<string, real>): map<(string, string), real>
    requires "solvent_recovery" in g && "solute_recovery" in g
  {
    ScaleComps(ScaleComps(flow, solvents, g["solvent_recovery"]), solutes, g["solute_recovery"])
  }

  /** `_get_state_args`. The state arguments are `stateArgs`, or the values
      read from the inlet's port when they are None; `permeatePressure` is
      the mixed permeate's pressure value. */
  function GetStateArgs(
    source: StateArgs, permeatePressure: real, guess: Option<map<string, real>>,
    stateArgs: Option<StateArgs>, solvents: set<string>, solutes: set<string>
  ): (res: Result<StateArgsSet, StateArgsError>)
    ensures var args := stateArgs.GetOr(source);
      res == Err(MissingFlow) <==> FlowKey !in args
    ensures var args := stateArgs.GetOr(source);
      res.Ok? <==>
        && FlowKey in args && PressureKey in args
        && args[PressureKey].Scalar? && args[FlowKey].Indexed?
        && HasLiqEntries(args[FlowKey].m, solvents + solutes)
    ensures var args := stateArgs.GetOr(source); var g := FillGuessDefaults(guess);
      res.Ok? ==>
        && res.value.feedSide == args
        && args[PressureKey].Scalar? && args[FlowKey].Indexed?
        && res.value.retentate == args[PressureKey := Scalar(args[PressureKey].v + g["deltaP"])]
                                      [FlowKey := Indexed(RetentateFlow(args[FlowKey].m, solvents, solutes, g))]
        && res.value.permeate == args[PressureKey := Scalar(permeatePressure)]
                                     [FlowKey := Indexed(PermeateFlow(args[FlowKey].m, solvents, solutes, g))]
        && res.value.interfaceIn == args[FlowKey := Indexed(ScaleComps(args[FlowKey].m, solutes, g["cp_modulus"]))]
        && res.value.interfaceOut == res.value.retentate[FlowKey :=
             Indexed(ScaleComps(RetentateFlow(args[FlowKey].m, solvents, solutes, g), solutes, g["cp_modulus"]))]
  {
    var g := FillGuessDefaults(guess);
    var args := stateArgs.GetOr(source);
    if FlowKey !in args then Err(MissingFlow)
    else if PressureKey !in args then Err(MissingKey)
    else if !args[PressureKey].Scalar? then Err(NotSubscriptable)
    else if !args[FlowKey].Indexed? then Err(NotSubscriptable)
    else if !HasLiqEntries(args[FlowKey].m, solvents + solutes) then Err(MissingKey)
    else
      var flow := args[FlowKey].m;
      var ret := RetentateFlow(flow, solvents, solutes, g);
      var perm := PermeateFlow(flow, solvents, solutes, g);
      var retentate := args[PressureKey := Scalar(args[PressureKey].v + g["deltaP"])][FlowKey := Indexed(ret)];
      var permeate := args[PressureKey := Scalar(permeatePressure)][FlowKey := Indexed(perm)];
      Ok(StateArgsSet(
        args,
        retentate,
        permeate,
        args[FlowKey := Indexed(ScaleComps(flow, solutes, g["cp_modulus"]))],
        retentate[FlowKey := Indexed(ScaleComps(ret, solutes, g["cp_modulus"]))]))
  }

  /** For every component that is a solvent or a solute (not both) the
      retentate and permeate guesses split the feed flow: they add up to it. */
  lemma FlowSplitsFeed(flow: map<(string, string), real>, solvents: set<string>, solutes: set<string>, g: map<string, real>, j: string)
    requires "solvent_recovery" in g && "solute_recovery" in g
    requires ("Liq", j) in flow
    requires (j in solvents) != (j in solutes)
    ensures RetentateFlow(flow, solvents, solutes, g)[("Liq", j)] + PermeateFlow(flow, solvents, solutes, g)[("Liq", j)]
            == flow[("Liq", j)]
  {
    var r := Recovery(g, solvents, j);
    RetentateAt(flow, solvents, solutes, g, j);
    PermeateAt(flow, solvents, solutes, g, j);
    SplitSum(RetentateFlow(flow, solvents, solutes, g)[("Liq", j)], PermeateFlow(flow, solvents, solutes, g)[("Liq", j)],
             flow[("Liq", j)], r);
  }

  /** The recovery that applies to a component that is a solvent or a solute (not both). */
  function Recovery(g: map<string, real>, solvents: set<string>, j: string): real
    requires "solvent_recovery" in g && "solute_recovery" in g
  {
    if j in solvents then g["solvent_recovery"] else g["solute_recovery"]
  }

  /** The retentate guess keeps 1 - recovery of the feed flow. */
  lemma RetentateAt(flow: map<(string, string), real>, solvents: set<string>, solutes: set<string>, g: map<string, real>, j: string)
    requires "solvent_recovery" in g && "solute_recovery" in g
    requires ("Liq", j) in flow
    requires (j in solvents) != (j in solutes)
    ensures ("Liq", j) in RetentateFlow(flow, solvents, solutes, g)
    ensures RetentateFlow(flow, solvents, solutes, g)[("Liq", j)] == Product(flow[("Liq", j)], 1.0 - Recovery(g, solvents, j))
  {
    var k := ("Liq", j);
    var sr := g["solvent_recovery"];
    var ur := g["solute_recovery"];
    ScaleCompsAt(flow, solvents, 1.0 - sr, k);
    ScaleCompsAt(ScaleComps(flow, solvents, 1.0 - sr), solutes, 1.0 - ur, k);
  }

  /** The permeate guess takes the recovered fraction of the feed flow. */
  lemma PermeateAt(flow: map<(string, string), real>, solvents: set<string>, solutes: set<string>, g: map<string, real>, j: string)
    requires "solvent_recovery" in g && "solute_recovery" in g
    requires ("Liq", j) in flow
    requires (j in solvents) != (j in solutes)
    ensures ("Liq", j) in PermeateFlow(flow, solvents, solutes, g)
    ensures PermeateFlow(flow, solvents, solutes, g)[("Liq", j)] == Product(flow[("Liq", j)], Recovery(g, solvents, j))
  {
    var k := ("Liq", j);
    var sr := g["solvent_recovery"];
    var ur := g["solute_recovery"];
    ScaleCompsAt(flow, solvents, sr, k);
    ScaleCompsAt(ScaleComps(flow, solvents, sr), solutes, ur, k);
  }

  /** Parts x * (1 - r) and x * r add up to x. */
  lemma SplitSum(a: real, b: real, x: real, r: real)
    requires a == Product(x, 1.0 - r) && b == Product(x, r)
    ensures a + b == x
  {
  }

  /** Interface guesses: a solute's flow is the feed (inlet side) or retentate
      (outlet side) flow times the polarisation modulus; a solvent's is not scaled. */
  lemma InterfaceScaling(
    source: StateArgs, permeatePressure: real, guess: Option<map<string, real>>,
    stateArgs: Option<StateArgs>, solvents: set<string>, solutes: set<string>, j: string)
    requires GetStateArgs(source, permeatePressure, guess, stateArgs, solvents, solutes).Ok?
    requires j in solvents + solutes
    ensures var r := GetStateArgs(source, permeatePressure, guess, stateArgs, solvents, solutes).value;
      var cp := FillGuessDefaults(guess)["cp_modulus"];
      var k := ("Liq", j);
      && k in r.feedSide[FlowKey].m
      && r.interfaceIn[FlowKey].m[k] == (if j in solutes then r.feedSide[FlowKey].m[k] * cp else r.feedSide[FlowKey].m[k])
      && r.interfaceOut[FlowKey].m[k] == (if j in solutes then r.retentate[FlowKey].m[k] * cp else r.retentate[FlowKey].m[k])
  {
    var r := GetStateArgs(source, permeatePressure, guess, stateArgs, solvents, solutes).value;
    var g := FillGuessDefaults(guess);
    var args := stateArgs.GetOr(source);
    assert HasLiqEntries(args[FlowKey].m, solvents + solutes);
    InterfaceAt(r, args[FlowKey].m, RetentateFlow(args[FlowKey].m, solvents, solutes, g), solutes, g["cp_modulus"], j);
  }

  /** InterfaceScaling for a given set of guesses. */
  lemma InterfaceAt(r: StateArgsSet, flow: map<(string, string), real>, ret: map<(string, string), real>,
                    solutes: set<string>, cp: real, j: string)
    requires ("Liq", j) in flow && ret.Keys == flow.Keys
    requires FlowKey in r.feedSide && r.feedSide[FlowKey] == Indexed(flow)
    requires FlowKey in r.retentate && r.retentate[FlowKey] == Indexed(ret)
    requires FlowKey in r.interfaceIn && r.interfaceIn[FlowKey] == Indexed(ScaleComps(flow, solutes, cp))
    requires FlowKey in r.interfaceOut && r.interfaceOut[FlowKey] == Indexed(ScaleComps(ret, solutes, cp))
    ensures var k := ("Liq", j);
      && k in r.feedSide[FlowKey].m
      && r.interfaceIn[FlowKey].m[k] == (if j in solutes then r.feedSide[FlowKey].m[k] * cp else r.feedSide[FlowKey].m[k])
      && r.interfaceOut[FlowKey].m[k] == (if j in solutes then r.retentate[FlowKey].m[k] * cp else r.retentate[FlowKey].m[k])
  {
    ScaleCompsAt(flow, solutes, cp, ("Liq", j));
    ScaleCompsAt(ret, solutes, cp, ("Liq", j));
  }

  /** ScaleComps at one ('Liq', j) key. */
  lemma ScaleCompsAt(flow: map<(string, string), real>, comps: set<string>, factor: real, k: (string, string))
    requires k in flow && k.0 == "Liq"
    ensures k in ScaleComps(flow, comps, factor)
    ensures ScaleComps(flow, comps, factor)[k] == if k.1 in comps then Product(flow[k], factor) else flow[k]
  {
  }

  // ---------------------------------------------------------------------------
  // Permeate rescaling (`_rescale_permeate_variable`)
  // ---------------------------------------------------------------------------

  /** Scaling factors of the unit's variables (identified by `V`) and the set
      of permeate variables already rescaled. */
  datatype ScalingState<V> = ScalingState(sf: map<V, real>, rescaled: set<V>)

  /** Multiplying an unset (None) factor raises TypeError. */
  datatype RescaleError<V> = UnsetScalingFactor(variable: V)

  /** The factor `_rescale_permeate_variable` uses when none is given. */
  const DefaultRescaleFactor: real := 100.0

  /** `_rescale_permeate_variable(var, factor)`. */
  function RescalePermeateVariable<V>(s: ScalingState<V>, v: V, factor: real): (res: Result<ScalingState<V>, RescaleError<V>>)
    ensures v in s.rescaled ==> res == Ok(s)
    ensures v !in s.rescaled && v !in s.sf ==> res == Err(UnsetScalingFactor(v))
    ensures v !in s.rescaled && v in s.sf ==>
      && res.Ok?
      && res.value.rescaled == s.rescaled + {v}
      && res.value.sf.Keys == s.sf.Keys
      && res.value.sf[v] == s.sf[v] * factor
      && forall w :: w in s.sf && w != v ==> res.value.sf[w] == s.sf[w]
  {
    if v in s.rescaled then Ok(s)
    else if v !in s.sf then Err(UnsetScalingFactor(v))
    else Ok(ScalingState(s.sf[v := s.sf[v] * factor], s.rescaled + {v}))
  }

  /** Called without a factor, the rescaling multiplies an unrescaled
      permeate variable's factor by 100 and leaves the others alone. */
  lemma DefaultRescale<V>(s: ScalingState<V>, v: V)
    requires v !in s.rescaled && v in s.sf
    ensures var r := RescalePermeateVariable(s, v, DefaultRescaleFactor);
      && r.Ok? && r.value.sf[v] == 100.0 * s.sf[v]
      && forall w :: w in s.sf && w != v ==> r.value.sf[w] == s.sf[w]
  {
  }

  /** Rescaling the same variable again leaves the factors alone. */
  lemma RescaleIdempotent<V>(s: ScalingState<V>, v: V, f1: real, f2: real)
    requires RescalePermeateVariable(s, v, f1).Ok?
    ensures var t := RescalePermeateVariable(s, v, f1).value;
      RescalePermeateVariable(t, v, f2) == Ok(t)
  {
  }

  /** Rescale a list of permeate variables in turn (as `calculate_scaling_factors` does). */
  function RescaleAll<V>(s: ScalingState<V>, vars: seq<V>, factor: real): Result<ScalingState<V>, RescaleError<V>>
    decreases |vars|
  {
    if |vars| == 0 then Ok(s)
    else
      var t :- RescalePermeateVariable(s, vars[0], factor);
      RescaleAll(t, vars[1..], factor)
  }

  /** However often a variable is listed, its factor is multiplied at most once:
      exactly once if it had not been rescaled before, never otherwise. */
  lemma {:induction false} RescaleAllAtMostOnce<V>(s: ScalingState<V>, vars: seq<V>, factor: real)
    requires RescaleAll(s, vars, factor).Ok?
    ensures var t := RescaleAll(s, vars, factor).value;
      && t.sf.Keys == s.sf.Keys
      && (forall w :: w in t.rescaled <==> w in s.rescaled || w in vars)
      && forall w :: w in s.sf ==>
           t.sf[w] == (if w !in s.rescaled && w in vars then s.sf[w] * factor else s.sf[w])
    decreases |vars|
  {
    if |vars| > 0 {
      var v, rest := vars[0], vars[1..];
      var t := RescalePermeateVariable(s, v, factor).value;
      assert RescaleAll(s, vars, factor) == RescaleAll(t, rest, factor);
      RescaleAllAtMostOnce(t, rest, factor);
      var u := RescaleAll(t, rest, factor).value;
      assert vars == [v] + rest;
      forall w | w in s.sf
        ensures u.sf[w] == (if w !in s.rescaled && w in vars then s.sf[w] * factor else s.sf[w])
      {
        RescaleStepFactor(s, t, u, v, rest, factor, w);
      }
    }
  }

  /** One variable's factor across one rescaling step followed by the rest of the list. */
  lemma RescaleStepFactor<V>(s: ScalingState<V>, t: ScalingState<V>, u: ScalingState<V>, v: V, rest: seq<V>, factor: real, w: V)
    requires RescalePermeateVariable(s, v, factor) == Ok(t)
    requires w in s.sf
    requires t.sf.Keys == s.sf.Keys == u.sf.Keys
    requires forall x :: x in t.sf ==> u.sf[x] == (if x !in t.rescaled && x in rest then t.sf[x] * factor else t.sf[x])
    ensures u.sf[w] == (if w !in s.rescaled && w in [v] + rest then s.sf[w] * factor else s.sf[w])
  {
    assert w in [v] + rest <==> w == v || w in rest;
    if w != v || v in s.rescaled {
      assert t.sf[w] == s.sf[w];
      assert (w in t.rescaled) == (w in s.rescaled) || w == v;
    }
  }
}
