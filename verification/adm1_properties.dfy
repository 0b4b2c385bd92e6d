/** The ADM1 anaerobic-digestion property package
    (watertap/property_models/anaerobic_digestion/adm1_properties.py): the
    material and energy terms of a state block, its state variables,
    initialisation bookkeeping and the scaling factors of its expressions. */
module Adm1Properties {
  import opened Wrappers
  import opened StateVars
  import opened Scaling
  import opened Sums

  // ---------------------------------------------------------------------------
  // Parameters and components
  // ---------------------------------------------------------------------------

  /** Heat capacity of water, J/kg/K. */
  const CpMass: real := 4182.0
  /** Density of water, kg/m^3. */
  const DensMass: real := 997.0
  /** kg per kmol of anions, all taken to be chloride. */
  const AnionMolarMass: real := 35.0
  /** kg per kmol of cations, all taken to be sodium. */
  const CationMolarMass: real := 23.0

  /** The component list: water, the solutes (soluble and particulate, in
      kg COD/m^3), and the two ion components whose amounts are molar. */
  datatype Comp<S> = H2O | Solute(name: S) | SCat | SAn

  /** A state block. `conc` is `conc_mass_comp` over the solute set; the
      reference temperature is the parameter block's mutable parameter
      (298.15 K unless changed). */
  datatype AdmState<S> = AdmState(flowVol: real, pressure: real, temperature: real,
                                  conc: map<S, real>, anions: real, cations: real,
                                  temperatureRef: real)

  /** Whether the component has terms in this state block: a solute needs a
      concentration (`conc_mass_comp[j]` raises KeyError otherwise). */
  predicate Defined<S(==,!new)>(s: AdmState<S>, c: Comp<S>)
  {
    !c.Solute? || c.name in s.conc
  }

  // ---------------------------------------------------------------------------
  // Material and energy terms
  // ---------------------------------------------------------------------------

  /** `material_density_expression[j]`: the mass per volume of component j. */
  function MaterialDensity<S(==,!new)>(s: AdmState<S>, c: Comp<S>): (r: Option<real>)
    ensures r.Some? <==> Defined(s, c)
    ensures c.H2O? ==> r == Some(DensMass)
    ensures c.SAn? ==> r == Some(Product(s.anions, AnionMolarMass))
    ensures c.SCat? ==> r == Some(Product(s.cations, CationMolarMass))
    ensures c.Solute? && Defined(s, c) ==> r == Some(s.conc[c.name])
  {
    match c
    case H2O => Some(DensMass)
    case SCat => Some(Product(s.cations, CationMolarMass))
    case SAn => Some(Product(s.anions, AnionMolarMass))
    case Solute(j) => if j in s.conc then Some(s.conc[j]) else None
  }

  /** `material_flow_expression[j]`: the mass flow of component j. */
  function MaterialFlow<S(==,!new)>(s: AdmState<S>, c: Comp<S>): (r: Option<real>)
    ensures r.Some? <==> Defined(s, c)
    ensures c.H2O? ==> r == Some(Product(s.flowVol, DensMass))
    ensures c.SAn? ==> r == Some(Product(Product(s.flowVol, s.anions), AnionMolarMass))
    ensures c.SCat? ==> r == Some(Product(Product(s.flowVol, s.cations), CationMolarMass))
    ensures c.Solute? && Defined(s, c) ==> r == Some(Product(s.flowVol, s.conc[c.name]))
  {
    match c
    case H2O => Some(Product(s.flowVol, DensMass))
    case SAn => Some(Product(Product(s.flowVol, s.anions), AnionMolarMass))
    case SCat => Some(Product(Product(s.flowVol, s.cations), CationMolarMass))
    case Solute(j) => if j in s.conc then Some(Product(s.flowVol, s.conc[j])) else None
  }

  /** Every material flow term is the volumetric flow times that component's
      density term, the ion conversions included. */
  lemma FlowIsVolumeTimesDensity<S(!new)>(s: AdmState<S>, c: Comp<S>)
    requires Defined(s, c)
    ensures MaterialFlow(s, c).value == Product(s.flowVol, MaterialDensity(s, c).value)
  {
    match c
    case H2O =>
    case Solute(j) =>
    case SAn =>
      assert (s.flowVol * s.anions) * AnionMolarMass == s.flowVol * (s.anions * AnionMolarMass);
    case SCat =>
      assert (s.flowVol * s.cations) * CationMolarMass == s.flowVol * (s.cations * CationMolarMass);
  }

  /** `energy_density_expression`: rho * cp * (T - Tref). */
  function EnergyDensity<S>(s: AdmState<S>): (r: real)
    ensures r == 4169454.0 * (s.temperature - s.temperatureRef)
    ensures s.temperature == s.temperatureRef ==> r == 0.0
    ensures s.temperature > s.temperatureRef ==> r > 0.0
    ensures s.temperature < s.temperatureRef ==> r < 0.0
  {
    Product(DensMass * CpMass, s.temperature - s.temperatureRef)
  }

  /** `enthalpy_flow_expression`: flow_vol * rho * cp * (T - Tref). */
  function EnthalpyFlow<S>(s: AdmState<S>): real
  {
    Product(Product(s.flowVol, DensMass * CpMass), s.temperature - s.temperatureRef)
  }

  /** The enthalpy flow is the volumetric flow times the energy density. */
  lemma EnthalpyIsVolumeTimesEnergy<S>(s: AdmState<S>)
    ensures EnthalpyFlow(s) == Product(s.flowVol, EnergyDensity(s))
  {
    var a := s.flowVol;
    var b := DensMass * CpMass;
    var c := s.temperature - s.temperatureRef;
    assert (a * b) * c == a * (b * c);
  }

  // ---------------------------------------------------------------------------
  // State variables
  // ---------------------------------------------------------------------------

  /** The block's variables: the six state variables (one concentration per
      solute). */
  datatype VarKey<S> = FlowVolVar | AnionsVar | CationsVar | ConcVar(solute: S)
                     | TemperatureVar | PressureVar

  /** The names `define_state_vars` returns. */
  datatype StateVarName = FlowVolName | AnionsName | CationsName | ConcMassCompName
                        | TemperatureName | PressureName

  /** The variable (or indexed family) each state-variable name refers to. */
  predicate NameCovers<S>(n: StateVarName, k: VarKey<S>)
  {
    match n
    case FlowVolName => k.FlowVolVar?
    case AnionsName => k.AnionsVar?
    case CationsName => k.CationsVar?
    case ConcMassCompName => k.ConcVar?
    case TemperatureName => k.TemperatureVar?
    case PressureName => k.PressureVar?
  }

  /** `define_state_vars`. */
  function DefineStateVars(): (r: set<StateVarName>)
    ensures |r| == 6
  {
    {FlowVolName, AnionsName, CationsName, ConcMassCompName, TemperatureName, PressureName}
  }

  /** The six names are all of them: every state-variable name is defined. */
  lemma StateVarsComplete(n: StateVarName)
    ensures n in DefineStateVars()
  {
    match n
    case FlowVolName =>
    case AnionsName =>
    case CationsName =>
    case ConcMassCompName =>
    case TemperatureName =>
    case PressureName =>
  }

  /** The state variables of a block with the given solutes. */
  function StateVarKeys<S(==,!new)>(solutes: set<S>): (r: set<VarKey<S>>)
    ensures forall k :: k in r <==> (k.ConcVar? ==> k.solute in solutes)
  {
    assert forall k: VarKey<S> :: k.ConcVar? && k.solute in solutes ==> k in (set j | j in solutes :: ConcVar(j));
    {FlowVolVar, AnionsVar, CationsVar, TemperatureVar, PressureVar} + (set j | j in solutes :: ConcVar(j))
  }

  // ---------------------------------------------------------------------------
  // initialize / release_state
  // ---------------------------------------------------------------------------

  /** The exception `initialize` raises when the state variables were said to
      be fixed but a block still has degrees of freedom. */
  datatype InitError = DofNotZero(element: nat)

  /** The first element whose degrees of freedom are not zero. */
  function FirstNonZero(dofs: seq<int>): (r: Option<nat>)
    ensures r.None? <==> forall i :: 0 <= i < |dofs| ==> dofs[i] == 0
    ensures r.Some? ==> r.value < |dofs| && dofs[r.value] != 0
                        && forall i :: 0 <= i < r.value ==> dofs[i] == 0
  {
    if |dofs| == 0 then None
    else if dofs[0] != 0 then Some(0)
    else match FirstNonZero(dofs[1..])
      case None => None
      case Some(i) => Some(i + 1)
  }

  /** `initialize(state_args, state_vars_fixed, hold_state)` over the
      variables of every element of an indexed block; `dofs` is each
      element's degrees of freedom. There is no solve: the routine only fixes
      the state variables, and either returns the flags or releases them. */
  function Initialize<K>(vars: map<K, VarState>, stateVars: set<K>, stateArgs: map<K, real>,
                         stateVarsFixed: bool, holdState: bool, dofs: seq<int>)
    : (r: Result<(map<K, VarState>, Option<map<K, bool>>), InitError>)
    ensures r.Err? <==> stateVarsFixed && exists i :: 0 <= i < |dofs| && dofs[i] != 0
    ensures r.Ok? ==> (r.value.1.Some? <==> !stateVarsFixed && holdState)
    ensures r.Ok? ==> r.value.0.Keys == vars.Keys
    ensures stateVarsFixed && r.Ok? ==> r.value.0 == vars
    ensures !stateVarsFixed && holdState ==>
              forall k :: k in vars ==> r.value.0[k].fixed == (vars[k].fixed || k in stateVars)
    ensures !stateVarsFixed && !holdState ==>
              forall k :: k in vars ==> r.value.0[k].fixed == vars[k].fixed
  {
    if !stateVarsFixed then
      var (fixed, flags) := FixStateVars(vars, stateVars, stateArgs);
      if holdState then Ok((fixed, Some(flags)))
      else
        RevertUndoesFix(vars, stateVars, stateArgs);
        Ok((ReleaseState(fixed, Some(flags)), None))
    else
      match FirstNonZero(dofs)
      case Some(i) => Err(DofNotZero(i))
      case None => Ok((vars, None))
  }

  /** With the state variables not yet fixed and `hold_state` set,
      `initialize` fixes every state variable `define_state_vars` names and
      returns one flag for each of them. */
  lemma InitializeFixesStateVars<S(!new)>(solutes: set<S>, vars: map<VarKey<S>, VarState>, stateArgs: map<VarKey<S>, real>, dofs: seq<int>)
    requires vars.Keys == StateVarKeys(solutes)
    ensures var r := Initialize(vars, StateVarKeys(solutes), stateArgs, false, true, dofs);
      && r.Ok? && r.value.1.Some?
      && r.value.1.value.Keys == StateVarKeys(solutes)
      && (forall k :: k in vars ==> r.value.0[k].fixed)
      && (forall n, k :: n in DefineStateVars() && k in vars && NameCovers(n, k) ==> r.value.0[k].fixed)
  {
  }

  /** `release_state(flags)`: nothing when there are no flags, otherwise
      unfix what the flags say was not fixed before. */
  function ReleaseState<K>(vars: map<K, VarState>, flags: Option<map<K, bool>>): (r: map<K, VarState>)
    ensures flags.None? ==> r == vars
    ensures r.Keys == vars.Keys
    ensures forall k :: k in vars ==> r[k].value == vars[k].value
    ensures flags.Some? ==> forall k :: k in vars && k in flags.value ==> r[k].fixed == (vars[k].fixed && flags.value[k])
  {
    match flags
    case None => vars
    case Some(f) => RevertStateVars(vars, f)
  }

  /** Initialising with `hold_state`, then releasing with the flags returned,
      restores which variables are fixed; the guessed values stay. */
  lemma HoldThenRelease<K>(vars: map<K, VarState>, stateVars: set<K>, stateArgs: map<K, real>, dofs: seq<int>)
    ensures var r := Initialize(vars, stateVars, stateArgs, false, true, dofs);
      r.Ok? && r.value.1.Some? &&
      var released := ReleaseState(r.value.0, r.value.1);
      released.Keys == vars.Keys &&
      (forall k :: k in vars ==> released[k].fixed == vars[k].fixed) &&
      (forall k :: k in vars && k in stateVars && !vars[k].fixed && k in stateArgs ==> released[k].value == stateArgs[k])
  {
    RevertUndoesFix(vars, stateVars, stateArgs);
  }

  // ---------------------------------------------------------------------------
  // Scaling factors
  // ---------------------------------------------------------------------------

  /** Variables and expressions that carry a scaling factor. */
  datatype ScaleKey<S> = VarFactor(v: VarKey<S>) | FlowTerm(comp: Comp<S>) | DensityTerm(comp: Comp<S>)
                       | EnthalpyTerm | EnergyTerm

  /** The factors `build` sets on the state variables: 1e1 for the flow,
      the ions and every concentration, 1e-1 for temperature, 1e-3 for
      pressure. */
  function BuildScaling<S(==,!new)>(solutes: set<S>): (sf: ScalingFactors<ScaleKey<S>>)
    ensures forall k :: k in sf <==> k.VarFactor? && k.v in StateVarKeys(solutes)
  {
    map v | v in StateVarKeys(solutes) :: VarFactor(v) := BuildFactor(v)
  }

  /** The factor `build` gives a state variable. */
  function BuildFactor<S>(v: VarKey<S>): real
  {
    match v
    case TemperatureVar => 1e-1
    case PressureVar => 1e-3
    case _ => 1e1
  }

  /** sf_C: the scaling factor of component j's density term. */
  function DensityFactor<S(==,!new)>(sf: ScalingFactors<ScaleKey<S>>, c: Comp<S>): (r: real)
    ensures c.H2O? ==> r == 1.0 / DensMass
    ensures c.SCat? ==> r == Product(1e-1, GetScalingFactor(sf, VarFactor(CationsVar), 1.0))
    ensures c.SAn? ==> r == Product(1e-1, GetScalingFactor(sf, VarFactor(AnionsVar), 1.0))
    ensures c.Solute? ==> r == GetScalingFactor(sf, VarFactor(ConcVar(c.name)), 1e2)
  {
    match c
    case H2O => 1.0 / DensMass
    case SCat => Product(1e-1, GetScalingFactor(sf, VarFactor(CationsVar), 1.0))
    case SAn => Product(1e-1, GetScalingFactor(sf, VarFactor(AnionsVar), 1.0))
    case Solute(j) => GetScalingFactor(sf, VarFactor(ConcVar(j)), 1e2)
  }

  /** 1 / (rho * cp). */
  const RhoCpFactor: real := 1.0 / (DensMass * CpMass)

  /** Whether a key is one of the expression factors the calculation sets. */
  predicate IsExpressionKey<S(==,!new)>(k: ScaleKey<S>, comps: seq<Comp<S>>)
  {
    k.EnthalpyTerm? || k.EnergyTerm? || ((k.FlowTerm? || k.DensityTerm?) && k.comp in comps)
  }

  /** The factor the calculation gives an expression key; variable factors
      are read from `sf` (flow_vol and temperature default to 1). */
  function ExpressionFactor<S(==,!new)>(sf: ScalingFactors<ScaleKey<S>>, k: ScaleKey<S>): real
  {
    var sfF := GetScalingFactor(sf, VarFactor(FlowVolVar), 1.0);
    var sfT := GetScalingFactor(sf, VarFactor(TemperatureVar), 1.0);
    match k
    case FlowTerm(c) => Product(sfF, DensityFactor(sf, c))
    case DensityTerm(c) => DensityFactor(sf, c)
    case EnthalpyTerm => Product(Product(sfF, RhoCpFactor), sfT)
    case EnergyTerm => Product(RhoCpFactor, sfT)
    case VarFactor(_) => 0.0
  }

  /** `calculate_scaling_factors` over the component list `comps`: the
      expression factors are set (overwriting any earlier value) from the
      variables' factors, and every other factor is left alone. */
  function CalculateScalingFactors<S(==,!new)>(sf: ScalingFactors<ScaleKey<S>>, comps: seq<Comp<S>>)
    : (r: ScalingFactors<ScaleKey<S>>)
    ensures forall k :: k in r <==> k in sf || IsExpressionKey(k, comps)
    ensures forall k :: k in sf && !IsExpressionKey(k, comps) ==> r[k] == sf[k]
    ensures forall k :: k in sf && k.VarFactor? ==> r[k] == sf[k]
    ensures forall c :: c in comps ==>
              FlowTerm(c) in r && DensityTerm(c) in r &&
              r[FlowTerm(c)] == Product(GetScalingFactor(r, VarFactor(FlowVolVar), 1.0), r[DensityTerm(c)])
    ensures forall c :: c in comps ==> r[DensityTerm(c)] == DensityFactor(sf, c)
    ensures EnthalpyTerm in r && EnergyTerm in r &&
            r[EnthalpyTerm] == Product(GetScalingFactor(r, VarFactor(FlowVolVar), 1.0), r[EnergyTerm])
    ensures EnergyTerm in r && r[EnergyTerm] == Product(RhoCpFactor, GetScalingFactor(sf, VarFactor(TemperatureVar), 1.0))
  {
    var exprKeys := {EnthalpyTerm, EnergyTerm} + (set c | c in comps :: FlowTerm(c)) + (set c | c in comps :: DensityTerm(c));
    assert forall k :: IsExpressionKey(k, comps) <==> k in exprKeys;
    var r := map k | k in sf.Keys + exprKeys :: if k in exprKeys then ExpressionFactor(sf, k) else sf[k];
    assert GetScalingFactor(r, VarFactor(FlowVolVar), 1.0) == GetScalingFactor(sf, VarFactor(FlowVolVar), 1.0);
    var sfF := GetScalingFactor(sf, VarFactor(FlowVolVar), 1.0);
    var sfT := GetScalingFactor(sf, VarFactor(TemperatureVar), 1.0);
    assert Product(Product(sfF, RhoCpFactor), sfT) == Product(sfF, Product(RhoCpFactor, sfT)) by {
      assert (sfF * RhoCpFactor) * sfT == sfF * (RhoCpFactor * sfT);
    }
    r
  }

  /** The calculation reads only variable factors, so running it again
      changes nothing. */
  lemma ScalingIdempotent<S(!new)>(sf: ScalingFactors<ScaleKey<S>>, comps: seq<Comp<S>>)
    ensures CalculateScalingFactors(CalculateScalingFactors(sf, comps), comps) == CalculateScalingFactors(sf, comps)
  {
    var r := CalculateScalingFactors(sf, comps);
    var r2 := CalculateScalingFactors(r, comps);
    forall k | k in r ensures k in r2 && r2[k] == r[k] {
      if IsExpressionKey(k, comps) {
        CalculateKeepsVarFactor(sf, comps, FlowVolVar, 1.0);
        CalculateKeepsVarFactor(r, comps, FlowVolVar, 1.0);
        match k
        case FlowTerm(c) =>
          CalculateKeepsDensity(sf, comps, c);
        case DensityTerm(c) =>
          CalculateKeepsDensity(sf, comps, c);
        case EnthalpyTerm =>
          CalculateKeepsVarFactor(sf, comps, TemperatureVar, 1.0);
        case EnergyTerm =>
          CalculateKeepsVarFactor(sf, comps, TemperatureVar, 1.0);
      }
    }
    assert r2.Keys == r.Keys;
  }

  /** The calculation leaves every variable factor as it was. */
  lemma CalculateKeepsVarFactor<S(!new)>(sf: ScalingFactors<ScaleKey<S>>, comps: seq<Comp<S>>, v: VarKey<S>, default: real)
    ensures GetScalingFactor(CalculateScalingFactors(sf, comps), VarFactor(v), default) == GetScalingFactor(sf, VarFactor(v), default)
  {
    assert !IsExpressionKey(VarFactor(v), comps);
  }

  /** The density factors read the same before and after the calculation. */
  lemma CalculateKeepsDensity<S(!new)>(sf: ScalingFactors<ScaleKey<S>>, comps: seq<Comp<S>>, c: Comp<S>)
    ensures DensityFactor(CalculateScalingFactors(sf, comps), c) == DensityFactor(sf, c)
  {
    CalculateKeepsVarFactor(sf, comps, CationsVar, 1.0);
    CalculateKeepsVarFactor(sf, comps, AnionsVar, 1.0);
    if c.Solute? {
      CalculateKeepsVarFactor(sf, comps, ConcVar(c.name), 1e2);
    }
  }

  /** The variable factors `build` sets, as read back by `get_scaling_factor`. */
  lemma BuildScalingValues<S(!new)>(solutes: set<S>, j: S)
    requires j in solutes
    ensures var sf := BuildScaling(solutes);
      GetScalingFactor(sf, VarFactor(FlowVolVar), 1.0) == 1e1 &&
      GetScalingFactor(sf, VarFactor(AnionsVar), 1.0) == 1e1 &&
      GetScalingFactor(sf, VarFactor(CationsVar), 1.0) == 1e1 &&
      GetScalingFactor(sf, VarFactor(ConcVar(j)), 1e2) == 1e1 &&
      GetScalingFactor(sf, VarFactor(TemperatureVar), 1.0) == 1e-1 &&
      GetScalingFactor(sf, VarFactor(PressureVar), 1.0) == 1e-3
  {
  }

  /** With the factors `build` sets, a flow term's factor is the flow
      factor 1e1 times its density factor: 10/997 for water, 1e2 (10 * 10)
      for a solute and 1e1 (10 * 0.1 * 10) for the cations. */
  lemma BuildScalingChain<S(!new)>(solutes: set<S>, comps: seq<Comp<S>>, j: S, c: Comp<S>)
    requires j in solutes && c in comps && (c.H2O? || c == Solute(j) || c.SCat?)
    ensures var r := CalculateScalingFactors(BuildScaling(solutes), comps);
      r[FlowTerm(c)] == (if c.H2O? then 10.0 / 997.0 else if c.SCat? then 10.0 else 100.0)
  {
    var sf := BuildScaling(solutes);
    var r := CalculateScalingFactors(sf, comps);
    BuildScalingValues(solutes, j);
    CalculateKeepsVarFactor(sf, comps, FlowVolVar, 1.0);
    assert r[FlowTerm(c)] == Product(1e1, DensityFactor(sf, c));
    BuildDensityFactor(solutes, j, c);
  }

  /** The density factors `build`'s variable factors give: 1/997 for water,
      1e-1 * 1e1 for the cations and 1e1 for a solute. */
  lemma BuildDensityFactor<S(!new)>(solutes: set<S>, j: S, c: Comp<S>)
    requires j in solutes && (c.H2O? || c == Solute(j) || c.SCat?)
    ensures Product(1e1, DensityFactor(BuildScaling(solutes), c)) ==
            (if c.H2O? then 10.0 / 997.0 else if c.SCat? then 10.0 else 100.0)
  {
    var sf := BuildScaling(solutes);
    BuildScalingValues(solutes, j);
    if c.SCat? {
      assert DensityFactor(sf, c) == Product(1e-1, 1e1);
    }
  }
}
