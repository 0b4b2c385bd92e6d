/** The generic zero-order water property package
    (watertap/core/zero_order_properties.py): the solute list chosen at build
    time, the mass-flow and density terms, initialisation bookkeeping and the
    scaling-factor fallback chain. */
module ZeroOrderProperties {
  import opened Wrappers
  import opened StateVars
  import opened Scaling
  import opened Sums

  // ---------------------------------------------------------------------------
  // Components
  // ---------------------------------------------------------------------------

  /** Water is the one solvent; every other component is a named solute. */
  datatype Comp<S> = H2O | Solute(name: S)

  /** ConfigurationError when neither a solute list nor a database is given;
      RuntimeError from `add_component` for a name already on the block. */
  datatype BuildError = NoSoluteListOrDatabase | ComponentNameTaken(name: string)

  /** The solute list `build` adds, and the user-listed solutes it only logs
      as missing from the database. `database` is the database's solute set
      for the configured water source, when a database is configured. */
  datatype SoluteChoice<S> = SoluteChoice(solutes: seq<S>, logged: seq<S>)

  /** The names on the parameter block when the solutes are added: those the
      parent class's build put there (`existing`), the phase and the solvent. */
  function NamesBeforeSolutes(existing: set<string>): set<string>
  {
    existing + {"Liq", "H2O"}
  }

  /** Whether every solute's rendered name is new to `names` and to the
      solutes listed before it. */
  predicate Addable<S>(names: set<string>, list: seq<S>, render: S -> string)
  {
    && (forall i :: 0 <= i < |list| ==> render(list[i]) !in names)
    && (forall i, k :: 0 <= i < k < |list| ==> render(list[i]) != render(list[k]))
  }

  /** The rendered names of a solute list. */
  function Rendered<S>(list: seq<S>, render: S -> string): set<string>
  {
    set i | 0 <= i < |list| :: render(list[i])
  }

  lemma RenderedCons<S>(list: seq<S>, render: S -> string)
    requires |list| > 0
    ensures Rendered(list, render) == {render(list[0])} + Rendered(list[1..], render)
  {
    forall x | x in Rendered(list, render) ensures x in {render(list[0])} + Rendered(list[1..], render) {
      var i :| 0 <= i < |list| && render(list[i]) == x;
      if i > 0 {
        assert list[1..][i - 1] == list[i];
      }
    }
    forall x | x in Rendered(list[1..], render) ensures x in Rendered(list, render) {
      var i :| 0 <= i < |list| - 1 && render(list[1..][i]) == x;
      assert list[i + 1] == list[1..][i];
    }
  }

  /** The loop `for j in solute_list: self.add_component(str(j), Solute())`:
      each name is added in turn, and a name already on the block raises. */
  function AddSolutes<S>(names: set<string>, list: seq<S>, render: S -> string): (r: Result<set<string>, BuildError>)
    ensures r.Ok? <==> Addable(names, list, render)
    ensures r.Ok? ==> r.value == names + Rendered(list, render)
    ensures r.Err? ==> r.error.ComponentNameTaken? && exists i :: 0 <= i < |list| && r.error.name == render(list[i])
    decreases |list|
  {
    if |list| == 0 then Ok(names)
    else
      var n := render(list[0]);
      if n in names then Err(ComponentNameTaken(n))
      else
        var rest := AddSolutes(names + {n}, list[1..], render);
        assert forall i :: 1 <= i < |list| ==> list[1..][i - 1] == list[i];
        RenderedCons(list, render);
        rest
  }

  /** `build`'s solute handling: a given list wins over the database's set,
      which is used only when no list is given; then every solute is added to
      the block under `render(j)` (`str(j)`), where `existing` holds the names
      the parent class's build put on the block. */
  function BuildSoluteList<S(==,!new)>(userList: Option<seq<S>>, database: Option<seq<S>>,
                                        existing: set<string>, render: S -> string)
    : (r: Result<SoluteChoice<S>, BuildError>)
    ensures r == Err(NoSoluteListOrDatabase) <==> userList.None? && database.None?
    ensures userList.Some? ==> (r.Ok? <==> Addable(NamesBeforeSolutes(existing), userList.value, render))
    ensures userList.None? && database.Some? ==> (r.Ok? <==> Addable(NamesBeforeSolutes(existing), database.value, render))
    ensures r.Ok? && userList.None? ==> r.value.solutes == database.value && r.value.logged == []
    ensures r.Ok? && userList.Some? ==> r.value.solutes == userList.value
    ensures r.Ok? && userList.Some? ==>
              forall j :: j in r.value.logged <==> j in userList.value && database.Some? && j !in database.value
  {
    match userList
    case None =>
      if database.None? then Err(NoSoluteListOrDatabase)
      else
        var _ :- AddSolutes(NamesBeforeSolutes(existing), database.value, render);
        Ok(SoluteChoice(database.value, []))
    case Some(list) =>
      var _ :- AddSolutes(NamesBeforeSolutes(existing), list, render);
      if database.Some? then Ok(SoluteChoice(list, NotIn(list, database.value)))
      else Ok(SoluteChoice(list, []))
  }

  /** A user list naming water, or naming a solute twice, is refused. */
  lemma RepeatedOrWaterRefused<S(!new)>(userList: seq<S>, database: Option<seq<S>>, existing: set<string>,
                                           render: S -> string, i: nat, k: nat)
    requires i < |userList|
    requires render(userList[i]) == "H2O" || (i < k < |userList| && render(userList[i]) == render(userList[k]))
    ensures BuildSoluteList(Some(userList), database, existing, render).Err?
  {
  }

  /** The listed names that are not in `known`, in order. */
  function NotIn<S(==,!new)>(list: seq<S>, known: seq<S>): (r: seq<S>)
    ensures forall j :: j in r <==> j in list && j !in known
  {
    if |list| == 0 then []
    else (if list[0] in known then [] else [list[0]]) + NotIn(list[1..], known)
  }

  /** The component list: water first, then the solutes in order. */
  function Components<S(==,!new)>(solutes: seq<S>): (cs: seq<Comp<S>>)
    ensures |cs| == |solutes| + 1 && cs[0] == H2O
    ensures forall i :: 0 <= i < |solutes| ==> cs[i + 1] == Solute(solutes[i])
    ensures forall c :: c in cs <==> c == H2O || (c.Solute? && c.name in solutes)
  {
    assert forall j :: j in solutes ==> exists i :: 0 <= i < |solutes| && solutes[i] == j;
    [H2O] + seq(|solutes|, i requires 0 <= i < |solutes| => Solute(solutes[i]))
  }

  /** The initial value of the parameter block's `dens_mass`, kg/m^3. */
  const DensMass: real := 1000.0

  // ---------------------------------------------------------------------------
  // State block terms
  // ---------------------------------------------------------------------------

  /** A state block: volumetric flow and the solute mass concentrations, with
      the (mutable) density parameter of its parameter block. */
  datatype WaterState<S> = WaterState(flowVol: real, conc: map<S, real>, densMass: real)

  /** Whether the component has a term in this state block. */
  predicate Defined<S(==,!new)>(s: WaterState<S>, c: Comp<S>)
  {
    c.H2O? || c.name in s.conc
  }

  /** `get_material_density_terms("Liq", j)`: the density for water,
      otherwise the solute's concentration. */
  function DensityTerm<S(==,!new)>(s: WaterState<S>, c: Comp<S>): (r: Option<real>)
    ensures r.Some? <==> Defined(s, c)
    ensures c == H2O ==> r == Some(s.densMass)
    ensures c.Solute? && c.name in s.conc ==> r == Some(s.conc[c.name])
  {
    match c
    case H2O => Some(s.densMass)
    case Solute(j) => if j in s.conc then Some(s.conc[j]) else None
  }

  /** `flow_mass_comp[j]`, which is also `get_material_flow_terms("Liq", j)`. */
  function FlowMassComp<S(==,!new)>(s: WaterState<S>, c: Comp<S>): (r: Option<real>)
    ensures r.Some? <==> Defined(s, c)
  {
    match c
    case H2O => Some(s.flowVol * s.densMass)
    case Solute(j) => if j in s.conc then Some(s.flowVol * s.conc[j]) else None
  }

  /** Every mass flow is the volumetric flow times that component's density term. */
  lemma FlowIsVolumeTimesDensity<S(!new)>(s: WaterState<S>, c: Comp<S>)
    requires Defined(s, c)
    ensures FlowMassComp(s, c).value == s.flowVol * DensityTerm(s, c).value
  {
  }

  /** On a parameter block whose density was left at its initial value,
      water flows at 1000 kg per m^3 of volumetric flow. */
  lemma DefaultWaterFlow<S(!new)>(flowVol: real, conc: map<S, real>)
    ensures FlowMassComp(WaterState(flowVol, conc, DensMass), H2O) == Some(1000.0 * flowVol)
  {
  }

  /** The total mass flow over a component list. */
  function TotalMassFlow<S(==,!new)>(s: WaterState<S>, cs: seq<Comp<S>>): real
    requires forall i :: 0 <= i < |cs| ==> Defined(s, cs[i])
  {
    if |cs| == 0 then 0.0
    else TotalMassFlow(s, cs[..|cs| - 1]) + FlowMassComp(s, cs[|cs| - 1]).value
  }

  /** The total mass flow scales linearly with the volumetric flow. */
  lemma {:induction false} TotalMassFlowLinear<S(!new)>(s: WaterState<S>, cs: seq<Comp<S>>)
    requires forall i :: 0 <= i < |cs| ==> Defined(s, cs[i])
    ensures TotalMassFlow(s, cs) == s.flowVol * TotalDensity(s, cs)
  {
    if |cs| > 0 {
      var init := cs[..|cs| - 1];
      var d := DensityTerm(s, cs[|cs| - 1]).value;
      TotalMassFlowLinear(s, init);
      FlowIsVolumeTimesDensity(s, cs[|cs| - 1]);
      assert s.flowVol * (TotalDensity(s, init) + d) == s.flowVol * TotalDensity(s, init) + s.flowVol * d;
    }
  }

  function TotalDensity<S(==,!new)>(s: WaterState<S>, cs: seq<Comp<S>>): real
    requires forall i :: 0 <= i < |cs| ==> Defined(s, cs[i])
  {
    if |cs| == 0 then 0.0
    else TotalDensity(s, cs[..|cs| - 1]) + DensityTerm(s, cs[|cs| - 1]).value
  }

  // ---------------------------------------------------------------------------
  // initialize / release_state
  // ---------------------------------------------------------------------------

  /** `initialize`: there is nothing to solve, so the only effect is fixing
      the state variables, and returning the flags, when holding the state. */
  function Initialize<K>(vars: map<K, VarState>, stateVars: set<K>, stateArgs: map<K, real>, holdState: bool)
    : (r: (map<K, VarState>, Option<map<K, bool>>))
    ensures r.1.Some? <==> holdState
    ensures !holdState ==> r.0 == vars
    ensures r.0.Keys == vars.Keys
    ensures holdState ==> forall k :: k in vars ==> r.0[k].fixed == (vars[k].fixed || k in stateVars)
  {
    if holdState then
      var (fixed, flags) := FixStateVars(vars, stateVars, stateArgs);
      (fixed, Some(flags))
    else (vars, None)
  }

  /** `release_state(flags)`: nothing without flags, otherwise revert. */
  function ReleaseState<K>(vars: map<K, VarState>, flags: Option<map<K, bool>>): (r: map<K, VarState>)
    ensures flags.None? ==> r == vars
    ensures r.Keys == vars.Keys
    ensures forall k :: k in vars ==> r[k].value == vars[k].value
  {
    match flags
    case None => vars
    case Some(f) => RevertStateVars(vars, f)
  }

  /** Initialising, then releasing what it returned, restores which variables
      are fixed, with or without `hold_state`. */
  lemma InitializeReleaseRoundTrip<K>(vars: map<K, VarState>, stateVars: set<K>, stateArgs: map<K, real>, holdState: bool)
    ensures var (v, flags) := Initialize(vars, stateVars, stateArgs, holdState);
      var released := ReleaseState(v, flags);
      released.Keys == vars.Keys && forall k :: k in vars ==> released[k].fixed == vars[k].fixed
  {
    RevertUndoesFix(vars, stateVars, stateArgs);
  }

  // ---------------------------------------------------------------------------
  // calculate_scaling_factors
  // ---------------------------------------------------------------------------

  datatype ScaleKey<S> = FlowVol | ConcMassComp(solute: S) | FlowMassCompKey(comp: Comp<S>)

  /** Keys of the parameter block's `default_scaling_factor` dictionary. */
  datatype DefaultKey<S> = DefaultFlowVol | DefaultConc | DefaultConcOf(solute: S)

  /** The defaults `build` installs. */
  function BuildDefaults<S(==)>(): map<DefaultKey<S>, real>
  {
    map[DefaultFlowVol := 1e3, DefaultConc := 1e2]
  }

  /** A dictionary lookup that failed (KeyError). */
  datatype ScalingError<S> = MissingDefault(key: DefaultKey<S>)

  /** The factor an unset concentration receives: the component-specific
      default when there is one, otherwise the generic one. */
  function ConcDefault<S(==,!new)>(defaults: map<DefaultKey<S>, real>, j: S): (r: Result<real, ScalingError<S>>)
    ensures DefaultConcOf(j) in defaults ==> r == Ok(defaults[DefaultConcOf(j)])
    ensures DefaultConcOf(j) !in defaults && DefaultConc in defaults ==> r == Ok(defaults[DefaultConc])
    ensures DefaultConcOf(j) !in defaults && DefaultConc !in defaults ==> r == Err(MissingDefault(DefaultConc))
  {
    if DefaultConcOf(j) in defaults then Ok(defaults[DefaultConcOf(j)])
    else if DefaultConc in defaults then Ok(defaults[DefaultConc])
    else Err(MissingDefault(DefaultConc))
  }

  /** The loop over `conc_mass_comp`. */
  function ScaleConcentrations<S(==,!new)>(sf: ScalingFactors<ScaleKey<S>>, defaults: map<DefaultKey<S>, real>, solutes: seq<S>)
    : (r: Result<ScalingFactors<ScaleKey<S>>, ScalingError<S>>)
    ensures r.Err? <==> exists j :: j in solutes && ConcMassComp(j) !in sf && ConcDefault(defaults, j).Err?
    ensures r.Ok? ==> forall k :: k in r.value <==> k in sf || (k.ConcMassComp? && k.solute in solutes)
    ensures r.Ok? ==> forall k :: k in sf ==> r.value[k] == sf[k]
    ensures r.Ok? ==> forall j :: j in solutes && ConcMassComp(j) !in sf ==>
              r.value[ConcMassComp(j)] == ConcDefault(defaults, j).value
    decreases |solutes|
  {
    if |solutes| == 0 then Ok(sf)
    else
      var key := ConcMassComp(solutes[0]);
      assert forall j :: j in solutes <==> j == solutes[0] || j in solutes[1..];
      if key in sf then ScaleConcentrations(sf, defaults, solutes[1..])
      else
        match ConcDefault(defaults, solutes[0])
        case Err(e) => Err(e)
        case Ok(c) => ScaleConcentrations(sf[key := c], defaults, solutes[1..])
  }

  /** The second factor of a mass-flow scaling factor: 1e-3 for water,
      otherwise the solute's concentration factor (1e2 if that is unset). */
  function FlowFactor<S(==,!new)>(sf: ScalingFactors<ScaleKey<S>>, c: Comp<S>): real
  {
    match c
    case H2O => 1e-3
    case Solute(j) => GetScalingFactor(sf, ConcMassComp(j), 1e2)
  }

  /** The mass-flow keys of a component list. */
  function FlowKeys<S(==,!new)>(comps: seq<Comp<S>>): (keys: seq<ScaleKey<S>>)
    ensures forall k :: k in keys <==> k.FlowMassCompKey? && k.comp in comps
  {
    var keys := seq(|comps|, i requires 0 <= i < |comps| => FlowMassCompKey(comps[i]));
    assert forall k :: k in keys <==> k.FlowMassCompKey? && k.comp in comps by {
      forall k ensures k in keys <==> k.FlowMassCompKey? && k.comp in comps {
        if k.FlowMassCompKey? && k.comp in comps {
          var i :| 0 <= i < |comps| && comps[i] == k.comp;
          assert keys[i] == k;
        }
      }
    }
    keys
  }

  /** The loop over `flow_mass_comp`, once every concentration factor is set:
      each unset mass-flow factor becomes sf_Q times its `FlowFactor`. */
  function ScaleComponentFlows<S(==,!new)>(withC: ScalingFactors<ScaleKey<S>>, sfQ: real, solutes: seq<S>): (out: ScalingFactors<ScaleKey<S>>)
    ensures forall k :: k in out <==> k in withC || (k.FlowMassCompKey? && k.comp in Components(solutes))
    ensures forall k :: k in withC ==> out[k] == withC[k]
    ensures FlowMassCompKey(H2O) !in withC ==> FlowMassCompKey(H2O) in out && out[FlowMassCompKey(H2O)] == Product(sfQ, 1e-3)
    ensures forall j :: j in solutes && FlowMassCompKey(Solute(j)) !in withC ==>
              FlowMassCompKey(Solute(j)) in out && out[FlowMassCompKey(Solute(j))] == Product(sfQ, GetScalingFactor(withC, ConcMassComp(j), 1e2))
  {
    var keys := FlowKeys(Components(solutes));
    var out := SetAllIfUnset(withC, keys, (k: ScaleKey<S>) => if k.FlowMassCompKey? then Product(sfQ, FlowFactor(withC, k.comp)) else 0.0);
    assert FlowMassCompKey(H2O) in keys;
    assert forall j :: j in solutes ==> FlowMassCompKey(Solute(j)) in keys;
    out
  }

  /** `calculate_scaling_factors` for a state block with the given solutes. */
  function CalculateScalingFactors<S(==,!new)>(sf: ScalingFactors<ScaleKey<S>>, defaults: map<DefaultKey<S>, real>, solutes: seq<S>)
    : (r: Result<ScalingFactors<ScaleKey<S>>, ScalingError<S>>)
    ensures r.Err? <==> ((FlowVol !in sf && DefaultFlowVol !in defaults)
                      || exists j :: j in solutes && ConcMassComp(j) !in sf && ConcDefault(defaults, j).Err?)
    ensures r.Ok? ==> forall k :: k in r.value <==>
              (k in sf || k == FlowVol || (k.ConcMassComp? && k.solute in solutes) || (k.FlowMassCompKey? && k.comp in Components(solutes)))
    ensures r.Ok? ==> forall k :: k in sf ==> r.value[k] == sf[k]
    ensures r.Ok? ==> FlowVol !in sf ==> r.value[FlowVol] == defaults[DefaultFlowVol]
    ensures r.Ok? ==> forall j :: j in solutes && ConcMassComp(j) !in sf ==>
              r.value[ConcMassComp(j)] == ConcDefault(defaults, j).value
  {
    if FlowVol !in sf && DefaultFlowVol !in defaults then Err(MissingDefault(DefaultFlowVol))
    else
      var sfQ := if FlowVol in sf then sf[FlowVol] else defaults[DefaultFlowVol];
      var withQ := SetIfUnset(sf, FlowVol, sfQ);
      match ScaleConcentrations(withQ, defaults, solutes)
      case Err(e) => Err(e)
      case Ok(withC) =>
        var out := ScaleComponentFlows(withC, sfQ, solutes);
        Ok(out)
  }

  /** Each unset mass-flow factor ends as the flow factor times the water
      factor 1e-3 or the solute's concentration factor. */
  lemma ComponentFlowFactors<S(!new)>(sf: ScalingFactors<ScaleKey<S>>, defaults: map<DefaultKey<S>, real>, solutes: seq<S>)
    requires CalculateScalingFactors(sf, defaults, solutes).Ok?
    ensures var r := CalculateScalingFactors(sf, defaults, solutes).value;
      && (FlowMassCompKey(H2O) !in sf ==>
            FlowMassCompKey(H2O) in r && r[FlowMassCompKey(H2O)] == Product(r[FlowVol], 1e-3))
      && (forall j :: j in solutes && FlowMassCompKey(Solute(j)) !in sf ==>
            FlowMassCompKey(Solute(j)) in r && ConcMassComp(j) in r &&
            r[FlowMassCompKey(Solute(j))] == Product(r[FlowVol], r[ConcMassComp(j)]))
  {
    var sfQ := if FlowVol in sf then sf[FlowVol] else defaults[DefaultFlowVol];
    var withQ := SetIfUnset(sf, FlowVol, sfQ);
    var withC := ScaleConcentrations(withQ, defaults, solutes).value;
    var out := ScaleComponentFlows(withC, sfQ, solutes);
    assert CalculateScalingFactors(sf, defaults, solutes).value == out;
    assert FlowVol in withQ && FlowVol in withC && out[FlowVol] == sfQ;
    forall j | j in solutes && FlowMassCompKey(Solute(j)) !in sf
      ensures FlowMassCompKey(Solute(j)) in out && ConcMassComp(j) in out
      ensures out[FlowMassCompKey(Solute(j))] == Product(out[FlowVol], out[ConcMassComp(j)])
    {
      assert FlowMassCompKey(Solute(j)) !in withC;
      assert ConcMassComp(j) in withC;
      assert GetScalingFactor(withC, ConcMassComp(j), 1e2) == out[ConcMassComp(j)];
    }
  }

  /** Once computed, the factors are a fixed point: running the calculation
      again changes nothing. */
  lemma ScalingIdempotent<S(!new)>(sf: ScalingFactors<ScaleKey<S>>, defaults: map<DefaultKey<S>, real>, solutes: seq<S>)
    requires CalculateScalingFactors(sf, defaults, solutes).Ok?
    ensures CalculateScalingFactors(CalculateScalingFactors(sf, defaults, solutes).value, defaults, solutes)
         == CalculateScalingFactors(sf, defaults, solutes)
  {
    var r := CalculateScalingFactors(sf, defaults, solutes).value;
    assert FlowVol in r && SetIfUnset(r, FlowVol, r[FlowVol]) == r;
    assert forall j :: j in solutes ==> ConcMassComp(j) in r;
    assert forall c :: c in Components(solutes) ==> FlowMassCompKey(c) in r by {
      forall c | c in Components(solutes) ensures FlowMassCompKey(c) in r { }
    }
    ScaleConcentrationsNoop(r, defaults, solutes);
    ScaleComponentFlowsNoop(r, r[FlowVol], solutes);
  }

  /** With every concentration factor set, the concentration loop changes nothing. */
  lemma ScaleConcentrationsNoop<S(!new)>(sf: ScalingFactors<ScaleKey<S>>, defaults: map<DefaultKey<S>, real>, solutes: seq<S>)
    requires forall j :: j in solutes ==> ConcMassComp(j) in sf
    ensures ScaleConcentrations(sf, defaults, solutes) == Ok(sf)
  {
    var c := ScaleConcentrations(sf, defaults, solutes);
    assert c.Ok?;
    assert c.value.Keys == sf.Keys;
  }

  /** With every mass-flow factor set, the mass-flow loop changes nothing. */
  lemma ScaleComponentFlowsNoop<S(!new)>(withC: ScalingFactors<ScaleKey<S>>, sfQ: real, solutes: seq<S>)
    requires forall c :: c in Components(solutes) ==> FlowMassCompKey(c) in withC
    ensures ScaleComponentFlows(withC, sfQ, solutes) == withC
  {
    var o := ScaleComponentFlows(withC, sfQ, solutes);
    assert o.Keys == withC.Keys;
  }

  /** With no factors set and the defaults `build` installs, the chain gives
      flow 1e3, every concentration 1e2, water mass flow 1 and every solute
      mass flow 1e5. */
  lemma DefaultChain<S(!new)>(solutes: seq<S>, j: S)
    requires j in solutes
    ensures var r := CalculateScalingFactors(map[], BuildDefaults(), solutes);
      r.Ok? && FlowVol in r.value && ConcMassComp(j) in r.value && FlowMassCompKey(H2O) in r.value && FlowMassCompKey(Solute(j)) in r.value
      && r.value[FlowVol] == 1e3 && r.value[ConcMassComp(j)] == 1e2
      && r.value[FlowMassCompKey(H2O)] == 1.0 && r.value[FlowMassCompKey(Solute(j))] == 1e5
  {
    var r := CalculateScalingFactors(map[], BuildDefaults(), solutes);
    assert forall k: S :: ConcDefault(BuildDefaults<S>(), k) == Ok(1e2);
    assert r.Ok?;
    ComponentFlowFactors(map[], BuildDefaults(), solutes);
    assert r.value[ConcMassComp(j)] == 1e2;
    assert r.value[FlowMassCompKey(Solute(j))] == Product(1e3, 1e2);
  }
}
