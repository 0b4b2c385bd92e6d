/** The solver-free bookkeeping of the DSPM-DE ion property package
    (watertap/property_models/ion_DSPMDE_prop_pack.py): parameter defaults,
    the activity-coefficient rule, the electroneutrality check, the state
    variables, and the fix/unfix bookkeeping of `initialize` and
    `calculate_state`.

    Degrees of freedom and solver results are oracles: `dof(vars, k)` is the
    degrees of freedom of element `k` for the given fixed/free variables, and
    `sol` holds the values a solve gives the free variables. */
module Dspmde {
  import opened Wrappers
  import opened StateVars

  // ---------------------------------------------------------------------------
  // Parameter data
  // ---------------------------------------------------------------------------

  /** How a parameter is initialised: from configured data per index, or with
      one value for every index. */
  datatype ParamInit<K> = PerIndex(data: map<K, real>) | Uniform(value: real)

  /** `_init_param_data(data, default)`: the configured data when there is
      any, otherwise the default, which is 1 when none is given. */
  function InitParamData<K>(config: map<K, real>, default: Option<real>): (r: ParamInit<K>)
    ensures |config| != 0 ==> r == PerIndex(config)
    ensures |config| == 0 && default.Some? ==> r == Uniform(default.value)
    ensures |config| == 0 && default.None? ==> r == Uniform(1.0)
  {
    if |config| != 0 then PerIndex(config) else Uniform(default.GetOr(1.0))
  }

  /** The configuration entries `build` initialises from. */
  datatype ParamData = MwData | StokesRadiusData | DiffusivityData | DensityData | ChargeData

  /** The default `build` passes for each entry (None for molecular weight and charge). */
  function BuildDefault(p: ParamData): Option<real>
  {
    match p
    case MwData => None
    case StokesRadiusData => Some(1e-9)
    case DiffusivityData => Some(1e-9)
    case DensityData => Some(1e3)
    case ChargeData => None
  }

  /** With no configured data, every parameter of `build` takes its documented
      fallback: molecular weight 1, Stokes radius 1e-9, diffusivity 1e-9,
      density 1e3, charge 1. */
  lemma BuildFallbacks<K>(config: map<K, real>)
    requires |config| == 0
    ensures InitParamData(config, BuildDefault(MwData)) == Uniform(1.0)
    ensures InitParamData(config, BuildDefault(StokesRadiusData)) == Uniform(1e-9)
    ensures InitParamData(config, BuildDefault(DiffusivityData)) == Uniform(1e-9)
    ensures InitParamData(config, BuildDefault(DensityData)) == Uniform(1e3)
    ensures InitParamData(config, BuildDefault(ChargeData)) == Uniform(1.0)
  {
  }

  // ---------------------------------------------------------------------------
  // Activity coefficients, state variables, electroneutrality
  // ---------------------------------------------------------------------------

  datatype ActivityCoefficientModel = Ideal | Davies | Enrtl | Pitzer

  datatype NotImplemented = NotImplemented(model: ActivityCoefficientModel)

  /** The value `rule_act_coeff_phase_comp` fixes the activity coefficient to. */
  function ActCoeff(m: ActivityCoefficientModel): (r: Result<real, NotImplemented>)
    ensures r.Ok? <==> m == Ideal
    ensures r.Ok? ==> r.value == 1.0
    ensures r.Err? ==> r.error.model == m
  {
    if m == Ideal then Ok(1.0) else Err(NotImplemented(m))
  }

  datatype StateVarName = FlowMolPhaseComp | Temperature | Pressure

  /** `define_state_vars`. */
  function DefineStateVars(): (names: set<StateVarName>)
    ensures FlowMolPhaseComp in names && Temperature in names && Pressure in names
    ensures |names| == 3
  {
    {FlowMolPhaseComp, Temperature, Pressure}
  }

  const DefaultElectroneutralityTol: real := 1e-6

  /** A solute's charge and its molar flow in the liquid phase. */
  datatype IonFlow = IonFlow(charge: real, flowMol: real)

  function ChargeBalance(ions: seq<IonFlow>): real
  {
    if |ions| == 0 then 0.0
    else ChargeBalance(ions[..|ions| - 1]) + ions[|ions| - 1].charge * ions[|ions| - 1].flowMol
  }

  /** Python's `abs` on a float. */
  function Abs(x: real): (r: real)
    ensures r >= 0.0 && (r == x || r == -x)
    ensures r >= x && r >= -x
  {
    if x < 0.0 then -x else x
  }

  datatype ElectroneutralityViolation = ElectroneutralityViolation(balance: real)

  /** `assert_electroneutrality(tol, tee)`: passes (reporting whether the
      success message is printed) iff |Σ charge·flow| ≤ tol, tol defaulting to 1e-6. */
  function AssertElectroneutrality(ions: seq<IonFlow>, tol: Option<real>, tee: bool): (r: Result<bool, ElectroneutralityViolation>)
    ensures r.Ok? <==> Abs(ChargeBalance(ions)) <= tol.GetOr(1e-6)
    ensures r.Ok? ==> r.value == tee
    ensures r.Err? ==> r.error.balance == ChargeBalance(ions)
  {
    var t := tol.GetOr(DefaultElectroneutralityTol);
    var v := ChargeBalance(ions);
    if Abs(v) <= t then Ok(tee) else Err(ElectroneutralityViolation(v))
  }

  /** A looser tolerance accepts everything a tighter one does. */
  lemma ElectroneutralityMonotone(ions: seq<IonFlow>, t1: real, t2: real, tee: bool)
    requires t1 <= t2
    requires AssertElectroneutrality(ions, Some(t1), tee).Ok?
    ensures AssertElectroneutrality(ions, Some(t2), tee).Ok?
  {
  }

  /** The balance is additive: the balance of two ion lists together is the
      sum of their balances. */
  lemma {:induction false} ChargeBalanceAppend(a: seq<IonFlow>, b: seq<IonFlow>)
    ensures ChargeBalance(a + b) == ChargeBalance(a) + ChargeBalance(b)
  {
    if |b| > 0 {
      assert (a + b)[..|a + b| - 1] == a + b[..|b| - 1];
      ChargeBalanceAppend(a, b[..|b| - 1]);
    } else {
      assert a + b == a;
    }
  }

  /** Exchanging the order of the solutes does not change the balance. */
  lemma ChargeBalanceSwap(a: seq<IonFlow>, b: seq<IonFlow>)
    ensures ChargeBalance(a + b) == ChargeBalance(b + a)
  {
    ChargeBalanceAppend(a, b);
    ChargeBalanceAppend(b, a);
  }

  // ---------------------------------------------------------------------------
  // initialize / release_state
  // ---------------------------------------------------------------------------

  /** A variable of the indexed state block: element, variable name, index. */
  datatype VarKey = VarKey(elem: nat, name: string, index: string)

  type Vars = map<VarKey, VarState>

  /** Give each free variable the value the solver found for it. */
  function Solve(vars: Vars, sol: map<VarKey, real>): (r: Vars)
    ensures r.Keys == vars.Keys
    ensures forall k :: k in vars ==> r[k].fixed == vars[k].fixed
    ensures forall k :: k in vars && vars[k].fixed ==> r[k] == vars[k]
  {
    map k | k in vars :: if !vars[k].fixed && k in sol then VarState(false, sol[k]) else vars[k]
  }

  /** The first element, in order, whose degrees of freedom are not zero. */
  function FirstNonZeroDof(vars: Vars, elements: seq<nat>, dof: (Vars, nat) -> int): (r: Option<nat>)
    ensures r.None? <==> forall i :: 0 <= i < |elements| ==> dof(vars, elements[i]) == 0
    ensures r.Some? ==> r.value in elements && dof(vars, r.value) != 0
  {
    if |elements| == 0 then None
    else if dof(vars, elements[0]) != 0 then Some(elements[0])
    else FirstNonZeroDof(vars, elements[1..], dof)
  }

  /** Whether any element has a free variable. */
  predicate HasUnfixed(vars: Vars, elements: seq<nat>)
  {
    exists k :: k in vars && k.elem in elements && !vars[k].fixed
  }

  datatype InitError = DofNotZero(elem: nat)

  /** What `initialize` leaves behind: the variables, the flags it returns
      (only when holding the state), and whether it solved. */
  datatype InitOutcome = InitOutcome(vars: Vars, flags: Option<map<VarKey, bool>>, solved: bool)

  /** `initialize(state_args, state_vars_fixed, hold_state)`. */
  function Initialize(
    vars: Vars, elements: seq<nat>, stateVars: set<VarKey>, stateArgs: map<VarKey, real>,
    dof: (Vars, nat) -> int, sol: map<VarKey, real>, stateVarsFixed: bool, holdState: bool
  ): (r: Result<InitOutcome, InitError>)
    ensures var fixed := FixStateVars(vars, stateVars, stateArgs).0;
      r.Err? <==> exists i :: 0 <= i < |elements| && dof(fixed, elements[i]) != 0
    ensures var fixed := FixStateVars(vars, stateVars, stateArgs).0;
      r.Ok? ==> (r.value.solved <==> HasUnfixed(fixed, elements))
    ensures r.Ok? ==> (r.value.flags.Some? <==> !stateVarsFixed && holdState)
    ensures r.Ok? ==> r.value.vars.Keys == vars.Keys
    ensures r.Ok? && !stateVarsFixed && !holdState ==>
              forall k :: k in vars ==> r.value.vars[k].fixed == vars[k].fixed
    ensures r.Ok? && (stateVarsFixed || holdState) ==>
              forall k :: k in vars ==> r.value.vars[k].fixed == (vars[k].fixed || k in stateVars)
    ensures r.Ok? ==> forall k :: k in vars && vars[k].fixed ==> r.value.vars[k] == vars[k]
  {
    var (fixed, flags) := FixStateVars(vars, stateVars, stateArgs);
    match FirstNonZeroDof(fixed, elements, dof)
    case Some(e) => Err(DofNotZero(e))
    case None =>
      var solved := HasUnfixed(fixed, elements);
      var after := if solved then Solve(fixed, sol) else fixed;
      assert after.Keys == vars.Keys;
      assert forall k :: k in vars ==> after[k].fixed == (vars[k].fixed || k in stateVars);
      assert forall k :: k in vars && vars[k].fixed ==> after[k] == vars[k];
      if !stateVarsFixed then
        if holdState then Ok(InitOutcome(after, Some(flags), solved))
        else
          RevertRestoresFixed(vars, stateVars, flags, after);
          Ok(InitOutcome(RevertStateVars(after, flags), None, solved))
      else Ok(InitOutcome(after, None, solved))
  }

  /** Reverting with the flags of FixStateVars, after a solve that keeps
      which variables are fixed, restores which variables were fixed before. */
  lemma RevertRestoresFixed(vars: Vars, stateVars: set<VarKey>, flags: map<VarKey, bool>, after: Vars)
    requires after.Keys == vars.Keys
    requires flags.Keys == stateVars * vars.Keys && forall k :: k in flags ==> flags[k] == vars[k].fixed
    requires forall k :: k in vars ==> after[k].fixed == (vars[k].fixed || k in stateVars)
    ensures RevertStateVars(after, flags).Keys == vars.Keys
    ensures forall k :: k in vars ==> RevertStateVars(after, flags)[k].fixed == vars[k].fixed
  {
  }

  /** `release_state(flags)` after `initialize(hold_state=True)` frees exactly
      the state variables initialisation fixed. */
  lemma ReleaseAfterHold(
    vars: Vars, elements: seq<nat>, stateVars: set<VarKey>, stateArgs: map<VarKey, real>,
    dof: (Vars, nat) -> int, sol: map<VarKey, real>)
    requires Initialize(vars, elements, stateVars, stateArgs, dof, sol, false, true).Ok?
    ensures var o := Initialize(vars, elements, stateVars, stateArgs, dof, sol, false, true).value;
      var released := RevertStateVars(o.vars, o.flags.value);
      forall k :: k in vars ==> released[k].fixed == vars[k].fixed
  {
  }

  // ---------------------------------------------------------------------------
  // calculate_state
  // ---------------------------------------------------------------------------

  /** An entry `(v_name, index): value` of `var_args`. */
  datatype VarArg = VarArg(name: string, index: string, value: real)

  function KeyOf(e: nat, a: VarArg): VarKey
  {
    VarKey(e, a.name, a.index)
  }

  /** Dictionary keys are distinct. */
  ghost predicate DistinctArgs(args: seq<VarArg>)
  {
    forall i, j :: 0 <= i < j < |args| ==> (args[i].name, args[i].index) != (args[j].name, args[j].index)
  }

  ghost predicate DistinctElems(elements: seq<nat>)
  {
    forall i, j :: 0 <= i < j < |elements| ==> elements[i] != elements[j]
  }

  ghost predicate IsArgKey(e: nat, args: seq<VarArg>, k: VarKey)
  {
    exists i :: 0 <= i < |args| && KeyOf(e, args[i]) == k
  }

  /** A var_args entry that names a variable already fixed at another value. */
  ghost predicate Conflicts(vars: Vars, e: nat, a: VarArg)
  {
    KeyOf(e, a) in vars && vars[KeyOf(e, a)].fixed && vars[KeyOf(e, a)].value != a.value
  }

  datatype CalcError =
    | InitFailed(init: InitError)        // PropertyPackageError from `initialize`
    | MissingVariable(key: VarKey)       // getattr / index lookup fails
    | ConflictingFix(key: VarKey)        // ConfigurationError: fixed to another value
    | DofAfterFix(elem: nat)             // RuntimeError: dof != 0

  /** The inner loop over `var_args` for element `e`: a fixed variable is
      flagged True and must already hold the value; a free one is flagged
      False and fixed to it. */
  function FixArgs(vars: Vars, e: nat, args: seq<VarArg>, flags: map<VarKey, bool>)
    : (r: Result<(Vars, map<VarKey, bool>), CalcError>)
    requires DistinctArgs(args)
    ensures r.Ok? <==> forall i :: 0 <= i < |args| ==> KeyOf(e, args[i]) in vars && !Conflicts(vars, e, args[i])
    ensures r.Ok? ==> r.value.0.Keys == vars.Keys
    ensures r.Ok? ==> forall i :: 0 <= i < |args| ==> r.value.0[KeyOf(e, args[i])] == VarState(true, args[i].value)
    ensures r.Ok? ==> forall k :: k in vars && !IsArgKey(e, args, k) ==> r.value.0[k] == vars[k]
    decreases |args|
  {
    if |args| == 0 then Ok((vars, flags))
    else
      var a := args[0];
      var key := KeyOf(e, a);
      ArgKeysStep(e, args);
      if key !in vars then Err(MissingVariable(key))
      else if vars[key].fixed then
        if vars[key].value != a.value then Err(ConflictingFix(key))
        else FixArgs(vars, e, args[1..], flags[key := true])
      else FixArgs(vars[key := VarState(true, a.value)], e, args[1..], flags[key := false])
  }

  /** The variables after FixArgs handles one argument whose variable exists. */
  function FixOne(vars: Vars, key: VarKey, value: real): Vars
    requires key in vars
  {
    if vars[key].fixed then vars else vars[key := VarState(true, value)]
  }

  /** The keys named by a distinct argument list are its first key and the
      keys of the rest, which does not name the first again. */
  lemma ArgKeysStep(e: nat, args: seq<VarArg>)
    requires DistinctArgs(args) && |args| > 0
    ensures var key := KeyOf(e, args[0]);
      && DistinctArgs(args[1..])
      && (forall k :: IsArgKey(e, args, k) <==> k == key || IsArgKey(e, args[1..], k))
      && !IsArgKey(e, args[1..], key)
      && (forall i :: 1 <= i < |args| ==> args[i] == args[1..][i - 1] && KeyOf(e, args[i]) != key)
  {
    var key := KeyOf(e, args[0]);
    var rest := args[1..];
    assert DistinctArgs(rest);
    assert forall i :: 1 <= i < |args| ==> KeyOf(e, args[i]) != key && args[i] == rest[i - 1];
    forall k ensures IsArgKey(e, args, k) ==> k == key || IsArgKey(e, rest, k) {
      if IsArgKey(e, args, k) && k != key {
        var i :| 0 <= i < |args| && KeyOf(e, args[i]) == k;
        assert KeyOf(e, rest[i - 1]) == k;
      }
    }
  }

  /** FixOne leaves every other variable as it was. */
  lemma FixOneOther(vars: Vars, key: VarKey, value: real, k: VarKey)
    requires key in vars && k != key
    ensures k in FixOne(vars, key, value) <==> k in vars
    ensures k in vars ==> FixOne(vars, key, value)[k] == vars[k]
  {
  }

  /** One step of FixArgs on a successful run: the rest of the loop runs on
      the updated state. */
  lemma FixArgsStep(vars: Vars, e: nat, args: seq<VarArg>, flags: map<VarKey, bool>)
    requires DistinctArgs(args) && |args| > 0
    requires FixArgs(vars, e, args, flags).Ok?
    ensures var key := KeyOf(e, args[0]);
      && DistinctArgs(args[1..]) && key in vars
      && (forall k :: IsArgKey(e, args, k) <==> k == key || IsArgKey(e, args[1..], k))
      && !IsArgKey(e, args[1..], key)
      && (forall i :: 1 <= i < |args| ==> args[i] == args[1..][i - 1] && KeyOf(e, args[i]) != key)
      && FixArgs(vars, e, args, flags) == FixArgs(FixOne(vars, key, args[0].value), e, args[1..], flags[key := vars[key].fixed])
  {
    ArgKeysStep(e, args);
  }

  /** FixArgs adds a flag for every argument and no other. */
  lemma {:induction false} FixArgsFlagKeys(vars: Vars, e: nat, args: seq<VarArg>, flags: map<VarKey, bool>)
    requires DistinctArgs(args)
    requires FixArgs(vars, e, args, flags).Ok?
    ensures var f := FixArgs(vars, e, args, flags).value.1;
      forall k :: k in f <==> k in flags || IsArgKey(e, args, k)
    decreases |args|
  {
    if |args| > 0 {
      FixArgsStep(vars, e, args, flags);
      var key := KeyOf(e, args[0]);
      FixArgsFlagKeys(FixOne(vars, key, args[0].value), e, args[1..], flags[key := vars[key].fixed]);
    }
  }

  /** FixArgs keeps the flags of variables no argument names. */
  lemma {:induction false} FixArgsFlagFrame(vars: Vars, e: nat, args: seq<VarArg>, flags: map<VarKey, bool>)
    requires DistinctArgs(args)
    requires FixArgs(vars, e, args, flags).Ok?
    ensures var f := FixArgs(vars, e, args, flags).value.1;
      forall k :: k in flags && !IsArgKey(e, args, k) ==> k in f && f[k] == flags[k]
    decreases |args|
  {
    if |args| > 0 {
      FixArgsStep(vars, e, args, flags);
      var key := KeyOf(e, args[0]);
      FixArgsFlagFrame(FixOne(vars, key, args[0].value), e, args[1..], flags[key := vars[key].fixed]);
    }
  }

  /** The flag FixArgs records for an argument is whether its variable was
      already fixed. */
  lemma {:induction false} FixArgsFlagValues(vars: Vars, e: nat, args: seq<VarArg>, flags: map<VarKey, bool>)
    requires DistinctArgs(args)
    requires FixArgs(vars, e, args, flags).Ok?
    ensures var f := FixArgs(vars, e, args, flags).value.1;
      forall i :: 0 <= i < |args| ==> KeyOf(e, args[i]) in f && f[KeyOf(e, args[i])] == vars[KeyOf(e, args[i])].fixed
    decreases |args|
  {
    if |args| > 0 {
      FixArgsStep(vars, e, args, flags);
      var key := KeyOf(e, args[0]);
      var rest := args[1..];
      var updated := FixOne(vars, key, args[0].value);
      var flags1 := flags[key := vars[key].fixed];
      FixArgsFlagValues(updated, e, rest, flags1);
      FixArgsFlagFrame(updated, e, rest, flags1);
      var f := FixArgs(vars, e, args, flags).value.1;
      assert f[key] == flags1[key];
      forall i | 1 <= i < |args| ensures KeyOf(e, args[i]) in f && f[KeyOf(e, args[i])] == vars[KeyOf(e, args[i])].fixed {
        assert KeyOf(e, args[i]) == KeyOf(e, rest[i - 1]);
        FixOneOther(vars, key, args[0].value, KeyOf(e, args[i]));
      }
    }
  }

  /** The flags FixArgs records: True for each argument whose variable was
      already fixed, False for one it fixed; other flags are kept. */
  lemma FixArgsFlags(vars: Vars, e: nat, args: seq<VarArg>, flags: map<VarKey, bool>)
    requires DistinctArgs(args)
    requires FixArgs(vars, e, args, flags).Ok?
    ensures var f := FixArgs(vars, e, args, flags).value.1;
      && (forall k :: k in f <==> k in flags || IsArgKey(e, args, k))
      && (forall i :: 0 <= i < |args| ==> KeyOf(e, args[i]) in f && f[KeyOf(e, args[i])] == vars[KeyOf(e, args[i])].fixed)
      && (forall k :: k in flags && !IsArgKey(e, args, k) ==> f[k] == flags[k])
  {
    FixArgsFlagKeys(vars, e, args, flags);
    FixArgsFlagFrame(vars, e, args, flags);
    FixArgsFlagValues(vars, e, args, flags);
  }

  /** A variable that the loop over `elements` and `var_args` names. */
  ghost predicate Touched(elements: seq<nat>, args: seq<VarArg>, k: VarKey)
  {
    k.elem in elements && IsArgKey(k.elem, args, k)
  }

  /** The outer loop over the block's elements, with the degrees-of-freedom
      check after each element. */
  function FixElements(vars: Vars, elements: seq<nat>, args: seq<VarArg>, flags: map<VarKey, bool>, dof: (Vars, nat) -> int)
    : (r: Result<(Vars, map<VarKey, bool>), CalcError>)
    requires DistinctArgs(args)
    ensures r.Ok? ==> r.value.0.Keys == vars.Keys
    decreases |elements|
  {
    if |elements| == 0 then Ok((vars, flags))
    else
      var e := elements[0];
      match FixArgs(vars, e, args, flags)
      case Err(err) => Err(err)
      case Ok((v1, f1)) =>
        if dof(v1, e) != 0 then Err(DofAfterFix(e))
        else FixElements(v1, elements[1..], args, f1, dof)
  }

  /** After fixing an element's requested values, non-zero degrees of
      freedom for that element stop the loop with a RuntimeError naming it. */
  lemma DofCheckedAfterEachElement(vars: Vars, elements: seq<nat>, args: seq<VarArg>, flags: map<VarKey, bool>, dof: (Vars, nat) -> int)
    requires DistinctArgs(args) && |elements| > 0
    requires FixArgs(vars, elements[0], args, flags).Ok?
    requires dof(FixArgs(vars, elements[0], args, flags).value.0, elements[0]) != 0
    ensures FixElements(vars, elements, args, flags, dof) == Err(DofAfterFix(elements[0]))
  {
  }

  /** How `Touched` splits over the first element and the rest. */
  lemma TouchedSplit(elements: seq<nat>, args: seq<VarArg>, k: VarKey)
    requires |elements| > 0 && DistinctElems(elements)
    ensures Touched(elements, args, k) <==> (k.elem == elements[0] && IsArgKey(elements[0], args, k)) || Touched(elements[1..], args, k)
    ensures k.elem == elements[0] ==> !Touched(elements[1..], args, k)
    ensures k.elem != elements[0] ==> !IsArgKey(elements[0], args, k)
  {
    assert k.elem in elements <==> k.elem == elements[0] || k.elem in elements[1..];
  }

  /** Variables and flags the loop does not name are left as they were. */
  lemma {:induction false} FixElementsFrame(vars: Vars, elements: seq<nat>, args: seq<VarArg>, flags: map<VarKey, bool>, dof: (Vars, nat) -> int)
    requires DistinctArgs(args) && DistinctElems(elements)
    requires FixElements(vars, elements, args, flags, dof).Ok?
    ensures var (v, f) := FixElements(vars, elements, args, flags, dof).value;
      (forall k :: k in vars && !Touched(elements, args, k) ==> v[k] == vars[k])
      && (forall k :: k in f <==> k in flags || Touched(elements, args, k))
      && (forall k :: k in flags && !Touched(elements, args, k) ==> f[k] == flags[k])
    decreases |elements|
  {
    if |elements| > 0 {
      var e := elements[0];
      var (v1, f1) := FixArgs(vars, e, args, flags).value;
      assert DistinctElems(elements[1..]);
      FixArgsFlagKeys(vars, e, args, flags);
      FixArgsFlagFrame(vars, e, args, flags);
      FixElementsFrame(v1, elements[1..], args, f1, dof);
      forall k ensures Touched(elements, args, k) <==> (k.elem == e && IsArgKey(e, args, k)) || Touched(elements[1..], args, k) {
        TouchedSplit(elements, args, k);
      }
    }
  }

  /** Every variable the loop names ends fixed at the requested value. */
  lemma {:induction false} FixElementsSets(vars: Vars, elements: seq<nat>, args: seq<VarArg>, flags: map<VarKey, bool>, dof: (Vars, nat) -> int)
    requires DistinctArgs(args) && DistinctElems(elements)
    requires FixElements(vars, elements, args, flags, dof).Ok?
    ensures var v := FixElements(vars, elements, args, flags, dof).value.0;
      forall j, i :: 0 <= j < |elements| && 0 <= i < |args| ==>
        KeyOf(elements[j], args[i]) in v && v[KeyOf(elements[j], args[i])] == VarState(true, args[i].value)
    decreases |elements|
  {
    if |elements| > 0 {
      var e := elements[0];
      var (v1, f1) := FixArgs(vars, e, args, flags).value;
      var v := FixElements(vars, elements, args, flags, dof).value.0;
      assert DistinctElems(elements[1..]);
      FixElementsSets(v1, elements[1..], args, f1, dof);
      FixElementsFrame(v1, elements[1..], args, f1, dof);
      forall j, i | 0 <= j < |elements| && 0 <= i < |args|
        ensures KeyOf(elements[j], args[i]) in v && v[KeyOf(elements[j], args[i])] == VarState(true, args[i].value)
      {
        if j == 0 {
          TouchedSplit(elements, args, KeyOf(e, args[i]));
        } else {
          assert elements[j] == elements[1..][j - 1];
        }
      }
    }
  }

  /** The flag of every variable the loop names records whether it was fixed before. */
  lemma {:induction false} FixElementsFlags(vars: Vars, elements: seq<nat>, args: seq<VarArg>, flags: map<VarKey, bool>, dof: (Vars, nat) -> int)
    requires DistinctArgs(args) && DistinctElems(elements)
    requires FixElements(vars, elements, args, flags, dof).Ok?
    ensures var (v, f) := FixElements(vars, elements, args, flags, dof).value;
      forall k :: k in vars && Touched(elements, args, k) ==> k in f && f[k] == vars[k].fixed
    decreases |elements|
  {
    if |elements| > 0 {
      var e := elements[0];
      var (v1, f1) := FixArgs(vars, e, args, flags).value;
      var f := FixElements(vars, elements, args, flags, dof).value.1;
      assert DistinctElems(elements[1..]);
      FixArgsFlagValues(vars, e, args, flags);
      FixElementsFlags(v1, elements[1..], args, f1, dof);
      FixElementsFrame(v1, elements[1..], args, f1, dof);
      forall k | k in vars && Touched(elements, args, k) ensures k in f && f[k] == vars[k].fixed {
        TouchedSplit(elements, args, k);
        if k.elem == e && IsArgKey(e, args, k) {
          var i :| 0 <= i < |args| && KeyOf(e, args[i]) == k;
        }
      }
    }
  }

  /** A requested value that disagrees with an already fixed variable is
      always reported. */
  lemma {:induction false} FixElementsConflict(vars: Vars, elements: seq<nat>, args: seq<VarArg>, flags: map<VarKey, bool>, dof: (Vars, nat) -> int, j: nat, i: nat)
    requires DistinctArgs(args) && DistinctElems(elements)
    requires j < |elements| && i < |args| && Conflicts(vars, elements[j], args[i])
    ensures FixElements(vars, elements, args, flags, dof).Err?
    decreases |elements|
  {
    var e := elements[0];
    if FixArgs(vars, e, args, flags).Ok? && j > 0 {
      var (v1, f1) := FixArgs(vars, e, args, flags).value;
      if dof(v1, e) == 0 {
        assert DistinctElems(elements[1..]);
        var key := KeyOf(elements[j], args[i]);
        TouchedSplit(elements, args, key);
        assert elements[j] != e;
        assert v1[key] == vars[key];
        assert elements[1..][j - 1] == elements[j];
        FixElementsConflict(v1, elements[1..], args, f1, dof, j - 1, i);
      }
    }
  }

  /** The result of `calculate_state`: the variables afterwards. */
  datatype CalcOutcome = CalcOutcome(vars: Vars)

  /** `calculate_state(var_args, hold_state)`: initialise at the current
      state, fix the requested values element by element, solve (a non-optimal
      solve only warns), unfix what it fixed itself, and fix every state
      variable when holding the state. */
  function CalculateState(
    vars: Vars, elements: seq<nat>, stateVars: set<VarKey>, args: seq<VarArg>,
    dof: (Vars, nat) -> int, solInit: map<VarKey, real>, solCalc: map<VarKey, real>, holdState: bool
  ): (r: Result<CalcOutcome, CalcError>)
    requires DistinctArgs(args)
    ensures r.Ok? ==> r.value.vars.Keys == vars.Keys
  {
    match Initialize(vars, elements, stateVars, map[], dof, solInit, false, false)
    case Err(e) => Err(InitFailed(e))
    case Ok(init) =>
      match FixElements(init.vars, elements, args, map[], dof)
      case Err(err) => Err(err)
      case Ok((v1, flags)) =>
        var unfixed := RevertStateVars(Solve(v1, solCalc), flags);
        Ok(CalcOutcome(if holdState then FixStateVars(unfixed, stateVars, map[]).0 else unfixed))
  }

  /** After a successful `calculate_state` every requested variable holds
      its requested value; without `hold_state` each variable is fixed
      exactly when it was before, and with it the state variables are fixed
      in addition. */
  lemma CalculateStateEffect(
    vars: Vars, elements: seq<nat>, stateVars: set<VarKey>, args: seq<VarArg>,
    dof: (Vars, nat) -> int, solInit: map<VarKey, real>, solCalc: map<VarKey, real>, holdState: bool)
    requires DistinctArgs(args) && DistinctElems(elements)
    requires CalculateState(vars, elements, stateVars, args, dof, solInit, solCalc, holdState).Ok?
    ensures var out := CalculateState(vars, elements, stateVars, args, dof, solInit, solCalc, holdState).value.vars;
      (forall j, i :: 0 <= j < |elements| && 0 <= i < |args| ==>
         KeyOf(elements[j], args[i]) in out && out[KeyOf(elements[j], args[i])].value == args[i].value)
      && (!holdState ==> forall k :: k in vars ==> out[k].fixed == vars[k].fixed)
      && (holdState ==> forall k :: k in vars ==> out[k].fixed == (vars[k].fixed || k in stateVars))
  {
    var v0 := Initialize(vars, elements, stateVars, map[], dof, solInit, false, false).value.vars;
    var (v1, flags) := FixElements(v0, elements, args, map[], dof).value;
    FixElementsFrame(v0, elements, args, map[], dof);
    FixElementsSets(v0, elements, args, map[], dof);
    FixElementsFlags(v0, elements, args, map[], dof);
    var unfixed := RevertStateVars(Solve(v1, solCalc), flags);
    forall k | k in vars ensures unfixed[k].fixed == vars[k].fixed {
      if Touched(elements, args, k) {
        assert v1[k].fixed;
      } else {
        assert k !in flags;
      }
    }
    forall j, i | 0 <= j < |elements| && 0 <= i < |args|
      ensures unfixed[KeyOf(elements[j], args[i])].value == args[i].value
    {
      assert v1[KeyOf(elements[j], args[i])] == VarState(true, args[i].value);
    }
    HoldStateStep(unfixed, stateVars, holdState);
  }

  /** The last step of `calculate_state`: holding the state fixes the state
      variables at their current values; otherwise nothing changes. */
  lemma HoldStateStep(unfixed: Vars, stateVars: set<VarKey>, holdState: bool)
    ensures var out := if holdState then FixStateVars(unfixed, stateVars, map[]).0 else unfixed;
      && out.Keys == unfixed.Keys
      && (forall k :: k in unfixed ==> out[k].value == unfixed[k].value)
      && (forall k :: k in unfixed ==> out[k].fixed == (unfixed[k].fixed || (holdState && k in stateVars)))
  {
  }

  /** `calculate_state` refuses (ConfigurationError) to move a variable that
      is already fixed at another value. */
  lemma CalculateStateRejectsConflict(
    vars: Vars, elements: seq<nat>, stateVars: set<VarKey>, args: seq<VarArg>,
    dof: (Vars, nat) -> int, solInit: map<VarKey, real>, solCalc: map<VarKey, real>, holdState: bool,
    j: nat, i: nat)
    requires DistinctArgs(args) && DistinctElems(elements)
    requires j < |elements| && i < |args| && Conflicts(vars, elements[j], args[i])
    ensures CalculateState(vars, elements, stateVars, args, dof, solInit, solCalc, holdState).Err?
  {
    var init := Initialize(vars, elements, stateVars, map[], dof, solInit, false, false);
    if init.Ok? {
      assert Conflicts(init.value.vars, elements[j], args[i]);
      FixElementsConflict(init.value.vars, elements, args, map[], dof, j, i);
    }
  }
}
