/** The zero-order flowsheet costing package
    (watertap/core/zero_order_costing.py): the global costing parameters,
    the process-wide roll-up of capital and operating costs, and the
    exponential-flow capital form with its per-technology parameter block.

    The roll-up constraints are linear in the costs once the percentages are
    fixed, so they are modelled by their unique solution together with a
    predicate that states the constraints themselves. */
module ZeroOrderCosting {
  import opened Wrappers
  import opened Sums
  import opened StateVars

  // ---------------------------------------------------------------------------
  // build_global_params
  // ---------------------------------------------------------------------------

  datatype GlobalParam =
    | PlantLifetime
    | LandCostPercentFCI
    | WorkingCapitalPercentFCI
    | SalariesPercentFCI
    | BenefitPercentOfSalary
    | MaintenanceCostsPercentFCI
    | LaboratoryFeesPercentFCI
    | InsuranceAndTaxesPercentFCI

  /** The initial value of each global parameter. */
  function InitialValue(p: GlobalParam): real
  {
    match p
    case PlantLifetime => 30.0
    case LandCostPercentFCI => 0.07
    case WorkingCapitalPercentFCI => 0.008
    case SalariesPercentFCI => 0.07
    case BenefitPercentOfSalary => 0.07
    case MaintenanceCostsPercentFCI => 0.07
    case LaboratoryFeesPercentFCI => 0.07
    case InsuranceAndTaxesPercentFCI => 0.07
  }

  /** The electricity price registered as a defined flow, in USD_2019 per kWh. */
  const ElectricityPrice: real := 0.0595

  /** `defined_flows`: the flows with a known price, and that price. */
  function DefinedFlows(): map<string, real>
  {
    map["electricity" := ElectricityPrice]
  }

  /** `build_global_params`: every parameter is created at its initial value
      and then fixed. */
  function BuildGlobalParams(): (params: map<GlobalParam, VarState>)
    ensures forall p: GlobalParam :: p in params && params[p].fixed && params[p].value == InitialValue(p)
  {
    AllGlobalParamsComplete();
    map p: GlobalParam | p in AllGlobalParams() :: VarState(true, InitialValue(p))
  }

  function AllGlobalParams(): set<GlobalParam>
  {
    {PlantLifetime, LandCostPercentFCI, WorkingCapitalPercentFCI, SalariesPercentFCI,
     BenefitPercentOfSalary, MaintenanceCostsPercentFCI, LaboratoryFeesPercentFCI,
     InsuranceAndTaxesPercentFCI}
  }

  lemma AllGlobalParamsComplete()
    ensures forall p: GlobalParam :: p in AllGlobalParams()
  {
    forall p: GlobalParam ensures p in AllGlobalParams() {
      match p
      case PlantLifetime =>
      case LandCostPercentFCI =>
      case WorkingCapitalPercentFCI =>
      case SalariesPercentFCI =>
      case BenefitPercentOfSalary =>
      case MaintenanceCostsPercentFCI =>
      case LaboratoryFeesPercentFCI =>
      case InsuranceAndTaxesPercentFCI =>
    }
  }

  // ---------------------------------------------------------------------------
  // build_process_costs
  // ---------------------------------------------------------------------------

  /** The percentages the roll-up reads (the values of the global parameters). */
  datatype Percentages = Percentages(land: real, workingCapital: real, salaries: real, benefit: real,
                                     maintenance: real, laboratory: real, insurance: real)

  function PercentagesOf(params: map<GlobalParam, VarState>): Percentages
    requires forall p: GlobalParam :: p in params
  {
    Percentages(params[LandCostPercentFCI].value, params[WorkingCapitalPercentFCI].value,
                params[SalariesPercentFCI].value, params[BenefitPercentOfSalary].value,
                params[MaintenanceCostsPercentFCI].value, params[LaboratoryFeesPercentFCI].value,
                params[InsuranceAndTaxesPercentFCI].value)
  }

  /** The aggregates the roll-up reads: capital, fixed and variable operating
      costs summed over units, and the aggregate cost of each flow type. */
  datatype Aggregates = Aggregates(capital: real, fixedOperating: real, variableOperating: real, flowCosts: seq<real>)

  datatype ProcessCosts = ProcessCosts(
    landCost: real, workingCapital: real, totalCapital: real,
    salary: real, benefits: real, maintenance: real, laboratory: real, insurance: real,
    totalFixedOperating: real, totalVariableOperating: real, totalOperating: real)

  /** The constraints and expressions `build_process_costs` adds. */
  ghost predicate SatisfiesRollUp(c: ProcessCosts, pct: Percentages, agg: Aggregates)
  {
    && c.landCost == agg.capital * pct.land
    && c.workingCapital == agg.capital * pct.workingCapital
    && c.totalCapital == agg.capital + c.landCost + c.workingCapital
    && c.salary == agg.capital * pct.salaries
    && c.benefits == c.salary * pct.benefit
    && c.maintenance == agg.capital * pct.maintenance
    && c.laboratory == agg.capital * pct.laboratory
    && c.insurance == agg.capital * pct.insurance
    && c.totalFixedOperating == agg.fixedOperating + c.salary + c.benefits + c.maintenance + c.laboratory + c.insurance
    && c.totalVariableOperating == agg.variableOperating + SumReal(agg.flowCosts)
    && c.totalOperating == c.totalFixedOperating + c.totalVariableOperating
  }

  /** The values the roll-up constraints determine. */
  function ProcessCostsOf(pct: Percentages, agg: Aggregates): (c: ProcessCosts)
    ensures SatisfiesRollUp(c, pct, agg)
  {
    var land := agg.capital * pct.land;
    var wc := agg.capital * pct.workingCapital;
    var salary := agg.capital * pct.salaries;
    var benefits := salary * pct.benefit;
    var maintenance := agg.capital * pct.maintenance;
    var laboratory := agg.capital * pct.laboratory;
    var insurance := agg.capital * pct.insurance;
    var totalFixed := agg.fixedOperating + salary + benefits + maintenance + laboratory + insurance;
    var totalVariable := agg.variableOperating + SumReal(agg.flowCosts);
    ProcessCosts(land, wc, agg.capital + land + wc, salary, benefits, maintenance, laboratory, insurance,
                 totalFixed, totalVariable, totalFixed + totalVariable)
  }

  /** The constraints have exactly one solution. */
  lemma RollUpUnique(c: ProcessCosts, pct: Percentages, agg: Aggregates)
    ensures SatisfiesRollUp(c, pct, agg) <==> c == ProcessCostsOf(pct, agg)
  {
  }

  /** Closed forms: total capital is the aggregate scaled by (1 + land% +
      working-capital%), and the fixed operating cost adds the aggregate
      capital times (salary%·(1 + benefit%) + maintenance% + laboratory% +
      insurance%). */
  lemma {:induction false} RollUpClosedForm(pct: Percentages, agg: Aggregates)
    ensures var c := ProcessCostsOf(pct, agg);
      c.totalCapital == agg.capital * (1.0 + pct.land + pct.workingCapital)
      && c.totalFixedOperating == agg.fixedOperating
           + agg.capital * (pct.salaries * (1.0 + pct.benefit) + pct.maintenance + pct.laboratory + pct.insurance)
      && c.totalOperating == c.totalFixedOperating + agg.variableOperating + SumReal(agg.flowCosts)
  {
    var k := agg.capital;
    assert k * (1.0 + pct.land + pct.workingCapital) == k + k * pct.land + k * pct.workingCapital;
    assert k * pct.salaries * pct.benefit == k * (pct.salaries * pct.benefit);
    assert k * (pct.salaries * (1.0 + pct.benefit) + pct.maintenance + pct.laboratory + pct.insurance)
        == k * pct.salaries + k * (pct.salaries * pct.benefit) + k * pct.maintenance + k * pct.laboratory + k * pct.insurance;
  }

  /** With the global parameters as built, total capital is 1.078 times the
      aggregate capital cost. */
  lemma DefaultCapitalFactor(agg: Aggregates)
    ensures ProcessCostsOf(PercentagesOf(BuildGlobalParams()), agg).totalCapital == agg.capital * 1.078
  {
    RollUpClosedForm(PercentagesOf(BuildGlobalParams()), agg);
  }

  /** Non-negative percentages and aggregate capital give non-negative
      derived costs, and totals no smaller than the aggregates they start
      from; with non-negative operating aggregates every cost is
      non-negative. */
  lemma RollUpBounds(pct: Percentages, agg: Aggregates)
    requires agg.capital >= 0.0
    requires pct.land >= 0.0 && pct.workingCapital >= 0.0 && pct.salaries >= 0.0 && pct.benefit >= 0.0
    requires pct.maintenance >= 0.0 && pct.laboratory >= 0.0 && pct.insurance >= 0.0
    requires forall i :: 0 <= i < |agg.flowCosts| ==> agg.flowCosts[i] >= 0.0
    ensures var c := ProcessCostsOf(pct, agg);
      && c.landCost >= 0.0 && c.workingCapital >= 0.0 && c.totalCapital >= 0.0
      && c.salary >= 0.0 && c.benefits >= 0.0 && c.maintenance >= 0.0
      && c.laboratory >= 0.0 && c.insurance >= 0.0
      && c.totalCapital >= agg.capital && c.totalFixedOperating >= agg.fixedOperating
      && c.totalVariableOperating >= agg.variableOperating
      && c.totalOperating >= agg.fixedOperating + agg.variableOperating
    ensures agg.fixedOperating >= 0.0 && agg.variableOperating >= 0.0 ==>
      var c := ProcessCostsOf(pct, agg);
      c.totalFixedOperating >= 0.0 && c.totalVariableOperating >= 0.0 && c.totalOperating >= 0.0
  {
    var k := agg.capital;
    assert k * pct.land >= 0.0 && k * pct.workingCapital >= 0.0 && k * pct.salaries >= 0.0;
    assert k * pct.salaries * pct.benefit >= 0.0;
    assert k * pct.maintenance >= 0.0 && k * pct.laboratory >= 0.0 && k * pct.insurance >= 0.0;
    SumRealNonNegative(agg.flowCosts);
  }

  // ---------------------------------------------------------------------------
  // exponential_flow_form and _add_tech_parameter_block
  // ---------------------------------------------------------------------------

  /** The sizing basis named in the technology's parameter data. */
  datatype Basis = FlowVolBasis | FlowMassBasis | OtherBasis(name: string)

  predicate IsFlowBasis(b: Basis)
  {
    b.FlowVolBasis? || b.FlowMassBasis?
  }

  /** The `capital_cost` entry of a technology's parameter data. */
  datatype CapitalData = CapitalData(basis: Basis, a: real, b: real, referenceState: Option<real>)

  /** A technology's parameter block: A and B fixed, and the reference state
      when it was created for a flow basis. */
  datatype TechBlock = TechBlock(a: real, b: real, referenceState: Option<real>)

  datatype CostingError =
    | MissingReferenceData         // KeyError: a flow basis without reference_state in the data
    | MissingReferenceState        // AttributeError: the block has no reference_state
    | UnrecognizedBasis(name: string)

  /** `_add_tech_parameter_block`: the block is attached to the costing
      package first, then A and B are added, then the reference state for a
      flow basis. A flow basis without reference data raises KeyError at that
      last step, and the block stays attached without a reference state.
      The result is the attached block and the error raised, if any. */
  function AddTechParameterBlock(data: CapitalData): (r: (TechBlock, Option<CostingError>))
    ensures r.1.Some? <==> IsFlowBasis(data.basis) && data.referenceState.None?
    ensures r.1.Some? ==> r.1.value == MissingReferenceData
    ensures r.0.a == data.a && r.0.b == data.b
    ensures r.0.referenceState.Some? <==> IsFlowBasis(data.basis) && data.referenceState.Some?
    ensures r.0.referenceState.Some? ==> r.0.referenceState == data.referenceState
  {
    var block := TechBlock(data.a, data.b, None);
    if IsFlowBasis(data.basis) then
      if data.referenceState.None? then (block, Some(MissingReferenceData))
      else (block.(referenceState := data.referenceState), None)
    else (block, None)
  }

  /** The state a unit presents at the first time point: its volumetric flow
      and its component mass flows. */
  datatype InletState = InletState(flowVol: real, flowMassComp: seq<real>)

  /** `capital_cost == A * (state / state_ref) ** B`, kept symbolic. */
  datatype CapitalCost = CapitalCost(a: real, b: real, state: real, stateRef: real)

  datatype FormOutcome = FormOutcome(
    techBlocks: map<string, TechBlock>, capital: Result<CapitalCost, CostingError>, registeredFlows: seq<string>)

  /** `exponential_flow_form` for a unit of technology `tech`. The parameter
      block is looked up in the costing package and created when absent; a
      created block stays even when its creation or the basis then raises.
      Electricity is registered as a costed flow when the unit has it. */
  function ExponentialFlowForm(techBlocks: map<string, TechBlock>, tech: string, data: CapitalData,
                               inlet: InletState, hasElectricity: bool): (r: FormOutcome)
    ensures tech in techBlocks ==> r.techBlocks == techBlocks
    ensures tech !in techBlocks ==> r.techBlocks == techBlocks[tech := AddTechParameterBlock(data).0]
    ensures tech !in techBlocks && AddTechParameterBlock(data).1.Some? ==> r.capital == Err(MissingReferenceData)
    ensures tech in r.techBlocks
    ensures r.capital.Ok? <==> IsFlowBasis(data.basis) && r.techBlocks[tech].referenceState.Some?
    ensures r.capital.Ok? ==> r.capital.value.a == r.techBlocks[tech].a && r.capital.value.b == r.techBlocks[tech].b
    ensures r.capital.Ok? ==> r.capital.value.stateRef == r.techBlocks[tech].referenceState.value
    ensures r.capital.Ok? && data.basis.FlowVolBasis? ==> r.capital.value.state == inlet.flowVol
    ensures r.capital.Ok? && data.basis.FlowMassBasis? ==> r.capital.value.state == SumReal(inlet.flowMassComp)
    ensures data.basis.OtherBasis? ==> r.capital == Err(UnrecognizedBasis(data.basis.name))
    ensures r.registeredFlows == (if r.capital.Ok? && hasElectricity then ["electricity"] else [])
    ensures forall f :: f in r.registeredFlows ==> f in DefinedFlows()
  {
    var (pblock, raised) := if tech in techBlocks then (techBlocks[tech], None) else AddTechParameterBlock(data);
    var blocks := techBlocks[tech := pblock];
    if raised.Some? then FormOutcome(blocks, Err(raised.value), [])
    else
      var capital :=
        match data.basis
        case FlowVolBasis =>
          if pblock.referenceState.None? then Err(MissingReferenceState)
          else Ok(CapitalCost(pblock.a, pblock.b, inlet.flowVol, pblock.referenceState.value))
        case FlowMassBasis =>
          if pblock.referenceState.None? then Err(MissingReferenceState)
          else Ok(CapitalCost(pblock.a, pblock.b, SumReal(inlet.flowMassComp), pblock.referenceState.value))
        case OtherBasis(name) => Err(UnrecognizedBasis(name));
      FormOutcome(blocks, capital, if capital.Ok? && hasElectricity then ["electricity"] else [])
  }

  /** Costing a second unit of the same technology reuses the block the
      first one created and gives the same capital form for the same inlet,
      unless the first one raised while creating the block. */
  lemma ExponentialFlowFormReusesBlock(techBlocks: map<string, TechBlock>, tech: string, data: CapitalData,
                                       inlet: InletState, hasElectricity: bool)
    ensures var first := ExponentialFlowForm(techBlocks, tech, data, inlet, hasElectricity);
      var second := ExponentialFlowForm(first.techBlocks, tech, data, inlet, hasElectricity);
      first.capital != Err(MissingReferenceData) ==> second == first
  {
  }

  /** When the first unit of a technology with a flow basis lacks reference
      data, it raises KeyError but leaves the half-built block behind; a
      second unit of that technology then finds the block and fails on its
      missing reference state (AttributeError) instead. */
  lemma HalfBuiltBlockStays(techBlocks: map<string, TechBlock>, tech: string, data: CapitalData,
                            inlet: InletState, hasElectricity: bool)
    requires tech !in techBlocks && IsFlowBasis(data.basis) && data.referenceState.None?
    ensures var first := ExponentialFlowForm(techBlocks, tech, data, inlet, hasElectricity);
      && first.capital == Err(MissingReferenceData)
      && first.techBlocks[tech] == TechBlock(data.a, data.b, None)
      && ExponentialFlowForm(first.techBlocks, tech, data, inlet, hasElectricity).capital == Err(MissingReferenceState)
  {
  }
}
