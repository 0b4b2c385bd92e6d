# WaterTAP solver-free logic, modelled in Dafny

WaterTAP builds Pyomo/IDAES models of water-treatment flowsheets and hands
them to a nonlinear solver. Around those equation systems sits sequential
logic that needs no solver. This project models that logic as pure Dafny
functions over abstract inputs and proves what it promises:

- **Recursive parameter sweep** (`watertap/tools/recursive_parameter_sweep.py`):
  - the round loop that resamples until enough solves succeed, or ten rounds have run;
  - the sizing of the next round from the success rate;
  - the compaction of every round's successful rows into one table;
  - the truncated input array;
  - the per-row evaluate / reinitialise / retry rule of the deprecated sweep.
- **Parallel-manager selection** (`parallel_manager_factory.py`): an explicit class, then MPI, then fan-out, then a single process.
- **Reverse osmosis** (`_reverse_osmosis_base.py`, `reverse_osmosis_1D.py`, `osmotically_assisted_reverse_osmosis_0D.py`):
  - configuration checks;
  - which performance variables exist for a configuration;
  - initial-guess state arguments;
  - flux bounds;
  - first-point skips and the permeate sum;
  - OARO geometry and transfer equalities;
  - set-if-unset scaling.
- **Boron removal** (`boron_removal.py`):
  - validation of `chemical_mapping_data`;
  - ion charges;
  - the alkalinity sum and electroneutrality;
  - the mass-transfer dispatch.
- **DSPM-DE property package** (`ion_DSPMDE_prop_pack.py`):
  - parameter defaults;
  - activity coefficients;
  - state variables;
  - the electroneutrality check;
  - the fix/unfix bookkeeping of `initialize` and `calculate_state`.
- **Zero-order property package and costing** (`zero_order_properties.py`, `zero_order_costing.py`):
  - the solute list;
  - mass flows and density terms;
  - initialize/release;
  - the scaling-factor fallback chain;
  - the costing roll-ups;
  - the capital basis dispatch.
- **ADM1 property package** (`adm1_properties.py`):
  - material, density, enthalpy and energy terms;
  - initialize/release;
  - the six state variables;
  - the scaling-factor products.
- **Dewatering unit** (`dewatering.py`):
  - suspended solids, `f_dewat` and `f_q_du`;
  - the split fractions and component sets;
  - the outlet check;
  - the performance contents.
- **Modified ASM2d reactions** (`modified_asm2d_reactions.py`): the zero-extension of the stoichiometry map.
- **Flowsheet UI API** (`watertap/ui/fsapi.py`):
  - `add`;
  - action registration and lookup;
  - the rule that `build` precedes every other action;
  - the refusal of underscore actions;
  - `build`/`solve` error swallowing;
  - `load` and `MissingObjectError`.

## How it is modelled

- Shared modules:
  - `Wrappers` holds `Option` and `Result`.
  - `Sums` holds `Count`, `Sum` and `SumReal` over sequences.
  - `Scaling` holds the set-if-unset helpers for scaling-factor maps.
  - `StateVars` holds the fix/revert of state variables.
- Every other module follows one source file.
- Reals are exact (Dafny `real`). Python exceptions become `Err` values, and a division that would raise becomes `None`.
- Pyomo constraints are modelled as the value relation they impose.
- Solver results, MPI collectives, the sampling functions and user callbacks are oracles passed as parameters:
  - MPI `allgather` is a sequence of per-rank values that is summed.
  - `Bcast` makes every rank hold rank 0's array.

The IDAES helpers `fix_state_vars` and `revert_state_vars` are not part of this model. `StateVars` gives them the behaviour their use in the package implies:

- fixing a state variable records whether it was already fixed;
- an already-fixed variable keeps its value;
- reverting unfixes exactly the variables recorded as previously free.

In the same way, `iscale.get_scaling_factor` is modelled as a map lookup with a default, and `set_scaling_factor` as a map update.

### Behaviour of the code worth knowing

- Success rate, at `recursive_parameter_sweep.py:240-242`: the rate divides by `failures + successes` with no guard. A round in which no rank had any case raises `ZeroDivisionError`, so `SweepRounds.RunRounds` returns `ZeroDivision` there.
- Input aggregation, at `recursive_parameter_sweep.py:135`: the array is filled by numpy slice assignment. A parameter with fewer than `req_num_samples` filtered values (other than exactly one, which numpy broadcasts) raises. It does not deliver fewer rows.
- Row retry, at `recursive_parameter_sweep.py:484-494`: the retry of the deprecated sweep does not assert optimal termination. A retry that returns without raising fills the row.
- Permeate production, at `reverse_osmosis_1D.py:473-476`: the sum runs over every length point other than `x = 0`.
- ASM2d merge, at `modified_asm2d_reactions.py:87-91`: `{**old, **additional}` overwrites. An existing entry for an extended key `(Rk, "Liq", j)` becomes 0, and only the other entries are preserved.
- `fsapi` state: a failed action keeps the changes made before the failure. `build` stores the built object before it checks for a registered export action; an export function that raises keeps the exports it added; an action that raises keeps the model values it changed; and `load` writes the known keys before it raises for the unknown ones.

## Model

| member | source | states |
|---|---|---|
| Sums.CountBounds | watertap/tools/recursive_parameter_sweep.py:231 | the number of true flags is at most the length; it equals the length iff every flag is true, and is zero iff none is |
| Sums.CountAppend | watertap/tools/recursive_parameter_sweep.py:80-84 | counting successes over two concatenated flag lists adds the two counts |
| Sums.SumAppend | watertap/tools/recursive_parameter_sweep.py:238-239 | the sum over concatenated per-rank lists is the sum of the two sums |
| Sums.SumRealAppend | proteuslib/unit_models/reverse_osmosis_1D.py:473-476 | a real sum over concatenated lists is the sum of the parts |
| Sums.SumNonNegative | watertap/tools/recursive_parameter_sweep.py:238 | a sum of non-negative counts is non-negative |
| Sums.SumRealNonNegative | watertap/core/zero_order_costing.py:169-177 | a sum of non-negative costs is non-negative |
| Scaling.SetIfUnset | watertap/unit_models/osmotically_assisted_reverse_osmosis_0D.py:186-190 | an existing factor is never overwritten; an unset key gets the value; all other keys are kept |
| Scaling.GetAfterSetIfUnset | watertap/unit_models/osmotically_assisted_reverse_osmosis_0D.py:186-190 | after setting a key when unset, reading it back gives its old factor if it had one and the set value otherwise; every other key reads as before |
| Scaling.SetAllIfUnset | watertap/core/zero_order_properties.py:315-337 | over a list of keys, exactly the unset ones get their value; existing factors are kept |
| Scaling.SetIfUnsetIdempotent | watertap/unit_models/osmotically_assisted_reverse_osmosis_0D.py:186-190 | setting a key a second time, with any value, changes nothing |
| StateVars.FixStateVars | watertap/core/zero_order_properties.py:212-214 | every state variable ends fixed; a variable that was free takes its state argument; already-fixed and non-state variables keep their state; the flags record the previous fixedness of exactly the state variables |
| StateVars.RevertStateVars | watertap/core/zero_order_properties.py:234-235 | values are kept; exactly the variables flagged as previously free are unfixed |
| StateVars.RevertUndoesFix | watertap/core/zero_order_properties.py:212-235 | reverting with the flags of a fix restores every variable's fixedness |
| SweepRounds.GlobalSuccessNonNegative | watertap/tools/recursive_parameter_sweep.py:238 | the global success count is never negative |
| SweepRounds.GlobalSuccessCountsAllFlags | watertap/tools/recursive_parameter_sweep.py:231-239 | the allgathered sum of per-rank success counts equals the number of true flags over all ranks together |
| SweepRounds.SuccessesPlusFailures | watertap/tools/recursive_parameter_sweep.py:231-242 | global successes plus global failures equal the total number of cases, the denominator of the success rate |
| SweepRounds.Ceil | watertap/tools/recursive_parameter_sweep.py:254-258 | the result is the least integer not below its argument |
| SweepRounds.NextRequest | watertap/tools/recursive_parameter_sweep.py:252-258 | the next request is ceil(2*remaining/rate) for a positive rate and ceil(2*remaining) otherwise |
| SweepRounds.ValidPrefixSnoc | watertap/tools/recursive_parameter_sweep.py:205-259 | a valid run extended by the round the loop runs next is still a valid run |
| SweepRounds.RunRounds | watertap/tools/recursive_parameter_sweep.py:200-259 | the loop stops when no successes are missing or ten rounds have run, and each round obeys the round rule; a round with zero global cases aborts with ZeroDivision |
| SweepRounds.ValidPrefixClosed | watertap/tools/recursive_parameter_sweep.py:205-259 | every prefix of a valid run is a valid run |
| SweepRounds.RemainingIsRequestedMinusSuccesses | watertap/tools/recursive_parameter_sweep.py:200-249 | after any number of rounds the missing count is the requested count minus the sum of all global successes |
| SweepRounds.RemainingNonIncreasing | watertap/tools/recursive_parameter_sweep.py:249 | the missing count never increases from one round to the next, and never exceeds the requested count |
| SweepRounds.RemainingStep | watertap/tools/recursive_parameter_sweep.py:249 | round i leaves no more successes missing than there were before it, and never more than were requested |
| SweepRounds.SuccessesSumNonNegative | watertap/tools/recursive_parameter_sweep.py:238 | the successes of all rounds sum to a non-negative count |
| SweepRounds.RoundCountBounds | watertap/tools/recursive_parameter_sweep.py:205-259 | a request of zero or fewer samples runs no round; a positive one runs between one and ten rounds |
| SweepFilter.OptimalIndices | watertap/tools/recursive_parameter_sweep.py:97-101 | the compressed index list holds one index per true flag, each in range |
| SweepFilter.OptimalIndicesExact | watertap/tools/recursive_parameter_sweep.py:97-102 | the indices are exactly those of the true flags, strictly increasing, and as many as the true flags |
| SweepFilter.SelectOptimalIsKeepFlagged | watertap/tools/recursive_parameter_sweep.py:97-110 | indexing a column by the compressed indices keeps exactly its flagged entries, in order |
| SweepFilter.RoundKept | watertap/tools/recursive_parameter_sweep.py:105-110 | a round contributes as many rows as it has true flags |
| SweepFilter.Kept | watertap/tools/recursive_parameter_sweep.py:94-117 | a filtered column holds as many rows as there are true flags over all rounds |
| SweepFilter.TotalSuccessAppend | watertap/tools/recursive_parameter_sweep.py:80-84 | the success total of rounds plus one more round adds that round's count |
| SweepFilter.KeptSnoc | watertap/tools/recursive_parameter_sweep.py:94-117 | the kept rows of a longer prefix extend those of the shorter one by the next round's kept rows |
| SweepFilter.WriteRound | watertap/tools/recursive_parameter_sweep.py:103-110 | slice assignment writes the round's kept rows to [offset, offset+n) of every column and leaves the other rows as they were |
| SweepFilter.WriteRoundExtends | watertap/tools/recursive_parameter_sweep.py:105-117 | after writing round k the table's first rows are the kept rows of rounds 0..k |
| SweepFilter.CountSuccesses | watertap/tools/recursive_parameter_sweep.py:80-84 | the filter counter is the total number of true success flags over all rounds |
| SweepFilter.SelectedFlags | watertap/tools/recursive_parameter_sweep.py:111-116 | the success flags kept for a round are as many as its true flags, and all true |
| SweepFilter.FilterRecursiveSolves | watertap/tools/recursive_parameter_sweep.py:70-119 | the filtered table has one row per true flag; each column holds exactly the successful rows, round by round, in their original order; every kept status is true |
| SweepFilter.TotalSuccessPrefixBound | watertap/tools/recursive_parameter_sweep.py:103-117 | a round's offset plus its success count never exceeds the total |
| SweepFilter.RoundOccupiesItsSlice | watertap/tools/recursive_parameter_sweep.py:103-117 | round k occupies rows [offset, offset+n_k) of the filtered table, and those rows are exactly its flagged entries |
| SweepFilter.RootArray | watertap/tools/recursive_parameter_sweep.py:129-135 | on rank 0, column i is the first req values of parameter i, with a one-value parameter broadcast; a shorter parameter raises |
| SweepFilter.FirstUnassignable | watertap/tools/recursive_parameter_sweep.py:134-135 | the first parameter whose values cannot fill the column, or none |
| SweepFilter.AggregateFilteredInputArr | watertap/tools/recursive_parameter_sweep.py:125-140 | a negative request raises on every rank; rank 0 gets its filled array or its ValueError; with more than one process every other rank gets rank 0's array when rank 0 succeeds and otherwise waits in Bcast forever, and never raises a shape mismatch itself; in a single-process run any other rank keeps the zero array |
| SweepFilter.AggregateRankIndependent | watertap/tools/recursive_parameter_sweep.py:137-138 | with more than one process, every rank that returns holds the same array: all ranks agree when rank 0 succeeds, and ranks other than 0 always agree |
| SweepFilter.AggregateTakesPrefix | watertap/tools/recursive_parameter_sweep.py:129-135 | when every parameter has at least req values, the array has req rows and column i is the first req values of parameter i |
| SweepRow.EvaluateRow | watertap/tools/recursive_parameter_sweep.py:449-494 | a forced reinitialisation that raises (or is missing) escapes; a first attempt that raises gives NaN outputs and counts as a failure; with a reinitialise function it is called once and the solve retried once, and the outputs are filled iff the retry does not raise; the calls are counted |
| SweepRow.SweepRows | watertap/tools/recursive_parameter_sweep.py:443-494 | every row is evaluated in turn; the failure counter is the number of rows whose first attempt failed; the loop ends in an exception iff some row's forced reinitialisation raises |
| SweepRow.NaNRowsAreFailures | watertap/tools/recursive_parameter_sweep.py:470-494 | a NaN row implies a failed first attempt, so NaN rows never outnumber the failure counter |
| ParallelManager.CreateParallelManager | watertap/tools/parallel/parallel_manager_factory.py:13-45 | an explicit class wins; otherwise MPI iff mpi4py is available and the world has more than one process; otherwise concurrent futures iff more than one subprocess; otherwise the single-process manager |
| ParallelManager.ExplicitIgnoresEnvironment | watertap/tools/parallel/parallel_manager_factory.py:21-22 | an explicit class is returned whatever the environment and subprocess count |
| ParallelManager.MpiPrecedesFanOut | watertap/tools/parallel/parallel_manager_factory.py:24-28 | under an MPI peer group the subprocess count does not change the choice |
| RoBase.CheckConfig | watertap/unit_models/_reverse_osmosis_base.py:207-248 | more than one solvent, a phase list other than ["Liq"], any pressure-change type other than fixed_per_stage without has_pressure_change, and a calculated polarisation that disagrees with the mass-transfer setting are each rejected; all else is accepted unchanged |
| RoBase.PerformanceComponents | watertap/unit_models/_reverse_osmosis_base.py:252-400 | the channel geometry exists iff the mass-transfer coefficient or pressure change is calculated; Kf iff polarisation is calculated; N_Sc/N_Sh iff the mass-transfer coefficient is calculated; velocity/friction iff pressure change is calculated |
| RoBase.AcceptedConfigVariables | watertap/unit_models/_reverse_osmosis_base.py:229-400 | in an accepted configuration Kf exists iff a mass-transfer coefficient is used, and velocity only with has_pressure_change |
| RoBase.FluxSpec | watertap/unit_models/_reverse_osmosis_base.py:312-318 | solvent flux starts at 5e-4 within [1e-4, 3e-2]; solute flux starts at 1e-6 within [1e-8, 1e-3] |
| RoBase.RecoverySpec | watertap/unit_models/_reverse_osmosis_base.py:295-300 | recovery starts inside its bounds, which stay below 1 |
| RoBase.FillGuessDefaults | watertap/unit_models/_reverse_osmosis_base.py:447-456 | the four defaults are filled only for missing keys; given keys keep their values |
| RoBase.FillGuessDefaultsIdempotent | watertap/unit_models/_reverse_osmosis_base.py:447-456 | filling defaults twice equals filling once |
| RoBase.GetStateArgs | watertap/unit_models/_reverse_osmosis_base.py:426-502 | missing flow_mass_phase_comp raises; feed_side is the input unchanged; retentate and permeate flows are feed times (1-recovery) and feed times recovery; retentate pressure is the feed pressure plus deltaP |
| RoBase.RetentateAt | watertap/unit_models/_reverse_osmosis_base.py:478-489 | a component's retentate flow is its feed flow times one minus its recovery, solvent or solute as the component is |
| RoBase.PermeateAt | watertap/unit_models/_reverse_osmosis_base.py:478-489 | a component's permeate flow is its feed flow times its recovery, solvent or solute as the component is |
| RoBase.FlowSplitsFeed | watertap/unit_models/_reverse_osmosis_base.py:478-489 | retentate plus permeate flow of each component equals the feed flow |
| RoBase.InterfaceScaling | watertap/unit_models/_reverse_osmosis_base.py:490-495 | interface solute flows are the feed (in) or retentate (out) flows times cp_modulus; solvent flows are not scaled |
| RoBase.RescalePermeateVariable | watertap/unit_models/_reverse_osmosis_base.py:505-509 | a variable not yet rescaled has its factor multiplied once and is recorded; a recorded one is left as it is |
| RoBase.RescaleIdempotent | watertap/unit_models/_reverse_osmosis_base.py:505-509 | rescaling the same variable again, with any factor, changes nothing |
| RoBase.DefaultRescale | watertap/unit_models/_reverse_osmosis_base.py:505-509 | without an explicit factor, an unrescaled permeate variable's factor is multiplied by 100 and every other factor is kept |
| RoBase.RescaleAllAtMostOnce | watertap/unit_models/_reverse_osmosis_base.py:505-509 | over any list of variables, each factor is multiplied at most once |
| RoBase.RescaleStepFactor | watertap/unit_models/_reverse_osmosis_base.py:505-509 | one rescaling step followed by the rest multiplies each variable not yet rescaled exactly once |
| Ro1D.Classify | proteuslib/unit_models/reverse_osmosis_1D.py:189-198 | components are split into solvents and solutes; a component that is neither is rejected |
| Ro1D.ProcessConfig | proteuslib/unit_models/reverse_osmosis_1D.py:187-223 | the configuration is accepted iff every component answers is_solvent/is_solute and at most one distinct name is a solvent; the first untyped component is reported; the method defaults to dae.finite_difference and the scheme to BACKWARD only when left as useDefault |
| Ro1D.TwoSolventsRejected | proteuslib/unit_models/reverse_osmosis_1D.py:199-203 | two distinct solvents make the configuration fail |
| Ro1D.FluxSpec1D | proteuslib/unit_models/reverse_osmosis_1D.py:350-363 | solvents get [1e-4, 3e-2] starting at 5e-4 and solutes [1e-8, 1e-3] starting at 1e-6; for any other component the bounds are never assigned and reading them raises (UnboundBounds) |
| Ro1D.ConstraintIndices | proteuslib/unit_models/reverse_osmosis_1D.py:421-425 | constraints are built at every length point but the first |
| Ro1D.PermeateProductionClosedForm | proteuslib/unit_models/reverse_osmosis_1D.py:473-476 | when the side flows are connected to the transfer terms, permeate production is -(L/nfe) times the transfer summed over x != 0 |
| Ro1D.ProductionPrefix | proteuslib/unit_models/reverse_osmosis_1D.py:473-490 | on every prefix of the length domain, permeate production equals the connection constraints' transfer terms summed over the prefix's points after the first |
| Ro1D.TransferSumFactor | proteuslib/unit_models/reverse_osmosis_1D.py:483-490 | the transfer terms -x*L/nfe summed over a list are -(L/nfe) times the list's sum |
| Oaro.AddMembraneChannelAndGeometry | watertap/unit_models/osmotically_assisted_reverse_osmosis_0D.py:60-92 | a non-string side raises; geometry is added iff the pressure change is not fixed_per_stage or the mass-transfer coefficient is calculated; length and width are created only when neither exists |
| Oaro.SecondChannelSharesGeometry | watertap/unit_models/osmotically_assisted_reverse_osmosis_0D.py:79-92 | after the first channel creates length and width, the second channel reuses them |
| Oaro.PermeateTransfers | watertap/unit_models/osmotically_assisted_reverse_osmosis_0D.py:105-152 | the permeate mass and enthalpy transfers satisfy the equality constraints with the feed transfers |
| Oaro.TransferConservation | watertap/unit_models/osmotically_assisted_reverse_osmosis_0D.py:105-152 | feed and permeate transfers cancel, and any transfers meeting the constraints are the ones PermeateTransfers builds |
| Oaro.PermeateProduction | watertap/unit_models/osmotically_assisted_reverse_osmosis_0D.py:161-165 | each permeate flow is the area times the average flux |
| Oaro.PermeateProductionTotal | watertap/unit_models/osmotically_assisted_reverse_osmosis_0D.py:161-165 | summed over any list of (phase, component) keys, the permeate flows equal the area times the summed average flux |
| Oaro.SetIfUnsetFrom | watertap/unit_models/osmotically_assisted_reverse_osmosis_0D.py:186-190 | the factor is copied only when the key is unset and the source has one |
| Oaro.ScaleMassTransfer | watertap/unit_models/osmotically_assisted_reverse_osmosis_0D.py:194-202 | each unset mass-transfer factor takes the flow factor of its index; existing factors are kept |
| Oaro.CalculateScalingFactors | watertap/unit_models/osmotically_assisted_reverse_osmosis_0D.py:185-210 | existing factors are kept; dens_solvent copies the feed's factor; length and width get 1 only when they exist and are unset; every index with a flow factor gets both mass-transfer factors; any new factor is dens_solvent, length, width, or a mass-transfer factor equal to the flow factor of its index |
| BoronRemoval.Contains | watertap/unit_models/boron_removal.py:250-257 | `in` on a dict is key membership; on None or a number it raises TypeError |
| BoronRemoval.Lookup | watertap/unit_models/boron_removal.py:256-262 | indexing a dict by a present key yields its entry; a non-dict raises |
| BoronRemoval.CheckName | watertap/unit_models/boron_removal.py:290-301 | a required name is accepted iff it is a string among the components |
| BoronRemoval.CheckOptionalName | watertap/unit_models/boron_removal.py:302-322 | an absent optional name is None; a present one is accepted iff it is a component name |
| BoronRemoval.ValidateMapping | watertap/unit_models/boron_removal.py:246-330 | a non-dict or empty mapping, missing required keys, a non-tuple mw_additive, unknown names, and inherent reactions are each rejected; the result is accepted iff all checks pass |
| BoronRemoval.AcceptedNamesAreComponents | watertap/unit_models/boron_removal.py:290-322 | every name in an accepted mapping is a component of the property package |
| BoronRemoval.IonCharge | watertap/unit_models/boron_removal.py:339-352 | the loop over the component list, started from 1 for every anion and cation, ends with each ion holding its component's charge when it is in the list and 1 otherwise, and with no other key |
| BoronRemoval.AssignCharges | watertap/unit_models/boron_removal.py:348-352 | after the loop over a component list, each ion in the list holds its charge, every other ion keeps its initial value, and the keys stay the ions |
| BoronRemoval.Counted | watertap/unit_models/boron_removal.py:512-519 | the ions counted in the alkalinity are those other than the boron, borate, proton and hydroxide species |
| BoronRemoval.NegChargeSumAppend | watertap/unit_models/boron_removal.py:512-519 | the -charge*conc sum over concatenated ion lists adds the parts |
| BoronRemoval.AlkalinityOverCounted | watertap/unit_models/boron_removal.py:512-519 | alkalinity equals the -charge*conc sum over the counted ions |
| BoronRemoval.AlkalinityIgnoresExcluded | watertap/unit_models/boron_removal.py:512-519 | changing only the excluded species leaves the alkalinity unchanged |
| BoronRemoval.BaseConcentration | watertap/unit_models/boron_removal.py:529 | the base concentration times the molar mass is charge times dose; no value when the molar mass is zero |
| BoronRemoval.ElectroneutralH | watertap/unit_models/boron_removal.py:511-532 | the proton concentration plus the base concentration balances hydroxide, borate and alkalinity |
| BoronRemoval.RoleOf | watertap/unit_models/boron_removal.py:573-627 | a species is unmapped iff it has none of the mapped roles; boron takes precedence over borate |
| BoronRemoval.MassTransferTerm | watertap/unit_models/boron_removal.py:573-627 | unmapped species get zero; mapped species get the in/out difference; the cation gets flow times charge times dose over the molar mass |
| Dspmde.InitParamData | watertap/property_models/ion_DSPMDE_prop_pack.py:104-113 | non-empty configured data is used per index; otherwise the given default, or 1 when none is given |
| Dspmde.BuildFallbacks | watertap/property_models/ion_DSPMDE_prop_pack.py:137-175 | with no configured data, molecular weight and charge fall back to 1, Stokes radius and diffusivity to 1e-9, density to 1e3 |
| Dspmde.ActCoeff | watertap/property_models/ion_DSPMDE_prop_pack.py:606-614 | the ideal model gives 1; every other model raises NotImplementedError naming it |
| Dspmde.DefineStateVars | watertap/property_models/ion_DSPMDE_prop_pack.py:664-668 | the state variables are exactly flow_mol_phase_comp, temperature and pressure |
| Dspmde.Abs | watertap/property_models/ion_DSPMDE_prop_pack.py:675 | the absolute value is non-negative, at least both x and -x, and equal to one of them |
| Dspmde.AssertElectroneutrality | watertap/property_models/ion_DSPMDE_prop_pack.py:670-680 | the check passes iff the absolute charge balance is within tol, 1e-6 by default; a failure reports the balance |
| Dspmde.ElectroneutralityMonotone | watertap/property_models/ion_DSPMDE_prop_pack.py:670-680 | a balance that passes with some tolerance passes with any larger one |
| Dspmde.ChargeBalanceAppend | watertap/property_models/ion_DSPMDE_prop_pack.py:673-674 | the charge balance over concatenated ion lists adds the parts |
| Dspmde.ChargeBalanceSwap | watertap/property_models/ion_DSPMDE_prop_pack.py:673-674 | the charge balance does not depend on the order of the ion lists |
| Dspmde.Solve | watertap/property_models/ion_DSPMDE_prop_pack.py:306-310 | a solve changes only free variables and never their fixedness |
| Dspmde.FirstNonZeroDof | watertap/property_models/ion_DSPMDE_prop_pack.py:288-298 | no element is reported iff every element has zero degrees of freedom; a reported element has a non-zero one |
| Dspmde.Initialize | watertap/property_models/ion_DSPMDE_prop_pack.py:286-318 | any element with non-zero dof after fixing raises; flags are returned iff the state was not pre-fixed and hold_state is set; otherwise the state is released; fixed variables keep their state |
| Dspmde.RevertRestoresFixed | watertap/property_models/ion_DSPMDE_prop_pack.py:313-334 | reverting state variables with flags taken before fixing them restores every variable's previous fixedness |
| Dspmde.ReleaseAfterHold | watertap/property_models/ion_DSPMDE_prop_pack.py:320-334 | releasing the flags that initialize held restores each variable's fixedness |
| Dspmde.FixArgs | watertap/property_models/ion_DSPMDE_prop_pack.py:371-393 | fixing succeeds iff every argument names a variable not fixed to a different value; each is then fixed to its value, and every other variable is unchanged |
| Dspmde.FixArgsFlags | watertap/property_models/ion_DSPMDE_prop_pack.py:382-392 | after fixing, the flags hold the old ones plus one per argument; each argument's flag records whether its variable was fixed before; other flags are kept |
| Dspmde.FixArgsStep | watertap/property_models/ion_DSPMDE_prop_pack.py:382-392 | fixing a list of arguments is fixing the first one, recording its old fixedness, and then fixing the rest |
| Dspmde.FixElements | watertap/property_models/ion_DSPMDE_prop_pack.py:369-399 | the variable keys are kept |
| Dspmde.DofCheckedAfterEachElement | watertap/property_models/ion_DSPMDE_prop_pack.py:395-399 | non-zero dof after fixing an element raises before the next element is touched |
| Dspmde.FixElementsFrame | watertap/property_models/ion_DSPMDE_prop_pack.py:369-393 | variables no argument names are unchanged, and so are their flags |
| Dspmde.FixElementsSets | watertap/property_models/ion_DSPMDE_prop_pack.py:369-393 | every named variable of every element is fixed to its argument's value |
| Dspmde.FixElementsFlags | watertap/property_models/ion_DSPMDE_prop_pack.py:382-392 | each named variable's flag records whether it was fixed before |
| Dspmde.FixElementsConflict | watertap/property_models/ion_DSPMDE_prop_pack.py:382-390 | a variable already fixed to a different value makes fixing fail |
| Dspmde.CalculateState | watertap/property_models/ion_DSPMDE_prop_pack.py:336-422 | the variable keys are kept |
| Dspmde.HoldStateStep | watertap/property_models/ion_DSPMDE_prop_pack.py:412-420 | with hold_state every state variable is fixed, without it nothing changes; values and keys are always kept |
| Dspmde.CalculateStateEffect | watertap/property_models/ion_DSPMDE_prop_pack.py:412-420 | only variables it fixed itself are unfixed; variables fixed before stay fixed; with hold_state every state variable ends fixed |
| Dspmde.CalculateStateRejectsConflict | watertap/property_models/ion_DSPMDE_prop_pack.py:382-390 | a variable already fixed to a different value makes calculate_state raise |
| ZeroOrderProperties.BuildSoluteList | watertap/core/zero_order_properties.py:86-110 | no list and no database raises ConfigurationError; a given list wins over the database set; the build succeeds iff every chosen solute's name is new to the block (not "H2O", "Liq" or an earlier name) and no name repeats; a given list is kept as it is and its solutes unknown to the database are only logged |
| ZeroOrderProperties.AddSolutes | watertap/core/zero_order_properties.py:109-110 | adding the solutes in turn succeeds iff no rendered name is already on the block or repeated, and then the block holds exactly the old names plus the rendered ones; a failure names one of the listed solutes |
| ZeroOrderProperties.RepeatedOrWaterRefused | watertap/core/zero_order_properties.py:78-110 | a user list that names "H2O", or names a solute twice, makes the build raise |
| ZeroOrderProperties.NotIn | watertap/core/zero_order_properties.py:100-103 | exactly the listed solutes that the database lacks |
| ZeroOrderProperties.Components | watertap/core/zero_order_properties.py:78-110 | the components are H2O followed by each solute, and nothing else |
| ZeroOrderProperties.DensityTerm | watertap/core/zero_order_properties.py:285-289 | dens_mass for H2O; for a solute with a concentration, that concentration; none for a solute without one |
| ZeroOrderProperties.FlowMassComp | watertap/core/zero_order_properties.py:263-269 | the mass flow is defined exactly where its density term is |
| ZeroOrderProperties.DefaultWaterFlow | watertap/core/zero_order_properties.py:263-267 | with the parameter block's initial dens_mass of 1000 kg/m^3, the water mass flow is 1000 times flow_vol |
| ZeroOrderProperties.FlowIsVolumeTimesDensity | watertap/core/zero_order_properties.py:263-289 | each mass flow is flow_vol times its density term |
| ZeroOrderProperties.TotalMassFlowLinear | watertap/core/zero_order_properties.py:263-269 | the total mass flow is flow_vol times the total density |
| ZeroOrderProperties.Initialize | watertap/core/zero_order_properties.py:212-216 | flags are returned iff hold_state; with it every state variable ends fixed; without it nothing changes |
| ZeroOrderProperties.ReleaseState | watertap/core/zero_order_properties.py:231-235 | None flags change nothing; values are always kept |
| ZeroOrderProperties.InitializeReleaseRoundTrip | watertap/core/zero_order_properties.py:212-235 | releasing what initialize returned restores every variable's fixedness |
| ZeroOrderProperties.ConcDefault | watertap/core/zero_order_properties.py:319-326 | the component-specific default is tried before the generic one; with neither, a missing-default error |
| ZeroOrderProperties.ScaleConcentrations | watertap/core/zero_order_properties.py:315-328 | unset concentration factors take their default; existing factors are kept; a missing default fails |
| ZeroOrderProperties.FlowKeys | watertap/core/zero_order_properties.py:330-337 | one mass-flow key per component |
| ZeroOrderProperties.ScaleComponentFlows | watertap/core/zero_order_properties.py:330-337 | unset mass-flow factors are sf_Q times 1e-3 for H2O and sf_Q times the concentration factor otherwise; existing factors are kept |
| ZeroOrderProperties.CalculateScalingFactors | watertap/core/zero_order_properties.py:311-337 | fails iff flow_vol or some unset concentration has no default; existing factors are never overwritten; flow_vol and the unset concentrations take their defaults; the keys are the old ones plus flow_vol, one concentration per solute and one mass flow per component |
| ZeroOrderProperties.ComponentFlowFactors | watertap/core/zero_order_properties.py:330-337 | an unset mass-flow factor is sf_Q times 1e-3 for H2O and sf_Q times the solute's concentration factor otherwise |
| ZeroOrderProperties.ScaleConcentrationsNoop | watertap/core/zero_order_properties.py:315-328 | when every concentration already has a factor, scaling the concentrations changes nothing |
| ZeroOrderProperties.ScaleComponentFlowsNoop | watertap/core/zero_order_properties.py:330-337 | when every component's mass flow already has a factor, scaling the mass flows changes nothing |
| ZeroOrderProperties.ScalingIdempotent | watertap/core/zero_order_properties.py:311-337 | computing scaling factors a second time changes nothing |
| ZeroOrderProperties.DefaultChain | watertap/core/zero_order_properties.py:128-130 | from no factors, a solute's concentration factor is 1e2 and its mass-flow factor is 1e3 times 1e2 |
| ZeroOrderCosting.BuildGlobalParams | watertap/core/zero_order_costing.py:32-85 | every global costing parameter exists, is fixed, and has its initial value |
| ZeroOrderCosting.AllGlobalParamsComplete | watertap/core/zero_order_costing.py:32-85 | the parameter list names every global parameter |
| ZeroOrderCosting.ProcessCostsOf | watertap/core/zero_order_costing.py:107-177 | the costs satisfy every roll-up constraint |
| ZeroOrderCosting.RollUpUnique | watertap/core/zero_order_costing.py:107-177 | costs satisfy the roll-up constraints iff they are the ones ProcessCostsOf computes |
| ZeroOrderCosting.RollUpClosedForm | watertap/core/zero_order_costing.py:107-177 | total capital is agg times (1 + land% + wc%); total operating cost is the fixed part plus variable and flow costs |
| ZeroOrderCosting.DefaultCapitalFactor | watertap/core/zero_order_costing.py:107-115 | with the default percentages total capital is 1.078 times the aggregate |
| ZeroOrderCosting.RollUpBounds | watertap/core/zero_order_costing.py:107-177 | with non-negative percentages, capital and flow costs: land, working capital, salary, benefits, maintenance, laboratory, insurance and total capital are non-negative, and each total is at least its aggregate; with non-negative operating aggregates the operating totals are non-negative too |
| ZeroOrderCosting.AddTechParameterBlock | watertap/core/zero_order_costing.py:256-302 | the attached block holds a and b; it has a reference state iff the basis is a flow basis with reference data; a flow basis without reference data raises KeyError and leaves the block attached |
| ZeroOrderCosting.ExponentialFlowForm | watertap/core/zero_order_costing.py:187-249 | an existing block is reused, otherwise created and kept even when its creation raises; flow_vol sizes by flow_vol, flow_mass by the summed mass flow, any other basis raises; electricity is registered only when present, and only as a defined flow |
| ZeroOrderCosting.ExponentialFlowFormReusesBlock | watertap/core/zero_order_costing.py:205-212 | costing a second unit of the same technology reuses the block and gives the same capital terms, unless the first unit raised on missing reference data |
| ZeroOrderCosting.HalfBuiltBlockStays | watertap/core/zero_order_costing.py:205-302 | a first unit lacking reference data raises KeyError but leaves a block without reference state, so a second unit of that technology fails on the missing reference state instead |
| Adm1Properties.MaterialDensity | watertap/property_models/anaerobic_digestion/adm1_properties.py:339-349 | 997 for H2O, anions times 35 for S_an, cations times 23 for S_cat, the concentration otherwise |
| Adm1Properties.MaterialFlow | watertap/property_models/anaerobic_digestion/adm1_properties.py:305-319 | flow_vol times 997 for H2O, flow_vol times anions times 35 for S_an, flow_vol times cations times 23 for S_cat, flow_vol times the concentration otherwise |
| Adm1Properties.FlowIsVolumeTimesDensity | watertap/property_models/anaerobic_digestion/adm1_properties.py:305-349 | each material flow is flow_vol times its density term |
| Adm1Properties.EnergyDensity | watertap/property_models/anaerobic_digestion/adm1_properties.py:357-362 | the energy density is 997*4182*(T - T_ref); it has the sign of T - T_ref and is zero at T_ref |
| Adm1Properties.EnthalpyIsVolumeTimesEnergy | watertap/property_models/anaerobic_digestion/adm1_properties.py:327-362 | the enthalpy flow is flow_vol times the energy density |
| Adm1Properties.DefineStateVars | watertap/property_models/anaerobic_digestion/adm1_properties.py:393-401 | there are exactly six state variables |
| Adm1Properties.StateVarsComplete | watertap/property_models/anaerobic_digestion/adm1_properties.py:393-401 | flow_vol, anions, cations, conc_mass_comp, temperature and pressure are all state variables |
| Adm1Properties.StateVarKeys | watertap/property_models/anaerobic_digestion/adm1_properties.py:393-401 | the indexed state variables: one concentration per solute and the five scalars |
| Adm1Properties.FirstNonZero | watertap/property_models/anaerobic_digestion/adm1_properties.py:215-221 | no element is reported iff every dof is zero; a reported one has a non-zero dof |
| Adm1Properties.Initialize | watertap/property_models/anaerobic_digestion/adm1_properties.py:209-227 | with pre-fixed state, any non-zero dof raises and nothing changes; flags are returned iff the state was not pre-fixed and hold_state is set; otherwise fixedness is restored |
| Adm1Properties.InitializeFixesStateVars | watertap/property_models/anaerobic_digestion/adm1_properties.py:209-227 | initialising free state with no degrees of freedom left fixes every state variable, including every member of each of the six named state variables, and returns flags for exactly the state variables |
| Adm1Properties.ReleaseState | watertap/property_models/anaerobic_digestion/adm1_properties.py:244-247 | None flags change nothing; otherwise a flagged variable stays fixed only if it was fixed before |
| Adm1Properties.HoldThenRelease | watertap/property_models/anaerobic_digestion/adm1_properties.py:209-247 | releasing the flags initialize held restores every variable's fixedness |
| Adm1Properties.BuildScaling | watertap/property_models/anaerobic_digestion/adm1_properties.py:368-373 | exactly the state variables get default factors |
| Adm1Properties.DensityFactor | watertap/property_models/anaerobic_digestion/adm1_properties.py:426-440 | 1/997 for H2O, 0.1 times the ion factor (default 1) for S_cat and S_an, the concentration factor (default 1e2) otherwise |
| Adm1Properties.CalculateScalingFactors | watertap/property_models/anaerobic_digestion/adm1_properties.py:416-450 | each flow term gets sf_F times the density factor; each density term gets the density factor; enthalpy and energy get sf_F*sf_rho_cp*sf_T and sf_rho_cp*sf_T; state-variable factors are kept |
| Adm1Properties.ScalingIdempotent | watertap/property_models/anaerobic_digestion/adm1_properties.py:416-450 | computing scaling factors a second time changes nothing |
| Adm1Properties.BuildScalingValues | watertap/property_models/anaerobic_digestion/adm1_properties.py:368-373 | flow, anions, cations and every concentration get 1e1, temperature 1e-1 and pressure 1e-3 |
| Adm1Properties.CalculateKeepsVarFactor | watertap/property_models/anaerobic_digestion/adm1_properties.py:416-450 | computing scaling factors never changes the factor read for a state variable |
| Adm1Properties.CalculateKeepsDensity | watertap/property_models/anaerobic_digestion/adm1_properties.py:426-440 | computing scaling factors never changes the density factor of a component |
| Adm1Properties.BuildDensityFactor | watertap/property_models/anaerobic_digestion/adm1_properties.py:426-440 | from the defaults, 1e1 times the density factor is 10/997 for H2O, 10 for S_cat and 1e2 for a solute |
| Adm1Properties.BuildScalingChain | watertap/property_models/anaerobic_digestion/adm1_properties.py:368-450 | from the defaults, the flow-term factor is 10/997 for H2O, 10 for S_cat and 1e2 for a solute |
| Dewatering.OutletCheckAsWritten | watertap/unit_models/dewatering.py:85-91 | the check as written rejects a list iff "overflow" is missing |
| Dewatering.OutletCheckAsWrittenAcceptsMissingUnderflow | watertap/unit_models/dewatering.py:85-91 | ["overflow"] passes the written check although "underflow" is missing |
| Dewatering.OutletCheck | watertap/unit_models/dewatering.py:85-91 | a list is accepted iff both "underflow" and "overflow" are in it |
| Dewatering.OutletChecksDiffer | watertap/unit_models/dewatering.py:85-91 | the two checks disagree exactly on lists holding "overflow" but not "underflow" |
| Dewatering.Build | watertap/unit_models/dewatering.py:85-105 | as written, a build succeeds iff "overflow" is among the outlets, and then gives p_dewat 0.28 and TSS_rem 0.98 |
| Dewatering.BuildIntended | watertap/unit_models/dewatering.py:85-105 | with the intended outlet check, a build succeeds iff both outlets are present, and then gives p_dewat 0.28 and TSS_rem 0.98 |
| Dewatering.BuildsAgreeWithUnderflow | watertap/unit_models/dewatering.py:85-105 | the written and the intended build agree whenever "underflow" is an outlet, and on every list the intended one accepts |
| Dewatering.Tss | watertap/unit_models/dewatering.py:107-115 | TSS is defined iff the five particulates are known at time 0, and is then 0.75 times their sum; it is non-negative or positive when they are |
| Dewatering.TssTimeInvariant | watertap/unit_models/dewatering.py:107-115 | TSS is the same at every time point, because it reads time 0 |
| Dewatering.FDewat | watertap/unit_models/dewatering.py:117-119 | f_dewat times TSS is 10*p_dewat; no value when TSS is zero |
| Dewatering.FQDu | watertap/unit_models/dewatering.py:121-123 | f_q_du times f_dewat is TSS_rem/100; no value when TSS or p_dewat is zero |
| Dewatering.FQDuClosedForm | watertap/unit_models/dewatering.py:117-123 | f_q_du is TSS_rem*TSS/(1000*p_dewat) |
| Dewatering.DefaultRemovalFactor | watertap/unit_models/dewatering.py:93-123 | with the default parameters f_q_du is 0.0035*TSS |
| Dewatering.ComponentSets | watertap/unit_models/dewatering.py:107-140 | the particulate and non-particulate sets are disjoint, and TSS reads only particulates |
| Dewatering.ComponentSetSizes | watertap/unit_models/dewatering.py:125-140 | the non-particulate set holds 8 components and the particulate set 6 |
| Dewatering.OverflowSplit | watertap/unit_models/dewatering.py:142-156 | particulates leave the overflow at 1-TSS_rem, non-particulates at 1-f_q_du, and other components are not constrained |
| Dewatering.OverflowSplitAt | watertap/unit_models/dewatering.py:107-156 | at time t, the non-particulate overflow split is 1-TSS_rem*TSS/(1000*p_dewat) |
| Dewatering.DefaultParticulateSplit | watertap/unit_models/dewatering.py:142-148 | with the default parameters every particulate's overflow split is 0.02 |
| Dewatering.PerformanceContents | watertap/unit_models/dewatering.py:158-163 | exactly the split fractions at the requested time point, keyed by outlet and component |
| Asm2dReactions.Additional | watertap/property_models/activated_sludge/modified_asm2d_reactions.py:62-86 | one zero entry (R, "Liq", j) per reaction, and nothing else |
| Asm2dReactions.Extend | watertap/property_models/activated_sludge/modified_asm2d_reactions.py:62-91 | the keys are the old ones plus (Rk, "Liq", j) for every additional solute; those are 0; every other entry keeps its coefficient |
| Asm2dReactions.ExtendIsSpec | watertap/property_models/activated_sludge/modified_asm2d_reactions.py:62-91 | the per-solute merge loop computes the one-step extended map |
| Asm2dReactions.NoSolutesNoChange | watertap/property_models/activated_sludge/modified_asm2d_reactions.py:62 | with no additional solutes the stoichiometry is unchanged |
| Asm2dReactions.ExtendIdempotent | watertap/property_models/activated_sludge/modified_asm2d_reactions.py:62-91 | extending twice with the same solutes is extending once |
| Asm2dReactions.ExtendConcat | watertap/property_models/activated_sludge/modified_asm2d_reactions.py:62-91 | extending by one list and then another is extending by both |
| Asm2dReactions.Build | watertap/property_models/activated_sludge/modified_asm2d_reactions.py:60-91 | the reaction block class is ModifiedASM2dReactionBlock; each (Rk, "Liq", j), k = 1..21, is 0; every non-extended entry is preserved |
| Fsapi.Add | watertap/ui/fsapi.py:105-121 | more than one positional argument raises; otherwise the object is stored under the new key and returned, and other entries are kept |
| Fsapi.ExportValues | watertap/ui/fsapi.py:341-350 | every export takes its model object's value; nothing else changes |
| Fsapi.AddAction | watertap/ui/fsapi.py:278-316 | the action is registered under its name and the other actions are kept |
| Fsapi.GetAction | watertap/ui/fsapi.py:318-330 | a registered name yields its function; an unknown one raises KeyError |
| Fsapi.ExportWrapper | watertap/ui/fsapi.py:289-314 | export before build raises and changes nothing; after build the exports are those the export function leaves, including what it added before raising; it succeeds iff the export function does |
| Fsapi.BuildWrapper | watertap/ui/fsapi.py:289-303 | a failing build leaves the interface as it was; a successful one stores the object, then requires a registered export action and runs export; the wrapper succeeds iff build returns an object, export is registered and export succeeds, and the exports are then what export returned, each showing its model value |
| Fsapi.OtherWrapper | watertap/ui/fsapi.py:304-314 | any non-build action before build raises and changes nothing; after build it runs on the built object; solve then syncs the exports; a function that raises keeps the model values it changed, and the exported values are left unsynced |
| Fsapi.RunAction | watertap/ui/fsapi.py:332-339 | an unknown name raises before the underscore check; an underscore name is refused; a non-build action before build fails; actions never change |
| Fsapi.BuildEnablesActions | watertap/ui/fsapi.py:289-316 | after a successful build no public action fails for lack of a build |
| Fsapi.Build | watertap/ui/fsapi.py:206-219 | build runs the build action and swallows its errors |
| Fsapi.Solve | watertap/ui/fsapi.py:221-235 | solve gives the solve action's result when it ran, and None when it raised (a user solve function that itself returns None looks the same to the caller); before build it returns None and changes nothing |
| Fsapi.CheckArg | watertap/ui/fsapi.py:193-204 | a falsy argument raises ValueError, a non-callable one TypeError, a callable one is accepted |
| Fsapi.NewInterface | watertap/ui/fsapi.py:189-204 | export, build and solve are checked in that order and must all be callable; the three actions are then registered |
| Fsapi.NewInterfaceNeedsBuild | watertap/ui/fsapi.py:189-204 | on a fresh interface solve and export fail until build succeeds |
| Fsapi.LoadItems | watertap/ui/fsapi.py:253-273 | the exported keys are kept; a (key, name) pair is reported missing iff its key is not exported; no more are reported than were given |
| Fsapi.Loaded | watertap/ui/fsapi.py:264-273 | an updated export holds the new value both in its record and in its model object; name and flags are kept |
| Fsapi.LoadItemsValues | watertap/ui/fsapi.py:253-273 | read-only or non-input exports are not changed; a writable export named by the data takes the data's value; exports the data does not name are unchanged |
| Fsapi.LoadItemsStep | watertap/ui/fsapi.py:253-273 | loading one more item changes only that item's export, and only when it is writable |
| Fsapi.Load | watertap/ui/fsapi.py:245-276 | load raises iff some key is unknown, after processing every key; the error lists the missing (key, name) pairs |
| Fsapi.LoadIdempotent | watertap/ui/fsapi.py:245-276 | loading the same data twice equals loading it once |
| Fsapi.NatToString | watertap/ui/fsapi.py:155-159 | the decimal rendering of a count is non-empty and all digits |
| Fsapi.NatToStringRoundTrip | watertap/ui/fsapi.py:155-159 | parsing the decimal rendering gives the count back |
| Fsapi.JoinNames | watertap/ui/fsapi.py:157-159 | a single missing object's name is the whole list |
| Fsapi.JoinNamesConcat | watertap/ui/fsapi.py:157-159 | joining two non-empty lists is joining each and putting ", " between them |
| Fsapi.ObjectWord | watertap/ui/fsapi.py:156-159 | "object" iff the count is 1, "objects" otherwise |
| Fsapi.NewMissingObjectError | watertap/ui/fsapi.py:154-163 | the message is exactly the count and "object"/"objects", then " not found in the model: " and the names; `.missing` keeps the pairs in order |

## Left out

- `_build_combinations`, `_divide_combinations` and `_do_param_sweep` are not part of this model. Their code is imported from a file outside this model, so they are oracles: a function from round number and requested count to per-rank results.
- MPI concurrency is left out: `allgather` is a sum over a sequence of per-rank values, `Bcast` is a copy of rank 0's array, and `Barrier` is omitted. The thread and process pools behind the managers are left out too.
- Randomness and sampling (seeds, forced exceptions) and NaN interpolation are left out.
- File, HDF5, CSV and database I/O are left out.
- The solver is an oracle: `Dspmde.Solve` only keeps fixed variables fixed, and the retry's solver result is a boolean. Degrees of freedom are an oracle over the variable map.
- Pyomo `Var`/`Param`/`Expression` objects are left out. They are maps from keys to values, or to fixed/value pairs. Units are dropped, so unit conversion is the identity.
- Floating point is left out: reals are exact.
- Logging and warnings are left out. The success-rate warning and the zero-order "unknown solute" log are kept as values in the model's results.
- `fix_state_vars`, `revert_state_vars`, `degrees_of_freedom`, `number_unfixed_variables` and `iscale` are not part of this model. Their assumed behaviour is described under "How it is modelled".
- Calls to the parents' `calculate_scaling_factors` (`super()`) are left out: those classes are not part of this model.
- `parameter_sweep_deprecated` beyond its per-row rule is left out. It uses names that are never imported.
- RO and OARO control volumes, and the nonlinear constraints (exp, log10, real powers) of boron removal, DSPM-DE and the RO units, are left out. Only the variable creation and the linear relations listed above are modelled.
- ADM1 `define_display_vars`, `get_material_flow_basis` and the default balance types are left out: they return constants.
- The dewatering stream table and the underflow split fractions are left out. The separator's own equations decide the underflow.
- `ModelExport` field validators, `FlowsheetExport.dict()`, unit conversion of exported values, and the object identifiers used as export keys (the caller supplies the key) are left out of `Fsapi`.
- ZeroOrderCosting.ProcessCostsOf: capital cost stays symbolic, as an aggregate the caller supplies. The per-unit capital rules are left out.
- Dspmde.FixElements: the contract states only that keys are kept. The frame, the set values, the flags and the conflict behaviour are proved in the separate lemmas FixElementsFrame, FixElementsSets, FixElementsFlags and FixElementsConflict.
- Dspmde.CalculateState: the contract states only that keys are kept. Its effect is proved in CalculateStateEffect and CalculateStateRejectsConflict.
- Dspmde.FixArgs: the contract does not state the flags. They are proved in FixArgsFlags.
- Fsapi.LoadItems: the contract does not state the new values. They are proved in LoadItemsValues.
- ZeroOrderProperties.CalculateScalingFactors: the contract does not state the mass-flow factors. They are proved in ComponentFlowFactors.
- Ro1D.FluxSpec1D and RoBase.FluxSpec: bounds are modelled as numbers. Pyomo's enforcement of bounds during the solve is left out.
- SweepRounds.RunRounds: `req_num_samples` defaults to None in `recursive_parameter_sweep`, and a None request raises TypeError at the loop test `n_samples_remaining > 0`. The model takes the request as a mandatory integer.
- SweepFilter.AggregateFilteredInputArr: the request is a mandatory integer for the same reason.
- Dspmde.CalculateState: `var_args` defaults to None, and `calculate_state` then raises AttributeError at `var_args.items()`. The model takes the argument map as mandatory.
- SweepFilter.AggregateRankIndependent: does not promise that rank 0 agrees with another rank when rank 0 raises a shape mismatch, because the other rank then waits in `Bcast` (`BroadcastNeverArrives`) instead of returning.
- RoBase.FillGuessDefaults: the source fills the caller's `initialize_guess` dictionary in place (`_reverse_osmosis_base.py:447-456`). The model returns the filled map, and the mutation of the caller's dictionary is left out.
- The zero-order `cp_mass` parameter and its `_cp_mass` reference are left out: no modelled expression reads the specific heat capacity.

## Findings

| source | as written | input that shows it | evidently intended | confidence | as-written member | corrected member |
|---|---|---|---|---|---|---|
| watertap/unit_models/dewatering.py:85-91 | `"underflow" and "overflow" not in outlet_list`: the non-empty literal "underflow" is truthy, so only "overflow" is looked for | outlet list `["overflow"]` passes the check although "underflow" is missing | both "underflow" and "overflow" must be in the outlet list, as the error message says | not executed | Dewatering.OutletCheckAsWritten, Dewatering.OutletCheckAsWrittenAcceptsMissingUnderflow | Dewatering.OutletCheck, Dewatering.BuildIntended |
