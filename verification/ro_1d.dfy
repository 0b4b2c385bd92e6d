/** The configuration processing and the structural rules of the 1-D
    reverse-osmosis unit (proteuslib/unit_models/reverse_osmosis_1D.py). */
module Ro1D {
  import opened Wrappers
  import RoBase
  import opened Sums

  /** What a property-package component answers to `is_solvent()` /
      `is_solute()`; a generic component raises TypeError instead. */
  datatype ComponentClass = Typed(isSolvent: bool, isSolute: bool) | Generic

  /** A configuration option that may be left at `useDefault`. */
  datatype ConfigOption = UseDefault | Given(value: string)

  datatype ConfigError = NotSolventOrSolute(component: string) | TooManySolvents(count: nat)

  /** The processed configuration, with whether each default was applied
      (each application logs a warning). */
  datatype Processed = Processed(
    solvents: set<string>,
    solutes: set<string>,
    transformationMethod: string,
    transformationScheme: string,
    methodDefaulted: bool,
    schemeDefaulted: bool
  )

  const DefaultTransformationMethod := "dae.finite_difference"
  const DefaultTransformationScheme := "BACKWARD"

  /** Solvent and solute sets of the components; the first generic component
      in list order is reported. */
  function Classify(components: seq<(string, ComponentClass)>): (res: Result<(set<string>, set<string>), string>)
    ensures res.Ok? <==> forall i :: 0 <= i < |components| ==> components[i].1.Typed?
    ensures res.Ok? ==> forall c :: c in res.value.0 <==> exists i :: 0 <= i < |components| && components[i].0 == c && components[i].1.isSolvent
    ensures res.Ok? ==> forall c :: c in res.value.1 <==> exists i :: 0 <= i < |components| && components[i].0 == c && components[i].1.isSolute
    ensures res.Err? ==> exists i :: 0 <= i < |components| && components[i] == (res.error, Generic)
                           && forall p :: 0 <= p < i ==> components[p].1.Typed?
  {
    if |components| == 0 then Ok(({}, {}))
    else
      var (name, cls) := components[0];
      if cls.Generic? then Err(name)
      else
        match Classify(components[1..])
        case Err(e) => Err(e)
        case Ok((sv, su)) =>
          Ok((if cls.isSolvent then {name} + sv else sv, if cls.isSolute then {name} + su else su))
  }

  /** The names of the typed components that answer true to `is_solvent()`. */
  function SolventNames(components: seq<(string, ComponentClass)>): set<string>
  {
    set i | 0 <= i < |components| && components[i].1.Typed? && components[i].1.isSolvent :: components[i].0
  }

  /** `_process_config`. */
  function ProcessConfig(components: seq<(string, ComponentClass)>, transformation: ConfigOption, scheme: ConfigOption): (res: Result<Processed, ConfigError>)
    ensures res.Ok? <==> (forall i :: 0 <= i < |components| ==> components[i].1.Typed?) && |SolventNames(components)| <= 1
    ensures (exists i :: 0 <= i < |components| && components[i].1.Generic?) ==> res.Err? && res.error.NotSolventOrSolute?
    ensures res.Ok? ==> |res.value.solvents| <= 1
    ensures res.Ok? ==> forall c :: c in res.value.solvents <==> exists i :: 0 <= i < |components| && components[i].0 == c && components[i].1.isSolvent
    ensures res.Ok? ==> forall c :: c in res.value.solutes <==> exists i :: 0 <= i < |components| && components[i].0 == c && components[i].1.isSolute
    ensures res.Ok? ==> res.value.methodDefaulted == transformation.UseDefault? && res.value.schemeDefaulted == scheme.UseDefault?
    ensures res.Ok? ==> res.value.transformationMethod == (if transformation.UseDefault? then "dae.finite_difference" else transformation.value)
    ensures res.Ok? ==> res.value.transformationScheme == (if scheme.UseDefault? then "BACKWARD" else scheme.value)
    ensures res.Err? && res.error.TooManySolvents? ==> res.error.count > 1
  {
    match Classify(components)
    case Err(name) => Err(NotSolventOrSolute(name))
    case Ok((solvents, solutes)) =>
      assert solvents == SolventNames(components);
      if |solvents| > 1 then Err(TooManySolvents(|solvents|))
      else
        Ok(Processed(
          solvents, solutes,
          if transformation.UseDefault? then DefaultTransformationMethod else transformation.value,
          if scheme.UseDefault? then DefaultTransformationScheme else scheme.value,
          transformation.UseDefault?, scheme.UseDefault?))
  }

  /** Two distinct solvents are always refused. */
  lemma TwoSolventsRejected(components: seq<(string, ComponentClass)>, transformation: ConfigOption, scheme: ConfigOption, i: nat, j: nat)
    requires i < |components| && j < |components|
    requires components[i].0 != components[j].0
    requires components[i].1.Typed? && components[i].1.isSolvent && components[j].1.Typed? && components[j].1.isSolvent
    ensures ProcessConfig(components, transformation, scheme).Err?
  {
    var res := ProcessConfig(components, transformation, scheme);
    if res.Ok? {
      var s := res.value.solvents;
      assert components[i].0 in s && components[j].0 in s;
      assert {components[i].0, components[j].0} <= s;
      assert |{components[i].0, components[j].0}| == 2;
      SubsetCard({components[i].0, components[j].0}, s);
    }
  }

  lemma SubsetCard<T>(a: set<T>, b: set<T>)
    requires a <= b
    ensures |a| <= |b|
  {
    assert b == a + (b - a);
  }

  /** The error of the flux initialiser/bounds rules for a component that is
      neither solvent nor solute (its bounds are never assigned). */
  datatype FluxError = UnboundBounds

  /** `flux_mass_phase_comp` initial value and bounds: the solvent test comes first. */
  function FluxSpec1D(solvents: set<string>, solutes: set<string>, j: string): (res: Result<RoBase.VarSpec, FluxError>)
    ensures res.Ok? <==> j in solvents || j in solutes
    ensures j in solvents ==> res == Ok(RoBase.VarSpec(5e-4, 1e-4, 3e-2))
    ensures j !in solvents && j in solutes ==> res == Ok(RoBase.VarSpec(1e-6, 1e-8, 1e-3))
    ensures res.Ok? ==> res.value.lower < res.value.init < res.value.upper
  {
    if j in solvents then Ok(RoBase.FluxSpec(true))
    else if j in solutes then Ok(RoBase.FluxSpec(false))
    else Err(UnboundBounds)
  }

  // ---------------------------------------------------------------------------
  // Discretised constraints
  // ---------------------------------------------------------------------------

  /** A Pyomo ContinuousSet: its points in increasing order. */
  ghost predicate StrictlyIncreasing(domain: seq<real>)
  {
    forall i, j :: 0 <= i < j < |domain| ==> domain[i] < domain[j]
  }

  /** Indices of the points at which the mass-transfer, flux and connection
      constraints are built: every point except `length_domain.first()`. */
  function ConstraintIndices(domain: seq<real>): (idx: seq<nat>)
    requires |domain| > 0
    ensures |idx| == |domain| - 1
    ensures forall k :: 0 <= k < |idx| ==> idx[k] == k + 1
    ensures StrictlyIncreasing(domain) ==> forall k :: 0 <= k < |idx| ==> domain[idx[k]] != domain[0]
  {
    seq(|domain| - 1, k requires 0 <= k < |domain| - 1 => k + 1)
  }

  /** The right-hand side of `eq_connect_mass_transfer` for a feed-side
      transfer term `x`: −x * length / nfe. */
  function Transfer(x: real, length: real, nfe: real): real
    requires nfe != 0.0
  {
    -x * length / nfe
  }

  /** `eq_connect_mass_transfer` at every built point: the permeate-side flow
      equals minus the feed-side transfer term times length / nfe, with
      nfe = |domain| - 1. */
  ghost predicate Connected(domain: seq<real>, mtt: seq<real>, side: seq<real>, length: real)
    requires |domain| > 1 && |mtt| == |side| == |domain|
  {
    forall i :: 1 <= i < |domain| ==> side[i] == Transfer(mtt[i], length, (|domain| - 1) as real)
  }

  /** `eq_permeate_production`: the sum of the permeate-side flows over every
      point `x` of the domain with `x != 0`. */
  function PermeateProduction(domain: seq<real>, side: seq<real>): real
    requires |side| == |domain|
    decreases |domain|
  {
    if |domain| == 0 then 0.0
    else
      PermeateProduction(domain[..|domain| - 1], side[..|side| - 1])
      + (if domain[|domain| - 1] != 0.0 then side[|side| - 1] else 0.0)
  }

  /** Sum of `xs[1..]`: the feed-side transfer over the built points. */
  function SumAfterFirst(xs: seq<real>): real
    requires |xs| > 0
  {
    SumReal(xs[1..])
  }

  /** On the usual normalised domain (first point 0) the permeate production
      equals −(length / nfe) times the total feed-side transfer over the built
      points: the first point contributes nothing. */
  lemma {:induction false} PermeateProductionClosedForm(domain: seq<real>, mtt: seq<real>, side: seq<real>, length: real)
    requires |domain| > 1 && |mtt| == |side| == |domain|
    requires StrictlyIncreasing(domain) && domain[0] == 0.0
    requires Connected(domain, mtt, side, length)
    ensures PermeateProduction(domain, side) == -(length / (|domain| - 1) as real) * SumAfterFirst(mtt)
  {
    assert forall i :: 1 <= i < |domain| ==> domain[0] < domain[i];
    ProductionPrefix(domain, mtt, side, length, |domain|);
    assert domain[..|domain|] == domain && side[..|side|] == side && mtt[1..|domain|] == mtt[1..];
    TransferSumFactor(mtt[1..], length, (|domain| - 1) as real);
  }

  /** The connection constraint's right-hand side summed over `xs`:
      the sum of −x * length / nfe. */
  function TransferSum(xs: seq<real>, length: real, nfe: real): real
    requires nfe != 0.0
  {
    if |xs| == 0 then 0.0 else TransferSum(xs[..|xs| - 1], length, nfe) + Transfer(xs[|xs| - 1], length, nfe)
  }

  /** The factor −length / nfe comes out of the sum. */
  lemma {:induction false} TransferSumFactor(xs: seq<real>, length: real, nfe: real)
    requires nfe != 0.0
    ensures TransferSum(xs, length, nfe) == -(length / nfe) * SumReal(xs)
  {
    if |xs| > 0 {
      TransferSumFactor(xs[..|xs| - 1], length, nfe);
      Combine(TransferSum(xs[..|xs| - 1], length, nfe), TransferSum(xs, length, nfe),
              SumReal(xs[..|xs| - 1]), SumReal(xs), xs[|xs| - 1], length, nfe);
    }
  }

  /** Over the first `n` points, the permeate production is the connection
      constraint's right-hand side summed over the built points among them. */
  lemma {:induction false} ProductionPrefix(domain: seq<real>, mtt: seq<real>, side: seq<real>, length: real, n: nat)
    requires |domain| > 1 && |mtt| == |side| == |domain|
    requires domain[0] == 0.0 && forall i :: 1 <= i < |domain| ==> domain[i] != 0.0
    requires Connected(domain, mtt, side, length)
    requires 1 <= n <= |domain|
    ensures PermeateProduction(domain[..n], side[..n]) == TransferSum(mtt[1..n], length, (|domain| - 1) as real)
  {
    if n == 1 {
      assert domain[..1][..0] == [] && side[..1][..0] == [] && domain[..1][0] == 0.0;
      assert PermeateProduction(domain[..1], side[..1]) == 0.0;
      assert mtt[1..1] == [];
    } else {
      ProductionPrefix(domain, mtt, side, length, n - 1);
      ProductionStep(domain, side, n);
      var nfe := (|domain| - 1) as real;
      assert mtt[1..n][..n - 2] == mtt[1..n - 1] && mtt[1..n][n - 2] == mtt[n - 1];
      assert TransferSum(mtt[1..n], length, nfe) == TransferSum(mtt[1..n - 1], length, nfe) + Transfer(mtt[n - 1], length, nfe);
      assert side[n - 1] == Transfer(mtt[n - 1], length, nfe);
    }
  }

  /** One more point, which is not the origin, adds its side flow. */
  lemma ProductionStep(domain: seq<real>, side: seq<real>, n: nat)
    requires |side| == |domain| && 2 <= n <= |domain|
    requires domain[n - 1] != 0.0
    ensures PermeateProduction(domain[..n], side[..n]) == PermeateProduction(domain[..n - 1], side[..n - 1]) + side[n - 1]
  {
    assert domain[..n][..n - 1] == domain[..n - 1];
    assert side[..n][..n - 1] == side[..n - 1];
  }

  /** The arithmetic of one induction step of TransferSumFactor. */
  lemma Combine(before: real, after: real, sumBefore: real, sumAfter: real, m: real, length: real, nfe: real)
    requires nfe != 0.0
    requires before == -(length / nfe) * sumBefore
    requires after == before + Transfer(m, length, nfe)
    requires sumAfter == sumBefore + m
    ensures after == -(length / nfe) * sumAfter
  {
  }
}
