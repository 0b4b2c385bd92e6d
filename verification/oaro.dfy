/** Geometry selection, transfer relations and scaling defaults of the
    osmotically assisted reverse-osmosis unit
    (watertap/unit_models/osmotically_assisted_reverse_osmosis_0D.py). */
module Oaro {
  import opened Wrappers
  import opened Scaling
  import opened Sums
  import RoBase

  /** The `side` argument: a string or some other Python object. */
  datatype SideArg = Str(name: string) | NotStr

  /** How a membrane channel's geometry was added. */
  datatype ChannelGeometry = WithLengthAndWidth | WithoutGeometry

  /** The parts of the unit the geometry step reads and writes. */
  datatype Unit = Unit(
    hasLength: bool,
    hasWidth: bool,
    channels: map<string, ChannelGeometry>,
    areaConstraint: Option<bool>   // include_constraint of the last `_add_area`
  )

  /** TypeError for a non-string side; AttributeError when only one of length
      and width exists (the missing one is read). */
  datatype GeometryError = SideNotString | MissingAttribute

  /** Whether the channel needs length, width and an area constraint. */
  predicate NeedsGeometry(pct: RoBase.PressureChangeType, mtc: RoBase.MassTransferCoefficient)
  {
    pct != RoBase.FixedPerStage || mtc == RoBase.MtcCalculated
  }

  /** `_add_membrane_channel_and_geometry(side)`. */
  function AddMembraneChannelAndGeometry(u: Unit, side: SideArg, pct: RoBase.PressureChangeType, mtc: RoBase.MassTransferCoefficient)
    : (res: Result<Unit, GeometryError>)
    ensures side.NotStr? ==> res == Err(SideNotString)
    ensures res == Err(MissingAttribute) <==> side.Str? && NeedsGeometry(pct, mtc) && u.hasLength != u.hasWidth
    ensures res.Ok? ==>
      && res.value.channels == u.channels[side.name := if NeedsGeometry(pct, mtc) then WithLengthAndWidth else WithoutGeometry]
      && res.value.areaConstraint == Some(NeedsGeometry(pct, mtc))
      && (NeedsGeometry(pct, mtc) ==> res.value.hasLength && res.value.hasWidth)
      && (!NeedsGeometry(pct, mtc) ==> res.value.hasLength == u.hasLength && res.value.hasWidth == u.hasWidth)
  {
    if side.NotStr? then Err(SideNotString)
    else if NeedsGeometry(pct, mtc) then
      var created := !u.hasLength && !u.hasWidth;
      var hasLength := u.hasLength || created;
      var hasWidth := u.hasWidth || created;
      if !hasLength || !hasWidth then Err(MissingAttribute)
      else Ok(Unit(hasLength, hasWidth, u.channels[side.name := WithLengthAndWidth], Some(true)))
    else
      Ok(Unit(u.hasLength, u.hasWidth, u.channels[side.name := WithoutGeometry], Some(false)))
  }

  /** Length and width are created only when neither exists yet: a second
      channel (the permeate side after the feed side) shares them and the
      step succeeds again. */
  lemma SecondChannelSharesGeometry(u: Unit, s1: string, s2: string, pct: RoBase.PressureChangeType, mtc: RoBase.MassTransferCoefficient)
    requires !u.hasLength && !u.hasWidth
    ensures AddMembraneChannelAndGeometry(u, Str(s1), pct, mtc).Ok?
    ensures var u1 := AddMembraneChannelAndGeometry(u, Str(s1), pct, mtc).value;
      && AddMembraneChannelAndGeometry(u1, Str(s2), pct, mtc).Ok?
      && var u2 := AddMembraneChannelAndGeometry(u1, Str(s2), pct, mtc).value;
         u2.hasLength == u2.hasWidth == NeedsGeometry(pct, mtc)
  {
  }

  /** The feed- and permeate-side transfer terms of one time point, keyed by
      (phase, component). */
  datatype Transfers = Transfers(
    feedEnthalpy: real,
    permeateEnthalpy: real,
    feedMass: map<(string, string), real>,
    permeateMass: map<(string, string), real>,
    massTransfer: map<(string, string), real>    // mass_transfer_phase_comp
  )

  /** `eq_connect_enthalpy_transfer`, `eq_mass_transfer_term` and
      `eq_connect_mass_transfer` hold. */
  ghost predicate TransferConstraints(tr: Transfers)
  {
    && tr.permeateEnthalpy == -tr.feedEnthalpy
    && tr.feedMass.Keys == tr.permeateMass.Keys == tr.massTransfer.Keys
    && (forall k :: k in tr.feedMass ==> tr.massTransfer[k] == -tr.feedMass[k])
    && (forall k :: k in tr.feedMass ==> tr.permeateMass[k] == -tr.feedMass[k])
  }

  /** The permeate side's terms determined by the feed side's. */
  function PermeateTransfers(feedEnthalpy: real, feedMass: map<(string, string), real>): (tr: Transfers)
    ensures TransferConstraints(tr)
    ensures tr.feedEnthalpy == feedEnthalpy && tr.feedMass == feedMass
  {
    var neg := map k | k in feedMass :: -feedMass[k];
    Transfers(feedEnthalpy, -feedEnthalpy, feedMass, neg, neg)
  }

  /** Under the constraints nothing is created or lost across the membrane
      (feed and permeate terms cancel) and the permeate receives exactly
      `mass_transfer_phase_comp`; the constraints fix the permeate side. */
  lemma TransferConservation(tr: Transfers)
    requires TransferConstraints(tr)
    ensures tr.feedEnthalpy + tr.permeateEnthalpy == 0.0
    ensures forall k :: k in tr.feedMass ==> tr.feedMass[k] + tr.permeateMass[k] == 0.0
    ensures forall k :: k in tr.feedMass ==> tr.permeateMass[k] == tr.massTransfer[k]
    ensures tr == PermeateTransfers(tr.feedEnthalpy, tr.feedMass)
  {
  }

  /** `eq_permeate_production`: each mixed-permeate flow term is the area
      times the average flux. */
  function PermeateProduction(area: real, avgFlux: map<(string, string), real>): (flows: map<(string, string), real>)
    ensures flows.Keys == avgFlux.Keys
    ensures forall k :: k in avgFlux ==> flows[k] == area * avgFlux[k]
  {
    map k | k in avgFlux :: area * avgFlux[k]
  }

  /** The values of `m` at `keys`, in order. */
  function Over(m: map<(string, string), real>, keys: seq<(string, string)>): seq<real>
    requires forall i :: 0 <= i < |keys| ==> keys[i] in m
  {
    seq(|keys|, i requires 0 <= i < |keys| => m[keys[i]])
  }

  /** Summed over any (phase, component) keys, the mixed permeate receives
      the area times the total average flux. */
  lemma PermeateProductionTotal(area: real, avgFlux: map<(string, string), real>, keys: seq<(string, string)>)
    requires forall i :: 0 <= i < |keys| ==> keys[i] in avgFlux
    ensures SumReal(Over(PermeateProduction(area, avgFlux), keys)) == area * SumReal(Over(avgFlux, keys))
  {
    ScaledSum(area, avgFlux, PermeateProduction(area, avgFlux), keys);
  }

  /** Values scaled pointwise by `k` sum to `k` times the sum. */
  lemma {:induction false} ScaledSum(k: real, a: map<(string, string), real>, b: map<(string, string), real>, keys: seq<(string, string)>)
    requires forall i :: 0 <= i < |keys| ==> keys[i] in a && keys[i] in b && b[keys[i]] == k * a[keys[i]]
    ensures SumReal(Over(b, keys)) == k * SumReal(Over(a, keys))
  {
    if |keys| > 0 {
      ScaledSum(k, a, b, keys[..|keys| - 1]);
      SumOverSnoc(a, keys);
      SumOverSnoc(b, keys);
      Distribute(k, SumReal(Over(a, keys[..|keys| - 1])), a[keys[|keys| - 1]]);
    }
  }

  lemma Distribute(k: real, a: real, x: real)
    ensures k * a + k * x == k * (a + x)
  {
  }

  /** Summing over one more key adds that key's value. */
  lemma SumOverSnoc(m: map<(string, string), real>, keys: seq<(string, string)>)
    requires |keys| > 0 && forall i :: 0 <= i < |keys| ==> keys[i] in m
    ensures SumReal(Over(m, keys)) == SumReal(Over(m, keys[..|keys| - 1])) + m[keys[|keys| - 1]]
  {
    assert Over(m, keys)[..|keys| - 1] == Over(m, keys[..|keys| - 1]);
  }

  // ---------------------------------------------------------------------------
  // Scaling defaults (`calculate_scaling_factors`)
  // ---------------------------------------------------------------------------

  /** Variables whose scaling factors the unit sets. `(t, p, j)` index the
      transfer terms. */
  datatype ScaleKey =
    | DensSolvent
    | Length
    | Width
    | MassTransferPhaseComp(t: nat, p: string, j: string)
    | FeedMassTransferTerm(t: nat, p: string, j: string)

  /** `set_scaling_factor(v, get_scaling_factor(src))` when `v` is unset: a
      None source leaves `v` unset. */
  function SetIfUnsetFrom(sf: map<ScaleKey, real>, k: ScaleKey, src: Option<real>): (r: map<ScaleKey, real>)
    ensures k in sf ==> r == sf
    ensures k !in sf && src.Some? ==> r == sf[k := src.value]
    ensures k !in sf && src.None? ==> r == sf
  {
    if src.Some? then SetIfUnset(sf, k, src.value) else sf
  }

  /** The per-index step of the mass-transfer loop; `flowSf` is the scaling
      factor of the feed inlet's material flow term for that index. */
  function ScaleMassTransfer(sf: map<ScaleKey, real>, idx: seq<(nat, string, string)>, flowSf: map<(nat, string, string), real>)
    : (r: map<ScaleKey, real>)
    ensures forall k :: k in sf ==> k in r && r[k] == sf[k]
    ensures forall i :: 0 <= i < |idx| && idx[i] in flowSf ==>
              MassTransferPhaseComp(idx[i].0, idx[i].1, idx[i].2) in r
              && FeedMassTransferTerm(idx[i].0, idx[i].1, idx[i].2) in r
    ensures forall k :: k in r && k !in sf ==>
              (k.MassTransferPhaseComp? || k.FeedMassTransferTerm?) && (k.t, k.p, k.j) in flowSf && r[k] == flowSf[(k.t, k.p, k.j)]
    decreases |idx|
  {
    if |idx| == 0 then sf
    else
      var (t, p, j) := idx[0];
      var src := if (t, p, j) in flowSf then Some(flowSf[(t, p, j)]) else None;
      var s1 := SetIfUnsetFrom(sf, MassTransferPhaseComp(t, p, j), src);
      var s2 := SetIfUnsetFrom(s1, FeedMassTransferTerm(t, p, j), src);
      ScaleMassTransfer(s2, idx[1..], flowSf)
  }

  /** `calculate_scaling_factors`, without the parent class's part. */
  function CalculateScalingFactors(
    sf: map<ScaleKey, real>, feedDensSf: Option<real>, idx: seq<(nat, string, string)>,
    flowSf: map<(nat, string, string), real>, hasLength: bool, hasWidth: bool
  ): (r: map<ScaleKey, real>)
    ensures forall k :: k in sf ==> k in r && r[k] == sf[k]
    ensures DensSolvent !in sf && feedDensSf.Some? ==> DensSolvent in r && r[DensSolvent] == feedDensSf.value
    ensures DensSolvent !in sf && feedDensSf.None? ==> DensSolvent !in r
    ensures Length in r <==> Length in sf || hasLength
    ensures Width in r <==> Width in sf || hasWidth
    ensures Length !in sf && hasLength ==> r[Length] == 1.0
    ensures Width !in sf && hasWidth ==> r[Width] == 1.0
    ensures forall i :: 0 <= i < |idx| && idx[i] in flowSf ==>
              MassTransferPhaseComp(idx[i].0, idx[i].1, idx[i].2) in r
              && FeedMassTransferTerm(idx[i].0, idx[i].1, idx[i].2) in r
    ensures forall k :: k in r && k !in sf ==>
              || k == DensSolvent || k == Length || k == Width
              || ((k.MassTransferPhaseComp? || k.FeedMassTransferTerm?) && (k.t, k.p, k.j) in flowSf && r[k] == flowSf[(k.t, k.p, k.j)])
  {
    var s1 := SetIfUnsetFrom(sf, DensSolvent, feedDensSf);
    var s2 := ScaleMassTransfer(s1, idx, flowSf);
    var s3 := if hasLength then SetIfUnset(s2, Length, 1.0) else s2;
    if hasWidth then SetIfUnset(s3, Width, 1.0) else s3
  }
}
