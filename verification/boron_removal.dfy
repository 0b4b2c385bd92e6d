/** The boron-removal unit (watertap/unit_models/boron_removal.py): the
    validation of `chemical_mapping_data`, the ion-charge table, the
    alkalinity used in the electroneutrality constraint and the
    mass-transfer term of each species. */
module BoronRemoval {
  import opened Wrappers

  /** The Python values a configuration dictionary may hold (keys of a
      dictionary are strings here). */
  datatype PyValue =
    | PyNone
    | PyStr(s: string)
    | PyNum(x: real)
    | PyTuple(items: seq<PyValue>)
    | PyList(elems: seq<PyValue>)
    | PyDict(entries: map<string, PyValue>)

  /** Why validation fails. `Config*` are the ConfigurationErrors `build`
      raises; `Type*` are TypeErrors Python raises on the way. */
  datatype MappingError =
    | ConfigNotADict             // not a dict, or the empty dict
    | ConfigMissingRequired      // boron_name, borate_name or caustic_additive absent
    | ConfigMissingAdditiveInfo  // mw_additive or charge_additive absent
    | ConfigMwNotTuple           // mw_additive is not a tuple
    | ConfigUnknownName(field: string)   // a name is not in the component list
    | ConfigInherentReactions    // the package declares inherent reactions
    | TypeNotIterable            // `in` on a number or None
    | TypeNotSubscriptable       // indexing a str, list or tuple by a str key
    | TypeNameNotString(field: string)   // the error message concatenates a non-str name

  /** The species names the unit works with. */
  datatype Mapping = Mapping(
    boron: string,
    borate: string,
    proton: Option<string>,
    hydroxide: Option<string>,
    cation: Option<string>,
    additive: Option<PyValue>
  )

  /** Python's `sub in s` on strings: a substring test. */
  predicate IsSubstring(sub: string, s: string)
  {
    if sub <= s then true
    else if |s| == 0 then false
    else IsSubstring(sub, s[1..])
  }

  /** Python's `key in container`. */
  function Contains(container: PyValue, key: string): (res: Result<bool, MappingError>)
    ensures container.PyDict? ==> res == Ok(key in container.entries)
    ensures container.PyNone? || container.PyNum? ==> res == Err(TypeNotIterable)
  {
    match container
    case PyDict(m) => Ok(key in m)
    case PyStr(s) => Ok(IsSubstring(key, s))
    case PyList(xs) => Ok(PyStr(key) in xs)
    case PyTuple(xs) => Ok(PyStr(key) in xs)
    case _ => Err(TypeNotIterable)
  }

  /** Python's `container[key]` after a successful `key in container`. */
  function Lookup(container: PyValue, key: string): (res: Result<PyValue, MappingError>)
    ensures container.PyDict? && key in container.entries ==> res == Ok(container.entries[key])
    ensures !container.PyDict? ==> res.Err?
  {
    match container
    case PyDict(m) => if key in m then Ok(m[key]) else Err(ConfigMissingRequired)
    case PyNone => Err(TypeNotIterable)
    case PyNum(_) => Err(TypeNotIterable)
    case _ => Err(TypeNotSubscriptable)
  }

  /** An optional name: absent or None gives None. */
  function OptionalName(d: map<string, PyValue>, key: string): Option<PyValue>
  {
    if key in d && d[key] != PyNone then Some(d[key]) else None
  }

  /** The component-list check of one name: a string in the list passes; a
      string not in it is a ConfigurationError; a non-string fails building
      the message. */
  function CheckName(field: string, v: PyValue, components: set<string>): (res: Result<string, MappingError>)
    ensures res.Ok? <==> v.PyStr? && v.s in components
    ensures res.Ok? ==> res.value == v.s
  {
    if v.PyStr? && v.s in components then Ok(v.s)
    else if v.PyStr? then Err(ConfigUnknownName(field))
    else Err(TypeNameNotString(field))
  }

  function CheckOptionalName(field: string, v: Option<PyValue>, components: set<string>): (res: Result<Option<string>, MappingError>)
    ensures res.Ok? <==> v.None? || (v.value.PyStr? && v.value.s in components)
    ensures res.Ok? ==> (res.value.None? <==> v.None?) && (v.Some? ==> res.value == Some(v.value.s))
  {
    if v.None? then Ok(None)
    else
      var name :- CheckName(field, v.value, components);
      Ok(Some(name))
  }

  /** The checks of `build` on `chemical_mapping_data`, in their order. */
  function ValidateMapping(data: PyValue, components: set<string>, hasInherentReactions: bool): (res: Result<Mapping, MappingError>)
    ensures !data.PyDict? || data.entries == map[] ==> res == Err(ConfigNotADict)
    ensures data.PyDict? && data.entries != map[]
            && !("boron_name" in data.entries && "borate_name" in data.entries && "caustic_additive" in data.entries)
            ==> res == Err(ConfigMissingRequired)
    ensures res.Ok? <==> ValidMapping(data, components, hasInherentReactions)
    ensures res.Ok? ==>
      var d := data.entries; var c := d["caustic_additive"].entries;
      && res.value.boron == d["boron_name"].s
      && res.value.borate == d["borate_name"].s
      && res.value.proton == (if OptionalName(d, "proton_name").Some? then Some(d["proton_name"].s) else None)
      && res.value.hydroxide == (if OptionalName(d, "hydroxide_name").Some? then Some(d["hydroxide_name"].s) else None)
      && res.value.cation == (if OptionalName(c, "cation_name").Some? then Some(c["cation_name"].s) else None)
      && res.value.additive == (if "additive_name" in c then Some(c["additive_name"]) else None)
  {
    if !data.PyDict? || data.entries == map[] then Err(ConfigNotADict)
    else
      var d := data.entries;
      if !("boron_name" in d && "borate_name" in d && "caustic_additive" in d) then Err(ConfigMissingRequired)
      else
        var caustic := d["caustic_additive"];
        var hasMw :- Contains(caustic, "mw_additive");
        if !hasMw then Err(ConfigMissingAdditiveInfo)
        else
          var hasCharge :- Contains(caustic, "charge_additive");
          if !hasCharge then Err(ConfigMissingAdditiveInfo)
          else
            var mw :- Lookup(caustic, "mw_additive");
            if !mw.PyTuple? then Err(ConfigMwNotTuple)
            else
              var c := caustic.entries;
              var boron :- CheckName("boron_name", d["boron_name"], components);
              var borate :- CheckName("borate_name", d["borate_name"], components);
              var proton :- CheckOptionalName("proton_name", OptionalName(d, "proton_name"), components);
              var hydroxide :- CheckOptionalName("hydroxide_name", OptionalName(d, "hydroxide_name"), components);
              var cation :- CheckOptionalName("cation_name", OptionalName(c, "cation_name"), components);
              if hasInherentReactions then Err(ConfigInherentReactions)
              else
                var additive := if "additive_name" in c then Some(c["additive_name"]) else None;
                Ok(Mapping(boron, borate, proton, hydroxide, cation, additive))
  }

  /** Declarative statement of an acceptable mapping. */
  ghost predicate ValidMapping(data: PyValue, components: set<string>, hasInherentReactions: bool)
  {
    && data.PyDict? && data.entries != map[]
    && var d := data.entries;
    && "boron_name" in d && "borate_name" in d && "caustic_additive" in d
    && d["caustic_additive"].PyDict?
    && var c := d["caustic_additive"].entries;
    && "mw_additive" in c && "charge_additive" in c
    && c["mw_additive"].PyTuple?
    && NameIn(Some(d["boron_name"]), components)
    && NameIn(Some(d["borate_name"]), components)
    && (OptionalName(d, "proton_name").None? || NameIn(OptionalName(d, "proton_name"), components))
    && (OptionalName(d, "hydroxide_name").None? || NameIn(OptionalName(d, "hydroxide_name"), components))
    && (OptionalName(c, "cation_name").None? || NameIn(OptionalName(c, "cation_name"), components))
    && !hasInherentReactions
  }

  ghost predicate NameIn(v: Option<PyValue>, components: set<string>)
  {
    v.Some? && v.value.PyStr? && v.value.s in components
  }

  /** An accepted mapping names only species of the property package, and
      every optional name that is absent or None comes out as None. */
  lemma AcceptedNamesAreComponents(data: PyValue, components: set<string>, hasInherentReactions: bool)
    requires ValidateMapping(data, components, hasInherentReactions).Ok?
    ensures var m := ValidateMapping(data, components, hasInherentReactions).value;
      && m.boron in components && m.borate in components
      && (m.proton.Some? ==> m.proton.value in components)
      && (m.hydroxide.Some? ==> m.hydroxide.value in components)
      && (m.cation.Some? ==> m.cation.value in components)
      && ("proton_name" !in data.entries ==> m.proton.None?)
      && ("hydroxide_name" !in data.entries ==> m.hydroxide.None?)
  {
  }

  // ---------------------------------------------------------------------------
  // Ion charges and alkalinity
  // ---------------------------------------------------------------------------

  /** The loop over the component list that assigns each ion its charge;
      components that are not ions are skipped. */
  function AssignCharges(init: map<string, real>, ions: set<string>, componentList: seq<string>,
                         charge: string -> real): (r: map<string, real>)
    requires init.Keys == ions
    ensures r.Keys == ions
    ensures forall j :: j in ions ==> r[j] == (if j in componentList then charge(j) else init[j])
  {
    if |componentList| == 0 then init
    else
      var done := AssignCharges(init, ions, componentList[..|componentList| - 1], charge);
      var j := componentList[|componentList| - 1];
      assert componentList == componentList[..|componentList| - 1] + [j];
      if j in ions then done[j := charge(j)] else done
  }

  /** `ion_charge`: a parameter initialised to 1 over the anions and cations,
      then assigned the component's charge for each ion in the component list. */
  function IonCharge(ions: set<string>, componentList: seq<string>, charge: string -> real): (r: map<string, real>)
    ensures r.Keys == ions
    ensures forall j :: j in ions ==> r[j] == (if j in componentList then charge(j) else 1.0)
  {
    AssignCharges(map j | j in ions :: 1.0, ions, componentList, charge)
  }

  /** An ion of the alkalinity sum: its name, charge and outlet molar concentration. */
  datatype Ion = Ion(name: string, charge: real, conc: real)

  /** Whether `j` is one of the species excluded from alkalinity. Comparing
      with an absent (None) name is false. */
  predicate IsAlkalinityExcluded(j: string, m: Mapping)
  {
    j == m.boron || j == m.borate || m.proton == Some(j) || m.hydroxide == Some(j)
  }

  /** `Alk` of `eq_electroneutrality`, accumulated over the ions in order. */
  function Alkalinity(ions: seq<Ion>, m: Mapping): real
  {
    if |ions| == 0 then 0.0
    else
      var ion := ions[|ions| - 1];
      Alkalinity(ions[..|ions| - 1], m) + (if IsAlkalinityExcluded(ion.name, m) then 0.0 else -ion.charge * ion.conc)
  }

  /** The ions that count towards alkalinity. */
  function Counted(ions: seq<Ion>, m: Mapping): (out: seq<Ion>)
    ensures forall i :: 0 <= i < |out| ==> !IsAlkalinityExcluded(out[i].name, m)
    ensures forall x :: x in out ==> x in ions
  {
    if |ions| == 0 then []
    else
      var ion := ions[|ions| - 1];
      Counted(ions[..|ions| - 1], m) + (if IsAlkalinityExcluded(ion.name, m) then [] else [ion])
  }

  /** −Σ charge·conc over a list of ions, with no exclusions. */
  function NegChargeSum(ions: seq<Ion>): real
  {
    if |ions| == 0 then 0.0 else NegChargeSum(ions[..|ions| - 1]) - ions[|ions| - 1].charge * ions[|ions| - 1].conc
  }

  lemma {:induction false} NegChargeSumAppend(a: seq<Ion>, b: seq<Ion>)
    ensures NegChargeSum(a + b) == NegChargeSum(a) + NegChargeSum(b)
  {
    if |b| > 0 {
      assert (a + b)[..|a + b| - 1] == a + b[..|b| - 1];
      NegChargeSumAppend(a, b[..|b| - 1]);
    } else {
      assert a + b == a;
    }
  }

  /** Alkalinity is −Σ charge·conc over exactly the ions other than the boron,
      borate, proton and hydroxide species. */
  lemma {:induction false} AlkalinityOverCounted(ions: seq<Ion>, m: Mapping)
    ensures Alkalinity(ions, m) == NegChargeSum(Counted(ions, m))
  {
    if |ions| > 0 {
      var ion := ions[|ions| - 1];
      AlkalinityOverCounted(ions[..|ions| - 1], m);
      var prev := Counted(ions[..|ions| - 1], m);
      if !IsAlkalinityExcluded(ion.name, m) {
        NegChargeSumAppend(prev, [ion]);
        assert [ion][..0] == [];
      } else {
        assert prev + [] == prev;
      }
    }
  }

  /** The excluded species do not influence alkalinity: changing their
      concentrations leaves it unchanged. */
  lemma {:induction false} AlkalinityIgnoresExcluded(ions: seq<Ion>, other: seq<Ion>, m: Mapping)
    requires |ions| == |other|
    requires forall i :: 0 <= i < |ions| ==> ions[i].name == other[i].name
    requires forall i :: 0 <= i < |ions| && !IsAlkalinityExcluded(ions[i].name, m) ==> ions[i] == other[i]
    ensures Alkalinity(ions, m) == Alkalinity(other, m)
  {
    if |ions| > 0 {
      AlkalinityIgnoresExcluded(ions[..|ions| - 1], other[..|other| - 1], m);
    }
  }

  /** Molar concentration of base the caustic dose adds: charge·dose/mw
      (None for a zero molecular weight, where the expression is undefined). */
  function BaseConcentration(cationCharge: real, dose: real, mw: real): (r: Option<real>)
    ensures r.Some? <==> mw != 0.0
    ensures r.Some? ==> r.value * mw == cationCharge * dose
  {
    if mw == 0.0 then None else Some(cationCharge * dose / mw)
  }

  /** The hydrogen-ion concentration `eq_electroneutrality` imposes. */
  function ElectroneutralH(molOH: real, molBorate: real, ions: seq<Ion>, m: Mapping, cationCharge: real, dose: real, mw: real): (r: Option<real>)
    ensures r.Some? <==> mw != 0.0
    ensures r.Some? ==> r.value + BaseConcentration(cationCharge, dose, mw).value == molOH + molBorate + Alkalinity(ions, m)
  {
    var base :- BaseConcentration(cationCharge, dose, mw);
    Some(molOH + molBorate + Alkalinity(ions, m) - base)
  }

  // ---------------------------------------------------------------------------
  // Mass-transfer terms
  // ---------------------------------------------------------------------------

  /** The role a component plays in `eq_mass_transfer_term`. */
  datatype Role = BoronRole | BorateRole | ProtonRole | HydroxideRole | CationRole | Unmapped

  /** The branch taken for component `j`: the first name that matches, in the
      order boron, borate, proton, hydroxide, cation. */
  function RoleOf(j: string, m: Mapping): (r: Role)
    ensures r == Unmapped <==> j != m.boron && j != m.borate && m.proton != Some(j) && m.hydroxide != Some(j) && m.cation != Some(j)
    ensures r == BoronRole <==> j == m.boron
    ensures r == BorateRole <==> j != m.boron && j == m.borate
  {
    if j == m.boron then BoronRole
    else if j == m.borate then BorateRole
    else if m.proton == Some(j) then ProtonRole
    else if m.hydroxide == Some(j) then HydroxideRole
    else if m.cation == Some(j) then CationRole
    else Unmapped
  }

  /** Outlet molar concentrations of the species the unit transforms. */
  datatype Outlet = Outlet(molBoron: real, molBorate: real, molH: real, molOH: real)

  function OutletConc(r: Role, o: Outlet): real
  {
    match r
    case BoronRole => o.molBoron
    case BorateRole => o.molBorate
    case ProtonRole => o.molH
    case HydroxideRole => o.molOH
    case _ => 0.0
  }

  /** `mass_transfer_term[t, p, j]`; `input` is the inlet molar flow of the
      species, `flowVol` the outlet volumetric flow. */
  function MassTransferTerm(j: string, m: Mapping, input: real, flowVol: real, o: Outlet, cationCharge: real, dose: real, mw: real): (r: Option<real>)
    ensures RoleOf(j, m) == Unmapped ==> r == Some(0.0)
    ensures RoleOf(j, m) in {BoronRole, BorateRole, ProtonRole, HydroxideRole} ==>
              r.Some? && input + r.value == flowVol * OutletConc(RoleOf(j, m), o)
    ensures RoleOf(j, m) == CationRole ==> (r.Some? <==> mw != 0.0)
    ensures RoleOf(j, m) == CationRole && r.Some? ==> r.value * mw == flowVol * cationCharge * dose
  {
    match RoleOf(j, m)
    case Unmapped => Some(0.0)
    case CationRole =>
      var base :- BaseConcentration(cationCharge, dose, mw);
      Some(flowVol * base)
    case role => Some(-(input - flowVol * OutletConc(role, o)))
  }
}
