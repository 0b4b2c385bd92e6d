/** The modified ASM2d reaction parameter block
    (watertap/property_models/activated_sludge/modified_asm2d_reactions.py):
    on top of the ASM2d stoichiometry it gives every additional solute of the
    property package a zero coefficient in each of the 21 rate reactions. */
module Asm2dReactions {

  /** An index of `rate_reaction_stoichiometry`: reaction, phase, component. */
  datatype StoichKey<S> = StoichKey(reaction: string, phase: string, comp: S)

  type Stoichiometry<S(==)> = map<StoichKey<S>, real>

  /** The 21 rate reactions of ASM2d. */
  const Reactions: seq<string> := ["R1", "R2", "R3", "R4", "R5", "R6", "R7", "R8", "R9", "R10", "R11",
                                   "R12", "R13", "R14", "R15", "R16", "R17", "R18", "R19", "R20", "R21"]

  const Liq: string := "Liq"

  /** Whether the extension over `reactions` writes this key for the given
      solutes. */
  predicate Extended<S(==)>(k: StoichKey<S>, reactions: seq<string>, solutes: seq<S>)
  {
    k.reaction in reactions && k.phase == Liq && k.comp in solutes
  }

  /** `rate_reaction_stoichiometry_additional` for one solute: a zero for
      each reaction. */
  function Additional<S(==,!new)>(reactions: seq<string>, j: S): (r: Stoichiometry<S>)
    ensures forall k :: k in r <==> Extended(k, reactions, [j])
    ensures forall k :: k in r ==> r[k] == 0.0
  {
    map rn | rn in reactions :: StoichKey(rn, Liq, j) := 0.0
  }

  /** The loop of `build`: for each solute in turn the dictionary is rebuilt
      as `{**old, **additional}`, so the additional entries win. */
  function Extend<S(==,!new)>(stoich: Stoichiometry<S>, reactions: seq<string>, solutes: seq<S>): (r: Stoichiometry<S>)
    ensures forall k :: k in r <==> k in stoich || Extended(k, reactions, solutes)
    ensures forall k :: Extended(k, reactions, solutes) ==> r[k] == 0.0
    ensures forall k :: k in stoich && !Extended(k, reactions, solutes) ==> r[k] == stoich[k]
    decreases |solutes|
  {
    if |solutes| == 0 then stoich
    else
      var last := solutes[|solutes| - 1];
      var init := solutes[..|solutes| - 1];
      assert forall j :: j in solutes <==> j in init || j == last;
      Extend(stoich, reactions, init) + Additional(reactions, last)
  }

  /** The same map stated in one step: every extended key is zero, every
      other key keeps its coefficient. */
  function ExtendSpec<S(==,!new)>(stoich: Stoichiometry<S>, reactions: seq<string>, solutes: seq<S>): Stoichiometry<S>
  {
    map k | k in stoich.Keys + (set rn, j | rn in reactions && j in solutes :: StoichKey(rn, Liq, j)) ::
      if Extended(k, reactions, solutes) then 0.0 else stoich[k]
  }

  /** The loop computes the one-step map. */
  lemma ExtendIsSpec<S(!new)>(stoich: Stoichiometry<S>, reactions: seq<string>, solutes: seq<S>)
    ensures Extend(stoich, reactions, solutes) == ExtendSpec(stoich, reactions, solutes)
  {
    var a := Extend(stoich, reactions, solutes);
    var b := ExtendSpec(stoich, reactions, solutes);
    forall k ensures k in a <==> k in b {
      if Extended(k, reactions, solutes) {
        assert k == StoichKey(k.reaction, Liq, k.comp);
      }
    }
  }

  /** With no additional solutes the stoichiometry is unchanged. */
  lemma NoSolutesNoChange<S(!new)>(stoich: Stoichiometry<S>, reactions: seq<string>)
    ensures Extend(stoich, reactions, []) == stoich
  {
  }

  /** Extending twice with the same solutes is extending once. */
  lemma ExtendIdempotent<S(!new)>(stoich: Stoichiometry<S>, reactions: seq<string>, solutes: seq<S>)
    ensures Extend(Extend(stoich, reactions, solutes), reactions, solutes) == Extend(stoich, reactions, solutes)
  {
    var once := Extend(stoich, reactions, solutes);
    var twice := Extend(once, reactions, solutes);
    forall k | k in twice ensures k in once && twice[k] == once[k] {
    }
    assert twice.Keys == once.Keys;
  }

  /** Extending by one list and then another is extending by both. */
  lemma {:induction false} ExtendConcat<S(!new)>(stoich: Stoichiometry<S>, reactions: seq<string>, a: seq<S>, b: seq<S>)
    ensures Extend(Extend(stoich, reactions, a), reactions, b) == Extend(stoich, reactions, a + b)
    decreases |b|
  {
    if |b| == 0 {
      assert a + b == a;
    } else {
      var init := b[..|b| - 1];
      ExtendConcat(stoich, reactions, a, init);
      assert (a + b)[..|a + b| - 1] == a + init;
      assert (a + b)[|a + b| - 1] == b[|b| - 1];
    }
  }

  /** The parameter block after `build`: its reaction block class and its
      stoichiometry. */
  datatype ParameterBlock<S> = ParameterBlock(reactionBlockClass: string, stoichiometry: Stoichiometry<S>)

  /** `build`, given the ASM2d stoichiometry the base class sets up and the
      property package's `additional_solute_list`. */
  function Build<S(==,!new)>(base: Stoichiometry<S>, additionalSolutes: seq<S>): (r: ParameterBlock<S>)
    ensures r.reactionBlockClass == "ModifiedASM2dReactionBlock"
    ensures forall j, rn :: j in additionalSolutes && rn in Reactions ==>
              StoichKey(rn, Liq, j) in r.stoichiometry && r.stoichiometry[StoichKey(rn, Liq, j)] == 0.0
    ensures forall k :: k in base && !Extended(k, Reactions, additionalSolutes) ==>
              k in r.stoichiometry && r.stoichiometry[k] == base[k]
    ensures forall k :: k in r.stoichiometry ==> k in base || Extended(k, Reactions, additionalSolutes)
  {
    ParameterBlock("ModifiedASM2dReactionBlock", Extend(base, Reactions, additionalSolutes))
  }
}
