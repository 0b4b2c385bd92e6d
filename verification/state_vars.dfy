/** The IDAES helpers every property package here relies on:
    `fix_state_vars` and `revert_state_vars`. A block's variables are a map
    from a variable key to whether it is fixed and its value. */
module StateVars {

  datatype VarState = VarState(fixed: bool, value: real)

  /** Fix every state variable that is not fixed yet, to its value in `args`
      when one is given and otherwise at its current value. The flags record,
      for every state variable, whether it was fixed before. */
  function FixStateVars<K>(vars: map<K, VarState>, stateVars: set<K>, args: map<K, real>)
    : (r: (map<K, VarState>, map<K, bool>))
    ensures r.0.Keys == vars.Keys
    ensures r.1.Keys == stateVars * vars.Keys
    ensures forall k :: k in r.1 ==> r.1[k] == vars[k].fixed
    ensures forall k :: k in vars && k in stateVars ==> r.0[k].fixed
    ensures forall k :: k in vars && k !in stateVars ==> r.0[k] == vars[k]
    ensures forall k :: k in vars && vars[k].fixed ==> r.0[k] == vars[k]
    ensures forall k :: k in vars && k in stateVars && !vars[k].fixed ==>
              r.0[k].value == (if k in args then args[k] else vars[k].value)
  {
    (map k | k in vars :: if k in stateVars && !vars[k].fixed
                          then VarState(true, if k in args then args[k] else vars[k].value)
                          else vars[k],
     map k | k in stateVars * vars.Keys :: vars[k].fixed)
  }

  /** Unfix every variable whose flag says it was not fixed before. */
  function RevertStateVars<K>(vars: map<K, VarState>, flags: map<K, bool>): (r: map<K, VarState>)
    ensures r.Keys == vars.Keys
    ensures forall k :: k in vars ==> r[k].value == vars[k].value
    ensures forall k :: k in vars && k in flags && !flags[k] ==> !r[k].fixed
    ensures forall k :: k in vars && (k !in flags || flags[k]) ==> r[k] == vars[k]
  {
    map k | k in vars :: if k in flags && !flags[k] then VarState(false, vars[k].value) else vars[k]
  }

  /** Reverting with the flags of a fix restores which variables are fixed. */
  lemma RevertUndoesFix<K>(vars: map<K, VarState>, stateVars: set<K>, args: map<K, real>)
    ensures var (fixed, flags) := FixStateVars(vars, stateVars, args);
      var reverted := RevertStateVars(fixed, flags);
      reverted.Keys == vars.Keys && forall k :: k in vars ==> reverted[k].fixed == vars[k].fixed
  {
  }
}
