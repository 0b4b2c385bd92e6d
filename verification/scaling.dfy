/** IDAES scaling-factor suffixes as maps from a variable's name to its
    factor. An absent key is an unset factor (`get_scaling_factor` returns
    None). */
module Scaling {
  import opened Wrappers

  type ScalingFactors<K> = map<K, real>

  /** `get_scaling_factor(v, default=d)`. */
  function GetScalingFactor<K>(sf: ScalingFactors<K>, k: K, default: real): (r: real)
    ensures k in sf ==> r == sf[k]
    ensures k !in sf ==> r == default
  {
    if k in sf then sf[k] else default
  }

  /** The recurring `if get_scaling_factor(v) is None: set_scaling_factor(v, x)`:
      an existing factor is never overwritten. */
  function SetIfUnset<K>(sf: ScalingFactors<K>, k: K, v: real): (r: ScalingFactors<K>)
    ensures r.Keys == sf.Keys + {k}
    ensures k in sf ==> r == sf
    ensures k !in sf ==> r[k] == v
    ensures forall j :: j in sf ==> r[j] == sf[j]
  {
    if k in sf then sf else sf[k := v]
  }

  /** `SetIfUnset` over a list of keys, each unset one receiving `value(k)`. */
  function SetAllIfUnset<K(!new)>(sf: ScalingFactors<K>, keys: seq<K>, value: K -> real): (r: ScalingFactors<K>)
    ensures forall k :: k in r <==> k in sf || k in keys
    ensures forall k :: k in sf ==> r[k] == sf[k]
    ensures forall k :: k in keys && k !in sf ==> r[k] == value(k)
    decreases |keys|
  {
    if |keys| == 0 then sf
    else
      assert forall k :: k in keys <==> k == keys[0] || k in keys[1..];
      SetAllIfUnset(SetIfUnset(sf, keys[0], value(keys[0])), keys[1..], value)
  }

  /** Reading a factor back after setting it when unset: the set value
      becomes the default it would have been read with, and every other
      factor reads as before. */
  lemma GetAfterSetIfUnset<K>(sf: ScalingFactors<K>, k: K, v: real, d: real)
    ensures GetScalingFactor(SetIfUnset(sf, k, v), k, d) == GetScalingFactor(sf, k, v)
    ensures forall j :: j != k ==> GetScalingFactor(SetIfUnset(sf, k, v), j, d) == GetScalingFactor(sf, j, d)
  {
  }

  /** Setting a factor when unset twice is the same as once. */
  lemma SetIfUnsetIdempotent<K>(sf: ScalingFactors<K>, k: K, v: real, w: real)
    ensures SetIfUnset(SetIfUnset(sf, k, v), k, w) == SetIfUnset(sf, k, v)
  {
  }
}
