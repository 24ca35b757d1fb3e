/**
 The part of the Lua registry that C code uses: luaL_ref stores a value under
 an integer that is free at that moment, luaL_unref gives the integer back, and
 given-back integers are reused, the last one first.
 */
module LuaRegistry {

  /** What C puts in the registry: a class object, or a captured argument table. */
  datatype Value = Object(id: int) | Args(vals: seq<int>)

  /** faults counts the releases of an integer that was not held. */
  datatype Registry = Registry(live: map<int, Value>, free: seq<int>, top: nat, faults: nat)

  const NOREF := -2

  ghost predicate Valid(r: Registry) {
    && r.faults == 0
    && (forall k | k in r.live :: 1 <= k <= r.top)
    && (forall i | 0 <= i < |r.free| :: 1 <= r.free[i] <= r.top && r.free[i] !in r.live)
    && (forall i, j | 0 <= i < j < |r.free| :: r.free[i] != r.free[j])
  }

  function Fresh(r: Registry): int {
    if r.free == [] then r.top + 1 else r.free[0]
  }

  /** luaL_ref: the value is now held under Fresh(r). */
  function Ref(r: Registry, v: Value): (r': Registry)
    ensures Valid(r) ==> Valid(r') && Fresh(r) !in r.live && r'.live == r.live[Fresh(r) := v]
  {
    if r.free == [] then r.(live := r.live[r.top + 1 := v], top := r.top + 1)
    else r.(live := r.live[r.free[0] := v], free := r.free[1..])
  }

  /** luaL_unref: a negative integer (LUA_NOREF) is ignored. */
  function Unref(r: Registry, k: int): (r': Registry)
    ensures Valid(r) && k in r.live ==> Valid(r') && r'.live == r.live - {k}
    ensures k >= 0 && k !in r.live ==> !Valid(r')
  {
    if k < 0 then r
    else Registry(r.live - {k}, [k] + r.free, r.top, if k in r.live then r.faults else r.faults + 1)
  }
}
