/**
 * Parameter snapshots: `toPlainObject` resolves every parameter once through
 * `unref`, and `checkValid` captures one snapshot and later compares it, by
 * deep (structural) equality, with a freshly taken one.
 */
module Params {

  /** A plain value a parameter resolves to. */
  datatype Value = Null | Bool(b: bool) | Num(n: int) | Str(s: string)

  /** A parameter as handed to the composable: a plain value, or a ref read through its current value. */
  datatype Param = Plain(plain: Value) | Ref(current: Value)

  /** Vue's `unref` on one parameter: a ref yields its current value, anything else itself. */
  function Unref(p: Param): Value
  {
    match p
    case Plain(v) => v
    case Ref(v) => v
  }

  /** A plain object of resolved parameter values; deep equality is Dafny's value equality. */
  type Snapshot = map<string, Value>

  /** The object `toPlainObject` builds: one key per parameter key, holding `unref` of its value. */
  function PlainObject<K, P, V>(params: map<K, P>, unref: P -> V): map<K, V>
  {
    map k | k in params :: unref(params[k])
  }

  /** `toPlainObject`: fills a fresh object key by key in a loop over the parameter keys. */
  method ToPlainObject<K, P, V>(params: map<K, P>, unref: P -> V) returns (obj: map<K, V>)
    ensures obj == PlainObject(params, unref)
  {
    obj := map[];
    var keys := params.Keys;
    while keys != {}
      invariant keys <= params.Keys
      invariant obj.Keys == params.Keys - keys
      invariant forall k :: k in obj ==> obj[k] == unref(params[k])
      decreases keys
    {
      var key :| key in keys;
      obj := obj[key := unref(params[key])];
      keys := keys - {key};
    }
  }

  /** Two parameter sets give deep-equal snapshots exactly when they have the same keys and every key resolves to the same value. */
  lemma SnapshotsEqualIff<K, P, V>(p1: map<K, P>, p2: map<K, P>, unref: P -> V)
    ensures PlainObject(p1, unref) == PlainObject(p2, unref)
        <==> p1.Keys == p2.Keys && forall k :: k in p1 ==> unref(p1[k]) == unref(p2[k])
  {
    var s1, s2 := PlainObject(p1, unref), PlainObject(p2, unref);
    if s1 == s2 {
      assert s1.Keys == p1.Keys && s2.Keys == p2.Keys;
      forall k | k in p1 ensures unref(p1[k]) == unref(p2[k]) {
        assert s1[k] == s2[k];
      }
    }
  }

  /** The function `checkValid` returns: it remembers the value it captured (`isValid.value`). */
  datatype SnapshotGuard = SnapshotGuard(value: Snapshot)

  /** `checkValid(fn)`: capture `fn()` once. */
  function CheckValid(initial: Snapshot): (g: SnapshotGuard)
    ensures StillValid(g, initial)
    ensures forall current :: StillValid(g, current) <==> current == initial
  {
    SnapshotGuard(initial)
  }

  /** Calling the guard: is a freshly taken snapshot deep-equal to the captured one? */
  predicate StillValid(g: SnapshotGuard, current: Snapshot): (ok: bool)
    ensures ok <==> g.value.Keys == current.Keys && forall k :: k in current ==> g.value[k] == current[k]
  {
    g.value == current
  }

  /**
   * A snapshot guard is re-evaluated on every call: it is valid against a
   * parameter set exactly when that set resolves, key by key, to the values
   * captured, so it can turn valid again after the parameters change back.
   */
  lemma SnapshotGuardIff(captured: map<string, Param>, later: map<string, Param>)
    ensures StillValid(CheckValid(PlainObject(captured, Unref)), PlainObject(later, Unref))
        <==> captured.Keys == later.Keys && forall k :: k in captured ==> Unref(captured[k]) == Unref(later[k])
  {
    SnapshotsEqualIff(captured, later, Unref);
  }

}
