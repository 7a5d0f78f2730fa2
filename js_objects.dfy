/** JavaScript plain objects as the handlers use them: string keys in insertion order, each
    key at most once. `Object.keys`, `Object.values` and property access `o[k]` (undefined
    when the key is absent). Integer-like keys, which JavaScript lists first, do not occur
    in the objects modelled here. */
module JsObjects {

  import opened Wrappers

  type Object<V> = seq<(string, V)>

  predicate DistinctKeys<V>(o: Object<V>) {
    forall i, j :: 0 <= i < j < |o| ==> o[i].0 != o[j].0
  }

  /** `Object.keys(o)` */
  function Keys<V>(o: Object<V>): (ks: seq<string>)
    ensures |ks| == |o| && forall i :: 0 <= i < |o| ==> ks[i] == o[i].0
  {
    if o == [] then [] else [o[0].0] + Keys(o[1..])
  }

  /** `Object.values(o)` */
  function Values<V>(o: Object<V>): (vs: seq<V>)
    ensures |vs| == |o| && forall i :: 0 <= i < |o| ==> vs[i] == o[i].1
  {
    if o == [] then [] else [o[0].1] + Values(o[1..])
  }

  /** `o[key]`: the value stored under the key, `None` for undefined. */
  function Get<V>(o: Object<V>, key: string): (r: Option<V>)
    ensures r.None? <==> forall i :: 0 <= i < |o| ==> o[i].0 != key
    ensures r.Some? ==> exists i :: 0 <= i < |o| && o[i] == (key, r.value)
  {
    if o == [] then None
    else if o[0].0 == key then Some(o[0].1)
    else
      var r := Get(o[1..], key);
      assert r.Some? ==> exists i :: 1 <= i < |o| && o[i] == (key, r.value) by {
        if r.Some? {
          var i :| 0 <= i < |o[1..]| && o[1..][i] == (key, r.value);
          assert o[i + 1] == (key, r.value);
        }
      }
      r
  }

  /** With distinct keys, reading a key gives the value stored beside it. */
  lemma {:induction false} GetAt<V>(o: Object<V>, i: int)
    requires DistinctKeys(o) && 0 <= i < |o|
    ensures Get(o, o[i].0) == Some(o[i].1)
  {
    if i > 0 {
      assert o[0].0 != o[i].0;
      assert DistinctKeys(o[1..]) by {
        forall a, b | 0 <= a < b < |o[1..]|
          ensures o[1..][a].0 != o[1..][b].0
        {
          assert o[1..][a] == o[a + 1] && o[1..][b] == o[b + 1];
        }
      }
      GetAt(o[1..], i - 1);
    }
  }
}
