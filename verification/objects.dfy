/**
 Plain JavaScript objects used as string-keyed dictionaries. Their
 properties keep insertion order: assigning to an existing key changes its
 value in place, a new key goes last. `Object.keys` and `Object.entries`
 list them in that order.
 */
module Objects {
  import opened Text

  /** The properties of an object, in insertion order. */
  type Object<V> = seq<(string, V)>

  function Keys<V>(o: Object<V>): (r: seq<string>)
    ensures |r| == |o|
    ensures forall i :: 0 <= i < |o| ==> r[i] == o[i].0
  {
    seq(|o|, i requires 0 <= i < |o| => o[i].0)
  }

  /** No key occurs twice, as in every object. */
  predicate UniqueKeys<V>(o: Object<V>) {
    forall i, j :: 0 <= i < j < |o| ==> o[i].0 != o[j].0
  }

  /** The position of key `k`: the first pair whose key is `k`. */
  function KeyIndex<V>(o: Object<V>, k: string): (r: Option<nat>)
    ensures r.Some? ==> r.value < |o| && o[r.value].0 == k
    ensures r.Some? ==> forall j :: 0 <= j < r.value ==> o[j].0 != k
    ensures r.None? <==> k !in Keys(o)
    decreases |o|
  {
    if |o| == 0 then None
    else if o[|o| - 1].0 == k && KeyIndex(o[..|o| - 1], k).None? then Some(|o| - 1)
    else
      assert Keys(o) == Keys(o[..|o| - 1]) + [o[|o| - 1].0];
      KeyIndex(o[..|o| - 1], k)
  }

  /** `o[k]`, or None for a missing key. */
  function Get<V>(o: Object<V>, k: string): (r: Option<V>)
    ensures r.None? <==> k !in Keys(o)
    ensures r.Some? ==> exists i :: 0 <= i < |o| && o[i] == (k, r.value)
  {
    match KeyIndex(o, k)
    case None => None
    case Some(i) => Some(o[i].1)
  }

  /** `o[k] = v`. */
  function Set<V>(o: Object<V>, k: string, v: V): (r: Object<V>)
    ensures Get(r, k) == Some(v)
    ensures forall k' :: k' != k ==> Get(r, k') == Get(o, k')
    ensures k in Keys(o) ==> Keys(r) == Keys(o)
    ensures k !in Keys(o) ==> Keys(r) == Keys(o) + [k]
    ensures UniqueKeys(o) ==> UniqueKeys(r)
  {
    match KeyIndex(o, k)
    case Some(i) =>
      var r := o[i := (k, v)];
      assert Keys(r) == Keys(o);
      forall k' | k' != k ensures KeyIndex(r, k') == KeyIndex(o, k') {
        KeyIndexFirst(r, k', KeyIndex(o, k'));
      }
      KeyIndexFirst(r, k, Some(i));
      r
    case None =>
      var r := o + [(k, v)];
      assert Keys(r) == Keys(o) + [k];
      forall k' | k' != k ensures KeyIndex(r, k') == KeyIndex(o, k') {
        KeyIndexFirst(r, k', KeyIndex(o, k'));
      }
      KeyIndexFirst(r, k, Some(|o|));
      r
  }

  /** The position of a key is the one index that has the key and no earlier index has. */
  lemma KeyIndexFirst<V>(o: Object<V>, k: string, i: Option<nat>)
    requires i.Some? ==> i.value < |o| && o[i.value].0 == k && forall j :: 0 <= j < i.value ==> o[j].0 != k
    requires i.None? ==> forall j :: 0 <= j < |o| ==> o[j].0 != k
    ensures KeyIndex(o, k) == i
  {
    if i.Some? {
      assert Keys(o)[i.value] == k;
    }
  }

  /** The value of the last pair of `us` whose key is `k`. */
  function LastValue<V>(us: seq<(string, V)>, k: string): (r: Option<V>)
    ensures r.None? <==> forall i :: 0 <= i < |us| ==> us[i].0 != k
    ensures r.Some? ==> exists i :: (0 <= i < |us| && us[i] == (k, r.value)
                                     && forall j :: i < j < |us| ==> us[j].0 != k)
  {
    if |us| == 0 then None
    else if us[|us| - 1].0 == k then Some(us[|us| - 1].1)
    else LastValue(us[..|us| - 1], k)
  }

  /** Assigns every pair of `us` to `o`, in order. */
  function SetAll<V>(o: Object<V>, us: seq<(string, V)>): (r: Object<V>)
    ensures forall k :: Get(r, k) == if LastValue(us, k).Some? then LastValue(us, k) else Get(o, k)
    ensures UniqueKeys(o) ==> UniqueKeys(r)
    ensures |o| <= |r| && Keys(r)[..|o|] == Keys(o)
  {
    if |us| == 0 then o
    else
      var p := SetAll(o, us[..|us| - 1]);
      var u := us[|us| - 1];
      var r := Set(p, u.0, u.1);
      assert Keys(r)[..|p|] == Keys(p);
      assert Keys(r)[..|o|] == Keys(p)[..|o|];
      r
  }

  /** An object built from scratch by a sequence of assignments: every key is assigned
      its last value, and keys appear in the order of their first assignment. */
  lemma {:induction false} FromScratch<V>(us: seq<(string, V)>, k: string)
    ensures UniqueKeys(SetAll([], us))
    ensures Get(SetAll([], us), k) == LastValue(us, k)
    ensures k in Keys(SetAll([], us)) <==> exists i :: 0 <= i < |us| && us[i].0 == k
  {
    var empty: Object<V> := [];
    assert Get(empty, k).None?;
    assert UniqueKeys(empty);
  }

  /** When every pair carries the same value, the last value for a key is that value. */
  lemma {:induction false} LastValueConst<V>(us: seq<(string, V)>, k: string, v: V)
    requires forall i :: 0 <= i < |us| ==> us[i].1 == v
    ensures LastValue(us, k) == if k in Keys(us) then Some(v) else None
  {
    if k in Keys(us) {
      var i :| 0 <= i < |us| && Keys(us)[i] == k;
    }
  }
}
