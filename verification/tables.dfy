/**
 Lookup by string key in a table held as an enumeration: positions
 0 .. count-1 each hold one entry, and `key` gives the string the entry is
 stored under. This plays the part of indexing a JavaScript object literal.
 */
module Tables {
  import opened Text

  /** The first entry at a position from `i` on, below `count`, stored under `s`. */
  function FindKey<T>(at: nat -> Option<T>, key: T -> string, count: nat, i: nat, s: string): (r: Option<T>)
    ensures r.Some? ==> key(r.value) == s
    ensures r.Some? ==> exists j :: i <= j < count && at(j) == r
    ensures r.None? ==> forall j :: i <= j < count && at(j).Some? ==> key(at(j).value) != s
    decreases count - i
  {
    if i >= count then None
    else if at(i).Some? && key(at(i).value) == s then at(i)
    else FindKey(at, key, count, i + 1, s)
  }

  /** When every entry sits at some position below `count`, a search from position 0
      finds an entry under `s` exactly when one exists. */
  lemma FindKeyComplete<T>(at: nat -> Option<T>, key: T -> string, ordinal: T -> nat, count: nat, s: string)
    requires forall t :: ordinal(t) < count && at(ordinal(t)) == Some(t)
    ensures FindKey(at, key, count, 0, s).None? <==> forall t :: key(t) != s
  {
    var r := FindKey(at, key, count, 0, s);
    if r.None? {
      forall t
        ensures key(t) != s
      {
        assert at(ordinal(t)) == Some(t);
      }
    }
  }
}
