/**
 `Array.prototype.sort` with a comparator, which the sidebar uses to order
 its sections and the roles of its legend, and the default sort of the
 keyword categories. The engine's sort is stable, so it is modelled as a
 stable insertion sort by a key: the result is a permutation of the input,
 ordered by key, and elements with the same key keep their relative order.
 */
module Sorting {

  /** `lt` is a strict total order on keys: the comparison the comparator stands for. */
  ghost predicate StrictOrder<K(!new)>(lt: (K, K) -> bool) {
    && (forall a :: !lt(a, a))
    && (forall a, b, c :: lt(a, b) && lt(b, c) ==> lt(a, c))
    && (forall a, b :: lt(a, b) || a == b || lt(b, a))
  }

  /** No element is followed by one with a smaller key. */
  predicate Sorted<T, K>(s: seq<T>, key: T -> K, lt: (K, K) -> bool) {
    forall i, j :: 0 <= i < j < |s| ==> !lt(key(s[j]), key(s[i]))
  }

  /** The elements of `s` whose key is `v`, in their order in `s`. */
  function OnlyKey<T, K(==)>(s: seq<T>, key: T -> K, v: K): (r: seq<T>)
    ensures |r| <= |s|
    ensures forall i :: 0 <= i < |r| ==> key(r[i]) == v
  {
    if |s| == 0 then [] else (if key(s[0]) == v then [s[0]] else []) + OnlyKey(s[1..], key, v)
  }

  /** Places `x` after every element whose key is not greater than its own. */
  function Insert<T, K(==,!new)>(x: T, s: seq<T>, key: T -> K, lt: (K, K) -> bool): (r: seq<T>)
    requires StrictOrder(lt)
    ensures multiset(r) == multiset(s) + multiset{x}
    ensures |r| == |s| + 1
    ensures Sorted(s, key, lt) ==> Sorted(r, key, lt)
  {
    if |s| == 0 then [x]
    else if lt(key(x), key(s[0])) then
      if Sorted(s, key, lt) then SortedBelowHead(x, s, key, lt); [x] + s
      else [x] + s
    else
      var t := Insert(x, s[1..], key, lt);
      assert s == [s[0]] + s[1..];
      if Sorted(s, key, lt) then SortedAfterHead(s[0], s[1..], t, x, key, lt); [s[0]] + t
      else [s[0]] + t
  }

  /** An element below the head of a sorted sequence can lead it. */
  lemma SortedBelowHead<T, K(!new)>(x: T, s: seq<T>, key: T -> K, lt: (K, K) -> bool)
    requires StrictOrder(lt) && Sorted(s, key, lt)
    requires |s| > 0 && lt(key(x), key(s[0]))
    ensures Sorted([x] + s, key, lt)
  {
    forall j | 0 <= j < |s|
      ensures !lt(key(s[j]), key(x))
    {
      if j > 0 {
        assert !lt(key(s[j]), key(s[0]));
      }
    }
    SortedCons(x, s, key, lt);
  }

  /** The head of a sorted sequence still leads once an element no smaller than it is
      placed in the rest. */
  lemma SortedAfterHead<T, K>(y: T, rest: seq<T>, t: seq<T>, x: T, key: T -> K, lt: (K, K) -> bool)
    requires Sorted([y] + rest, key, lt) && Sorted(t, key, lt)
    requires multiset(t) == multiset(rest) + multiset{x} && !lt(key(x), key(y))
    ensures Sorted([y] + t, key, lt)
  {
    forall j | 0 <= j < |t|
      ensures !lt(key(t[j]), key(y))
    {
      var e := t[j];
      assert e in multiset(t);
      if e != x {
        assert e in multiset(rest);
        var k :| 0 <= k < |rest| && rest[k] == e;
        assert ([y] + rest)[k + 1] == e && ([y] + rest)[0] == y;
        assert !lt(key(([y] + rest)[k + 1]), key(([y] + rest)[0]));
      }
    }
    SortedCons(y, t, key, lt);
  }

  /** An element no greater than every element of a sorted sequence can lead it. */
  lemma SortedCons<T, K>(y: T, t: seq<T>, key: T -> K, lt: (K, K) -> bool)
    requires Sorted(t, key, lt)
    requires forall j :: 0 <= j < |t| ==> !lt(key(t[j]), key(y))
    ensures Sorted([y] + t, key, lt)
  {
    forall i, j | 0 <= i < j < |[y] + t|
      ensures !lt(key(([y] + t)[j]), key(([y] + t)[i]))
    {
      if i > 0 {
        assert ([y] + t)[i] == t[i - 1] && ([y] + t)[j] == t[j - 1];
      }
    }
  }

  /** The stable sort of `s` by `key`: each element is inserted in turn, after the ones
      with an equal key that came before it. */
  function SortBy<T, K(==,!new)>(s: seq<T>, key: T -> K, lt: (K, K) -> bool): (r: seq<T>)
    requires StrictOrder(lt)
    ensures multiset(r) == multiset(s)
    ensures |r| == |s|
    ensures Sorted(r, key, lt)
  {
    if |s| == 0 then []
    else
      var p := s[..|s| - 1];
      assert s == p + [s[|s| - 1]];
      Insert(s[|s| - 1], SortBy(p, key, lt), key, lt)
  }

  lemma {:induction false} OnlyKeyAppend<T, K>(a: seq<T>, b: seq<T>, key: T -> K, v: K)
    ensures OnlyKey(a + b, key, v) == OnlyKey(a, key, v) + OnlyKey(b, key, v)
    decreases |a|
  {
    if |a| > 0 {
      assert (a + b)[1..] == a[1..] + b;
      OnlyKeyAppend(a[1..], b, key, v);
    } else {
      assert a + b == b;
    }
  }

  /** In a sorted sequence whose first key is above `k`, no key equals `k`. */
  lemma AboveFirst<T, K(!new)>(s: seq<T>, key: T -> K, lt: (K, K) -> bool, k: K)
    requires StrictOrder(lt) && Sorted(s, key, lt)
    requires |s| > 0 && lt(k, key(s[0]))
    ensures forall i :: 0 <= i < |s| ==> key(s[i]) != k
  {
    forall i | 0 <= i < |s|
      ensures key(s[i]) != k
    {
      if i > 0 {
        assert !lt(key(s[i]), key(s[0]));
      }
    }
  }

  lemma {:induction false} OnlyKeyNone<T, K>(s: seq<T>, key: T -> K, v: K)
    requires forall i :: 0 <= i < |s| ==> key(s[i]) != v
    ensures OnlyKey(s, key, v) == []
    decreases |s|
  {
    if |s| > 0 {
      OnlyKeyNone(s[1..], key, v);
    }
  }

  /** Inserting into a sorted sequence puts `x` after every element with its key. */
  lemma {:induction false} OnlyKeyInsert<T, K(!new)>(x: T, s: seq<T>, key: T -> K, lt: (K, K) -> bool, v: K)
    requires StrictOrder(lt) && Sorted(s, key, lt)
    ensures OnlyKey(Insert(x, s, key, lt), key, v)
      == OnlyKey(s, key, v) + (if key(x) == v then [x] else [])
    decreases |s|
  {
    var mine := if key(x) == v then [x] else [];
    if |s| == 0 {
      assert OnlyKey([x], key, v) == mine + OnlyKey([x][1..], key, v);
    } else if lt(key(x), key(s[0])) {
      if key(x) == v {
        AboveFirst(s, key, lt, key(x));
        OnlyKeyNone(s, key, v);
      }
      calc {
        OnlyKey(Insert(x, s, key, lt), key, v);
        OnlyKey([x] + s, key, v);
        { assert ([x] + s)[1..] == s; }
        mine + OnlyKey(s, key, v);
        OnlyKey(s, key, v) + mine;
      }
    } else {
      var t := Insert(x, s[1..], key, lt);
      var head := if key(s[0]) == v then [s[0]] else [];
      assert Sorted(s[1..], key, lt);
      calc {
        OnlyKey(Insert(x, s, key, lt), key, v);
        OnlyKey([s[0]] + t, key, v);
        { assert ([s[0]] + t)[1..] == t; }
        head + OnlyKey(t, key, v);
        { OnlyKeyInsert(x, s[1..], key, lt, v); }
        head + (OnlyKey(s[1..], key, v) + mine);
        (head + OnlyKey(s[1..], key, v)) + mine;
        OnlyKey(s, key, v) + mine;
      }
    }
  }

  /** Stability: the elements with any one key come out in their input order. */
  lemma {:induction false} SortByStable<T, K(!new)>(s: seq<T>, key: T -> K, lt: (K, K) -> bool, v: K)
    requires StrictOrder(lt)
    ensures OnlyKey(SortBy(s, key, lt), key, v) == OnlyKey(s, key, v)
    decreases |s|
  {
    if |s| > 0 {
      var p := s[..|s| - 1];
      var x := s[|s| - 1];
      assert s == p + [x];
      SortByStable(p, key, lt, v);
      OnlyKeyInsert(x, SortBy(p, key, lt), key, lt, v);
      OnlyKeyAppend(p, [x], key, v);
    }
  }

  /** Sorting an already sorted sequence leaves it as it is. */
  lemma {:induction false} SortBySorted<T, K(!new)>(s: seq<T>, key: T -> K, lt: (K, K) -> bool)
    requires StrictOrder(lt) && Sorted(s, key, lt)
    ensures SortBy(s, key, lt) == s
    decreases |s|
  {
    if |s| > 0 {
      var p := s[..|s| - 1];
      var x := s[|s| - 1];
      SortedInit(s, key, lt);
      calc {
        SortBy(s, key, lt);
        Insert(x, SortBy(p, key, lt), key, lt);
        { SortBySorted(p, key, lt); }
        Insert(x, p, key, lt);
        { InsertLast(x, p, key, lt); }
        p + [x];
        s;
      }
    }
  }

  /** A sorted sequence without its last element is sorted, and that element is no
      smaller than any before it. */
  lemma SortedInit<T, K>(s: seq<T>, key: T -> K, lt: (K, K) -> bool)
    requires |s| > 0 && Sorted(s, key, lt)
    ensures Sorted(s[..|s| - 1], key, lt)
    ensures forall i :: 0 <= i < |s| - 1 ==> !lt(key(s[|s| - 1]), key(s[i]))
  {
    var p := s[..|s| - 1];
    forall i, j | 0 <= i < j < |p|
      ensures !lt(key(p[j]), key(p[i]))
    {
      assert p[i] == s[i] && p[j] == s[j];
    }
  }

  /** Inserting an element no smaller than every key of `s` appends it. */
  lemma {:induction false} InsertLast<T, K(!new)>(x: T, s: seq<T>, key: T -> K, lt: (K, K) -> bool)
    requires StrictOrder(lt)
    requires forall i :: 0 <= i < |s| ==> !lt(key(x), key(s[i]))
    ensures Insert(x, s, key, lt) == s + [x]
    decreases |s|
  {
    if |s| > 0 {
      InsertLast(x, s[1..], key, lt);
      assert [s[0]] + (s[1..] + [x]) == s + [x];
    }
  }

  /** Number keys (section orders, role ranks) compared with `<`. */
  predicate RealLess(a: real, b: real) { a < b }

  lemma RealLessOrder()
    ensures StrictOrder(RealLess)
  {
  }

  /** No element occurs twice. */
  predicate NoDuplicates<T(==)>(s: seq<T>) {
    forall i, j :: 0 <= i < j < |s| ==> s[i] != s[j]
  }

  /** An element of a sequence without duplicates occurs in it at most once. */
  lemma {:induction false} AtMostOnce<T>(s: seq<T>, x: T)
    requires NoDuplicates(s)
    ensures multiset(s)[x] <= 1
    decreases |s|
  {
    if |s| > 0 {
      var p := s[..|s| - 1];
      assert s == p + [s[|s| - 1]];
      assert NoDuplicates(p);
      AtMostOnce(p, x);
      if x == s[|s| - 1] {
        assert x !in p;
      }
    }
  }

  /** A permutation of a sequence without duplicates has none either. */
  lemma PermutationNoDuplicates<T>(a: seq<T>, b: seq<T>)
    requires multiset(a) == multiset(b) && NoDuplicates(b)
    ensures NoDuplicates(a)
  {
    forall i, j | 0 <= i < j < |a|
      ensures a[i] != a[j]
    {
      if a[i] == a[j] {
        assert a == a[..i] + [a[i]] + a[i + 1..j] + [a[j]] + a[j + 1..];
        assert multiset(a)[a[i]] >= 2;
        AtMostOnce(b, a[i]);
      }
    }
  }

  /** Sorting a sequence without duplicate keys orders the keys strictly. */
  lemma SortedStrictly<T, K(!new)>(s: seq<T>, key: T -> K, lt: (K, K) -> bool)
    requires StrictOrder(lt) && Sorted(s, key, lt)
    requires forall i, j :: 0 <= i < j < |s| ==> key(s[i]) != key(s[j])
    ensures forall i, j :: 0 <= i < j < |s| ==> lt(key(s[i]), key(s[j]))
  {
  }
}
