/** Sequences up to reordering. */
module Permutations {
  import opened Text

  predicate NoDuplicates<T(==)>(s: seq<T>) {
    forall i, j :: 0 <= i < j < |s| ==> s[i] != s[j]
  }

  function Map<T, U>(f: T --> U, s: seq<T>): (r: seq<U>)
    requires forall i :: 0 <= i < |s| ==> f.requires(s[i])
    ensures |r| == |s| && forall i :: 0 <= i < |s| ==> r[i] == f(s[i])
  {
    if s == [] then [] else [f(s[0])] + Map(f, s[1..])
  }

  lemma Remove<T>(s: seq<T>, i: nat)
    requires i < |s|
    ensures multiset(s[..i] + s[i + 1..]) == multiset(s) - multiset{s[i]}
  {
    assert s == s[..i] + ([s[i]] + s[i + 1..]);
  }

  lemma Locate<T>(x: T, s: seq<T>) returns (i: nat)
    requires x in multiset(s)
    ensures i < |s| && s[i] == x
  {
    i :| 0 <= i < |s| && s[i] == x;
  }

  function Without<T>(s: seq<T>, i: nat): (r: seq<T>)
    requires i < |s|
    ensures |r| == |s| - 1
  {
    s[..i] + s[i + 1..]
  }

  lemma MapAppend<T, U>(f: T --> U, a: seq<T>, b: seq<T>)
    requires forall k :: 0 <= k < |a| ==> f.requires(a[k])
    requires forall k :: 0 <= k < |b| ==> f.requires(b[k])
    ensures Map(f, a + b) == Map(f, a) + Map(f, b)
  {
    hide Map;
    var mapped := Map(f, a) + Map(f, b);
    assert |Map(f, a + b)| == |mapped|;
    forall k | 0 <= k < |mapped| ensures Map(f, a + b)[k] == mapped[k] {
      assert (a + b)[k] == if k < |a| then a[k] else b[k - |a|];
    }
  }

  lemma MapWithout<T, U>(f: T --> U, s: seq<T>, i: nat)
    requires i < |s|
    requires forall k :: 0 <= k < |s| ==> f.requires(s[k])
    ensures forall k :: 0 <= k < |s| - 1 ==> f.requires(Without(s, i)[k])
    ensures multiset(Map(f, s)) == multiset(Map(f, Without(s, i))) + multiset{f(s[i])}
  {
    var front, back := s[..i], s[i + 1..];
    assert s == front + ([s[i]] + back);
    MapAppend(f, front, back);
    MapAppend(f, [s[i]], back);
    MapAppend(f, front, [s[i]] + back);
    assert Map(f, [s[i]]) == [f(s[i])];
  }

  /** Reordering the arguments reorders the images. */
  lemma {:induction false} MapOfPermutation<T, U>(f: T --> U, a: seq<T>, b: seq<T>)
    requires multiset(a) == multiset(b)
    requires forall i :: 0 <= i < |a| ==> f.requires(a[i])
    requires forall i :: 0 <= i < |b| ==> f.requires(b[i])
    ensures multiset(Map(f, a)) == multiset(Map(f, b))
    decreases |a|
  {
    hide Map;
    assert |multiset(a)| == |a| && |multiset(b)| == |b|;
    if a == [] {
      assert a == b;
    } else {
      assert a[0] in multiset(a);
      var i := Locate(a[0], b);
      Remove(a, 0);
      Remove(b, i);
      MapWithout(f, a, 0);
      MapWithout(f, b, i);
      MapOfPermutation(f, Without(a, 0), Without(b, i));
    }
  }

  lemma {:induction false} CountsOfDistinct<T>(s: seq<T>)
    ensures NoDuplicates(s) <==> forall x :: x in multiset(s) ==> multiset(s)[x] == 1
  {
    if s != [] {
      var last := s[|s| - 1];
      var front := s[..|s| - 1];
      assert s == front + [last];
      CountsOfDistinct(front);
      if NoDuplicates(s) {
        assert last !in multiset(front);
      } else if NoDuplicates(front) {
        assert last in front;
        assert multiset(s)[last] >= 2;
      } else {
        var x :| x in multiset(front) && multiset(front)[x] != 1;
        assert multiset(s)[x] >= multiset(front)[x] >= 2;
      }
    }
  }

  lemma DistinctUnderPermutation<T>(a: seq<T>, b: seq<T>)
    requires multiset(a) == multiset(b)
    ensures NoDuplicates(a) <==> NoDuplicates(b)
  {
    CountsOfDistinct(a);
    CountsOfDistinct(b);
  }

  lemma SameMembers<T>(a: seq<T>, b: seq<T>)
    requires multiset(a) == multiset(b)
    ensures |a| == |b|
    ensures forall x :: x in a <==> x in b
  {
    assert |multiset(a)| == |a| && |multiset(b)| == |b|;
    assert forall x :: x in a <==> x in multiset(a);
    assert forall x :: x in b <==> x in multiset(b);
  }

  /** The values by key, a later one replacing an earlier one. */
  function IndexBy<K, V>(key: V -> K, values: seq<V>): map<K, V> {
    if values == [] then map[]
    else
      var last := values[|values| - 1];
      IndexBy(key, values[..|values| - 1])[key(last) := last]
  }

  method BuildIndex<K, V>(key: V -> K, values: seq<V>) returns (index: map<K, V>)
    ensures index == IndexBy(key, values)
  {
    index := map[];
    for i := 0 to |values|
      invariant index == IndexBy(key, values[..i])
    {
      assert values[..i + 1][..i] == values[..i];
      index := index[key(values[i]) := values[i]];
    }
    assert values[..|values|] == values;
  }

  lemma LastKeyRepeats<K, V>(key: V -> K, values: seq<V>)
    requires values != []
    ensures var front, last := values[..|values| - 1], values[|values| - 1];
            NoDuplicates(Map(key, values)) <==>
              NoDuplicates(Map(key, front)) && !(exists v :: v in front && key(v) == key(last))
  {
    var front, last := values[..|values| - 1], values[|values| - 1];
    assert values == front + [last];
    assert Map(key, values) == Map(key, front) + [key(last)];
    if v :| v in front && key(v) == key(last) {
      var i :| 0 <= i < |front| && front[i] == v;
      assert Map(key, values)[i] == Map(key, values)[|front|];
    }
  }

  lemma {:induction false} DuplicatesStay<K, V>(key: V -> K, values: seq<V>, n: nat)
    requires n <= |values| && NoDuplicates(Map(key, values))
    ensures NoDuplicates(Map(key, values[..n]))
  {
    assert Map(key, values[..n]) == Map(key, values)[..n];
  }

  /** An index of values that must have distinct keys, none of them `blank`. */
  method IndexDistinct<K(==), V>(key: V -> K, blank: K, values: seq<V>) returns (r: Option<map<K, V>>)
    ensures r.Some? <==> (forall i :: 0 <= i < |values| ==> key(values[i]) != blank) && NoDuplicates(Map(key, values))
    ensures r.Some? ==> r.value == IndexBy(key, values)
  {
    hide Map, NoDuplicates;
    var index: map<K, V> := map[];
    EmptyHasNoDuplicates(key);
    for i := 0 to |values|
      invariant index == IndexBy(key, values[..i])
      invariant NoDuplicates(Map(key, values[..i]))
      invariant forall k :: 0 <= k < i ==> key(values[k]) != blank
    {
      assert values[..i + 1][..i] == values[..i];
      IndexOfDistinct(key, values[..i]);
      LastKeyRepeats(key, values[..i + 1]);
      if key(values[i]) == blank {
        return None;
      }
      if key(values[i]) in index {
        if NoDuplicates(Map(key, values)) {
          DuplicatesStay(key, values, i + 1);
        }
        return None;
      }
      index := index[key(values[i]) := values[i]];
    }
    assert values[..|values|] == values;
    return Some(index);
  }

  lemma EmptyHasNoDuplicates<K, V>(key: V -> K)
    ensures NoDuplicates(Map(key, [])) && IndexBy(key, []) == map[]
  {
  }

  /** With distinct keys, the index holds every value under its key and nothing else. */
  lemma {:induction false} IndexOfDistinct<K, V>(key: V -> K, values: seq<V>)
    requires NoDuplicates(Map(key, values))
    ensures forall v :: v in values ==> key(v) in IndexBy(key, values) && IndexBy(key, values)[key(v)] == v
    ensures forall k :: k in IndexBy(key, values) ==>
              IndexBy(key, values)[k] in values && key(IndexBy(key, values)[k]) == k
  {
    hide Map, NoDuplicates;
    if values != [] {
      var front, last := values[..|values| - 1], values[|values| - 1];
      assert values == front + [last];
      LastKeyRepeats(key, values);
      IndexOfDistinct(key, front);
    }
  }

  /** The order of distinct values does not show in their index. */
  lemma IndexOfPermutation<K, V>(key: V -> K, a: seq<V>, b: seq<V>)
    requires multiset(a) == multiset(b) && NoDuplicates(Map(key, a))
    ensures NoDuplicates(Map(key, b)) && IndexBy(key, a) == IndexBy(key, b)
  {
    hide IndexBy, Map;
    MapOfPermutation(key, a, b);
    DistinctUnderPermutation(Map(key, a), Map(key, b));
    IndexOfDistinct(key, a);
    IndexOfDistinct(key, b);
    SameMembers(a, b);
    assert IndexBy(key, a).Keys == IndexBy(key, b).Keys;
  }
}
