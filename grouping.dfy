/**
 * Python's `defaultdict(list)` filled by `grouped[key(v)].append(v)`: a map
 * from keys to lists, together with the order in which keys were first
 * inserted (the order in which `dict.items()` later yields them).
 */
module Grouping {

  datatype Grouped<K, V> = Grouped(keys: seq<K>, groups: map<K, seq<V>>)

  predicate Distinct<K(==)>(ks: seq<K>) {
    forall i, j :: 0 <= i < j < |ks| ==> ks[i] != ks[j]
  }

  /** Keys listed once each, exactly the keys of the map, each with a non-empty list. */
  ghost predicate WellFormed<K, V>(g: Grouped<K, V>) {
    Distinct(g.keys) &&
    (forall i :: 0 <= i < |g.keys| ==> g.keys[i] in g.groups) &&
    (forall k :: k in g.groups ==> k in g.keys) &&
    (forall k :: k in g.groups ==> g.groups[k] != [])
  }


  /** One `grouped[k].append(v)`. */
  function Add<K, V>(g: Grouped<K, V>, k: K, v: V): Grouped<K, V> {
    if k in g.groups then Grouped(g.keys, g.groups[k := g.groups[k] + [v]])
    else Grouped(g.keys + [k], g.groups[k := [v]])
  }

  /** The grouping the loop builds after visiting every element of `s` in order. */
  function GroupBy<K, V>(s: seq<V>, keyOf: V -> K): Grouped<K, V> {
    if s == [] then Grouped([], map[])
    else Add(GroupBy(s[..|s| - 1], keyOf), keyOf(s[|s| - 1]), s[|s| - 1])
  }

  /** The elements of `s` whose key is `k`, in their order in `s`: the reference for one group. */
  function Having<K(==), V>(s: seq<V>, keyOf: V -> K, k: K): (r: seq<V>)
    ensures |r| <= |s|
    ensures forall v :: v in r ==> v in s && keyOf(v) == k
  {
    if s == [] then []
    else if keyOf(s[|s| - 1]) == k then Having(s[..|s| - 1], keyOf, k) + [s[|s| - 1]]
    else Having(s[..|s| - 1], keyOf, k)
  }

  lemma {:induction false} HavingNone<K, V>(s: seq<V>, keyOf: V -> K, k: K)
    requires forall i :: 0 <= i < |s| ==> keyOf(s[i]) != k
    ensures Having(s, keyOf, k) == []
  {
    if s != [] {
      HavingNone(s[..|s| - 1], keyOf, k);
    }
  }

  /** Every element is in the list of its own key. */
  lemma {:induction false} HavingHas<K, V>(s: seq<V>, keyOf: V -> K, j: nat)
    requires j < |s|
    ensures s[j] in Having(s, keyOf, keyOf(s[j]))
  {
    if j < |s| - 1 {
      HavingHas(s[..|s| - 1], keyOf, j);
    }
  }

  /**
   * Grouping is well formed, has a key exactly for the keys that occur in `s`,
   * and each key's list is the subsequence of `s` with that key.
   */
  lemma {:induction false} GroupByCorrect<K, V>(s: seq<V>, keyOf: V -> K)
    ensures WellFormed(GroupBy(s, keyOf))
    ensures forall k :: k in GroupBy(s, keyOf).groups <==> exists i :: 0 <= i < |s| && keyOf(s[i]) == k
    ensures forall k :: k in GroupBy(s, keyOf).groups ==> GroupBy(s, keyOf).groups[k] == Having(s, keyOf, k)
  {
    if s != [] {
      var init, last := s[..|s| - 1], s[|s| - 1];
      GroupByCorrect(init, keyOf);
      var g := GroupBy(init, keyOf);
      var g' := GroupBy(s, keyOf);
      assert g' == Add(g, keyOf(last), last);
      forall k ensures k in g'.groups <==> exists i :: 0 <= i < |s| && keyOf(s[i]) == k {
        if k in g'.groups && k != keyOf(last) {
          var i :| 0 <= i < |init| && keyOf(init[i]) == k;
          assert s[i] == init[i];
        }
        if (exists i :: 0 <= i < |s| && keyOf(s[i]) == k) && k != keyOf(last) {
          var i :| 0 <= i < |s| && keyOf(s[i]) == k;
          assert i < |init| && init[i] == s[i];
        }
      }
      forall k | k in g'.groups ensures g'.groups[k] == Having(s, keyOf, k) {
        if k != keyOf(last) {
          assert Having(s, keyOf, k) == Having(init, keyOf, k);
        } else if k !in g.groups {
          HavingNone(init, keyOf, k);
        }
      }
    }
  }

  /** The loop of `_group_by_month` and `get_entries_by_date`: append each element to its key's list. */
  method GroupInto<K(==), V>(s: seq<V>, keyOf: V -> K) returns (g: Grouped<K, V>)
    ensures g == GroupBy(s, keyOf)
    ensures WellFormed(g)
    ensures forall k :: k in g.groups <==> exists i :: 0 <= i < |s| && keyOf(s[i]) == k
    ensures forall k :: k in g.groups ==> g.groups[k] == Having(s, keyOf, k)
  {
    g := Grouped([], map[]);
    var i := 0;
    while i < |s|
      invariant 0 <= i <= |s|
      invariant g == GroupBy(s[..i], keyOf)
    {
      assert s[..i + 1][..i] == s[..i];
      g := Add(g, keyOf(s[i]), s[i]);
      i := i + 1;
    }
    assert s[..i] == s;
    GroupByCorrect(s, keyOf);
  }
}
