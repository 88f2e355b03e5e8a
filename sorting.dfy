/**
 * Descending sorts by a two-level key, as `ORDER BY a DESC, b DESC` in the
 * journal queries and `list.sort(key=..., reverse=True)` in the admin report
 * produce them. A single-level sort passes 0 as the second component.
 */
module Sorting {

  type Key = (int, int)

  /** `a` may come before `b` in a descending order. */
  predicate AtLeast(a: Key, b: Key) {
    a.0 > b.0 || (a.0 == b.0 && a.1 >= b.1)
  }

  predicate SortedDesc<T>(s: seq<T>, key: T -> Key) {
    forall i, j :: 0 <= i < j < |s| ==> AtLeast(key(s[i]), key(s[j]))
  }

  /** Places `x` in front of the first element it is at least as large as. */
  function Insert<T>(x: T, s: seq<T>, key: T -> Key): (r: seq<T>)
    ensures |r| == |s| + 1
  {
    if s == [] || AtLeast(key(x), key(s[0])) then [x] + s
    else [s[0]] + Insert(x, s[1..], key)
  }

  /** Insertion sort, largest key first; elements with equal keys keep their order. */
  function SortDesc<T>(s: seq<T>, key: T -> Key): (r: seq<T>)
    ensures |r| == |s|
  {
    if s == [] then [] else Insert(s[0], SortDesc(s[1..], key), key)
  }

  lemma {:induction false} InsertPermutes<T>(x: T, s: seq<T>, key: T -> Key)
    ensures multiset(Insert(x, s, key)) == multiset(s) + multiset{x}
  {
    if s != [] && !AtLeast(key(x), key(s[0])) {
      InsertPermutes(x, s[1..], key);
      assert s == [s[0]] + s[1..];
    }
  }

  lemma {:induction false} InsertSorted<T>(x: T, s: seq<T>, key: T -> Key)
    requires SortedDesc(s, key)
    ensures SortedDesc(Insert(x, s, key), key)
  {
    if s != [] && !AtLeast(key(x), key(s[0])) {
      InsertSorted(x, s[1..], key);
      InsertElements(x, s[1..], key);
      var r := Insert(x, s[1..], key);
      forall y | y in r ensures AtLeast(key(s[0]), key(y)) {
        if y != x {
          InsertOther(x, s[1..], key, y);
          var k :| 0 <= k < |s| - 1 && s[1..][k] == y;
          assert s[k + 1] == y;
        }
      }
      assert Insert(x, s, key) == [s[0]] + r;
      forall i, j | 0 <= i < j < |s| + 1 ensures AtLeast(key(([s[0]] + r)[i]), key(([s[0]] + r)[j])) {
        if i == 0 {
          assert ([s[0]] + r)[j] == r[j - 1];
        }
      }
    }
  }

  lemma InsertOther<T>(x: T, s: seq<T>, key: T -> Key, y: T)
    requires y in Insert(x, s, key) && y != x
    ensures y in s
  {
    InsertElements(x, s, key);
  }

  /** The elements of `Insert(x, s)` are `x` and those of `s`. */
  lemma {:induction false} InsertElements<T>(x: T, s: seq<T>, key: T -> Key)
    ensures forall y :: y in Insert(x, s, key) <==> y == x || y in s
  {
    if s != [] && !AtLeast(key(x), key(s[0])) {
      InsertElements(x, s[1..], key);
      assert s == [s[0]] + s[1..];
    }
  }

  /** The sort returns its input rearranged, largest key first. */
  lemma {:induction false} SortDescCorrect<T>(s: seq<T>, key: T -> Key)
    ensures SortedDesc(SortDesc(s, key), key)
    ensures multiset(SortDesc(s, key)) == multiset(s)
  {
    if s != [] {
      SortDescCorrect(s[1..], key);
      InsertSorted(s[0], SortDesc(s[1..], key), key);
      InsertPermutes(s[0], SortDesc(s[1..], key), key);
      assert s == [s[0]] + s[1..];
    }
  }

  /** Sorting keeps exactly the elements of the input. */
  lemma SortDescElements<T>(s: seq<T>, key: T -> Key)
    ensures forall y :: y in SortDesc(s, key) <==> y in s
  {
    SortDescCorrect(s, key);
    forall y ensures y in SortDesc(s, key) <==> y in s {
      assert y in SortDesc(s, key) <==> y in multiset(SortDesc(s, key));
      assert y in s <==> y in multiset(s);
    }
  }
}
