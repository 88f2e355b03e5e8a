/**
 * The journal page's view logic (frontend/src/pages/JournalView.jsx): the
 * `entries_by_date` object the page receives, the type and search filters
 * `applyFilters` applies to it, the dates in display order and the entry
 * count. React state and rendering are not part of this model.
 */
module JournalView {
  import opened Strings
  import opened Filtering
  import opened Sorting
  import opened Grouping

  /** An entry as the page reads it: the fields the filters look at. */
  datatype ViewEntry = ViewEntry(entryType: string, title: string, content: string)

  /** A JavaScript object from date strings to entry lists; `keys` is `Object.keys` order. */
  type DateMap = Grouped<string, ViewEntry>

  /** Keys listed once each, and exactly the object's properties. */
  ghost predicate IsObject(m: DateMap) {
    Distinct(m.keys) && forall d :: d in m.groups <==> d in m.keys
  }

  function EntriesOn(groups: map<string, seq<ViewEntry>>, d: string): seq<ViewEntry> {
    if d in groups then groups[d] else []
  }

  /* ---------------- One filtering pass ---------------- */

  /**
   * `Object.keys(filtered).reduce((acc, date) => ...)`: each date's entries
   * filtered by `p`, dates left with no entry dropped.
   */
  function KeepWhere(keys: seq<string>, groups: map<string, seq<ViewEntry>>, p: ViewEntry -> bool): DateMap {
    if keys == [] then Grouped([], map[])
    else
      var acc := KeepWhere(keys[..|keys| - 1], groups, p);
      var date := keys[|keys| - 1];
      var kept := Filter(EntriesOn(groups, date), p);
      if |kept| > 0 then Grouped(acc.keys + [date], acc.groups[date := kept]) else acc
  }

  /** Whether a date still has an entry after filtering by `p`. */
  function HasMatch(groups: map<string, seq<ViewEntry>>, p: ViewEntry -> bool): string -> bool {
    d => Filter(EntriesOn(groups, d), p) != []
  }

  /**
   * A pass keeps the dates that still have entries, in their order, and
   * gives each the entries that pass the filter, in their order.
   */
  lemma {:induction false} KeepWhereSpec(keys: seq<string>, groups: map<string, seq<ViewEntry>>, p: ViewEntry -> bool)
    ensures KeepWhere(keys, groups, p).keys == Filter(keys, HasMatch(groups, p))
    ensures forall d :: d in KeepWhere(keys, groups, p).groups <==> d in KeepWhere(keys, groups, p).keys
    ensures forall d :: d in KeepWhere(keys, groups, p).groups ==>
              KeepWhere(keys, groups, p).groups[d] == Filter(EntriesOn(groups, d), p)
  {
    if keys != [] {
      KeepWhereSpec(keys[..|keys| - 1], groups, p);
    }
  }

  /** A filter of a list without repeats has none. */
  lemma {:induction false} FilterDistinct<T>(s: seq<T>, p: T -> bool)
    requires Distinct(s)
    ensures Distinct(Filter(s, p))
  {
    if s != [] {
      var init, x := s[..|s| - 1], s[|s| - 1];
      FilterDistinct(init, p);
      FilterMembers(init, p, x);
      assert x !in init by {
        forall i | 0 <= i < |init| ensures init[i] != x {
          assert s[i] == init[i];
        }
      }
      var f := Filter(init, p);
      forall i, j | 0 <= i < j < |f| + (if p(x) then 1 else 0)
        ensures Filter(s, p)[i] != Filter(s, p)[j]
      {
        if j == |f| {
          assert f[i] in f;
        }
      }
    }
  }

  /** A pass over an object yields an object. */
  lemma KeepWhereObject(m: DateMap, p: ViewEntry -> bool)
    requires IsObject(m)
    ensures IsObject(KeepWhere(m.keys, m.groups, p))
  {
    KeepWhereSpec(m.keys, m.groups, p);
    FilterDistinct(m.keys, p := HasMatch(m.groups, p));
  }

  /* ---------------- `applyFilters` ---------------- */

  const AllTypes: string := "ALL"

  /** `!searchQuery.trim()`: the query is white space only. */
  predicate Blank(q: string) {
    forall i :: 0 <= i < |q| ==> IsJsSpace(q[i])
  }

  /** A query is blank exactly when `trim()` leaves nothing of it. */
  lemma {:induction false} BlankIffTrimmedEmpty(q: string)
    ensures Blank(q) <==> JsTrim(q) == []
    decreases |q|
  {
    if q != [] && IsJsSpace(q[0]) {
      BlankIffTrimmedEmpty(q[1..]);
      assert Blank(q) <==> Blank(q[1..]) by {
        if Blank(q[1..]) {
          forall i | 0 < i < |q| ensures IsJsSpace(q[i]) {
            assert q[i] == q[1..][i - 1];
          }
        }
      }
    } else if q != [] && IsJsSpace(q[|q| - 1]) {
      BlankIffTrimmedEmpty(q[..|q| - 1]);
      assert !IsJsSpace(q[0]);
      assert !Blank(q);
      if |q| > 1 {
        assert q[..|q| - 1][0] == q[0];
      }
    }
  }

  function OfType(filterType: string): ViewEntry -> bool {
    (e: ViewEntry) => e.entryType == filterType
  }

  /** `title.toLowerCase().includes(query) || content.toLowerCase().includes(query)`. */
  function Mentions(query: string): ViewEntry -> bool {
    (e: ViewEntry) => Contains(Lower(e.title), query) || Contains(Lower(e.content), query)
  }

  /** `applyFilters`: the type filter unless it is `'ALL'`, then the search unless the query is blank. */
  function ApplyFilters(entries: DateMap, filterType: string, searchQuery: string): DateMap {
    var byType := if filterType != AllTypes then KeepWhere(entries.keys, entries.groups, OfType(filterType)) else entries;
    if !Blank(searchQuery) then KeepWhere(byType.keys, byType.groups, Mentions(Lower(searchQuery))) else byType
  }

  /** What one entry must satisfy to be shown. */
  predicate Shown(e: ViewEntry, filterType: string, searchQuery: string) {
    (filterType == AllTypes || e.entryType == filterType) &&
    (Blank(searchQuery) || Mentions(Lower(searchQuery))(e))
  }

  function ShownBy(filterType: string, searchQuery: string): ViewEntry -> bool {
    (e: ViewEntry) => Shown(e, filterType, searchQuery)
  }

  /** With `'ALL'` and a blank query the object is shown as it is. */
  lemma UnfilteredIsIdentity(entries: DateMap, searchQuery: string)
    requires Blank(searchQuery)
    ensures ApplyFilters(entries, AllTypes, searchQuery) == entries
  {
  }

  /** Two filters in a row keep what both predicates accept, in order. */
  lemma {:induction false} FilterTwice(s: seq<ViewEntry>, p: ViewEntry -> bool, q: ViewEntry -> bool,
                                       both: ViewEntry -> bool)
    requires forall e :: both(e) == (p(e) && q(e))
    ensures Filter(Filter(s, p), q) == Filter(s, both)
  {
    if s != [] {
      var init, x := s[..|s| - 1], s[|s| - 1];
      FilterTwice(init, p, q, both);
      FilterConcat(Filter(init, p), if p(x) then [x] else [], q);
      assert Filter([x], q) == Filter([], q) + (if q(x) then [x] else []);
    }
  }

  lemma FilterKeepsAll(s: seq<ViewEntry>, p: ViewEntry -> bool)
    requires forall e :: p(e)
    ensures Filter(s, p) == s
  {
    FilterAll(s, p);
  }

  /** The entries on a date after the type pass, whether or not it runs. */
  lemma TypePass(entries: DateMap, filterType: string, d: string)
    requires IsObject(entries)
    ensures var byType := if filterType != AllTypes then KeepWhere(entries.keys, entries.groups, OfType(filterType)) else entries;
            IsObject(byType) &&
            (d in byType.groups ==> byType.groups[d] == Filter(EntriesOn(entries.groups, d), ShownBy(filterType, "")))
  {
    if filterType != AllTypes {
      KeepWhereSpec(entries.keys, entries.groups, OfType(filterType));
      KeepWhereObject(entries, OfType(filterType));
      FilterTwice(EntriesOn(entries.groups, d), OfType(filterType), (e: ViewEntry) => true, ShownBy(filterType, ""));
      FilterKeepsAll(Filter(EntriesOn(entries.groups, d), OfType(filterType)), (e: ViewEntry) => true);
    } else {
      FilterKeepsAll(EntriesOn(entries.groups, d), ShownBy(filterType, ""));
    }
  }

  /**
   * The result is an object whose dates are dates of the input; each shows
   * the input's entries for that date that pass both filters, in their
   * order, and a filtered date with none left is dropped.
   */
  lemma ApplyFiltersSpec(entries: DateMap, filterType: string, searchQuery: string, d: string)
    requires IsObject(entries)
    ensures var r := ApplyFilters(entries, filterType, searchQuery);
            IsObject(r) &&
            (d in r.groups ==> d in entries.groups &&
                               r.groups[d] == Filter(EntriesOn(entries.groups, d), ShownBy(filterType, searchQuery))) &&
            (d in r.groups && (filterType != AllTypes || !Blank(searchQuery)) ==> r.groups[d] != [])
  {
    var byType := if filterType != AllTypes then KeepWhere(entries.keys, entries.groups, OfType(filterType)) else entries;
    TypePass(entries, filterType, d);
    if filterType != AllTypes {
      KeepWhereSpec(entries.keys, entries.groups, OfType(filterType));
      FilterMembers(entries.keys, HasMatch(entries.groups, OfType(filterType)), d);
    }
    if !Blank(searchQuery) {
      var p := Mentions(Lower(searchQuery));
      KeepWhereSpec(byType.keys, byType.groups, p);
      KeepWhereObject(byType, p);
      FilterMembers(byType.keys, HasMatch(byType.groups, p), d);
      FilterTwice(EntriesOn(entries.groups, d), ShownBy(filterType, ""), p, ShownBy(filterType, searchQuery));
    } else {
      FilterTwice(EntriesOn(entries.groups, d), ShownBy(filterType, ""), (e: ViewEntry) => true, ShownBy(filterType, searchQuery));
      FilterKeepsAll(Filter(EntriesOn(entries.groups, d), ShownBy(filterType, "")), (e: ViewEntry) => true);
    }
  }

  /** A date of the input with an entry that passes both filters is shown. */
  lemma ShownDateKept(entries: DateMap, filterType: string, searchQuery: string, d: string, e: ViewEntry)
    requires IsObject(entries)
    requires d in entries.groups && e in entries.groups[d] && Shown(e, filterType, searchQuery)
    ensures d in ApplyFilters(entries, filterType, searchQuery).groups
  {
    var byType := if filterType != AllTypes then KeepWhere(entries.keys, entries.groups, OfType(filterType)) else entries;
    TypePass(entries, filterType, d);
    if filterType != AllTypes {
      KeepWhereSpec(entries.keys, entries.groups, OfType(filterType));
      FilterMembers(entries.groups[d], OfType(filterType), e);
      FilterMembers(entries.keys, HasMatch(entries.groups, OfType(filterType)), d);
    }
    assert d in byType.groups;
    if !Blank(searchQuery) {
      var p := Mentions(Lower(searchQuery));
      FilterMembers(entries.groups[d], ShownBy(filterType, ""), e);
      FilterMembers(byType.groups[d], p, e);
      KeepWhereSpec(byType.keys, byType.groups, p);
      FilterMembers(byType.keys, HasMatch(byType.groups, p), d);
    }
  }

  /* ---------------- `sortedDates` and `totalEntries` ---------------- */

  /**
   * `Object.keys(filteredEntries).sort((a, b) => new Date(b) - new Date(a))`:
   * latest date first; `dateValue` is `new Date(...)`'s time value, and the
   * sort is stable.
   */
  function SortedDates(filtered: DateMap, dateValue: string -> int): seq<string> {
    SortDesc(filtered.keys, (d: string) => (dateValue(d), 0))
  }

  /** The dates come latest first, each shown date exactly once. */
  lemma SortedDatesOrdered(filtered: DateMap, dateValue: string -> int)
    ensures var r := SortedDates(filtered, dateValue);
            multiset(r) == multiset(filtered.keys) &&
            forall i, j :: 0 <= i < j < |r| ==> dateValue(r[i]) >= dateValue(r[j])
  {
    SortDescCorrect(filtered.keys, (d: string) => (dateValue(d), 0));
  }

  /** The number of entries over the given dates. */
  function CountOver(keys: seq<string>, groups: map<string, seq<ViewEntry>>): nat {
    if keys == [] then 0 else CountOver(keys[..|keys| - 1], groups) + |EntriesOn(groups, keys[|keys| - 1])|
  }

  /** `totalEntries`: the entries of the unfiltered object, over all dates. */
  function TotalEntries(entries: DateMap): nat {
    CountOver(entries.keys, entries.groups)
  }

  lemma {:induction false} CountOverFrame(keys: seq<string>, a: map<string, seq<ViewEntry>>, b: map<string, seq<ViewEntry>>)
    requires forall d :: d in keys ==> EntriesOn(a, d) == EntriesOn(b, d)
    ensures CountOver(keys, a) == CountOver(keys, b)
  {
    if keys != [] {
      assert keys[|keys| - 1] in keys;
      CountOverFrame(keys[..|keys| - 1], a, b);
    }
  }

  /** Appending one entry to a listed date adds one to the count. */
  lemma {:induction false} CountOverAppend(keys: seq<string>, groups: map<string, seq<ViewEntry>>, k: string, e: ViewEntry)
    requires Distinct(keys) && k in keys && k in groups
    ensures CountOver(keys, groups[k := groups[k] + [e]]) == CountOver(keys, groups) + 1
  {
    var init, last := keys[..|keys| - 1], keys[|keys| - 1];
    var after := groups[k := groups[k] + [e]];
    if last == k {
      assert k !in init by {
        forall i | 0 <= i < |init| ensures init[i] != k {
          assert keys[i] == init[i];
        }
      }
      CountOverFrame(init, groups, after);
    } else {
      var i :| 0 <= i < |keys| && keys[i] == k;
      assert init[i] == k;
      CountOverAppend(init, groups, k, e);
    }
  }

  /** A date not listed does not count. */
  lemma CountOverNew(keys: seq<string>, groups: map<string, seq<ViewEntry>>, k: string, e: ViewEntry)
    requires k !in keys
    ensures CountOver(keys + [k], groups[k := [e]]) == CountOver(keys, groups) + 1
  {
    CountOverFrame(keys, groups, groups[k := [e]]);
    assert (keys + [k])[..|keys|] == keys;
  }

  /**
   * An object built by grouping a list of entries by date, as the backend
   * builds `entries_by_date`, counts exactly as many entries as the list has.
   */
  lemma {:induction false} TotalOfGrouping(s: seq<ViewEntry>, dateOf: ViewEntry -> string)
    ensures TotalEntries(GroupBy(s, dateOf)) == |s|
  {
    if s != [] {
      var init, x := s[..|s| - 1], s[|s| - 1];
      var g := GroupBy(init, dateOf);
      TotalOfGrouping(init, dateOf);
      GroupByCorrect(init, dateOf);
      var k := dateOf(x);
      if k in g.groups {
        CountOverAppend(g.keys, g.groups, k, x);
      } else {
        CountOverNew(g.keys, g.groups, k, x);
      }
    }
  }
}
