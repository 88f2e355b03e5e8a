/**
 * The tables behind the journal service (backend/app/services/journal_service.py)
 * as values: the `journal_entries` rows in insertion order, the `sessions` rows
 * with their journal bookkeeping, and the `session_collaborators` pairs. The
 * queries are filters and descending sorts over the rows; `create_entry`,
 * `update_entry` and `delete_entry` are functions from one table state to the
 * next, together with what the call returns.
 */
module JournalStore {
  import opened Wrappers
  import opened Filtering
  import opened Sorting
  import opened Grouping
  import opened JournalModel

  /** The `sessions` columns the journal reads and writes. */
  datatype SessionRow = SessionRow(ownerId: string, journalEntryCount: int, lastJournalSynthesis: Option<Timestamp>)

  datatype Store = Store(
    entries: seq<JournalEntry>,
    sessions: map<string, SessionRow>,
    collaborators: set<(string, string)>,
    nextId: int)

  /**
   * How a `create_entry` call ends: both commits succeed, the first one (the
   * row) fails, or the second one (the session counter) fails after the row is
   * already committed.
   */
  datatype Fault = NoFault | InsertFails | CounterCommitFails

  /**
   * Serial ids in insertion order, each below the next id to hand out; every
   * row belongs to an existing session (the foreign key) and has a title that
   * fits its column.
   */
  predicate Valid(st: Store) {
    (forall i, j :: 0 <= i < j < |st.entries| ==> st.entries[i].id < st.entries[j].id) &&
    (forall i :: 0 <= i < |st.entries| ==>
       st.entries[i].id < st.nextId && st.entries[i].sessionId in st.sessions && ValidEntry(st.entries[i]))
  }

  /** Each session's `journal_entry_count` is the number of its rows. */
  predicate Counted(st: Store) {
    forall sid :: sid in st.sessions ==> st.sessions[sid].journalEntryCount == |SessionEntries(st.entries, sid)|
  }

  predicate CountsNonNegative(st: Store) {
    forall sid :: sid in st.sessions ==> st.sessions[sid].journalEntryCount >= 0
  }

  // Queries

  function InSession(sid: string): JournalEntry -> bool {
    (e: JournalEntry) => e.sessionId == sid
  }

  function OnDate(sid: string, d: Day): JournalEntry -> bool {
    (e: JournalEntry) => e.sessionId == sid && e.entryDate == d
  }

  function Since(sid: string, cutoff: Day): JournalEntry -> bool {
    (e: JournalEntry) => e.sessionId == sid && e.entryDate >= cutoff
  }

  /** The `start_date` and `end_date` filters; a missing bound does not filter. */
  function InRange(sid: string, start: Option<Day>, end: Option<Day>): JournalEntry -> bool {
    (e: JournalEntry) => e.sessionId == sid && (start.None? || e.entryDate >= start.value)
                         && (end.None? || e.entryDate <= end.value)
  }

  /** `ORDER BY entry_date DESC`. */
  function ByDate(): JournalEntry -> Key {
    (e: JournalEntry) => (e.entryDate, 0)
  }

  /** `ORDER BY created_at DESC`. */
  function ByCreation(): JournalEntry -> Key {
    (e: JournalEntry) => (e.createdAt, 0)
  }

  /** `ORDER BY entry_date DESC, created_at DESC`. */
  function ByDateThenCreation(): JournalEntry -> Key {
    (e: JournalEntry) => (e.entryDate, e.createdAt)
  }

  function SessionEntries(rows: seq<JournalEntry>, sid: string): seq<JournalEntry> {
    Filter(rows, InSession(sid))
  }

  /** The query of `format_journal_context`: a session's rows, newest date first. */
  function Timeline(rows: seq<JournalEntry>, sid: string): seq<JournalEntry> {
    SortDesc(Filter(rows, InSession(sid)), ByDate())
  }

  /** `get_entries_for_date`: one day's rows of a session, most recently created first. */
  function EntriesForDate(rows: seq<JournalEntry>, sid: string, d: Day): seq<JournalEntry> {
    SortDesc(Filter(rows, OnDate(sid, d)), ByCreation())
  }

  /** `_get_recent_entries(session_id, days)`: rows dated from `today - days` on, newest date first. */
  function RecentEntries(rows: seq<JournalEntry>, sid: string, today: Day, days: int): seq<JournalEntry> {
    SortDesc(Filter(rows, Since(sid, today - days)), ByDate())
  }

  /** The query of `get_entries_by_date`, before grouping. */
  function EntriesInRange(rows: seq<JournalEntry>, sid: string, start: Option<Day>, end: Option<Day>): seq<JournalEntry> {
    SortDesc(Filter(rows, InRange(sid, start, end)), ByDateThenCreation())
  }

  function IsoKey(isoFormat: Day -> string): JournalEntry -> string {
    (e: JournalEntry) => isoFormat(e.entryDate)
  }

  /** `get_entries_by_date`: the rows in range grouped under `entry_date.isoformat()`. */
  function EntriesByDate(rows: seq<JournalEntry>, sid: string, start: Option<Day>, end: Option<Day>,
                         isoFormat: Day -> string): Grouped<string, JournalEntry> {
    GroupBy(EntriesInRange(rows, sid, start, end), IsoKey(isoFormat))
  }

  /** A query returns exactly the rows its filter admits, each once, in descending order of its key. */
  lemma SortedSelection(rows: seq<JournalEntry>, p: JournalEntry -> bool, key: JournalEntry -> Key)
    ensures SortedDesc(SortDesc(Filter(rows, p), key), key)
    ensures multiset(SortDesc(Filter(rows, p), key)) <= multiset(rows)
    ensures forall e :: e in SortDesc(Filter(rows, p), key) <==> e in rows && p(e)
  {
    SortDescCorrect(Filter(rows, p), key);
    SortDescElements(Filter(rows, p), key);
    FilterMultiset(rows, p);
    forall e ensures e in Filter(rows, p) <==> e in rows && p(e) {
      FilterMembers(rows, p, e);
    }
  }

  /** `get_entries_for_date` lists exactly the session's rows of that day, most recently created first. */
  lemma EntriesForDateCorrect(rows: seq<JournalEntry>, sid: string, d: Day)
    ensures var r := EntriesForDate(rows, sid, d);
            (forall i, j :: 0 <= i < j < |r| ==> r[i].createdAt >= r[j].createdAt) &&
            multiset(r) <= multiset(rows) &&
            (forall e :: e in r <==> e in rows && e.sessionId == sid && e.entryDate == d)
  {
    SortedSelection(rows, OnDate(sid, d), ByCreation());
  }

  /** `_get_recent_entries` lists exactly the session's rows from the cutoff on, newest date first. */
  lemma RecentEntriesCorrect(rows: seq<JournalEntry>, sid: string, today: Day, days: int)
    ensures var r := RecentEntries(rows, sid, today, days);
            (forall i, j :: 0 <= i < j < |r| ==> r[i].entryDate >= r[j].entryDate) &&
            multiset(r) <= multiset(rows) &&
            (forall e :: e in r <==> e in rows && e.sessionId == sid && e.entryDate >= today - days)
  {
    SortedSelection(rows, Since(sid, today - days), ByDate());
  }

  /** The context query lists every row of the session once, newest date first. */
  lemma TimelineCorrect(rows: seq<JournalEntry>, sid: string)
    ensures var r := Timeline(rows, sid);
            (forall i, j :: 0 <= i < j < |r| ==> r[i].entryDate >= r[j].entryDate) &&
            multiset(r) <= multiset(rows) &&
            (forall e :: e in r <==> e in rows && e.sessionId == sid)
  {
    SortedSelection(rows, InSession(sid), ByDate());
  }

  /**
   * `get_entries_by_date`: one key per date present in range, each list
   * holding exactly the session's rows in range with that date, most recently
   * created first.
   */
  lemma EntriesByDateCorrect(rows: seq<JournalEntry>, sid: string, start: Option<Day>, end: Option<Day>,
                             isoFormat: Day -> string)
    ensures var g := EntriesByDate(rows, sid, start, end, isoFormat);
            WellFormed(g) &&
            (forall e :: e in rows && InRange(sid, start, end)(e) ==>
               isoFormat(e.entryDate) in g.groups && e in g.groups[isoFormat(e.entryDate)]) &&
            (forall k, e :: k in g.groups && e in g.groups[k] ==>
               e in rows && InRange(sid, start, end)(e) && isoFormat(e.entryDate) == k) &&
            (forall k :: k in g.groups ==> SortedDesc(g.groups[k], ByDateThenCreation()))
  {
    var s := EntriesInRange(rows, sid, start, end);
    SortedSelection(rows, InRange(sid, start, end), ByDateThenCreation());
    GroupByCorrect(s, IsoKey(isoFormat));
    forall e | e in rows && InRange(sid, start, end)(e)
      ensures isoFormat(e.entryDate) in GroupBy(s, IsoKey(isoFormat)).groups
      ensures e in GroupBy(s, IsoKey(isoFormat)).groups[isoFormat(e.entryDate)]
    {
      var j :| 0 <= j < |s| && s[j] == e;
      assert IsoKey(isoFormat)(s[j]) == isoFormat(e.entryDate);
      HavingHas(s, IsoKey(isoFormat), j);
    }
    forall k | k in GroupBy(s, IsoKey(isoFormat)).groups
      ensures SortedDesc(GroupBy(s, IsoKey(isoFormat)).groups[k], ByDateThenCreation())
    {
      HavingSorted(s, IsoKey(isoFormat), k, ByDateThenCreation());
    }
  }

  /** A group of a sorted list is sorted. */
  lemma {:induction false} HavingSorted<K>(s: seq<JournalEntry>, keyOf: JournalEntry -> K, k: K, key: JournalEntry -> Key)
    requires SortedDesc(s, key)
    ensures SortedDesc(Having(s, keyOf, k), key)
  {
    if s != [] {
      var init, last := s[..|s| - 1], s[|s| - 1];
      HavingSorted(init, keyOf, k, key);
      if keyOf(last) == k {
        var h := Having(init, keyOf, k);
        forall i | 0 <= i < |h| ensures AtLeast(key(h[i]), key(last)) {
          assert h[i] in init;
          var j :| 0 <= j < |init| && init[j] == h[i];
        }
        assert Having(s, keyOf, k) == h + [last];
      }
    }
  }

  // Row operations

  /** `self.db.query(JournalEntry).filter(JournalEntry.id == entry_id).first()`, as an index. */
  function FindEntry(rows: seq<JournalEntry>, id: int): (r: Option<nat>)
    ensures r.Some? ==> r.value < |rows| && rows[r.value].id == id
    ensures r.None? <==> forall i :: 0 <= i < |rows| ==> rows[i].id != id
  {
    if rows == [] then None
    else if rows[|rows| - 1].id == id then Some(|rows| - 1)
    else FindEntry(rows[..|rows| - 1], id)
  }

  /** The owner-or-collaborator check; a missing session admits nobody. */
  predicate HasAccess(st: Store, sid: string, user: string) {
    sid in st.sessions && (st.sessions[sid].ownerId == user || (sid, user) in st.collaborators)
  }

  /** The row `create_entry` inserts: the date backfilled with today, `source_message_ids or []`. */
  function NewEntry(st: Store, sid: string, req: JournalEntryCreate, createdBy: string,
                    sourceIds: Option<seq<int>>, today: Day, now: Timestamp): (e: JournalEntry)
    ensures e.id == st.nextId && e.sessionId == sid && e.createdBy == createdBy
    ensures e.entryDate == (if req.entryDate.Some? then req.entryDate.value else today)
    ensures e.title == req.title && e.content == req.content && e.entryType == req.entryType
    ensures e.sourceMessageIds.Some? && (sourceIds.Some? ==> e.sourceMessageIds.value == sourceIds.value)
    ensures sourceIds.None? ==> e.sourceMessageIds.value == []
    ensures e.createdAt == now && e.updatedAt == now && e.entryMetadata.None?
  {
    JournalEntry(st.nextId, sid, req.entryDate.GetOr(today), req.entryType, req.title, req.content, createdBy,
                 now, now, Some(sourceIds.GetOr([])), None)
  }

  /**
   * `create_entry`: the new state and the returned row, `None` when the call
   * raises. The row commit fails for a missing session (the foreign key) or an
   * injected fault, and then nothing changes. When the counter commit fails,
   * the row is already stored but the session is not updated.
   */
  function CreateEntry(st: Store, sid: string, req: JournalEntryCreate, createdBy: string,
                       sourceIds: Option<seq<int>>, today: Day, now: Timestamp, fault: Fault)
    : (r: (Store, Option<JournalEntry>))
    ensures r.1.Some? <==> fault.NoFault? && sid in st.sessions
    ensures fault.InsertFails? || sid !in st.sessions ==> r.0 == st
    ensures !fault.InsertFails? && sid in st.sessions ==>
              r.0.entries == st.entries + [NewEntry(st, sid, req, createdBy, sourceIds, today, now)] &&
              r.0.nextId == st.nextId + 1 && r.0.collaborators == st.collaborators
    ensures fault.CounterCommitFails? ==> r.0.sessions == st.sessions
    ensures fault.NoFault? && sid in st.sessions ==>
              r.1.value == NewEntry(st, sid, req, createdBy, sourceIds, today, now) &&
              r.0.sessions == st.sessions[sid := st.sessions[sid].(
                journalEntryCount := st.sessions[sid].journalEntryCount + 1, lastJournalSynthesis := Some(now))]
  {
    if fault.InsertFails? || sid !in st.sessions then (st, None)
    else
      var e := NewEntry(st, sid, req, createdBy, sourceIds, today, now);
      var inserted := st.(entries := st.entries + [e], nextId := st.nextId + 1);
      if fault.CounterCommitFails? then (inserted, None)
      else
        var row := st.sessions[sid];
        var counted := row.(journalEntryCount := row.journalEntryCount + 1, lastJournalSynthesis := Some(now));
        (inserted.(sessions := st.sessions[sid := counted]), Some(e))
  }

  /** `update_entry`'s field assignments: only the supplied fields change, and `updated_at` is stamped. */
  function ApplyUpdate(e: JournalEntry, u: JournalEntryUpdate, now: Timestamp): (r: JournalEntry)
    ensures r.id == e.id && r.sessionId == e.sessionId && r.createdBy == e.createdBy && r.createdAt == e.createdAt
    ensures r.sourceMessageIds == e.sourceMessageIds && r.entryMetadata == e.entryMetadata
    ensures r.title == (if u.title.Some? then u.title.value else e.title)
    ensures r.content == (if u.content.Some? then u.content.value else e.content)
    ensures r.entryType == (if u.entryType.Some? then u.entryType.value else e.entryType)
    ensures r.entryDate == (if u.entryDate.Some? then u.entryDate.value else e.entryDate)
    ensures r.updatedAt == now
  {
    e.(title := u.title.GetOr(e.title), content := u.content.GetOr(e.content),
       entryType := u.entryType.GetOr(e.entryType), entryDate := u.entryDate.GetOr(e.entryDate), updatedAt := now)
  }

  /** `update_entry`: `None` and no change for a missing row or session, or a user without access. */
  function UpdateEntry(st: Store, id: int, u: JournalEntryUpdate, user: string, now: Timestamp)
    : (r: (Store, Option<JournalEntry>))
    ensures r.1.None? <==> FindEntry(st.entries, id).None?
                           || !HasAccess(st, st.entries[FindEntry(st.entries, id).value].sessionId, user)
    ensures r.1.None? ==> r.0 == st
    ensures r.1.Some? ==>
              var i := FindEntry(st.entries, id).value;
              r.1.value == ApplyUpdate(st.entries[i], u, now) &&
              r.0 == st.(entries := st.entries[i := r.1.value])
  {
    match FindEntry(st.entries, id)
    case None => (st, None)
    case Some(i) =>
      if !HasAccess(st, st.entries[i].sessionId, user) then (st, None)
      else
        var e := ApplyUpdate(st.entries[i], u, now);
        (st.(entries := st.entries[i := e]), Some(e))
  }

  /** `delete_entry`: `false` and no change when refused; otherwise the row goes and the count drops, never below 0. */
  function DeleteEntry(st: Store, id: int, user: string): (r: (Store, bool))
    ensures r.1 <==> FindEntry(st.entries, id).Some?
                     && HasAccess(st, st.entries[FindEntry(st.entries, id).value].sessionId, user)
    ensures !r.1 ==> r.0 == st
    ensures r.1 ==>
              var i := FindEntry(st.entries, id).value;
              var sid := st.entries[i].sessionId;
              var count := st.sessions[sid].journalEntryCount;
              r.0 == st.(entries := st.entries[..i] + st.entries[i + 1..],
                         sessions := st.sessions[sid := st.sessions[sid].(
                           journalEntryCount := if count - 1 < 0 then 0 else count - 1)])
  {
    match FindEntry(st.entries, id)
    case None => (st, false)
    case Some(i) =>
      var sid := st.entries[i].sessionId;
      if !HasAccess(st, sid, user) then (st, false)
      else
        var row := st.sessions[sid];
        var count := if row.journalEntryCount - 1 < 0 then 0 else row.journalEntryCount - 1;
        (st.(entries := st.entries[..i] + st.entries[i + 1..], sessions := st.sessions[sid := row.(journalEntryCount := count)]),
         true)
  }

  // Invariants of the operations

  /** Creating keeps the table well formed, whichever way the call ends. */
  lemma CreatePreservesValid(st: Store, sid: string, req: JournalEntryCreate, createdBy: string,
                             sourceIds: Option<seq<int>>, today: Day, now: Timestamp, fault: Fault)
    requires Valid(st) && ValidCreate(req)
    ensures Valid(CreateEntry(st, sid, req, createdBy, sourceIds, today, now, fault).0)
  {
    var st' := CreateEntry(st, sid, req, createdBy, sourceIds, today, now, fault).0;
    if !fault.InsertFails? && sid in st.sessions {
      var n := |st.entries|;
      forall i, j | 0 <= i < j < |st'.entries| ensures st'.entries[i].id < st'.entries[j].id {
        if j == n {
          assert st'.entries[i] == st.entries[i];
        }
      }
      forall i | 0 <= i < |st'.entries|
        ensures st'.entries[i].id < st'.nextId && st'.entries[i].sessionId in st'.sessions && ValidEntry(st'.entries[i])
      {
        if i < n {
          assert st'.entries[i] == st.entries[i];
        }
      }
    }
  }

  /** A completed create, or one whose row commit failed, keeps every counter equal to its session's rows. */
  lemma CreatePreservesCount(st: Store, sid: string, req: JournalEntryCreate, createdBy: string,
                             sourceIds: Option<seq<int>>, today: Day, now: Timestamp, fault: Fault)
    requires Counted(st) && !fault.CounterCommitFails?
    ensures Counted(CreateEntry(st, sid, req, createdBy, sourceIds, today, now, fault).0)
  {
    var st' := CreateEntry(st, sid, req, createdBy, sourceIds, today, now, fault).0;
    if fault.NoFault? && sid in st.sessions {
      var e := NewEntry(st, sid, req, createdBy, sourceIds, today, now);
      forall s | s in st'.sessions ensures st'.sessions[s].journalEntryCount == |SessionEntries(st'.entries, s)| {
        FilterConcat(st.entries, [e], InSession(s));
        assert Filter([e], InSession(s)) == (if e.sessionId == s then [e] else []) by {
          assert [e][..0] == [];
        }
      }
    }
  }

  /**
   * The two commits of `create_entry` are not atomic: when the second one
   * fails, the row is stored but the session's counter stays one short.
   */
  lemma CounterDriftsWhenSecondCommitFails(st: Store, sid: string, req: JournalEntryCreate, createdBy: string,
                                           sourceIds: Option<seq<int>>, today: Day, now: Timestamp)
    requires Counted(st) && sid in st.sessions
    ensures var st' := CreateEntry(st, sid, req, createdBy, sourceIds, today, now, CounterCommitFails).0;
            |SessionEntries(st'.entries, sid)| == st'.sessions[sid].journalEntryCount + 1
  {
    var e := NewEntry(st, sid, req, createdBy, sourceIds, today, now);
    FilterConcat(st.entries, [e], InSession(sid));
    assert Filter([e], InSession(sid)) == [e] by {
      assert [e][..0] == [];
    }
  }

  /** Filtering a sequence after one element is replaced by one the filter treats alike keeps its length. */
  lemma ReplaceKeepsCount(s: seq<JournalEntry>, i: nat, x: JournalEntry, p: JournalEntry -> bool)
    requires i < |s| && p(x) == p(s[i])
    ensures |Filter(s[i := x], p)| == |Filter(s, p)|
  {
    assert s == s[..i] + [s[i]] + s[i + 1..];
    assert s[i := x] == s[..i] + [x] + s[i + 1..];
    FilterConcat(s[..i] + [s[i]], s[i + 1..], p);
    FilterConcat(s[..i], [s[i]], p);
    FilterConcat(s[..i] + [x], s[i + 1..], p);
    FilterConcat(s[..i], [x], p);
    assert [x][..0] == [] && [s[i]][..0] == [];
  }

  /** Removing one element shortens a filter's result by one exactly when the filter kept that element. */
  lemma RemoveCount(s: seq<JournalEntry>, i: nat, p: JournalEntry -> bool)
    requires i < |s|
    ensures |Filter(s[..i] + s[i + 1..], p)| == |Filter(s, p)| - (if p(s[i]) then 1 else 0)
  {
    assert s == s[..i] + [s[i]] + s[i + 1..];
    FilterConcat(s[..i] + [s[i]], s[i + 1..], p);
    FilterConcat(s[..i], [s[i]], p);
    FilterConcat(s[..i], s[i + 1..], p);
    assert [s[i]][..0] == [];
  }

  /** An update keeps the table well formed when a supplied title fits. */
  lemma UpdatePreservesValid(st: Store, id: int, u: JournalEntryUpdate, user: string, now: Timestamp)
    requires Valid(st) && ValidUpdate(u)
    ensures Valid(UpdateEntry(st, id, u, user, now).0)
  {
  }

  /** An update never moves a row to another session, so every counter stays right. */
  lemma UpdatePreservesCount(st: Store, id: int, u: JournalEntryUpdate, user: string, now: Timestamp)
    requires Counted(st)
    ensures Counted(UpdateEntry(st, id, u, user, now).0)
  {
    var r := UpdateEntry(st, id, u, user, now);
    if r.1.Some? {
      var i := FindEntry(st.entries, id).value;
      forall s | s in st.sessions ensures st.sessions[s].journalEntryCount == |SessionEntries(r.0.entries, s)| {
        ReplaceKeepsCount(st.entries, i, r.1.value, InSession(s));
      }
    }
  }

  /** Removing one row keeps the rows in id order and each of them valid. */
  lemma RemovedRowValid(st: Store, i: nat, st': Store)
    requires Valid(st) && i < |st.entries|
    requires st'.entries == st.entries[..i] + st.entries[i + 1..]
    requires st'.nextId == st.nextId && st'.sessions.Keys == st.sessions.Keys
    ensures Valid(st')
  {
    var rest := st'.entries;
    forall a | 0 <= a < |rest| ensures rest[a] == st.entries[if a < i then a else a + 1] {
    }
    forall a, b | 0 <= a < b < |rest| ensures rest[a].id < rest[b].id {
      assert rest[a] == st.entries[if a < i then a else a + 1];
      assert rest[b] == st.entries[if b < i then b else b + 1];
    }
  }

  /** A delete keeps the table well formed. */
  lemma DeletePreservesValid(st: Store, id: int, user: string)
    requires Valid(st)
    ensures Valid(DeleteEntry(st, id, user).0)
  {
    var r := DeleteEntry(st, id, user);
    if r.1 {
      RemovedRowValid(st, FindEntry(st.entries, id).value, r.0);
    }
  }

  /** A delete removes the row from the table: no row with that id is left. */
  lemma DeleteRemoves(st: Store, id: int, user: string)
    requires Valid(st) && DeleteEntry(st, id, user).1
    ensures FindEntry(DeleteEntry(st, id, user).0.entries, id).None?
  {
    var i := FindEntry(st.entries, id).value;
    var rest := st.entries[..i] + st.entries[i + 1..];
    forall a | 0 <= a < |rest| ensures rest[a].id != id {
      if a < i {
        assert rest[a] == st.entries[a];
      } else {
        assert rest[a] == st.entries[a + 1];
      }
    }
  }

  /** A delete keeps every counter equal to its session's rows, and none goes negative. */
  lemma DeletePreservesCount(st: Store, id: int, user: string)
    requires Counted(st) && CountsNonNegative(st)
    ensures Counted(DeleteEntry(st, id, user).0) && CountsNonNegative(DeleteEntry(st, id, user).0)
  {
    var r := DeleteEntry(st, id, user);
    if r.1 {
      var i := FindEntry(st.entries, id).value;
      var sid := st.entries[i].sessionId;
      forall s | s in r.0.sessions ensures r.0.sessions[s].journalEntryCount == |SessionEntries(r.0.entries, s)| {
        RemoveCount(st.entries, i, InSession(s));
        if s == sid {
          FilterMembers(st.entries, InSession(s), st.entries[i]);
        }
      }
    }
  }

  /** Whatever the faults, no operation drives a counter below zero. */
  lemma CountsStayNonNegative(st: Store, sid: string, req: JournalEntryCreate, createdBy: string,
                              sourceIds: Option<seq<int>>, today: Day, now: Timestamp, fault: Fault,
                              id: int, u: JournalEntryUpdate, user: string)
    requires CountsNonNegative(st)
    ensures CountsNonNegative(CreateEntry(st, sid, req, createdBy, sourceIds, today, now, fault).0)
    ensures CountsNonNegative(UpdateEntry(st, id, u, user, now).0)
    ensures CountsNonNegative(DeleteEntry(st, id, user).0)
  {
  }

  /** A completed create is listed under its date, and among the session's rows. */
  lemma CreatedEntryListed(st: Store, sid: string, req: JournalEntryCreate, createdBy: string,
                           sourceIds: Option<seq<int>>, today: Day, now: Timestamp)
    requires sid in st.sessions
    ensures var r := CreateEntry(st, sid, req, createdBy, sourceIds, today, now, NoFault);
            r.1.Some? &&
            r.1.value in EntriesForDate(r.0.entries, sid, r.1.value.entryDate) &&
            r.1.value in Timeline(r.0.entries, sid)
  {
    var r := CreateEntry(st, sid, req, createdBy, sourceIds, today, now, NoFault);
    EntriesForDateCorrect(r.0.entries, sid, r.1.value.entryDate);
    TimelineCorrect(r.0.entries, sid);
    assert r.1.value == r.0.entries[|r.0.entries| - 1];
  }
}
