/**
 * `JournalService` (backend/app/services/journal_service.py) over in-memory
 * tables: the store operations change the tables in place as the SQLAlchemy
 * session does, each proved to leave the state `JournalStore` prescribes; the
 * queries return what the `JournalStore` queries describe; and
 * `assess_and_synthesize` asks the classifier, parses its answer and saves
 * every suggestion in a loop that stops at the first failure.
 */
module JournalService {
  import opened Wrappers
  import opened Grouping
  import opened JsonValue
  import opened JournalModel
  import opened JournalContext
  import opened JournalStore
  import opened JournalSynthesis

  /** `[conversation_id] if conversation_id else None`: an id of 0 counts as absent. */
  function SourceIds(conversationId: Option<int>): (r: Option<seq<int>>)
    ensures r.Some? <==> conversationId.Some? && conversationId.value != 0
    ensures r.Some? ==> r.value == [conversationId.value]
  {
    if conversationId.Some? && conversationId.value != 0 then Some([conversationId.value]) else None
  }

  /** How the `k`-th `create_entry` of a synthesis ends; calls past the list succeed. */
  function FaultAt(faults: seq<Fault>, k: nat): Fault {
    if k < |faults| then faults[k] else NoFault
  }

  /**
   * The save loop from the `k`-th suggestion on: the state it leaves and
   * whether it ran to the end. A title over 100 characters fails while the
   * request is built, a failing `create_entry` stops the loop too, and rows
   * saved before either stay.
   */
  function Persist(st: Store, sid: string, ss: seq<JournalSuggestion>, useDate: Day, sourceIds: Option<seq<int>>,
                   today: Day, now: Timestamp, faults: seq<Fault>, k: nat): (Store, bool)
    decreases |ss| - k
  {
    if k >= |ss| then (st, true)
    else
      match MakeEntryCreate(ss[k].title, ss[k].content, ss[k].entryType, Some(useDate))
      case Failure(_) => (st, false)
      case Success(req) =>
        var created := JournalStore.CreateEntry(st, sid, req, AiAuthor, sourceIds, today, now, FaultAt(faults, k));
        if created.1.None? then (created.0, false)
        else Persist(created.0, sid, ss, useDate, sourceIds, today, now, faults, k + 1)
  }

  /** A row saved for suggestion `s`: written by the AI, on the chosen date, linked to the conversation. */
  predicate AiRow(e: JournalEntry, s: JournalSuggestion, sid: string, useDate: Day, sourceIds: Option<seq<int>>) {
    e.sessionId == sid && e.title == s.title && e.content == s.content && e.entryType == s.entryType &&
    e.entryDate == useDate && e.createdBy == AiAuthor && e.sourceMessageIds == Some(sourceIds.GetOr([]))
  }

  predicate NoFaults(faults: seq<Fault>) {
    forall i :: 0 <= i < |faults| ==> faults[i].NoFault?
  }

  predicate NoCounterFaults(faults: seq<Fault>) {
    forall i :: 0 <= i < |faults| ==> !faults[i].CounterCommitFails?
  }

  /** Rows saved one per suggestion, in order. */
  predicate AiRows(rows: seq<JournalEntry>, ss: seq<JournalSuggestion>, sid: string, useDate: Day,
                   sourceIds: Option<seq<int>>) {
    |rows| <= |ss| && forall j :: 0 <= j < |rows| ==> AiRow(rows[j], ss[j], sid, useDate, sourceIds)
  }

  /** One saved row followed by rows saved for the remaining suggestions. */
  lemma AiRowsCons(before: seq<JournalEntry>, e: JournalEntry, after: seq<JournalEntry>,
                   s: JournalSuggestion, ss: seq<JournalSuggestion>, sid: string, useDate: Day,
                   sourceIds: Option<seq<int>>)
    requires before + [e] <= after
    requires AiRow(e, s, sid, useDate, sourceIds) && AiRows(after[|before| + 1..], ss, sid, useDate, sourceIds)
    ensures before <= after && AiRows(after[|before|..], [s] + ss, sid, useDate, sourceIds)
  {
    var rows := after[|before|..];
    assert rows == [e] + after[|before| + 1..];
    forall j | 0 <= j < |rows|
      ensures AiRow(rows[j], ([s] + ss)[j], sid, useDate, sourceIds)
    {
      if j > 0 {
        assert rows[j] == after[|before| + 1..][j - 1] && ([s] + ss)[j] == ss[j - 1];
      }
    }
  }

  /**
   * `create_entry` either leaves the rows as they were or appends its row,
   * and keeps the set of sessions either way.
   */
  lemma CreateAppends(st: Store, sid: string, req: JournalEntryCreate, createdBy: string,
                      sourceIds: Option<seq<int>>, today: Day, now: Timestamp, fault: Fault)
    ensures var r := JournalStore.CreateEntry(st, sid, req, createdBy, sourceIds, today, now, fault);
            r.0.sessions.Keys == st.sessions.Keys &&
            (r.0.entries == st.entries || r.0.entries == st.entries + [NewEntry(st, sid, req, createdBy, sourceIds, today, now)]) &&
            (r.1.Some? ==> r.0.entries == st.entries + [NewEntry(st, sid, req, createdBy, sourceIds, today, now)])
  {
  }

  /**
   * Whatever fails, saving only appends: the earlier rows stay, and the new
   * ones are AI rows for the suggestions in their order, at most one each.
   */
  lemma {:induction false} PersistAppends(st: Store, sid: string, ss: seq<JournalSuggestion>, useDate: Day,
                                          sourceIds: Option<seq<int>>, today: Day, now: Timestamp,
                                          faults: seq<Fault>, k: nat)
    requires k <= |ss|
    ensures var r := Persist(st, sid, ss, useDate, sourceIds, today, now, faults, k).0;
            st.entries <= r.entries && AiRows(r.entries[|st.entries|..], ss[k..], sid, useDate, sourceIds) &&
            r.sessions.Keys == st.sessions.Keys
    decreases |ss| - k
  {
    if k < |ss| {
      var made := MakeEntryCreate(ss[k].title, ss[k].content, ss[k].entryType, Some(useDate));
      if made.Success? {
        var created := JournalStore.CreateEntry(st, sid, made.value, AiAuthor, sourceIds, today, now, FaultAt(faults, k));
        var e := NewEntry(st, sid, made.value, AiAuthor, sourceIds, today, now);
        CreateAppends(st, sid, made.value, AiAuthor, sourceIds, today, now, FaultAt(faults, k));
        assert AiRow(e, ss[k], sid, useDate, sourceIds);
        assert ss[k..] == [ss[k]] + ss[k + 1..];
        if created.1.Some? {
          PersistAppends(created.0, sid, ss, useDate, sourceIds, today, now, faults, k + 1);
          var r := Persist(created.0, sid, ss, useDate, sourceIds, today, now, faults, k + 1).0;
          AiRowsCons(st.entries, e, r.entries, ss[k], ss[k + 1..], sid, useDate, sourceIds);
        } else if created.0.entries != st.entries {
          AiRowsCons(st.entries, e, created.0.entries, ss[k], ss[k + 1..], sid, useDate, sourceIds);
        }
      }
    }
  }

  /**
   * With every title within the limit, an existing session and no failing
   * commit, every suggestion is saved, in order, and the session's count
   * grows by their number.
   */
  lemma {:induction false} PersistAll(st: Store, sid: string, ss: seq<JournalSuggestion>, useDate: Day,
                                      sourceIds: Option<seq<int>>, today: Day, now: Timestamp,
                                      faults: seq<Fault>, k: nat)
    requires k <= |ss| && sid in st.sessions && NoFaults(faults)
    requires forall i :: k <= i < |ss| ==> ValidTitle(ss[i].title)
    ensures var r := Persist(st, sid, ss, useDate, sourceIds, today, now, faults, k);
            r.1 && |r.0.entries| == |st.entries| + (|ss| - k) &&
            sid in r.0.sessions &&
            r.0.sessions[sid].journalEntryCount == st.sessions[sid].journalEntryCount + (|ss| - k)
    decreases |ss| - k
  {
    if k < |ss| {
      var made := MakeEntryCreate(ss[k].title, ss[k].content, ss[k].entryType, Some(useDate));
      var created := JournalStore.CreateEntry(st, sid, made.value, AiAuthor, sourceIds, today, now, FaultAt(faults, k));
      PersistAll(created.0, sid, ss, useDate, sourceIds, today, now, faults, k + 1);
    }
  }

  /** Saving keeps the tables well formed and, without counter faults, every counter right. */
  lemma {:induction false} PersistPreserves(st: Store, sid: string, ss: seq<JournalSuggestion>, useDate: Day,
                                            sourceIds: Option<seq<int>>, today: Day, now: Timestamp,
                                            faults: seq<Fault>, k: nat)
    requires Valid(st)
    ensures Valid(Persist(st, sid, ss, useDate, sourceIds, today, now, faults, k).0)
    ensures Counted(st) && NoCounterFaults(faults) ==> Counted(Persist(st, sid, ss, useDate, sourceIds, today, now, faults, k).0)
    decreases |ss| - k
  {
    if k < |ss| {
      var made := MakeEntryCreate(ss[k].title, ss[k].content, ss[k].entryType, Some(useDate));
      if made.Success? {
        var fault := FaultAt(faults, k);
        CreatePreservesValid(st, sid, made.value, AiAuthor, sourceIds, today, now, fault);
        if Counted(st) && NoCounterFaults(faults) {
          CreatePreservesCount(st, sid, made.value, AiAuthor, sourceIds, today, now, fault);
        }
        var created := JournalStore.CreateEntry(st, sid, made.value, AiAuthor, sourceIds, today, now, fault);
        PersistPreserves(created.0, sid, ss, useDate, sourceIds, today, now, faults, k + 1);
      }
    }
  }

  /** The request the classifier sees: the user's message, the reply, and the brief of the last seven days. */
  function ClassifierRequest(st: Store, userMessage: string, aiResponse: string, sid: string, today: Day,
                             isoFormat: Day -> string): SynthesisRequest
  {
    SynthesisRequest(RecentBrief(isoFormat, RecentEntries(st.entries, sid, today, RecentWindowDays)), userMessage, aiResponse)
  }

  /**
   * `assess_and_synthesize` on the tables: the new state and the result. A
   * failed or unparsable answer changes nothing and gives an error result;
   * a parsed one is saved whatever `should_create` says, and is returned
   * when every save went through.
   */
  function Synthesize(st: Store, userMessage: string, aiResponse: string, sid: string, conversationId: Option<int>,
                      entryDate: Option<Day>, today: Day, now: Timestamp, isoFormat: Day -> string,
                      classifier: SynthesisRequest -> Option<string>, decode: Decoder, faults: seq<Fault>)
    : (r: (Store, JournalSynthesisResult))
    ensures var parsed := Interpret(classifier(ClassifierRequest(st, userMessage, aiResponse, sid, today, isoFormat)), decode);
            (parsed.Failure? ==> r.0 == st && r.1 == ErrorResult(parsed.error)) &&
            (parsed.Success? ==> r.0 == Persist(st, sid, parsed.value.suggestedEntries, entryDate.GetOr(today),
                                                SourceIds(conversationId), today, now, faults, 0).0)
  {
    var parsed := Interpret(classifier(ClassifierRequest(st, userMessage, aiResponse, sid, today, isoFormat)), decode);
    if parsed.Failure? then (st, ErrorResult(parsed.error))
    else
      var saved := Persist(st, sid, parsed.value.suggestedEntries, entryDate.GetOr(today), SourceIds(conversationId),
                           today, now, faults, 0);
      (saved.0, if saved.1 then parsed.value else ErrorResult(SynthesisFailure))
  }

  /** The session's tables and the operations `JournalService` performs on them. */
  class JournalService {
    var entries: seq<JournalEntry>
    var sessions: map<string, SessionRow>
    var collaborators: set<(string, string)>
    var nextId: int

    function State(): Store
      reads this
    {
      Store(entries, sessions, collaborators, nextId)
    }

    /** An empty journal over the given sessions; the first id handed out is 1. */
    constructor (sessions: map<string, SessionRow>, collaborators: set<(string, string)>)
      ensures State() == Store([], sessions, collaborators, 1)
      ensures Valid(State())
    {
      this.entries := [];
      this.sessions := sessions;
      this.collaborators := collaborators;
      this.nextId := 1;
    }

    /** `create_entry`: the row is added and committed, then the session's counter is bumped and committed. */
    method CreateEntry(sid: string, req: JournalEntryCreate, createdBy: string, sourceIds: Option<seq<int>>,
                       today: Day, now: Timestamp, fault: Fault) returns (created: Option<JournalEntry>)
      modifies this
      ensures (State(), created) == JournalStore.CreateEntry(old(State()), sid, req, createdBy, sourceIds, today, now, fault)
    {
      if fault.InsertFails? || sid !in sessions {
        return None;
      }
      var entryDate := if req.entryDate.Some? then req.entryDate.value else today;
      var ids := if sourceIds.Some? then sourceIds.value else [];
      var entry := JournalEntry(nextId, sid, entryDate, req.entryType, req.title, req.content, createdBy,
                                now, now, Some(ids), None);
      entries := entries + [entry];
      nextId := nextId + 1;
      if fault.CounterCommitFails? {
        return None;
      }
      var session := sessions[sid];
      session := session.(journalEntryCount := session.journalEntryCount + 1, lastJournalSynthesis := Some(now));
      sessions := sessions[sid := session];
      return Some(entry);
    }

    /** `update_entry`: look the row up, check access, assign the supplied fields and stamp the time. */
    method UpdateEntry(id: int, updates: JournalEntryUpdate, user: string, now: Timestamp)
        returns (updated: Option<JournalEntry>)
      modifies this
      ensures (State(), updated) == JournalStore.UpdateEntry(old(State()), id, updates, user, now)
    {
      var found := FindEntry(entries, id);
      if found.None? {
        return None;
      }
      var i := found.value;
      var entry := entries[i];
      if entry.sessionId !in sessions {
        return None;
      }
      var isOwner := sessions[entry.sessionId].ownerId == user;
      var isCollaborator := (entry.sessionId, user) in collaborators;
      if !(isOwner || isCollaborator) {
        return None;
      }
      if updates.title.Some? {
        entry := entry.(title := updates.title.value);
      }
      if updates.content.Some? {
        entry := entry.(content := updates.content.value);
      }
      if updates.entryType.Some? {
        entry := entry.(entryType := updates.entryType.value);
      }
      if updates.entryDate.Some? {
        entry := entry.(entryDate := updates.entryDate.value);
      }
      entry := entry.(updatedAt := now);
      entries := entries[i := entry];
      return Some(entry);
    }

    /** `delete_entry`: look the row up, check access, remove it and lower the count, never below 0. */
    method DeleteEntry(id: int, user: string) returns (deleted: bool)
      modifies this
      ensures (State(), deleted) == JournalStore.DeleteEntry(old(State()), id, user)
    {
      var found := FindEntry(entries, id);
      if found.None? {
        return false;
      }
      var i := found.value;
      var sid := entries[i].sessionId;
      if sid !in sessions {
        return false;
      }
      var isOwner := sessions[sid].ownerId == user;
      var isCollaborator := (sid, user) in collaborators;
      if !(isOwner || isCollaborator) {
        return false;
      }
      entries := entries[..i] + entries[i + 1..];
      var session := sessions[sid];
      var count := session.journalEntryCount - 1;
      if count < 0 {
        count := 0;
      }
      sessions := sessions[sid := session.(journalEntryCount := count)];
      return true;
    }

    /** `get_entries_by_date`: the rows in range grouped by ISO date; a failing query gives an empty map. */
    method GetEntriesByDate(sid: string, start: Option<Day>, end: Option<Day>, isoFormat: Day -> string,
                            queryFails: bool) returns (grouped: Grouped<string, JournalEntry>)
      ensures queryFails ==> grouped.keys == [] && grouped.groups == map[]
      ensures !queryFails ==> grouped == EntriesByDate(entries, sid, start, end, isoFormat)
    {
      if queryFails {
        return Grouped([], map[]);
      }
      var rows := EntriesInRange(entries, sid, start, end);
      grouped := GroupInto(rows, IsoKey(isoFormat));
    }

    /** `get_entries_for_date`; a failing query gives an empty list. */
    method GetEntriesForDate(sid: string, target: Day, queryFails: bool) returns (rows: seq<JournalEntry>)
      ensures queryFails ==> rows == []
      ensures !queryFails ==> rows == EntriesForDate(entries, sid, target)
    {
      if queryFails {
        return [];
      }
      rows := EntriesForDate(entries, sid, target);
    }

    /**
     * `format_journal_context`: the budget defaults to `MAX_JOURNAL_TOKENS`
     * only when none is given; a failing query gives the load-failure text.
     */
    method FormatJournalContext(sid: string, maxTokens: Option<int>, today: Day, cal: Calendar, queryFails: bool)
        returns (context: string)
      ensures queryFails ==> context == LoadFailure
      ensures !queryFails ==>
                context == JournalContext.JournalContext(Timeline(entries, sid), today, maxTokens.GetOr(MaxJournalTokens), cal)
    {
      if queryFails {
        return LoadFailure;
      }
      var budget := if maxTokens.Some? then maxTokens.value else MaxJournalTokens;
      context := RenderJournalContext(Timeline(entries, sid), today, budget, cal);
    }

    /**
     * The loop of `assess_and_synthesize` that saves the parsed suggestions,
     * one `create_entry` per suggestion, stopping at the first failure.
     */
    method SaveSuggestions(sid: string, suggestions: seq<JournalSuggestion>, useDate: Day,
                           sourceIds: Option<seq<int>>, today: Day, now: Timestamp, faults: seq<Fault>)
        returns (completed: bool)
      modifies this
      ensures (State(), completed) == Persist(old(State()), sid, suggestions, useDate, sourceIds, today, now, faults, 0)
    {
      var i := 0;
      while i < |suggestions|
        invariant 0 <= i <= |suggestions|
        invariant Persist(old(State()), sid, suggestions, useDate, sourceIds, today, now, faults, 0)
               == Persist(State(), sid, suggestions, useDate, sourceIds, today, now, faults, i)
        decreases |suggestions| - i
      {
        var s := suggestions[i];
        var request := MakeEntryCreate(s.title, s.content, s.entryType, Some(useDate));
        if request.Failure? {
          return false;
        }
        var created := CreateEntry(sid, request.value, AiAuthor, sourceIds, today, now, FaultAt(faults, i));
        if created.None? {
          return false;
        }
        i := i + 1;
      }
      return true;
    }

    /**
     * `assess_and_synthesize`: the classifier sees the brief of the last seven
     * days; a failed answer gives an error result and saves nothing; a parsed
     * one has every suggestion saved, whatever `should_create` says, and is
     * returned unless a save fails, when the error result is returned and the
     * rows saved so far stay.
     */
    method AssessAndSynthesize(userMessage: string, aiResponse: string, sid: string, conversationId: Option<int>,
                               entryDate: Option<Day>, today: Day, now: Timestamp, isoFormat: Day -> string,
                               classifier: SynthesisRequest -> Option<string>, decode: Decoder, faults: seq<Fault>)
        returns (result: JournalSynthesisResult)
      modifies this
      ensures (State(), result) == Synthesize(old(State()), userMessage, aiResponse, sid, conversationId, entryDate,
                                              today, now, isoFormat, classifier, decode, faults)
    {
      var recent := RecentEntries(entries, sid, today, RecentWindowDays);
      var request := SynthesisRequest(RecentBrief(isoFormat, recent), userMessage, aiResponse);
      var parsed := Interpret(classifier(request), decode);
      if parsed.Failure? {
        return ErrorResult(parsed.error);
      }
      var useDate := if entryDate.Some? then entryDate.value else today;
      var completed := SaveSuggestions(sid, parsed.value.suggestedEntries, useDate, SourceIds(conversationId),
                                       today, now, faults);
      result := if completed then parsed.value else ErrorResult(SynthesisFailure);
    }
  }
}
