/**
 * `DailyPlanService` (backend/app/services/daily_plan_service.py): the rules
 * that decide whether a daily plan is generated, the prompt the plan is
 * generated from, and the once-per-date bookkeeping of `generate_daily_plan`.
 * Gathering the context from the database and the model call are not part of
 * this model: the context comes in as a value and the model as an oracle from
 * the prompt to optional text.
 */
module DailyPlanService {
  import opened Wrappers
  import opened Strings
  import opened Grouping
  import opened JournalModel

  /* ---------------- The gathered context ---------------- */

  /** A journal entry as `_gather_context` passes it on. */
  datatype PlanEntry = PlanEntry(date: string, title: string, content: string, entryType: Option<EntryType>)

  datatype PlanConversation = PlanConversation(role: string, content: string)

  datatype PlanDocument = PlanDocument(filename: string, fileType: string, uploadedAt: string, textPreview: Option<string>)

  datatype PreviousPlan = PreviousPlan(date: string, content: string)

  /** The context dictionary; `today` is absent until `generate_daily_plan` adds it. */
  datatype PlanContext = PlanContext(
    today: Option<string>,
    journalEntries: seq<PlanEntry>,
    conversations: seq<PlanConversation>,
    documents: seq<PlanDocument>,
    previousPlans: seq<PreviousPlan>)

  const MaxEntriesPerType: nat := 5
  const EntryContentCap: nat := 200
  const MaxConversations: nat := 10
  const MaxDocuments: nat := 5

  const PlansHeading: string := "\n## Previous Daily Plans (for continuity)"
  const JournalHeading: string := "\n## Journal Entries"
  const ConversationsHeading: string := "\n## Recent Conversations (last 7 days)"
  const DocumentsHeading: string := "\n## Uploaded Documents"
  const ClosingInstruction: string := "\n\nBased on all this context, create a concise daily plan for TODAY."

  /* ---------------- `_has_sufficient_data` ---------------- */

  /** A plan needs at least one journal entry or one conversation. */
  predicate HasSufficientData(ctx: PlanContext) {
    |ctx.journalEntries| > 0 || |ctx.conversations| > 0
  }

  /* ---------------- `_build_user_prompt` as a specification ---------------- */

  /** The lines each element contributes, in order. */
  function FlatMap<T>(lines: T -> seq<string>, s: seq<T>): seq<string> {
    if s == [] then [] else FlatMap(lines, s[..|s| - 1]) + lines(s[|s| - 1])
  }

  /** The lines of the first `i + 1` elements: those of the first `i`, then those of element `i`. */
  lemma FlatMapSnoc<T>(lines: T -> seq<string>, s: seq<T>, i: nat)
    requires i < |s|
    ensures FlatMap(lines, s[..i + 1]) == FlatMap(lines, s[..i]) + lines(s[i])
  {
    assert s[..i + 1][..i] == s[..i];
  }

  /** One more element's lines appended to what the loop has built so far. */
  lemma FlatMapNext<T>(lines: T -> seq<string>, head: seq<string>, s: seq<T>, i: nat, r: seq<string>)
    requires i < |s| && r == head + FlatMap(lines, s[..i])
    ensures r + lines(s[i]) == head + FlatMap(lines, s[..i + 1])
  {
    FlatMapSnoc(lines, s, i);
  }

  lemma {:induction false} FlatMapAppend<T>(lines: T -> seq<string>, a: seq<T>, b: seq<T>)
    ensures FlatMap(lines, a + b) == FlatMap(lines, a) + FlatMap(lines, b)
  {
    if b == [] {
      assert a + b == a;
    } else {
      assert (a + b)[..|a + b| - 1] == a + b[..|b| - 1];
      FlatMapAppend(lines, a, b[..|b| - 1]);
    }
  }

  function PlanLines(p: PreviousPlan): seq<string> {
    ["\n### " + p.date, p.content]
  }

  function PlansPart(ps: seq<PreviousPlan>): seq<string> {
    if ps == [] then [] else [PlansHeading] + FlatMap(PlanLines, ps)
  }

  /** An entry's bullet, and its content cut to 200 characters when there is any. */
  function EntryLines(e: PlanEntry): seq<string> {
    ["- **" + e.date + "**: " + e.title] + (if e.content != [] then ["  " + Take(e.content, EntryContentCap)] else [])
  }

  /** The key an entry is grouped under: its type, or `note` when it has none. */
  function TypeKey(e: PlanEntry): string {
    if e.entryType.Some? then EntryTypeValue(e.entryType.value) else "note"
  }

  function TypeHeading(key: string): string {
    "\n### " + TitleCase(key) + "s"
  }

  /** One type's heading and its first five entries. */
  function TypeLines(key: string, group: seq<PlanEntry>): seq<string> {
    [TypeHeading(key)] + FlatMap(EntryLines, FirstN(group, MaxEntriesPerType))
  }

  function GroupOf(groups: map<string, seq<PlanEntry>>, key: string): seq<PlanEntry> {
    if key in groups then groups[key] else []
  }

  /** The sections of the types in `keys`, in that order. */
  function TypeSections(keys: seq<string>, groups: map<string, seq<PlanEntry>>): seq<string> {
    if keys == [] then []
    else TypeSections(keys[..|keys| - 1], groups) + TypeLines(keys[|keys| - 1], GroupOf(groups, keys[|keys| - 1]))
  }

  lemma TypeSectionsSnoc(keys: seq<string>, groups: map<string, seq<PlanEntry>>, i: nat)
    requires i < |keys|
    ensures TypeSections(keys[..i + 1], groups) == TypeSections(keys[..i], groups) + TypeLines(keys[i], GroupOf(groups, keys[i]))
  {
    assert keys[..i + 1][..i] == keys[..i];
  }

  /** One more type's section appended to what the loop has built so far. */
  lemma TypeSectionsNext(keys: seq<string>, groups: map<string, seq<PlanEntry>>, i: nat, head: seq<string>, r: seq<string>)
    requires i < |keys| && r == head + TypeSections(keys[..i], groups)
    ensures r + TypeLines(keys[i], GroupOf(groups, keys[i])) == head + TypeSections(keys[..i + 1], groups)
  {
    TypeSectionsSnoc(keys, groups, i);
  }

  /** The journal part: entries grouped by type, types in the order they first occur. */
  function JournalPart(es: seq<PlanEntry>): seq<string> {
    if es == [] then []
    else
      var g := GroupBy(es, TypeKey);
      [JournalHeading] + TypeSections(g.keys, g.groups)
  }

  function ConversationLines(c: PlanConversation): seq<string> {
    ["- **" + c.role + "**: " + c.content]
  }

  function ConversationsPart(cs: seq<PlanConversation>): seq<string> {
    if cs == [] then [] else [ConversationsHeading] + FlatMap(ConversationLines, LastN(cs, MaxConversations))
  }

  function DocumentLines(d: PlanDocument): seq<string> {
    ["- " + d.filename + " (" + d.fileType + ") - uploaded " + d.uploadedAt]
      + (if d.textPreview.Some? then ["  Preview: " + d.textPreview.value] else [])
  }

  function DocumentsPart(ds: seq<PlanDocument>): seq<string> {
    if ds == [] then [] else [DocumentsHeading] + FlatMap(DocumentLines, FirstN(ds, MaxDocuments))
  }

  function DateLine(ctx: PlanContext, serverToday: string): string {
    "Today's date: " + ctx.today.GetOr(serverToday) + "\n"
  }

  /** The parts `_build_user_prompt` joins with newlines. */
  function PromptParts(ctx: PlanContext, serverToday: string): seq<string> {
    [DateLine(ctx, serverToday)] + PlansPart(ctx.previousPlans) + JournalPart(ctx.journalEntries)
      + ConversationsPart(ctx.conversations) + DocumentsPart(ctx.documents) + [ClosingInstruction]
  }

  function UserPrompt(ctx: PlanContext, serverToday: string): string {
    Join(PromptParts(ctx, serverToday), "\n")
  }

  /* ---------------- `_build_user_prompt` as the loops that build it ---------------- */

  method AppendPlans(parts: seq<string>, ps: seq<PreviousPlan>) returns (r: seq<string>)
    ensures r == parts + PlansPart(ps)
  {
    r := parts;
    if ps != [] {
      r := AppendPlanLines(r + [PlansHeading], ps);
    }
  }

  /** Each earlier plan's date heading and its content. */
  method AppendPlanLines(parts: seq<string>, ps: seq<PreviousPlan>) returns (r: seq<string>)
    ensures r == parts + FlatMap(PlanLines, ps)
  {
    r := parts;
    var i := 0;
    while i < |ps|
      invariant 0 <= i <= |ps|
      invariant r == parts + FlatMap(PlanLines, ps[..i])
    {
      FlatMapNext(PlanLines, parts, ps, i, r);
      ghost var before := r;
      var heading := "\n### " + ps[i].date;
      r := r + [heading];
      r := r + [ps[i].content];
      assert r == before + [heading, ps[i].content];
      i := i + 1;
    }
    assert ps[..|ps|] == ps;
  }

  /** The entries of one type, each with its content line when it has content. */
  method AppendEntries(parts: seq<string>, es: seq<PlanEntry>) returns (r: seq<string>)
    ensures r == parts + FlatMap(EntryLines, es)
  {
    r := parts;
    var i := 0;
    while i < |es|
      invariant 0 <= i <= |es|
      invariant r == parts + FlatMap(EntryLines, es[..i])
    {
      FlatMapNext(EntryLines, parts, es, i, r);
      ghost var before := r;
      var e := es[i];
      var bullet := "- **" + e.date + "**: " + e.title;
      r := r + [bullet];
      if e.content != [] {
        var detail := "  " + Take(e.content, EntryContentCap);
        r := r + [detail];
        assert r == before + [bullet, detail];
      }
      i := i + 1;
    }
    assert es[..|es|] == es;
  }

  method AppendJournal(parts: seq<string>, es: seq<PlanEntry>) returns (r: seq<string>)
    ensures r == parts + JournalPart(es)
  {
    r := parts;
    if es != [] {
      var byType := GroupInto(es, TypeKey);
      r := AppendTypeSections(parts + [JournalHeading], byType.keys, byType.groups);
    }
  }

  /** Type by type, the heading and the first five entries of that type. */
  method AppendTypeSections(parts: seq<string>, keys: seq<string>, groups: map<string, seq<PlanEntry>>) returns (r: seq<string>)
    ensures r == parts + TypeSections(keys, groups)
  {
    r := parts;
    var i := 0;
    while i < |keys|
      invariant 0 <= i <= |keys|
      invariant r == parts + TypeSections(keys[..i], groups)
    {
      TypeSectionsNext(keys, groups, i, parts, r);
      var key := keys[i];
      var group := if key in groups then groups[key] else [];
      ghost var before := r;
      r := AppendEntries(r + [TypeHeading(key)], FirstN(group, MaxEntriesPerType));
      assert r == before + TypeLines(key, group);
      i := i + 1;
    }
    assert keys[..|keys|] == keys;
  }

  method AppendConversations(parts: seq<string>, cs: seq<PlanConversation>) returns (r: seq<string>)
    ensures r == parts + ConversationsPart(cs)
  {
    r := parts;
    if cs != [] {
      r := AppendConversationLines(r + [ConversationsHeading], LastN(cs, MaxConversations));
    }
  }

  /** One line per message, its role and its content. */
  method AppendConversationLines(parts: seq<string>, cs: seq<PlanConversation>) returns (r: seq<string>)
    ensures r == parts + FlatMap(ConversationLines, cs)
  {
    r := parts;
    var i := 0;
    while i < |cs|
      invariant 0 <= i <= |cs|
      invariant r == parts + FlatMap(ConversationLines, cs[..i])
    {
      FlatMapNext(ConversationLines, parts, cs, i, r);
      var line := "- **" + cs[i].role + "**: " + cs[i].content;
      r := r + [line];
      i := i + 1;
    }
    assert cs[..|cs|] == cs;
  }

  method AppendDocuments(parts: seq<string>, ds: seq<PlanDocument>) returns (r: seq<string>)
    ensures r == parts + DocumentsPart(ds)
  {
    r := parts;
    if ds != [] {
      r := AppendDocumentLines(r + [DocumentsHeading], FirstN(ds, MaxDocuments));
    }
  }

  /** Each document's lines, in order. */
  method AppendDocumentLines(parts: seq<string>, ds: seq<PlanDocument>) returns (r: seq<string>)
    ensures r == parts + FlatMap(DocumentLines, ds)
  {
    r := parts;
    var i := 0;
    while i < |ds|
      invariant 0 <= i <= |ds|
      invariant r == parts + FlatMap(DocumentLines, ds[..i])
    {
      FlatMapNext(DocumentLines, parts, ds, i, r);
      r := AppendDocument(r, ds[i]);
      i := i + 1;
    }
    assert ds[..|ds|] == ds;
  }

  /** One document's line, and its preview line when it has a preview. */
  method AppendDocument(parts: seq<string>, d: PlanDocument) returns (r: seq<string>)
    ensures r == parts + DocumentLines(d)
  {
    var line := "- " + d.filename + " (" + d.fileType + ") - uploaded " + d.uploadedAt;
    r := parts + [line];
    if d.textPreview.Some? {
      var preview := "  Preview: " + d.textPreview.value;
      r := r + [preview];
      assert r == parts + [line, preview];
    }
  }

  /** `_build_user_prompt`. */
  method BuildUserPrompt(ctx: PlanContext, serverToday: string) returns (prompt: string)
    ensures prompt == UserPrompt(ctx, serverToday)
  {
    var parts := [DateLine(ctx, serverToday)];
    parts := AppendPlans(parts, ctx.previousPlans);
    parts := AppendJournal(parts, ctx.journalEntries);
    parts := AppendConversations(parts, ctx.conversations);
    parts := AppendDocuments(parts, ctx.documents);
    parts := parts + [ClosingInstruction];
    prompt := Join(parts, "\n");
  }

  /* ---------------- Properties of the prompt ---------------- */

  /** The prompt opens with the date line and closes with the instruction. */
  lemma PromptFrame(ctx: PlanContext, serverToday: string)
    ensures var parts := PromptParts(ctx, serverToday);
            |parts| >= 2 && parts[0] == "Today's date: " + ctx.today.GetOr(serverToday) + "\n" &&
            parts[|parts| - 1] == ClosingInstruction
  {
  }

  /** An entry shows its content line exactly when it has content, and that line is at most 202 characters. */
  lemma EntryShown(e: PlanEntry)
    ensures |EntryLines(e)| == if e.content == [] then 1 else 2
    ensures e.content != [] ==> EntryLines(e)[1] == "  " + Take(e.content, EntryContentCap) && |EntryLines(e)[1]| <= 2 + EntryContentCap
    ensures e.content != [] ==> e.content <= EntryLines(e)[1][2..] || Take(e.content, EntryContentCap) == EntryLines(e)[1][2..]
  {
  }

  /** Messages older than the last ten do not change the prompt. */
  lemma OlderConversationsIgnored(older: seq<PlanConversation>, recent: seq<PlanConversation>)
    requires |recent| >= MaxConversations
    ensures ConversationsPart(older + recent) == ConversationsPart(recent)
  {
    assert LastN(older + recent, MaxConversations) == LastN(recent, MaxConversations);
  }

  /** Documents after the first five do not change the prompt. */
  lemma LaterDocumentsIgnored(first: seq<PlanDocument>, later: seq<PlanDocument>)
    requires |first| >= MaxDocuments
    ensures DocumentsPart(first + later) == DocumentsPart(first)
  {
    assert FirstN(first + later, MaxDocuments) == FirstN(first, MaxDocuments);
  }

  /** A later entry of a type that already has five entries does not change the prompt. */
  lemma LaterEntryIgnored(es: seq<PlanEntry>, e: PlanEntry)
    requires |Having(es, TypeKey, TypeKey(e))| >= MaxEntriesPerType
    ensures JournalPart(es + [e]) == JournalPart(es)
  {
    var k := TypeKey(e);
    var g := GroupBy(es, TypeKey);
    GroupPresent(es, k);
    GroupBySnoc(es, e);
    FullGroupUnchanged(g.groups[k], e);
    TypeSectionsSame(g.keys, g.groups, g.groups[k := g.groups[k] + [e]]);
  }

  lemma GroupBySnoc(es: seq<PlanEntry>, e: PlanEntry)
    ensures GroupBy(es + [e], TypeKey) == Add(GroupBy(es, TypeKey), TypeKey(e), e)
  {
    assert (es + [e])[..|es|] == es;
  }

  /** A key with a non-empty list of elements has a group, and it is that list. */
  lemma GroupPresent(es: seq<PlanEntry>, k: string)
    requires Having(es, TypeKey, k) != []
    ensures k in GroupBy(es, TypeKey).groups && GroupBy(es, TypeKey).groups[k] == Having(es, TypeKey, k)
  {
    GroupByCorrect(es, TypeKey);
    HavingMember(es, TypeKey, k);
  }

  lemma FullGroupUnchanged(group: seq<PlanEntry>, e: PlanEntry)
    requires |group| >= MaxEntriesPerType
    ensures FirstN(group + [e], MaxEntriesPerType) == FirstN(group, MaxEntriesPerType)
  {
    assert (group + [e])[..MaxEntriesPerType] == group[..MaxEntriesPerType];
  }

  /** A non-empty group of `k` means `k` occurs among the elements. */
  lemma HavingMember(es: seq<PlanEntry>, keyOf: PlanEntry -> string, k: string)
    requires Having(es, keyOf, k) != []
    ensures exists i :: 0 <= i < |es| && keyOf(es[i]) == k
  {
    var v := Having(es, keyOf, k)[0];
    assert v in Having(es, keyOf, k);
    var i :| 0 <= i < |es| && es[i] == v;
  }

  /** Sections depend only on the first five entries of each group. */
  lemma {:induction false} TypeSectionsSame(keys: seq<string>, a: map<string, seq<PlanEntry>>, b: map<string, seq<PlanEntry>>)
    requires forall k :: k in keys ==> FirstN(GroupOf(a, k), MaxEntriesPerType) == FirstN(GroupOf(b, k), MaxEntriesPerType)
    ensures TypeSections(keys, a) == TypeSections(keys, b)
  {
    if keys != [] {
      var last := keys[|keys| - 1];
      assert last in keys;
      TypeSectionsSame(keys[..|keys| - 1], a, b);
    }
  }

  /** The six type names as their section headings spell them. */
  lemma TypeHeadings()
    ensures TypeHeading("MEDICAL_UPDATE") == "\n### Medical_Updates"
    ensures TypeHeading("note") == "\n### Notes"
  {
  }

  /* ---------------- `should_generate_new_plan` ---------------- */

  datatype DailyPlan = DailyPlan(id: int, sessionId: string, date: Day, content: string,
                                 userEditedContent: Option<string>, viewed: bool)

  /** The session's plans, in table order. */
  function SessionPlans(plans: seq<DailyPlan>, sessionId: string): (r: seq<DailyPlan>)
    ensures forall p :: p in r <==> p in plans && p.sessionId == sessionId
  {
    if plans == [] then []
    else SessionPlans(plans[..|plans| - 1], sessionId)
         + (if plans[|plans| - 1].sessionId == sessionId then [plans[|plans| - 1]] else [])
  }

  /**
   * The plan `order_by(date.desc()).first()` returns: one with the latest
   * date; among plans of equal date the first in table order.
   */
  function Latest(ps: seq<DailyPlan>): (r: Option<DailyPlan>)
    ensures r.None? <==> ps == []
    ensures r.Some? ==> r.value in ps && forall p :: p in ps ==> p.date <= r.value.date
  {
    if ps == [] then None
    else
      var rest := Latest(ps[..|ps| - 1]);
      var last := ps[|ps| - 1];
      assert forall p :: p in ps ==> p in ps[..|ps| - 1] || p == last;
      if rest.None? || last.date > rest.value.date then Some(last) else rest
  }

  /** `should_generate_new_plan`: whether to generate, and the latest plan. */
  function ShouldGenerateNewPlan(plans: seq<DailyPlan>, sessionId: string, today: Day): (bool, Option<DailyPlan>) {
    match Latest(SessionPlans(plans, sessionId))
    case None => (true, None)
    case Some(latest) => (latest.date < today, Some(latest))
  }

  /**
   * A new plan is due exactly when every plan of the session is for an
   * earlier date; the plan returned is the session's latest.
   */
  lemma ShouldGenerateIff(plans: seq<DailyPlan>, sessionId: string, today: Day)
    ensures var (due, latest) := ShouldGenerateNewPlan(plans, sessionId, today);
            (due <==> forall p :: p in plans && p.sessionId == sessionId ==> p.date < today) &&
            (latest.None? <==> forall p :: p in plans ==> p.sessionId != sessionId) &&
            (latest.Some? ==> latest.value in plans && latest.value.sessionId == sessionId)
  {
    var ps := SessionPlans(plans, sessionId);
    if ps != [] {
      assert ps[0] in ps;
    }
  }

  /* ---------------- `generate_daily_plan` ---------------- */

  /** The plans table. */
  datatype PlanTable = PlanTable(plans: seq<DailyPlan>, nextId: int)

  datatype PlanError =
    | InsufficientData   // the HTTP 400, raised as it is
    | GenerationFailed   // any other failure, rolled back and re-raised wrapped

  /** The date the plan is for: the caller's date when it parses, the server's otherwise. */
  function PlanDate(userDate: Option<string>, parseDate: string -> Option<Day>, serverToday: Day): Day {
    if userDate.Some? && userDate.value != [] && parseDate(userDate.value).Some? then parseDate(userDate.value).value
    else serverToday
  }

  /** The first plan of the session for `day`, in table order. */
  function FindPlan(plans: seq<DailyPlan>, sessionId: string, day: Day): (r: Option<DailyPlan>)
    ensures r.None? <==> forall p :: p in plans ==> !(p.sessionId == sessionId && p.date == day)
    ensures r.Some? ==> r.value in plans && r.value.sessionId == sessionId && r.value.date == day
  {
    if plans == [] then None
    else if plans[0].sessionId == sessionId && plans[0].date == day then Some(plans[0])
    else
      assert forall p :: p in plans ==> p == plans[0] || p in plans[1..];
      FindPlan(plans[1..], sessionId, day)
  }

  /** The inputs `generate_daily_plan` draws on besides the table. */
  datatype PlanRequest = PlanRequest(
    sessionId: string,
    userDate: Option<string>,
    parseDate: string -> Option<Day>,
    serverToday: Day,
    formatDate: Day -> string,
    context: PlanContext,
    generate: string -> Option<string>)

  /**
   * `generate_daily_plan`: the plan already stored for the date, or a new one
   * generated from the context with the date added, or an error that leaves
   * the table as it was.
   */
  function GenerateDailyPlan(table: PlanTable, req: PlanRequest): (PlanTable, Result<DailyPlan, PlanError>) {
    var today := PlanDate(req.userDate, req.parseDate, req.serverToday);
    match FindPlan(table.plans, req.sessionId, today)
    case Some(existing) => (table, Success(existing))
    case None =>
      if !HasSufficientData(req.context) then (table, Failure(InsufficientData))
      else
        var ctx := req.context.(today := Some(req.formatDate(today)));
        match req.generate(UserPrompt(ctx, req.formatDate(req.serverToday)))
        case None => (table, Failure(GenerationFailed))
        case Some(text) =>
          var plan := DailyPlan(table.nextId, req.sessionId, today, Strip(text), None, false);
          (PlanTable(table.plans + [plan], table.nextId + 1), Success(plan))
  }

  /** A failure leaves the table unchanged; the HTTP 400 comes exactly when there is no plan and no data. */
  lemma GenerateErrors(table: PlanTable, req: PlanRequest)
    ensures var (after, r) := GenerateDailyPlan(table, req);
            var today := PlanDate(req.userDate, req.parseDate, req.serverToday);
            (r.Failure? ==> after == table) &&
            (r == Failure(InsufficientData) <==>
               FindPlan(table.plans, req.sessionId, today).None? && !HasSufficientData(req.context))
  {
  }

  /**
   * A successful call returns a plan for the session and the date; a new one
   * is appended to the table, unviewed, under the next id.
   */
  lemma GenerateSucceeds(table: PlanTable, req: PlanRequest)
    ensures var (after, r) := GenerateDailyPlan(table, req);
            var today := PlanDate(req.userDate, req.parseDate, req.serverToday);
            r.Success? ==> r.value.sessionId == req.sessionId && r.value.date == today &&
                           (after == table || (after.plans == table.plans + [r.value] && !r.value.viewed &&
                                               r.value.id == table.nextId && after.nextId == table.nextId + 1))
  {
  }

  /** Asking again for the same date returns the same plan and changes nothing. */
  lemma GenerateIdempotent(table: PlanTable, req: PlanRequest)
    ensures var (after, r) := GenerateDailyPlan(table, req);
            r.Success? ==> GenerateDailyPlan(after, req) == (after, r)
  {
    var (after, r) := GenerateDailyPlan(table, req);
    var today := PlanDate(req.userDate, req.parseDate, req.serverToday);
    if r.Success? && FindPlan(table.plans, req.sessionId, today).None? {
      FindAfterAppend(table.plans, req.sessionId, today, r.value);
    }
  }

  /** A plan appended where none matched is the one found. */
  lemma {:induction false} FindAfterAppend(plans: seq<DailyPlan>, sessionId: string, day: Day, plan: DailyPlan)
    requires FindPlan(plans, sessionId, day).None? && plan.sessionId == sessionId && plan.date == day
    ensures FindPlan(plans + [plan], sessionId, day) == Some(plan)
  {
    if plans != [] {
      assert (plans + [plan])[1..] == plans[1..] + [plan];
      FindAfterAppend(plans[1..], sessionId, day, plan);
    }
  }

  /** Without a usable date from the caller the server's date is used. */
  lemma PlanDateFallback(userDate: Option<string>, parseDate: string -> Option<Day>, serverToday: Day)
    ensures userDate.None? || userDate.value == [] ==> PlanDate(userDate, parseDate, serverToday) == serverToday
    ensures userDate.Some? && parseDate(userDate.value).None? ==> PlanDate(userDate, parseDate, serverToday) == serverToday
    ensures userDate.Some? && userDate.value != [] && parseDate(userDate.value).Some? ==>
              PlanDate(userDate, parseDate, serverToday) == parseDate(userDate.value).value
  {
  }
}
