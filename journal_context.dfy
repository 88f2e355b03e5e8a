/**
 * The tiered journal context of `format_journal_context`
 * (backend/app/services/journal_service.py): a session's entries, newest
 * first, rendered in full when at most a week old, cut to 150 characters
 * when 8 to 30 days old, and as titles grouped by month when older; the
 * whole capped at four characters per token.
 */
module JournalContext {
  import opened Strings
  import opened JournalModel
  import opened Grouping

  /** The date formatting the renderer needs: `date.isoformat()` and `strftime("%B %Y")`. */
  datatype Calendar = Calendar(isoFormat: Day -> string, monthYear: Day -> string)

  /** The sentinel for an empty journal (also `EMPTY_JOURNAL_MARKER` in the AI configuration). */
  const EmptyJournal: string := "# Care Journal\n\nNo journal entries yet."
  const LoadFailure: string := "# Care Journal\n\nUnable to load journal context."
  const ContextHeader: string := "# Care Journal Context\n\n"
  const RecentHeading: string := "## Recent Entries (Last 7 Days)\n\n"
  const SummarizedHeading: string := "## Previous Entries (8-30 Days Ago)\n\n"
  const EarlierHeading: string := "## Earlier History (30+ Days Ago)\n\n"
  const TruncationMarker: string := "\n\n[Context truncated]"

  /** `MAX_JOURNAL_TOKENS`, the default budget. */
  const MaxJournalTokens := 10000
  const CharsPerToken := 4
  const SummaryLength := 150

  datatype Tier = Recent | Summarized | TitlesOnly

  /** The tier of an entry dated `d` when today is `today`; a future date counts as recent. */
  function TierOf(today: Day, d: Day): (t: Tier)
    ensures t == Recent <==> d >= today - 7
    ensures t == Summarized <==> today - 30 <= d < today - 7
    ensures t == TitlesOnly <==> d < today - 30
  {
    var daysOld := today - d;
    if daysOld <= 7 then Recent else if daysOld <= 30 then Summarized else TitlesOnly
  }

  /** The entries of `s` in tier `t`, in their order in `s`: one of the three lists the loop fills. */
  function InTier(s: seq<JournalEntry>, today: Day, t: Tier): seq<JournalEntry> {
    if s == [] then []
    else
      var last := s[|s| - 1];
      InTier(s[..|s| - 1], today, t) + (if TierOf(today, last.entryDate) == t then [last] else [])
  }

  /** Every entry lands in exactly one tier: the three lists together are the input, rearranged. */
  lemma {:induction false} TiersCover(s: seq<JournalEntry>, today: Day)
    ensures multiset(InTier(s, today, Recent)) + multiset(InTier(s, today, Summarized))
            + multiset(InTier(s, today, TitlesOnly)) == multiset(s)
  {
    if s != [] {
      TiersCover(s[..|s| - 1], today);
      LastSplit(s);
      InTierStep(s, today, Recent);
      InTierStep(s, today, Summarized);
      InTierStep(s, today, TitlesOnly);
    }
  }

  lemma InTierStep(s: seq<JournalEntry>, today: Day, t: Tier)
    requires s != []
    ensures multiset(InTier(s, today, t)) == multiset(InTier(s[..|s| - 1], today, t))
      + (if TierOf(today, s[|s| - 1].entryDate) == t then multiset{s[|s| - 1]} else multiset{})
  {
  }

  lemma LastSplit(s: seq<JournalEntry>)
    requires s != []
    ensures multiset(s) == multiset(s[..|s| - 1]) + multiset{s[|s| - 1]}
    ensures forall x :: x in s <==> x in s[..|s| - 1] || x == s[|s| - 1]
  {
    assert s == s[..|s| - 1] + [s[|s| - 1]];
  }

  /** An entry is in the list of tier `t` exactly when it is in the input and its date falls in `t`. */
  lemma {:induction false} InTierMembers(s: seq<JournalEntry>, today: Day, t: Tier, e: JournalEntry)
    ensures e in InTier(s, today, t) <==> e in s && TierOf(today, e.entryDate) == t
  {
    if s != [] {
      InTierMembers(s[..|s| - 1], today, t, e);
      LastSplit(s);
    }
  }

  /** `content[:150] + "..."` when the content is longer than 150 characters. */
  function Summary(content: string): (r: string)
    ensures |content| <= SummaryLength ==> r == content
    ensures |content| > SummaryLength ==> |r| == SummaryLength + 3 && r == content[..SummaryLength] + "..."
  {
    if |content| > SummaryLength then content[..SummaryLength] + "..." else content
  }

  /** `f"**{e.entry_date}** [{e.entry_type.value}] **{e.title}**\n{e.content}\n\n"`. */
  function RecentLine(cal: Calendar, e: JournalEntry): string {
    Concat(["**", cal.isoFormat(e.entryDate), "** [", EntryTypeValue(e.entryType), "] **", e.title, "**\n",
            e.content, "\n\n"])
  }

  /** `f"**{e.entry_date}** {e.title}: {summary}\n\n"`. */
  function SummarizedLine(cal: Calendar, e: JournalEntry): string {
    Concat(["**", cal.isoFormat(e.entryDate), "** ", e.title, ": ", Summary(e.content), "\n\n"])
  }

  function Titles(es: seq<JournalEntry>): (r: seq<string>)
    ensures |r| == |es| && forall i :: 0 <= i < |es| ==> r[i] == es[i].title
  {
    seq(|es|, i requires 0 <= i < |es| => es[i].title)
  }

  /** `f"**{month}**: "`, the titles joined by `", "`, then a blank line. */
  function MonthLine(month: string, es: seq<JournalEntry>): string {
    Concat(["**", month, "**: ", Join(Titles(es), ", "), "\n\n"])
  }

  function RecentLines(cal: Calendar, es: seq<JournalEntry>): (r: seq<string>)
    ensures |r| == |es| && forall i :: 0 <= i < |es| ==> r[i] == RecentLine(cal, es[i])
  {
    seq(|es|, i requires 0 <= i < |es| => RecentLine(cal, es[i]))
  }

  function SummarizedLines(cal: Calendar, es: seq<JournalEntry>): (r: seq<string>)
    ensures |r| == |es| && forall i :: 0 <= i < |es| ==> r[i] == SummarizedLine(cal, es[i])
  {
    seq(|es|, i requires 0 <= i < |es| => SummarizedLine(cal, es[i]))
  }

  function MonthKey(cal: Calendar): JournalEntry -> string {
    (e: JournalEntry) => cal.monthYear(e.entryDate)
  }

  /** `_group_by_month`'s result, as a function of its input. */
  function MonthGroups(es: seq<JournalEntry>, cal: Calendar): Grouped<string, JournalEntry> {
    GroupBy(es, MonthKey(cal))
  }

  predicate KeysListed(g: Grouped<string, JournalEntry>) {
    forall i :: 0 <= i < |g.keys| ==> g.keys[i] in g.groups
  }

  function MonthLines(g: Grouped<string, JournalEntry>): (r: seq<string>)
    requires KeysListed(g)
    ensures |r| == |g.keys| && forall i :: 0 <= i < |g.keys| ==> r[i] == MonthLine(g.keys[i], g.groups[g.keys[i]])
  {
    seq(|g.keys|, i requires 0 <= i < |g.keys| => MonthLine(g.keys[i], g.groups[g.keys[i]]))
  }

  lemma MonthGroupsListed(es: seq<JournalEntry>, cal: Calendar)
    ensures KeysListed(MonthGroups(es, cal))
  {
    GroupByCorrect(es, MonthKey(cal));
  }

  /** A section: its heading and lines, or nothing when it has no lines. */
  function Section(heading: string, lines: seq<string>): string {
    if lines == [] then "" else heading + Concat(lines)
  }

  function RecentSection(entries: seq<JournalEntry>, today: Day, cal: Calendar): string {
    Section(RecentHeading, RecentLines(cal, InTier(entries, today, Recent)))
  }

  function SummarizedSection(entries: seq<JournalEntry>, today: Day, cal: Calendar): string {
    Section(SummarizedHeading, SummarizedLines(cal, InTier(entries, today, Summarized)))
  }

  function EarlierSection(entries: seq<JournalEntry>, today: Day, cal: Calendar): string {
    Section(EarlierHeading, EarlierLines(InTier(entries, today, TitlesOnly), cal))
  }

  /** One line per month of the old entries `es`, months in first-seen order. */
  function EarlierLines(es: seq<JournalEntry>, cal: Calendar): seq<string> {
    MonthGroupsListed(es, cal);
    MonthLines(MonthGroups(es, cal))
  }

  /** The context before the length cap, for entries given newest first. */
  function Assemble(entries: seq<JournalEntry>, today: Day, cal: Calendar): (r: string)
    ensures ContextHeader <= r
  {
    ContextHeader + (RecentSection(entries, today, cal) + SummarizedSection(entries, today, cal)
                     + EarlierSection(entries, today, cal))
  }

  /** The cap of `max_tokens * 4` characters, with the marker appended after a cut. */
  function Limit(context: string, maxTokens: int): (r: string)
    ensures |context| <= maxTokens * CharsPerToken ==> r == context
    ensures |context| > maxTokens * CharsPerToken ==>
              r == SliceTo(context, maxTokens * CharsPerToken) + TruncationMarker
    ensures 0 <= maxTokens ==> |r| <= maxTokens * CharsPerToken + |TruncationMarker|
  {
    if |context| > maxTokens * CharsPerToken then SliceTo(context, maxTokens * CharsPerToken) + TruncationMarker
    else context
  }

  /**
   * What `format_journal_context` returns for the entries of a session listed
   * newest first. The empty-journal sentinel comes back exactly when there are
   * no entries, and never the load-failure text.
   */
  function JournalContext(entries: seq<JournalEntry>, today: Day, maxTokens: int, cal: Calendar): (r: string)
    ensures entries == [] <==> r == EmptyJournal
    ensures r != LoadFailure
  {
    if entries == [] then EmptyJournal
    else
      var context := Assemble(entries, today, cal);
      NotASentinel(context, maxTokens);
      Limit(context, maxTokens)
  }

  /** A rendered context, capped or not, is neither of the two fixed strings. */
  lemma NotASentinel(context: string, maxTokens: int)
    requires ContextHeader <= context
    ensures Limit(context, maxTokens) != EmptyJournal && Limit(context, maxTokens) != LoadFailure
  {
    var r := Limit(context, maxTokens);
    if |context| > maxTokens * CharsPerToken {
      assert r[|r| - 1] == ']';
    } else {
      assert r[14] == ' ';
    }
  }

  /**
   * Even after `strip()`, the context of a non-empty journal differs from the
   * sentinel, so a chat built on it always carries the journal.
   */
  lemma StrippedContextNotEmptyJournal(entries: seq<JournalEntry>, today: Day, maxTokens: int, cal: Calendar)
    requires entries != []
    ensures Strip(JournalContext(entries, today, maxTokens, cal)) != EmptyJournal
  {
    StrippedNotASentinel(Assemble(entries, today, cal), maxTokens);
  }

  lemma StrippedNotASentinel(context: string, maxTokens: int)
    requires ContextHeader <= context
    ensures Strip(Limit(context, maxTokens)) != EmptyJournal
  {
    if |context| <= maxTokens * CharsPerToken {
      StrippedHeaderFirst(context);
    } else {
      StrippedMarkerLast(SliceTo(context, maxTokens * CharsPerToken) + TruncationMarker);
    }
  }

  /** Stripping a string that opens with the header keeps its fifteenth character, a space. */
  lemma StrippedHeaderFirst(r: string)
    requires ContextHeader <= r
    ensures Strip(r) != EmptyJournal
  {
    assert r[0] == ContextHeader[0];
    StripKeepsStart(r);
    if |Strip(r)| == |EmptyJournal| {
      assert Strip(r)[14] == r[14] == ContextHeader[14];
    }
  }

  /** Stripping a string that ends with the truncation marker keeps its closing bracket. */
  lemma StrippedMarkerLast(r: string)
    requires |r| >= |TruncationMarker| && r[|r| - |TruncationMarker|..] == TruncationMarker
    ensures Strip(r) != EmptyJournal
  {
    assert r[|r| - 1] == TruncationMarker[|TruncationMarker| - 1];
    StripKeepsEnd(r);
    assert Strip(r)[|Strip(r)| - 1] == r[|r| - 1];
  }

  /** A recent entry appears with its full content. */
  lemma RecentShownInFull(entries: seq<JournalEntry>, today: Day, cal: Calendar, e: JournalEntry)
    requires e in entries && TierOf(today, e.entryDate) == Recent
    ensures exists pre, post :: Assemble(entries, today, cal) == pre + RecentLine(cal, e) + post
  {
    InTierMembers(entries, today, Recent, e);
    var es := InTier(entries, today, Recent);
    var i :| 0 <= i < |es| && es[i] == e;
    var pre, post := SectionHas(RecentHeading, RecentLines(cal, es), i);
    pre, post := InFirst(ContextHeader, RecentSection(entries, today, cal), SummarizedSection(entries, today, cal),
                         EarlierSection(entries, today, cal), pre, RecentLine(cal, e), post);
  }

  /** A mid-range entry appears with its title and its content cut to 150 characters. */
  lemma SummarizedShownCut(entries: seq<JournalEntry>, today: Day, cal: Calendar, e: JournalEntry)
    requires e in entries && TierOf(today, e.entryDate) == Summarized
    ensures exists pre, post :: Assemble(entries, today, cal) == pre + SummarizedLine(cal, e) + post
  {
    InTierMembers(entries, today, Summarized, e);
    var es := InTier(entries, today, Summarized);
    var i :| 0 <= i < |es| && es[i] == e;
    var pre, post := SectionHas(SummarizedHeading, SummarizedLines(cal, es), i);
    pre, post := InSecond(ContextHeader, RecentSection(entries, today, cal), SummarizedSection(entries, today, cal),
                          EarlierSection(entries, today, cal), pre, SummarizedLine(cal, e), post);
  }

  /** An old entry is listed by title under the line of its month, among the old entries of that month. */
  lemma OldShownUnderMonth(entries: seq<JournalEntry>, today: Day, cal: Calendar, e: JournalEntry)
    requires e in entries && TierOf(today, e.entryDate) == TitlesOnly
    ensures var g := MonthGroups(InTier(entries, today, TitlesOnly), cal);
            var month := cal.monthYear(e.entryDate);
            month in g.groups && e in g.groups[month] &&
            (forall x :: x in g.groups[month] ==> TierOf(today, x.entryDate) == TitlesOnly && cal.monthYear(x.entryDate) == month) &&
            exists pre, post :: Assemble(entries, today, cal) == pre + MonthLine(month, g.groups[month]) + post
  {
    var older := InTier(entries, today, TitlesOnly);
    var g := MonthGroups(older, cal);
    var month := cal.monthYear(e.entryDate);
    MonthOfEntry(entries, today, cal, e);
    MonthGroupsListed(older, cal);
    var i :| 0 <= i < |g.keys| && g.keys[i] == month;
    var pre, post := SectionHas(EarlierHeading, MonthLines(g), i);
    pre, post := InThird(ContextHeader, RecentSection(entries, today, cal), SummarizedSection(entries, today, cal),
                         EarlierSection(entries, today, cal), pre, MonthLine(month, g.groups[month]), post);
  }

  /** The month group of an old entry holds it, and only old entries of that month. */
  lemma MonthOfEntry(entries: seq<JournalEntry>, today: Day, cal: Calendar, e: JournalEntry)
    requires e in entries && TierOf(today, e.entryDate) == TitlesOnly
    ensures var g := MonthGroups(InTier(entries, today, TitlesOnly), cal);
            var month := cal.monthYear(e.entryDate);
            month in g.groups && month in g.keys && e in g.groups[month] &&
            (forall x :: x in g.groups[month] ==> TierOf(today, x.entryDate) == TitlesOnly && cal.monthYear(x.entryDate) == month)
  {
    InTierMembers(entries, today, TitlesOnly, e);
    var older := InTier(entries, today, TitlesOnly);
    var g := MonthGroups(older, cal);
    var month := cal.monthYear(e.entryDate);
    GroupByCorrect(older, MonthKey(cal));
    var j :| 0 <= j < |older| && older[j] == e;
    assert MonthKey(cal)(older[j]) == month;
    HavingHas(older, MonthKey(cal), j);
    forall x | x in g.groups[month] ensures TierOf(today, x.entryDate) == TitlesOnly {
      InTierMembers(entries, today, TitlesOnly, x);
    }
  }

  lemma SectionHas(heading: string, lines: seq<string>, i: nat) returns (pre: string, post: string)
    requires i < |lines|
    ensures Section(heading, lines) == pre + lines[i] + post
  {
    pre, post := ConcatHas(lines, i);
    pre := heading + pre;
  }

  lemma InFirst(h: string, a: string, b: string, c: string, pre: string, x: string, post: string)
      returns (pre': string, post': string)
    requires a == pre + x + post
    ensures h + (a + b + c) == pre' + x + post'
  {
    pre', post' := h + pre, post + b + c;
  }

  lemma InSecond(h: string, a: string, b: string, c: string, pre: string, x: string, post: string)
      returns (pre': string, post': string)
    requires b == pre + x + post
    ensures h + (a + b + c) == pre' + x + post'
  {
    pre', post' := h + a + pre, post + c;
  }

  lemma InThird(h: string, a: string, b: string, c: string, pre: string, x: string, post: string)
      returns (pre': string, post': string)
    requires c == pre + x + post
    ensures h + (a + b + c) == pre' + x + post'
  {
    pre', post' := h + a + b + pre, post;
  }

  lemma {:induction false} ConcatHas(parts: seq<string>, i: nat) returns (pre: string, post: string)
    requires i < |parts|
    ensures Concat(parts) == pre + parts[i] + post
  {
    if i == |parts| - 1 {
      pre, post := Concat(parts[..i]), "";
    } else {
      pre, post := ConcatHas(parts[..|parts| - 1], i);
      post := post + parts[|parts| - 1];
    }
  }

  /** `_group_by_month`: old entries keyed by `strftime("%B %Y")`, months in first-seen order. */
  method GroupByMonth(es: seq<JournalEntry>, cal: Calendar) returns (g: Grouped<string, JournalEntry>)
    ensures g == MonthGroups(es, cal)
    ensures forall month :: month in g.groups <==> exists i :: 0 <= i < |es| && cal.monthYear(es[i].entryDate) == month
    ensures forall month :: month in g.groups ==> g.groups[month] == Having(es, MonthKey(cal), month)
  {
    g := GroupInto(es, MonthKey(cal));
  }

  /** The loop that sorts the entries into the three tiers, keeping their order. */
  method SplitTiers(entries: seq<JournalEntry>, today: Day)
      returns (fullDetail: seq<JournalEntry>, summarized: seq<JournalEntry>, titlesOnly: seq<JournalEntry>)
    ensures fullDetail == InTier(entries, today, Recent)
    ensures summarized == InTier(entries, today, Summarized)
    ensures titlesOnly == InTier(entries, today, TitlesOnly)
  {
    fullDetail, summarized, titlesOnly := [], [], [];
    var i := 0;
    while i < |entries|
      invariant 0 <= i <= |entries|
      invariant fullDetail == InTier(entries[..i], today, Recent)
      invariant summarized == InTier(entries[..i], today, Summarized)
      invariant titlesOnly == InTier(entries[..i], today, TitlesOnly)
    {
      assert entries[..i + 1][..i] == entries[..i];
      var e := entries[i];
      var daysOld := today - e.entryDate;
      if daysOld <= 7 {
        fullDetail := fullDetail + [e];
      } else if daysOld <= 30 {
        summarized := summarized + [e];
      } else {
        titlesOnly := titlesOnly + [e];
      }
      i := i + 1;
    }
    assert entries[..i] == entries;
  }

  /** The recent section: its heading, then one full line per entry. */
  method RenderRecent(fullDetail: seq<JournalEntry>, cal: Calendar) returns (text: string)
    ensures text == Section(RecentHeading, RecentLines(cal, fullDetail))
  {
    text := "";
    if fullDetail != [] {
      text := RecentHeading;
      var k := 0;
      while k < |fullDetail|
        invariant 0 <= k <= |fullDetail|
        invariant text == RecentHeading + Concat(RecentLines(cal, fullDetail[..k]))
      {
        ConcatAppend(RecentLines(cal, fullDetail[..k]), RecentLine(cal, fullDetail[k]));
        assert RecentLines(cal, fullDetail[..k + 1]) == RecentLines(cal, fullDetail[..k]) + [RecentLine(cal, fullDetail[k])];
        text := text + RecentLine(cal, fullDetail[k]);
        k := k + 1;
      }
      assert fullDetail[..k] == fullDetail;
    }
  }

  /** The mid-range section: its heading, then one summarised line per entry. */
  method RenderSummarized(summarized: seq<JournalEntry>, cal: Calendar) returns (text: string)
    ensures text == Section(SummarizedHeading, SummarizedLines(cal, summarized))
  {
    text := "";
    if summarized != [] {
      text := SummarizedHeading;
      var k := 0;
      while k < |summarized|
        invariant 0 <= k <= |summarized|
        invariant text == SummarizedHeading + Concat(SummarizedLines(cal, summarized[..k]))
      {
        ConcatAppend(SummarizedLines(cal, summarized[..k]), SummarizedLine(cal, summarized[k]));
        assert SummarizedLines(cal, summarized[..k + 1])
            == SummarizedLines(cal, summarized[..k]) + [SummarizedLine(cal, summarized[k])];
        text := text + SummarizedLine(cal, summarized[k]);
        k := k + 1;
      }
      assert summarized[..k] == summarized;
    }
  }

  /** The earlier section: its heading, then one line of titles per month. */
  method RenderEarlier(titlesOnly: seq<JournalEntry>, cal: Calendar) returns (text: string)
    ensures text == Section(EarlierHeading, EarlierLines(titlesOnly, cal))
  {
    text := "";
    if titlesOnly != [] {
      var byMonth := GroupByMonth(titlesOnly, cal);
      MonthGroupsListed(titlesOnly, cal);
      SomeMonth(titlesOnly, cal);
      var lines := RenderMonths(byMonth);
      text := EarlierHeading + lines;
    }
  }

  /** The loop over `by_month.items()`: for each month its titles, comma separated. */
  method RenderMonths(byMonth: Grouped<string, JournalEntry>) returns (text: string)
    requires KeysListed(byMonth)
    ensures text == Concat(MonthLines(byMonth))
  {
    text := "";
    var k := 0;
    while k < |byMonth.keys|
      invariant 0 <= k <= |byMonth.keys|
      invariant text == Concat(MonthLines(byMonth)[..k])
    {
      var month := byMonth.keys[k];
      MonthLineParts(month, byMonth.groups[month]);
      ConcatAppend(MonthLines(byMonth)[..k], MonthLine(month, byMonth.groups[month]));
      assert MonthLines(byMonth)[..k + 1] == MonthLines(byMonth)[..k] + [MonthLine(month, byMonth.groups[month])];
      text := text + "**" + month + "**: ";
      text := text + Join(Titles(byMonth.groups[month]), ", ");
      text := text + "\n\n";
      k := k + 1;
    }
    assert MonthLines(byMonth)[..k] == MonthLines(byMonth);
  }

  /** The three appends the loop makes for one month. */
  lemma MonthLineParts(month: string, es: seq<JournalEntry>)
    ensures MonthLine(month, es) == "**" + month + "**: " + Join(Titles(es), ", ") + "\n\n"
  {
    ConcatFive("**", month, "**: ", Join(Titles(es), ", "), "\n\n");
  }

  /** Old entries fill at least one month. */
  lemma SomeMonth(es: seq<JournalEntry>, cal: Calendar)
    requires es != []
    ensures MonthGroups(es, cal).keys != []
  {
    GroupByCorrect(es, MonthKey(cal));
    assert MonthKey(cal)(es[0]) in MonthGroups(es, cal).groups;
  }

  /**
   * `format_journal_context` once the query has returned `entries`, newest
   * first: the tiering loop, the three section loops and the cap.
   */
  method RenderJournalContext(entries: seq<JournalEntry>, today: Day, maxTokens: int, cal: Calendar)
      returns (context: string)
    ensures context == JournalContext(entries, today, maxTokens, cal)
  {
    if entries == [] {
      return EmptyJournal;
    }
    var fullDetail, summarized, titlesOnly := SplitTiers(entries, today);
    var recent := RenderRecent(fullDetail, cal);
    var mid := RenderSummarized(summarized, cal);
    var earlier := RenderEarlier(titlesOnly, cal);
    context := ContextHeader + (recent + mid + earlier);
    assert context == Assemble(entries, today, cal);
    if |context| > maxTokens * CharsPerToken {
      context := SliceTo(context, maxTokens * CharsPerToken) + TruncationMarker;
    }
  }
}
