/**
 * The pure half of `assess_and_synthesize` (backend/app/services/journal_service.py):
 * the brief of recent entries placed in the classifier's prompt, the removal
 * of a markdown code fence around its answer, and the mapping of the decoded
 * answer onto `JournalSuggestion` and `JournalSynthesisResult`, where every
 * failure becomes one of two fixed reasons.
 */
module JournalSynthesis {
  import opened Wrappers
  import opened Strings
  import opened JsonValue
  import opened JournalModel

  const Fence: string := "```"
  const ParseFailure: string := "Error parsing AI response"
  const SynthesisFailure: string := "Error during synthesis"
  const NoRecentEntries: string := "No recent journal entries."
  /** `_get_recent_entries(session_id, days=7)`. */
  const RecentWindowDays := 7
  /** The `created_by` of every entry the classifier proposes. */
  const AiAuthor: string := "ai"

  /** What the classifier is shown: the recent brief and the exchange to assess. */
  datatype SynthesisRequest = SynthesisRequest(recentBrief: string, userMessage: string, aiResponse: string)

  /** `f"- {entry.entry_date} [{entry.entry_type.value}]: {entry.title}"`. */
  function BriefLine(isoFormat: Day -> string, e: JournalEntry): string {
    "- " + isoFormat(e.entryDate) + " [" + EntryTypeValue(e.entryType) + "]: " + e.title
  }

  function BriefLines(isoFormat: Day -> string, es: seq<JournalEntry>): (r: seq<string>)
    ensures |r| == |es| && forall i :: 0 <= i < |es| ==> r[i] == BriefLine(isoFormat, es[i])
  {
    seq(|es|, i requires 0 <= i < |es| => BriefLine(isoFormat, es[i]))
  }

  /** `_format_recent_journal_brief`: a fixed line for no entries, else one line per entry. */
  function RecentBrief(isoFormat: Day -> string, es: seq<JournalEntry>): (r: string)
    ensures es == [] <==> r == NoRecentEntries
  {
    if es == [] then NoRecentEntries
    else
      var lines := BriefLines(isoFormat, es);
      assert Join(lines, "\n")[0] == lines[0][0] == '-' by {
        JoinStartsWithFirst(lines, "\n");
      }
      Join(lines, "\n")
  }

  lemma {:induction false} JoinStartsWithFirst(parts: seq<string>, sep: string)
    requires parts != []
    ensures parts[0] <= Join(parts, sep)
  {
  }

  /** Splitting the brief at line breaks gives one line per entry, when no line holds a break of its own. */
  lemma BriefLinesRecovered(isoFormat: Day -> string, es: seq<JournalEntry>)
    requires es != [] && forall i :: 0 <= i < |es| ==> '\n' !in BriefLine(isoFormat, es[i])
    ensures Split(RecentBrief(isoFormat, es), '\n') == BriefLines(isoFormat, es)
  {
    SplitJoin(BriefLines(isoFormat, es), '\n');
  }

  /**
   * The clean-up of the answer: strip it; if it opens a fence, drop the first
   * line, drop the last one too when it strips to the fence alone, rejoin and
   * strip again.
   */
  function StripCodeFence(text: string): (r: string)
    ensures !StartsWith(Strip(text), Fence) ==> r == Strip(text)
  {
    Unfence(Strip(text))
  }

  /** The part of the clean-up after the first strip. */
  function Unfence(cleaned: string): string {
    if StartsWith(cleaned, Fence) then
      var lines := Split(cleaned, '\n')[1..];
      var kept := if lines != [] && Strip(lines[|lines| - 1]) == Fence then lines[..|lines| - 1] else lines;
      Strip(Join(kept, "\n"))
    else cleaned
  }

  /** An answer wrapped in a fence, with or without a language tag, comes out as its stripped body. */
  lemma FencedRoundTrip(tag: string, body: string)
    requires '\n' !in tag
    ensures StripCodeFence(Fence + tag + "\n" + body + "\n" + Fence) == Strip(body)
  {
    var text := Fence + tag + "\n" + body + "\n" + Fence;
    FencedTextKept(tag, body);
    UnfenceFenced(tag, body);
  }

  lemma UnfenceFenced(tag: string, body: string)
    requires '\n' !in tag
    ensures Unfence(Fence + tag + "\n" + body + "\n" + Fence) == Strip(body)
  {
    var text := Fence + tag + "\n" + body + "\n" + Fence;
    var lines := FencedLines(tag, body);
    assert lines[..|lines| - 1] == Split(body, '\n');
    assert StartsWith(text, Fence);
    assert Strip(lines[|lines| - 1]) == Fence by { StripKeeps(Fence); }
    UnfenceClosed(text, lines);
    JoinSplit(body, '\n');
  }

  /** A text that opens a fence and whose last line is the fence loses both lines. */
  lemma UnfenceClosed(text: string, lines: seq<string>)
    requires StartsWith(text, Fence) && lines == Split(text, '\n')[1..]
    requires lines != [] && Strip(lines[|lines| - 1]) == Fence
    ensures Unfence(text) == Strip(Join(lines[..|lines| - 1], "\n"))
  {
  }

  /** The fenced text neither starts nor ends with white space, and opens with the fence. */
  lemma FencedTextKept(tag: string, body: string)
    ensures var text := Fence + tag + "\n" + body + "\n" + Fence;
            Strip(text) == text && StartsWith(text, Fence)
  {
    var text := Fence + tag + "\n" + body + "\n" + Fence;
    assert text[0] == '`' && text[|text| - 1] == '`';
    StripKeeps(text);
  }

  /** The lines after the opening one are those of the body, then the closing fence. */
  lemma FencedLines(tag: string, body: string) returns (lines: seq<string>)
    requires '\n' !in tag
    ensures lines == Split(Fence + tag + "\n" + body + "\n" + Fence, '\n')[1..]
    ensures lines == Split(body, '\n') + [Fence]
  {
    var head := Fence + tag;
    assert Fence + tag + "\n" + body + "\n" + Fence == head + ['\n'] + (body + ['\n'] + Fence);
    SplitAppend(head, body + ['\n'] + Fence, '\n');
    SplitAppend(body, Fence, '\n');
    SplitNone(head, '\n');
    SplitNone(Fence, '\n');
    lines := Split(body, '\n') + [Fence];
  }

  /** Wrapping an answer in a fence changes nothing once the fence is stripped, unless the answer itself opens one. */
  lemma FenceTransparent(tag: string, body: string)
    requires '\n' !in tag && !StartsWith(Strip(body), Fence)
    ensures StripCodeFence(Fence + tag + "\n" + body + "\n" + Fence) == StripCodeFence(body)
  {
    FencedRoundTrip(tag, body);
  }

  /** One item of `suggested_entries`: three string fields, the type one of the six values. */
  function ParseSuggestion(item: Json): (r: Option<JournalSuggestion>)
    ensures r.Some? ==> item.JObject? && r.value.confidence == 1.0 &&
                        Lookup(item.members, "title") == Some(JString(r.value.title)) &&
                        Lookup(item.members, "content") == Some(JString(r.value.content)) &&
                        Lookup(item.members, "entry_type") == Some(JString(EntryTypeValue(r.value.entryType)))
  {
    match (Index(item, "title"), Index(item, "content"), Index(item, "entry_type"))
    case (Some(JString(title)), Some(JString(content)), Some(JString(value))) =>
      (match ParseEntryType(value)
       case Some(t) => Some(JournalSuggestion(title, content, t, 1.0))
       case None => None)
    case _ => None
  }

  /** The comprehension over the items: it fails as soon as one item does. */
  function ParseSuggestions(items: seq<Json>): (r: Option<seq<JournalSuggestion>>)
    ensures r.Some? ==> |r.value| == |items| && forall s :: s in r.value ==> s.confidence == 1.0
  {
    if items == [] then Some([])
    else
      var first := ParseSuggestion(items[0]);
      var rest := ParseSuggestions(items[1..]);
      if first.Some? && rest.Some? then Some([first.value] + rest.value) else None
  }

  /** A successful parse holds, in order, what each item parses to. */
  lemma {:induction false} ParseSuggestionsEach(items: seq<Json>)
    requires ParseSuggestions(items).Some?
    ensures forall i :: 0 <= i < |items| ==> ParseSuggestion(items[i]) == Some(ParseSuggestions(items).value[i])
  {
    if items != [] {
      ParseSuggestionsEach(items[1..]);
      forall i | 0 < i < |items|
        ensures ParseSuggestion(items[i]) == Some(ParseSuggestions(items).value[i])
      {
        assert items[i] == items[1..][i - 1];
      }
    }
  }

  /** The items parse exactly when each of them does. */
  lemma {:induction false} ParseSuggestionsAll(items: seq<Json>)
    ensures ParseSuggestions(items).Some? <==> forall i :: 0 <= i < |items| ==> ParseSuggestion(items[i]).Some?
  {
    if items != [] {
      ParseSuggestionsAll(items[1..]);
      if ParseSuggestion(items[0]).Some? && ParseSuggestions(items[1..]).None? {
        var i :| 0 <= i < |items| - 1 && ParseSuggestion(items[1..][i]).None?;
        assert items[i + 1] == items[1..][i];
      }
      if ParseSuggestions(items).Some? {
        ParseSuggestionsEach(items);
      }
    }
  }

  /**
   * What `for entry in value` visits: a list's items, a dict's keys, a
   * string's characters; any other value cannot be iterated.
   */
  function Iterated(v: Json): Option<seq<Json>> {
    match v
    case JArray(items) => Some(items)
    case JObject(members) => Some(seq(|members|, i requires 0 <= i < |members| => JString(members[i].0)))
    case JString(s) => Some(seq(|s|, i requires 0 <= i < |s| => JString([s[i]])))
    case _ => None
  }

  /** The strings pydantic's lax `bool` reads as false, compared ignoring ASCII case. */
  const FalseWords: set<string> := {"0", "f", "n", "no", "off", "false"}
  /** The strings pydantic's lax `bool` reads as true, compared ignoring ASCII case. */
  const TrueWords: set<string> := {"1", "t", "y", "yes", "on", "true"}

  /**
   * How the `should_create: bool` field of `JournalSynthesisResult` takes a
   * decoded value in pydantic's lax mode: a boolean as it is, the numbers 0
   * and 1, and the words above; anything else fails validation.
   */
  function LaxBool(v: Json): (r: Option<bool>)
    ensures v.JBool? ==> r == Some(v.b)
    ensures v.JNull? || v.JArray? || v.JObject? ==> r.None?
    ensures r == Some(true) <==> v == JBool(true) || v == JNumber(1.0) || (v.JString? && Lower(v.s) in TrueWords)
    ensures r == Some(false) <==> v == JBool(false) || v == JNumber(0.0) || (v.JString? && Lower(v.s) in FalseWords)
  {
    match v
    case JBool(b) => Some(b)
    case JNumber(n) => if n == 0.0 then Some(false) else if n == 1.0 then Some(true) else None
    case JString(s) =>
      var w := Lower(s);
      if w in FalseWords then Some(false) else if w in TrueWords then Some(true) else None
    case _ => None
  }

  /** Integers, floats and words that an answer may carry in place of a JSON boolean. */
  lemma LaxBoolWords()
    ensures LaxBool(JNumber(1.0)) == Some(true) && LaxBool(JNumber(0.0)) == Some(false)
    ensures LaxBool(JString("yes")) == Some(true) && LaxBool(JString("Off")) == Some(false)
    ensures LaxBool(JString("TRUE")) == Some(true)
    ensures LaxBool(JNumber(2.0)).None? && LaxBool(JString("maybe")).None? && LaxBool(JString("")).None?
  {
    assert Lower("yes") == "yes";
    assert Lower("Off") == "off";
    assert Lower("TRUE") == "true";
    assert Lower("maybe") == "maybe";
  }

  /** The suggestions of `result_json["suggested_entries"]`, when the key is there, iterates, and every item parses. */
  function SuggestedEntries(j: Json): Option<seq<JournalSuggestion>> {
    var entries := Index(j, "suggested_entries");
    var items := if entries.Some? then Iterated(entries.value) else None;
    if items.Some? then ParseSuggestions(items.value) else None
  }

  /**
   * The decoded answer as a result, or the reason `assess_and_synthesize`
   * gives for its failure: every suggestion must parse, `should_create` must
   * be there and validate as a lax `bool`, and `reasoning` must be a string.
   */
  function ParseResult(j: Json): (r: Result<JournalSynthesisResult, string>)
    ensures r.Failure? ==> r.error == SynthesisFailure
    ensures r.Success? <==>
              SuggestedEntries(j).Some? &&
              Index(j, "should_create").Some? && LaxBool(Index(j, "should_create").value).Some? &&
              Index(j, "reasoning").Some? && Index(j, "reasoning").value.JString?
    ensures r.Success? ==>
              r.value == JournalSynthesisResult(LaxBool(Index(j, "should_create").value).value,
                                                Index(j, "reasoning").value.s, SuggestedEntries(j).value)
  {
    var shouldCreate := if Index(j, "should_create").Some? then LaxBool(Index(j, "should_create").value) else None;
    match (SuggestedEntries(j), shouldCreate, Index(j, "reasoning"))
    case (Some(ss), Some(b), Some(JString(reasoning))) =>
      Success(JournalSynthesisResult(b, reasoning, ss))
    case _ => Failure(SynthesisFailure)
  }

  /** An answer missing a field, or with a field that does not validate, gives the synthesis error. */
  lemma ParseResultRejects(j: Json)
    ensures !j.JObject? ==> ParseResult(j) == Failure(SynthesisFailure)
    ensures Index(j, "suggested_entries").None? || Index(j, "should_create").None? || Index(j, "reasoning").None? ==>
              ParseResult(j) == Failure(SynthesisFailure)
    ensures Index(j, "reasoning").Some? && !Index(j, "reasoning").value.JString? ==> ParseResult(j) == Failure(SynthesisFailure)
    ensures Index(j, "should_create").Some? && LaxBool(Index(j, "should_create").value).None? ==>
              ParseResult(j) == Failure(SynthesisFailure)
  {
  }

  /**
   * From the classifier's answer to a result: no answer or an empty one is a
   * synthesis failure, text that does not decode a parse failure.
   */
  function Interpret(text: Option<string>, decode: Decoder): (r: Result<JournalSynthesisResult, string>)
    ensures r.Failure? ==> r.error == ParseFailure || r.error == SynthesisFailure
    ensures r.Failure? && r.error == ParseFailure <==>
              text.Some? && text.value != [] && decode(StripCodeFence(text.value)).None?
    ensures r.Success? ==> forall i :: 0 <= i < |r.value.suggestedEntries| ==> r.value.suggestedEntries[i].confidence == 1.0
  {
    if text.None? || text.value == [] then Failure(SynthesisFailure)
    else
      match decode(StripCodeFence(text.value))
      case None => Failure(ParseFailure)
      case Some(j) => ParseResult(j)
  }

  /** The result returned for a failure: nothing to create, the reason, no suggestions. */
  function ErrorResult(reason: string): (r: JournalSynthesisResult)
    ensures !r.shouldCreate && r.suggestedEntries == [] && r.reasoning == reason
  {
    JournalSynthesisResult(false, reason, [])
  }

  // The answer format the prompt asks for, as the partner of the parser.

  function SuggestionJson(s: JournalSuggestion): Json {
    JObject([("title", JString(s.title)), ("content", JString(s.content)),
             ("entry_type", JString(EntryTypeValue(s.entryType)))])
  }

  function SuggestionsJson(ss: seq<JournalSuggestion>): seq<Json> {
    if ss == [] then [] else [SuggestionJson(ss[0])] + SuggestionsJson(ss[1..])
  }

  function ResultJson(r: JournalSynthesisResult): Json {
    JObject([("should_create", JBool(r.shouldCreate)), ("reasoning", JString(r.reasoning)),
             ("suggested_entries", JArray(SuggestionsJson(r.suggestedEntries)))])
  }

  /** The suggestions with every confidence set to the constant 1.0 the parser assigns. */
  function FullConfidence(ss: seq<JournalSuggestion>): seq<JournalSuggestion> {
    if ss == [] then [] else [ss[0].(confidence := 1.0)] + FullConfidence(ss[1..])
  }

  /** A suggestion written in the requested format is read back unchanged but for its confidence. */
  lemma SuggestionRoundTrip(s: JournalSuggestion)
    ensures ParseSuggestion(SuggestionJson(s)) == Some(s.(confidence := 1.0))
  {
    var title, content := ("title", JString(s.title)), ("content", JString(s.content));
    var entryType := ("entry_type", JString(EntryTypeValue(s.entryType)));
    assert SuggestionJson(s).members == [] + [title] + [content] + [entryType];
    LookupLast([] + [title] + [content], "entry_type", entryType.1);
    LookupSkip([] + [title] + [content], "entry_type", entryType.1, "content");
    LookupLast([] + [title], "content", content.1);
    LookupSkip([] + [title] + [content], "entry_type", entryType.1, "title");
    LookupSkip([] + [title], "content", content.1, "title");
    LookupLast([], "title", title.1);
    EntryTypeClosed(s.entryType, "");
  }

  /** An answer in the requested format is read back as the result it encodes, every confidence 1.0. */
  lemma ResultRoundTrip(r: JournalSynthesisResult)
    ensures ParseResult(ResultJson(r)) == Success(r.(suggestedEntries := FullConfidence(r.suggestedEntries)))
  {
    ResultFields(r);
    ItemsRoundTrip(r.suggestedEntries);
  }

  /** A list of suggestions in the requested format is read back in order, every confidence 1.0. */
  lemma {:induction false} ItemsRoundTrip(ss: seq<JournalSuggestion>)
    ensures ParseSuggestions(SuggestionsJson(ss)) == Some(FullConfidence(ss))
  {
    if ss != [] {
      ItemsRoundTrip(ss[1..]);
      SuggestionRoundTrip(ss[0]);
      assert SuggestionsJson(ss)[1..] == SuggestionsJson(ss[1..]);
    }
  }

  /** The three fields of an answer in the requested format. */
  lemma ResultFields(r: JournalSynthesisResult)
    ensures Index(ResultJson(r), "suggested_entries") == Some(JArray(SuggestionsJson(r.suggestedEntries)))
    ensures Index(ResultJson(r), "should_create") == Some(JBool(r.shouldCreate))
    ensures Index(ResultJson(r), "reasoning") == Some(JString(r.reasoning))
  {
    var should, reasoning := ("should_create", JBool(r.shouldCreate)), ("reasoning", JString(r.reasoning));
    var entries := ("suggested_entries", JArray(SuggestionsJson(r.suggestedEntries)));
    assert ResultJson(r).members == [] + [should] + [reasoning] + [entries];
    LookupLast([] + [should] + [reasoning], "suggested_entries", entries.1);
    LookupSkip([] + [should] + [reasoning], "suggested_entries", entries.1, "reasoning");
    LookupLast([] + [should], "reasoning", reasoning.1);
    LookupSkip([] + [should] + [reasoning], "suggested_entries", entries.1, "should_create");
    LookupSkip([] + [should], "reasoning", reasoning.1, "should_create");
    LookupLast([], "should_create", should.1);
  }
}
