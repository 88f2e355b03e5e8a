/**
 * The two line-based parsers of `OpenAIService`
 * (backend/app/services/openai_service.py): `_parse_medical_summary` and
 * `_parse_coaching_response`. Each walks the reply line by line, keeping a
 * current section and a current multi-line item. Each is written here twice:
 * as a fold of a step function over the lines (the specification) and as the
 * loop that updates its variables (the method), proved to agree.
 */
module ResponseParsers {
  import opened Wrappers
  import opened Strings

  predicate IsDigit(c: char) {
    '0' <= c <= '9'
  }

  /**
   * `is_bullet_start`: after the indentation, the line starts with `-` or
   * `•`, or with a digit and has a `.` within its first three characters.
   */
  predicate IsBulletStart(line: string) {
    var s := TrimStart(line);
    StartsWith(s, "-") || StartsWith(s, "•") || (|s| > 0 && IsDigit(s[0]) && '.' in Take(s, 3))
  }

  /** Indentation does not change `lstrip`. */
  lemma {:induction false} TrimStartIndent(indent: string, line: string)
    requires AllSpace(indent)
    ensures TrimStart(indent + line) == TrimStart(line)
  {
    if indent != [] {
      assert (indent + line)[1..] == indent[1..] + line;
      TrimStartIndent(indent[1..], line);
    } else {
      assert indent + line == line;
    }
  }

  /** Whether a line opens a bullet does not depend on its indentation. */
  lemma BulletIgnoresIndent(indent: string, line: string)
    requires AllSpace(indent)
    ensures IsBulletStart(indent + line) <==> IsBulletStart(line)
  {
    TrimStartIndent(indent, line);
  }

  /** Numbered items `1.` to `99.` open a bullet. */
  lemma NumberedBullet(number: string, rest: string)
    requires 1 <= |number| <= 2 && forall i :: 0 <= i < |number| ==> IsDigit(number[i])
    ensures IsBulletStart(number + "." + rest)
  {
    var line := number + "." + rest;
    assert TrimStart(line) == line;
    assert Take(line, 3)[|number|] == '.';
  }

  /** The text of an accumulated item: its lines joined by newlines, stripped. */
  function ItemText(item: seq<string>): string {
    Strip(Join(item, "\n"))
  }

  /** `save_current_item` on one list: the item's text is appended unless the item or its text is empty. */
  function Saved(item: seq<string>, list: seq<string>): seq<string> {
    if item == [] || ItemText(item) == [] then list else list + [ItemText(item)]
  }

  /** Non-empty, and no white space at either end: what a stored item looks like. */
  predicate Clean(list: seq<string>) {
    forall i :: 0 <= i < |list| ==> list[i] != [] && !IsSpace(list[i][0]) && !IsSpace(list[i][|list[i]| - 1])
  }

  /** A one-line item that is already stripped is saved as exactly that line. */
  lemma SavedSingle(line: string, list: seq<string>)
    requires line != [] && Strip(line) == line
    ensures Saved([line], list) == list + [line]
  {
    assert Join([line], "\n") == line;
  }

  lemma SavedClean(item: seq<string>, list: seq<string>)
    requires Clean(list)
    ensures Clean(Saved(item, list))
  {
    var text := ItemText(item);
    if item != [] && text != [] {
      var saved := list + [text];
      forall i | 0 <= i < |saved|
        ensures saved[i] != [] && !IsSpace(saved[i][0]) && !IsSpace(saved[i][|saved[i]| - 1])
      {
        if i < |list| {
          assert saved[i] == list[i];
        } else {
          assert saved[i] == text;
        }
      }
    }
  }

  /** Each of `lines` as `read` sees it. */
  function ReadLines<S>(read: string -> Line<S>, lines: seq<string>): seq<Line<S>> {
    seq(|lines|, i requires 0 <= i < |lines| => read(lines[i]))
  }

  /** Reading a line in front of other lines. */
  lemma ReadLinesCons<S>(read: string -> Line<S>, h: string, lines: seq<string>)
    ensures ReadLines(read, [h] + lines) == [read(h)] + ReadLines(read, lines)
  {
  }

  /**
   * How the loop body sees one line: blank, a section header, or text with
   * its stripped form and whether it opens a bullet.
   */
  datatype Line<S> = Blank | Heading(section: S) | Text(text: string, bullet: bool)

  /* ---------------- `_parse_medical_summary` ---------------- */

  datatype Section = Unset | Summary | Changes | Questions | Notes

  /**
   * The header a stripped, lower-cased line announces, tried in the order
   * summary, changes, questions, notes.
   */
  function Header(lower: string): Option<Section> {
    if Contains(lower, "summary of update") || lower == "summary" || StartsWith(lower, "## summary") then Some(Summary)
    else if Contains(lower, "key changes") || Contains(lower, "findings") then Some(Changes)
    else if Contains(lower, "recommended questions") || StartsWith(lower, "## questions") then Some(Questions)
    else if Contains(lower, "family notes") || Contains(lower, "next actions") then Some(Notes)
    else None
  }

  /** How `_parse_medical_summary` reads one line. */
  function SummaryLine(line: string): Line<Section> {
    var stripped := Strip(line);
    if stripped == [] then Blank
    else
      match Header(Lower(stripped))
      case Some(section) => Heading(section)
      case None => Text(stripped, IsBulletStart(line))
  }

  /** A line the medical-summary parser may store: non-empty, stripped, and announcing no header. */
  predicate ContentLine(s: string) {
    s != [] && Strip(s) == s && Header(Lower(s)).None?
  }

  lemma SummaryLineText(line: string)
    ensures SummaryLine(line).Text? ==> ContentLine(SummaryLine(line).text)
  {
    var stripped := Strip(line);
    if stripped != [] {
      StripKeeps(stripped);
    }
  }

  datatype SummaryState = SummaryState(section: Section, item: seq<string>, summary: seq<string>,
                                       changes: seq<string>, questions: seq<string>, notes: seq<string>)

  const SummaryStart := SummaryState(Unset, [], [], [], [], [])

  /** `save_current_item`: only the changes and questions sections keep items. */
  function SaveSummaryItem(st: SummaryState): SummaryState {
    if st.section.Changes? then st.(changes := Saved(st.item, st.changes))
    else if st.section.Questions? then st.(questions := Saved(st.item, st.questions))
    else st
  }

  /** One pass of the loop body. */
  function SummaryStep(st: SummaryState, line: Line<Section>): SummaryState {
    match line
    case Blank => st
    case Heading(section) => SaveSummaryItem(st).(section := section, item := [])
    case Text(text, bullet) =>
      if st.section.Summary? then st.(summary := st.summary + [text])
      else if st.section.Notes? then st.(notes := st.notes + [text])
      else if st.section.Unset? then st
      else if bullet then SaveSummaryItem(st).(item := [text])
      else st.(item := st.item + [text])
  }

  /** Every line of the reply, as the loop body reads it. */
  function SummaryLines(lines: seq<string>): seq<Line<Section>> {
    ReadLines(SummaryLine, lines)
  }

  /** The state after the loop has seen the lines read as `ls`. */
  function SummaryRun(ls: seq<Line<Section>>): SummaryState {
    if ls == [] then SummaryStart
    else SummaryStep(SummaryRun(ls[..|ls| - 1]), ls[|ls| - 1])
  }

  datatype MedicalSummary = MedicalSummary(summary: string, keyChanges: seq<string>,
                                           recommendedQuestions: seq<string>, familyNotes: string)

  /** What `_parse_medical_summary` returns for `response`. */
  function MedicalSummaryOf(response: string): MedicalSummary {
    var st := SaveSummaryItem(SummaryRun(SummaryLines(Split(response, '\n'))));
    MedicalSummary(Strip(Join(st.summary, "\n")), st.changes, st.questions, Strip(Join(st.notes, "\n")))
  }

  /** `_parse_medical_summary`. */
  method ParseMedicalSummary(response: string) returns (r: MedicalSummary)
    ensures r == MedicalSummaryOf(response)
  {
    var lines := Split(response, '\n');
    var section := Unset;
    var item: seq<string> := [];
    var summary: seq<string> := [];
    var changes: seq<string> := [];
    var questions: seq<string> := [];
    var notes: seq<string> := [];
    ghost var read := SummaryLines(lines);
    var i := 0;
    while i < |lines|
      invariant 0 <= i <= |lines|
      invariant SummaryState(section, item, summary, changes, questions, notes) == SummaryRun(read[..i])
    {
      SummaryRunNext(read, i);
      assert read[i] == SummaryLine(lines[i]);
      section, item, summary, changes, questions, notes :=
        ReadSummaryLine(lines[i], section, item, summary, changes, questions, notes);
      i := i + 1;
    }
    assert read[..|lines|] == read;
    if section.Changes? {
      changes := Saved(item, changes);
    } else if section.Questions? {
      questions := Saved(item, questions);
    }
    r := MedicalSummary(Strip(Join(summary, "\n")), changes, questions, Strip(Join(notes, "\n")));
  }

  /** The body of the loop of `_parse_medical_summary`, for one line. */
  method ReadSummaryLine(line: string, section: Section, item: seq<string>, summary: seq<string>,
                         changes: seq<string>, questions: seq<string>, notes: seq<string>)
    returns (section': Section, item': seq<string>, summary': seq<string>,
             changes': seq<string>, questions': seq<string>, notes': seq<string>)
    ensures SummaryState(section', item', summary', changes', questions', notes') ==
              SummaryStep(SummaryState(section, item, summary, changes, questions, notes), SummaryLine(line))
  {
    section', item', summary', changes', questions', notes' := section, item, summary, changes, questions, notes;
    var stripped := Strip(line);
    if stripped != [] {
      var header := Header(Lower(stripped));
      if header.Some? {
        if section.Changes? {
          changes' := Saved(item, changes);
        } else if section.Questions? {
          questions' := Saved(item, questions);
        }
        item' := [];
        section' := header.value;
      } else if section.Summary? {
        summary' := summary + [stripped];
      } else if section.Notes? {
        notes' := notes + [stripped];
      } else if section.Changes? || section.Questions? {
        if IsBulletStart(line) {
          if section.Changes? {
            changes' := Saved(item, changes);
          } else {
            questions' := Saved(item, questions);
          }
          item' := [stripped];
        } else {
          item' := item + [stripped];
        }
      }
    }
  }

  predicate ContentLines(list: seq<string>) {
    forall i :: 0 <= i < |list| ==> ContentLine(list[i])
  }

  predicate SummaryClean(st: SummaryState) {
    Clean(st.changes) && Clean(st.questions) && ContentLines(st.summary) && ContentLines(st.notes)
  }

  lemma ContentLinesAppend(list: seq<string>, line: string)
    requires ContentLines(list) && ContentLine(line)
    ensures ContentLines(list + [line])
  {
  }

  lemma SaveSummaryItemClean(st: SummaryState)
    requires SummaryClean(st)
    ensures SummaryClean(SaveSummaryItem(st))
  {
    SavedClean(st.item, st.changes);
    SavedClean(st.item, st.questions);
  }

  lemma SummaryStepClean(st: SummaryState, line: Line<Section>)
    requires SummaryClean(st) && (line.Text? ==> ContentLine(line.text))
    ensures SummaryClean(SummaryStep(st, line))
  {
    match line
    case Blank =>
    case Heading(section) =>
      SaveSummaryItemClean(st);
      var next := SaveSummaryItem(st);
      assert SummaryStep(st, line) == next.(section := section, item := []);
    case Text(text, bullet) =>
      if st.section.Summary? {
        ContentLinesAppend(st.summary, text);
        assert SummaryStep(st, line) == st.(summary := st.summary + [text]);
      } else if st.section.Notes? {
        ContentLinesAppend(st.notes, text);
        assert SummaryStep(st, line) == st.(notes := st.notes + [text]);
      } else if st.section.Unset? {
        assert SummaryStep(st, line) == st;
      } else if bullet {
        SaveSummaryItemClean(st);
        var next := SaveSummaryItem(st);
        assert SummaryStep(st, line) == next.(item := [text]);
      } else {
        assert SummaryStep(st, line) == st.(item := st.item + [text]);
      }
  }

  /** The text the loop body passes on is always a content line. */
  predicate ContentText(ls: seq<Line<Section>>) {
    forall i :: 0 <= i < |ls| ==> ls[i].Text? ==> ContentLine(ls[i].text)
  }

  lemma SummaryLinesText(lines: seq<string>)
    ensures ContentText(SummaryLines(lines))
  {
    forall i | 0 <= i < |lines|
      ensures SummaryLine(lines[i]).Text? ==> ContentLine(SummaryLine(lines[i]).text)
    {
      SummaryLineText(lines[i]);
    }
  }

  /** Every state the loop reaches keeps only clean items and content lines. */
  lemma {:induction false} SummaryRunClean(ls: seq<Line<Section>>)
    requires ContentText(ls)
    ensures SummaryClean(SummaryRun(ls))
  {
    if ls != [] {
      var init := ls[..|ls| - 1];
      assert ContentText(init) by {
        forall i | 0 <= i < |init|
          ensures init[i].Text? ==> ContentLine(init[i].text)
        {
          assert init[i] == ls[i];
        }
      }
      SummaryRunClean(init);
      SummaryStepClean(SummaryRun(init), ls[|ls| - 1]);
    }
  }

  /**
   * The key changes and questions `_parse_medical_summary` returns are never
   * empty and carry no surrounding white space; the summary and notes lines
   * it joins are never header lines.
   */
  lemma MedicalSummaryClean(response: string)
    ensures Clean(MedicalSummaryOf(response).keyChanges) && Clean(MedicalSummaryOf(response).recommendedQuestions)
    ensures var st := SummaryRun(SummaryLines(Split(response, '\n')));
            ContentLines(st.summary) && ContentLines(st.notes)
  {
    var ls := SummaryLines(Split(response, '\n'));
    SummaryLinesText(Split(response, '\n'));
    SummaryRunClean(ls);
    SaveSummaryItemClean(SummaryRun(ls));
  }

  /** No line of `lines` is a header. */
  predicate NoSummaryHeader(lines: seq<string>) {
    forall i :: 0 <= i < |lines| ==> !SummaryLine(lines[i]).Heading?
  }

  predicate NoHeading<S>(ls: seq<Line<S>>) {
    forall i :: 0 <= i < |ls| ==> !ls[i].Heading?
  }

  lemma {:induction false} HeaderlessRun(ls: seq<Line<Section>>)
    requires NoHeading(ls)
    ensures SummaryRun(ls) == SummaryStart
  {
    if ls != [] {
      var init := ls[..|ls| - 1];
      assert NoHeading(init) by {
        forall i | 0 <= i < |init|
          ensures !init[i].Heading?
        {
          assert init[i] == ls[i];
        }
      }
      HeaderlessRun(init);
    }
  }

  /** Lines before the first header are dropped: text without any header parses to nothing. */
  lemma HeaderlessSummary(response: string)
    requires NoSummaryHeader(Split(response, '\n'))
    ensures MedicalSummaryOf(response) == MedicalSummary("", [], [], "")
  {
    var ls := SummaryLines(Split(response, '\n'));
    assert NoHeading(ls);
    HeaderlessRun(ls);
    assert SaveSummaryItem(SummaryStart) == SummaryStart;
    assert Join([], "\n") == "";
  }

  /** A list of bullets as the model writes it: each a clean one-line bullet that announces no header. */
  predicate BulletLines(items: seq<string>) {
    forall i :: 0 <= i < |items| ==> '\n' !in items[i] && ContentLine(items[i]) && IsBulletStart(items[i])
  }

  const KeyChangesHeader := "## key changes"

  /** Lower-casing text without capitals changes nothing. */
  lemma LowerKeeps(s: string)
    requires forall i :: 0 <= i < |s| ==> !('A' <= s[i] <= 'Z')
    ensures Lower(s) == s
  {
  }

  /** Text never contains something longer than itself. */
  lemma NotContainsLonger(s: string, sub: string)
    requires |s| < |sub|
    ensures !Contains(s, sub)
  {
  }

  lemma KeyChangesHeaderStripped()
    ensures Strip(KeyChangesHeader) == KeyChangesHeader
  {
    StripKeeps(KeyChangesHeader);
  }

  lemma KeyChangesHeaderLower()
    ensures Lower(KeyChangesHeader) == KeyChangesHeader
  {
    LowerKeeps(KeyChangesHeader);
  }

  lemma KeyChangesHeaderAnnounces()
    ensures Header(KeyChangesHeader) == Some(Changes)
  {
    var h := KeyChangesHeader;
    NotContainsLonger(h, "summary of update");
    assert h != "summary" && !StartsWith(h, "## summary") by {
      assert h[3] == 'k';
    }
    assert "key changes" <= h[3..];
  }

  lemma KeyChangesHeading()
    ensures SummaryLine(KeyChangesHeader) == Heading(Changes)
  {
    KeyChangesHeaderStripped();
    KeyChangesHeaderLower();
    KeyChangesHeaderAnnounces();
  }

  /** After the header and a bullet `x`, bullet `y` saves `x` and opens an item of its own. */
  lemma ChangesStep(saved: seq<string>, x: string, y: string)
    requires x != [] && Strip(x) == x
    ensures SummaryStep(SummaryState(Changes, [x], [], saved, [], []), Text(y, true))
         == SummaryState(Changes, [y], [], saved + [x], [], [])
  {
    SavedSingle(x, saved);
  }

  lemma SummaryBullet(line: string)
    requires ContentLine(line) && IsBulletStart(line)
    ensures SummaryLine(line) == Text(line, true)
  {
  }

  /** Items that a one-line item saves exactly as written. */
  predicate Stored(items: seq<string>) {
    forall i :: 0 <= i < |items| ==> items[i] != [] && Strip(items[i]) == items[i]
  }

  /** Each of `items`, read as the text of a bullet line. */
  function AsBullets<S>(items: seq<string>): seq<Line<S>> {
    seq(|items|, i requires 0 <= i < |items| => Text(items[i], true))
  }

  /** The run over one more line is one more step. */
  /** The run over one more line of `ls`. */
  lemma SummaryRunNext(ls: seq<Line<Section>>, i: nat)
    requires i < |ls|
    ensures SummaryRun(ls[..i + 1]) == SummaryStep(SummaryRun(ls[..i]), ls[i])
  {
    assert ls[..i + 1][..i] == ls[..i];
  }

  lemma SummaryRunSnoc(prefix: seq<Line<Section>>, line: Line<Section>)
    ensures SummaryRun(prefix + [line]) == SummaryStep(SummaryRun(prefix), line)
  {
    assert (prefix + [line])[..|prefix|] == prefix;
  }

  /** Cutting one element fewer off a sequence. */
  lemma SliceSnoc<T>(s: seq<T>, j: nat)
    requires 0 < j <= |s|
    ensures s[..j] == s[..j - 1] + [s[j - 1]]
  {
  }

  /** The header and the first `j` bullets, as one more line after the first `j - 1`. */
  lemma BulletPrefixSnoc<S>(h: Line<S>, items: seq<string>, j: nat)
    requires 0 < j <= |items|
    ensures [h] + AsBullets<S>(items)[..j] == ([h] + AsBullets<S>(items)[..j - 1]) + [Text(items[j - 1], true)]
  {
  }

  /** After the changes header and a stored bullet `x`, a further bullet `y` saves `x`. */
  lemma ChangesNext(prefix: seq<Line<Section>>, saved: seq<string>, x: string, y: string)
    requires x != [] && Strip(x) == x
    requires SummaryRun(prefix) == SummaryState(Changes, [x], [], saved, [], [])
    ensures SummaryRun(prefix + [Text(y, true)]) == SummaryState(Changes, [y], [], saved + [x], [], [])
  {
    SummaryRunSnoc(prefix, Text(y, true));
    ChangesStep(saved, x, y);
  }

  /** The changes header followed by one bullet. */
  lemma ChangesFirst(y: string)
    ensures SummaryRun([Heading(Changes)] + [Text(y, true)]) == SummaryState(Changes, [y], [], [], [], [])
  {
    SummaryRunSnoc([Heading(Changes)], Text(y, true));
    SummaryRunSnoc([], Heading(Changes));
  }

  lemma {:induction false} ChangesRun(items: seq<string>, j: nat)
    requires Stored(items) && 0 < j <= |items|
    ensures SummaryRun([Heading(Changes)] + AsBullets(items)[..j])
         == SummaryState(Changes, [items[j - 1]], [], items[..j - 1], [], [])
  {
    BulletPrefixSnoc(Heading(Changes), items, j);
    if j == 1 {
      ChangesFirst(items[0]);
    } else {
      ChangesRun(items, j - 1);
      ChangesNext([Heading(Changes)] + AsBullets(items)[..j - 1], items[..j - 2], items[j - 2], items[j - 1]);
      SliceSnoc(items, j - 1);
    }
  }

  /** Taking all of a sequence. */
  lemma SliceAll<T>(s: seq<T>)
    ensures s[..|s|] == s
  {
  }

  /** The medical-summary parser reads each bullet line as bullet text. */
  lemma SummaryBullets(items: seq<string>)
    requires BulletLines(items)
    ensures SummaryLines(items) == AsBullets(items)
  {
    forall i | 0 <= i < |items|
      ensures SummaryLine(items[i]) == Text(items[i], true)
    {
      SummaryBullet(items[i]);
    }
  }

  /** Bullet lines are stored as they stand. */
  lemma BulletLinesStored(items: seq<string>)
    requires BulletLines(items)
    ensures Stored(items)
  {
  }

  /** A header line and bullet lines, none holding a newline. */
  lemma HeaderLinesOneEach(h: string, items: seq<string>)
    requires '\n' !in h && forall i :: 0 <= i < |items| ==> '\n' !in items[i]
    ensures forall i :: 0 <= i < |[h] + items| ==> '\n' !in ([h] + items)[i]
  {
  }

  /** The changes header with nothing under it. */
  lemma ChangesAlone()
    ensures SummaryRun([Heading(Changes)] + AsBullets([])) == SummaryState(Changes, [], [], [], [], [])
  {
    SummaryRunSnoc([], Heading(Changes));
  }

  /** The state after the last bullet, once the open item is saved. */
  lemma LastSaved(items: seq<string>)
    requires Stored(items) && items != []
    ensures Saved([items[|items| - 1]], items[..|items| - 1]) == items
  {
    SavedSingle(items[|items| - 1], items[..|items| - 1]);
    SliceSnoc(items, |items|);
    SliceAll(items);
  }

  /** The reply written as the header and the bullets is read as that header and bullet text. */
  lemma KeyChangesRead(items: seq<string>)
    requires BulletLines(items)
    ensures SummaryLines(Split(Join([KeyChangesHeader] + items, "\n"), '\n')) == [Heading(Changes)] + AsBullets(items)
  {
    HeaderLinesOneEach(KeyChangesHeader, items);
    SplitJoin([KeyChangesHeader] + items, '\n');
    ReadLinesCons(SummaryLine, KeyChangesHeader, items);
    KeyChangesHeading();
    SummaryBullets(items);
  }

  /** Stored bullets under the changes header all end up in the key changes. */
  lemma ChangesCollected(items: seq<string>)
    requires Stored(items)
    ensures SaveSummaryItem(SummaryRun([Heading(Changes)] + AsBullets(items))).changes == items
  {
    if items == [] {
      ChangesAlone();
    } else {
      ChangesRun(items, |items|);
      SliceAll(AsBullets<Section>(items));
      LastSaved(items);
    }
  }

  /**
   * A bullet list written under a key-changes header parses back to the
   * same items, in order: each bullet is kept whole and none is merged.
   */
  lemma KeyChangesRoundTrip(items: seq<string>)
    requires BulletLines(items)
    ensures MedicalSummaryOf(Join([KeyChangesHeader] + items, "\n")).keyChanges == items
  {
    KeyChangesRead(items);
    BulletLinesStored(items);
    ChangesCollected(items);
  }

  /* ---------------- `_parse_coaching_response` ---------------- */

  datatype CoachingSection = Neither | AskQuestions | Tips

  /**
   * How `_parse_coaching_response` reads one line: a line that is not a
   * bullet switches section when it mentions a question, or a tip or
   * preparation.
   */
  function CoachingLine(line: string): Line<CoachingSection> {
    var stripped := Strip(line);
    if stripped == [] then Blank
    else
      var lower := Lower(stripped);
      var bullet := IsBulletStart(line);
      if Contains(lower, "question") && !bullet then Heading(AskQuestions)
      else if (Contains(lower, "tip") || Contains(lower, "preparation")) && !bullet then Heading(Tips)
      else Text(stripped, bullet)
  }

  datatype CoachingState = CoachingState(section: CoachingSection, item: seq<string>,
                                         questions: seq<string>, tips: seq<string>)

  const CoachingStart := CoachingState(Neither, [], [], [])

  function SaveCoachingItem(st: CoachingState): CoachingState {
    if st.section.AskQuestions? then st.(questions := Saved(st.item, st.questions))
    else if st.section.Tips? then st.(tips := Saved(st.item, st.tips))
    else st
  }

  function CoachingStep(st: CoachingState, line: Line<CoachingSection>): CoachingState {
    match line
    case Blank => st
    case Heading(section) => SaveCoachingItem(st).(section := section, item := [])
    case Text(text, bullet) =>
      if st.section.Neither? then st
      else if bullet then SaveCoachingItem(st).(item := [text])
      else st.(item := st.item + [text])
  }

  function CoachingLines(lines: seq<string>): seq<Line<CoachingSection>> {
    ReadLines(CoachingLine, lines)
  }

  function CoachingRun(ls: seq<Line<CoachingSection>>): CoachingState {
    if ls == [] then CoachingStart
    else CoachingStep(CoachingRun(ls[..|ls| - 1]), ls[|ls| - 1])
  }

  datatype Coaching = Coaching(suggestedQuestions: seq<string>, preparationTips: seq<string>)

  /** What `_parse_coaching_response` returns for `response`. */
  function CoachingOf(response: string): Coaching {
    var st := SaveCoachingItem(CoachingRun(CoachingLines(Split(response, '\n'))));
    Coaching(st.questions, st.tips)
  }

  /** `_parse_coaching_response`. */
  method ParseCoachingResponse(response: string) returns (r: Coaching)
    ensures r == CoachingOf(response)
  {
    var lines := Split(response, '\n');
    var section := Neither;
    var item: seq<string> := [];
    var questions: seq<string> := [];
    var tips: seq<string> := [];
    ghost var read := CoachingLines(lines);
    var i := 0;
    while i < |lines|
      invariant 0 <= i <= |lines|
      invariant CoachingState(section, item, questions, tips) == CoachingRun(read[..i])
    {
      CoachingRunNext(read, i);
      assert read[i] == CoachingLine(lines[i]);
      section, item, questions, tips := ReadCoachingLine(lines[i], section, item, questions, tips);
      i := i + 1;
    }
    assert read[..|lines|] == read;
    if section.AskQuestions? {
      questions := Saved(item, questions);
    } else if section.Tips? {
      tips := Saved(item, tips);
    }
    r := Coaching(questions, tips);
  }

  /** The body of the loop of `_parse_coaching_response`, for one line. */
  method ReadCoachingLine(line: string, section: CoachingSection, item: seq<string>,
                          questions: seq<string>, tips: seq<string>)
    returns (section': CoachingSection, item': seq<string>, questions': seq<string>, tips': seq<string>)
    ensures CoachingState(section', item', questions', tips') ==
              CoachingStep(CoachingState(section, item, questions, tips), CoachingLine(line))
  {
    section', item', questions', tips' := section, item, questions, tips;
    var stripped := Strip(line);
    if stripped != [] {
      var lower := Lower(stripped);
      var bullet := IsBulletStart(line);
      if Contains(lower, "question") && !bullet {
        if section.AskQuestions? {
          questions' := Saved(item, questions);
        } else if section.Tips? {
          tips' := Saved(item, tips);
        }
        item' := [];
        section' := AskQuestions;
      } else if (Contains(lower, "tip") || Contains(lower, "preparation")) && !bullet {
        if section.AskQuestions? {
          questions' := Saved(item, questions);
        } else if section.Tips? {
          tips' := Saved(item, tips);
        }
        item' := [];
        section' := Tips;
      } else if !section.Neither? {
        if bullet {
          if section.AskQuestions? {
            questions' := Saved(item, questions);
          } else {
            tips' := Saved(item, tips);
          }
          item' := [stripped];
        } else {
          item' := item + [stripped];
        }
      }
    }
  }

  predicate CoachingClean(st: CoachingState) {
    Clean(st.questions) && Clean(st.tips)
  }

  lemma SaveCoachingItemClean(st: CoachingState)
    requires CoachingClean(st)
    ensures CoachingClean(SaveCoachingItem(st))
  {
    SavedClean(st.item, st.questions);
    SavedClean(st.item, st.tips);
  }

  lemma CoachingStepClean(st: CoachingState, line: Line<CoachingSection>)
    requires CoachingClean(st)
    ensures CoachingClean(CoachingStep(st, line))
  {
    match line
    case Blank =>
    case Heading(section) =>
      SaveCoachingItemClean(st);
      var next := SaveCoachingItem(st);
      assert CoachingStep(st, line) == next.(section := section, item := []);
    case Text(text, bullet) =>
      if st.section.Neither? {
        assert CoachingStep(st, line) == st;
      } else if bullet {
        SaveCoachingItemClean(st);
        var next := SaveCoachingItem(st);
        assert CoachingStep(st, line) == next.(item := [text]);
      } else {
        assert CoachingStep(st, line) == st.(item := st.item + [text]);
      }
  }

  lemma {:induction false} CoachingRunClean(ls: seq<Line<CoachingSection>>)
    ensures CoachingClean(CoachingRun(ls))
  {
    if ls != [] {
      CoachingRunClean(ls[..|ls| - 1]);
      CoachingStepClean(CoachingRun(ls[..|ls| - 1]), ls[|ls| - 1]);
    }
  }

  /** The questions and tips `_parse_coaching_response` returns are never empty and carry no surrounding white space. */
  lemma CoachingResultClean(response: string)
    ensures Clean(CoachingOf(response).suggestedQuestions) && Clean(CoachingOf(response).preparationTips)
  {
    var ls := CoachingLines(Split(response, '\n'));
    CoachingRunClean(ls);
    SaveCoachingItemClean(CoachingRun(ls));
  }

  /** One-line bullets, whatever words they contain. */
  predicate CoachingBullets(items: seq<string>) {
    forall i :: 0 <= i < |items| ==>
      '\n' !in items[i] && items[i] != [] && Strip(items[i]) == items[i] && IsBulletStart(items[i])
  }

  const QuestionsHeader := "questions to ask"

  lemma QuestionsHeaderStripped()
    ensures Strip(QuestionsHeader) == QuestionsHeader
  {
    StripKeeps(QuestionsHeader);
  }

  lemma QuestionsHeaderLower()
    ensures Lower(QuestionsHeader) == QuestionsHeader
  {
    LowerKeeps(QuestionsHeader);
  }

  lemma QuestionsHeaderNotBullet()
    ensures !IsBulletStart(QuestionsHeader)
  {
    assert TrimStart(QuestionsHeader) == QuestionsHeader;
  }

  lemma QuestionsHeading()
    ensures CoachingLine(QuestionsHeader) == Heading(AskQuestions)
  {
    QuestionsHeaderStripped();
    QuestionsHeaderLower();
    QuestionsHeaderNotBullet();
    assert "question" <= QuestionsHeader[0..];
  }

  lemma QuestionsStep(saved: seq<string>, x: string, y: string)
    requires x != [] && Strip(x) == x
    ensures CoachingStep(CoachingState(AskQuestions, [x], saved, []), Text(y, true))
         == CoachingState(AskQuestions, [y], saved + [x], [])
  {
    SavedSingle(x, saved);
  }

  lemma CoachingBullet(line: string)
    requires line != [] && Strip(line) == line && IsBulletStart(line)
    ensures CoachingLine(line) == Text(line, true)
  {
  }

  /** The run over one more line is one more step. */
  /** The run over one more line of `ls`. */
  lemma CoachingRunNext(ls: seq<Line<CoachingSection>>, i: nat)
    requires i < |ls|
    ensures CoachingRun(ls[..i + 1]) == CoachingStep(CoachingRun(ls[..i]), ls[i])
  {
    assert ls[..i + 1][..i] == ls[..i];
  }

  lemma CoachingRunSnoc(prefix: seq<Line<CoachingSection>>, line: Line<CoachingSection>)
    ensures CoachingRun(prefix + [line]) == CoachingStep(CoachingRun(prefix), line)
  {
    assert (prefix + [line])[..|prefix|] == prefix;
  }

  /** After the questions header and a stored bullet `x`, a further bullet `y` saves `x`. */
  lemma QuestionsNext(prefix: seq<Line<CoachingSection>>, saved: seq<string>, x: string, y: string)
    requires x != [] && Strip(x) == x
    requires CoachingRun(prefix) == CoachingState(AskQuestions, [x], saved, [])
    ensures CoachingRun(prefix + [Text(y, true)]) == CoachingState(AskQuestions, [y], saved + [x], [])
  {
    CoachingRunSnoc(prefix, Text(y, true));
    QuestionsStep(saved, x, y);
  }

  /** The questions header followed by one bullet. */
  lemma QuestionsFirst(y: string)
    ensures CoachingRun([Heading(AskQuestions)] + [Text(y, true)]) == CoachingState(AskQuestions, [y], [], [])
  {
    CoachingRunSnoc([Heading(AskQuestions)], Text(y, true));
    CoachingRunSnoc([], Heading(AskQuestions));
  }

  /** The questions header with nothing under it. */
  lemma QuestionsAlone()
    ensures CoachingRun([Heading(AskQuestions)] + AsBullets([])) == CoachingState(AskQuestions, [], [], [])
  {
    CoachingRunSnoc([], Heading(AskQuestions));
  }

  lemma {:induction false} QuestionsRun(items: seq<string>, j: nat)
    requires Stored(items) && 0 < j <= |items|
    ensures CoachingRun([Heading(AskQuestions)] + AsBullets(items)[..j])
         == CoachingState(AskQuestions, [items[j - 1]], items[..j - 1], [])
  {
    BulletPrefixSnoc(Heading(AskQuestions), items, j);
    if j == 1 {
      QuestionsFirst(items[0]);
    } else {
      QuestionsRun(items, j - 1);
      QuestionsNext([Heading(AskQuestions)] + AsBullets(items)[..j - 1], items[..j - 2], items[j - 2], items[j - 1]);
      SliceSnoc(items, j - 1);
    }
  }

  /** The coaching parser reads each bullet line as bullet text. */
  lemma CoachingBulletsRead(items: seq<string>)
    requires CoachingBullets(items)
    ensures CoachingLines(items) == AsBullets(items)
  {
    forall i | 0 <= i < |items|
      ensures CoachingLine(items[i]) == Text(items[i], true)
    {
      CoachingBullet(items[i]);
    }
  }

  lemma CoachingBulletsStored(items: seq<string>)
    requires CoachingBullets(items)
    ensures Stored(items)
  {
  }

  /** The reply written as the header and the bullets is read as that header and bullet text. */
  lemma QuestionsRead(items: seq<string>)
    requires CoachingBullets(items)
    ensures CoachingLines(Split(Join([QuestionsHeader] + items, "\n"), '\n')) == [Heading(AskQuestions)] + AsBullets(items)
  {
    HeaderLinesOneEach(QuestionsHeader, items);
    SplitJoin([QuestionsHeader] + items, '\n');
    ReadLinesCons(CoachingLine, QuestionsHeader, items);
    QuestionsHeading();
    CoachingBulletsRead(items);
  }

  /** Stored bullets under the questions header all end up in the questions, and no tip is made. */
  lemma QuestionsCollected(items: seq<string>)
    requires Stored(items)
    ensures var st := SaveCoachingItem(CoachingRun([Heading(AskQuestions)] + AsBullets(items)));
            st.questions == items && st.tips == []
  {
    if items == [] {
      QuestionsAlone();
    } else {
      QuestionsRun(items, |items|);
      SliceAll(AsBullets<CoachingSection>(items));
      LastSaved(items);
    }
  }

  /**
   * Bullets written under a questions header parse back to the same list,
   * even those that mention questions or tips themselves: only a line that is
   * not a bullet can switch section.
   */
  lemma QuestionsRoundTrip(items: seq<string>)
    requires CoachingBullets(items)
    ensures CoachingOf(Join([QuestionsHeader] + items, "\n")) == Coaching(items, [])
  {
    QuestionsRead(items);
    CoachingBulletsStored(items);
    QuestionsCollected(items);
  }
}
