/**
 * The journal's data: the `EntryType` enum and the `journal_entries` row
 * (backend/app/models/journal.py) and the request and response shapes that
 * validate them (backend/app/schemas/journal.py).
 */
module JournalModel {
  import opened Wrappers
  import opened JsonValue

  /** A calendar date, as a day number. */
  type Day = int

  /** A `datetime`, in seconds. */
  type Timestamp = int

  const SecondsPerDay := 86400

  /** `(later - earlier).days`: whole days, rounded down as `timedelta` does. */
  function DaysBetween(later: Timestamp, earlier: Timestamp): int {
    (later - earlier) / SecondsPerDay
  }

  datatype EntryType = MedicalUpdate | TreatmentChange | Appointment | Insight | Question | Milestone

  const AllEntryTypes: seq<EntryType> :=
    [MedicalUpdate, TreatmentChange, Appointment, Insight, Question, Milestone]

  /** `entry_type.value`. */
  function EntryTypeValue(t: EntryType): string {
    match t
    case MedicalUpdate => "MEDICAL_UPDATE"
    case TreatmentChange => "TREATMENT_CHANGE"
    case Appointment => "APPOINTMENT"
    case Insight => "INSIGHT"
    case Question => "QUESTION"
    case Milestone => "MILESTONE"
  }

  /** `EntryType(s)`: `None` is the `ValueError` for a string that is not one of the six values. */
  function ParseEntryType(s: string): (r: Option<EntryType>)
    ensures r.Some? ==> EntryTypeValue(r.value) == s
  {
    if s == "MEDICAL_UPDATE" then Some(MedicalUpdate)
    else if s == "TREATMENT_CHANGE" then Some(TreatmentChange)
    else if s == "APPOINTMENT" then Some(Appointment)
    else if s == "INSIGHT" then Some(Insight)
    else if s == "QUESTION" then Some(Question)
    else if s == "MILESTONE" then Some(Milestone)
    else None
  }

  /** The enum is closed: exactly six distinct members, each parsed back from its value and no other string accepted. */
  lemma EntryTypeClosed(t: EntryType, s: string)
    ensures t in AllEntryTypes && |AllEntryTypes| == 6
    ensures forall i, j :: 0 <= i < j < 6 ==> EntryTypeValue(AllEntryTypes[i]) != EntryTypeValue(AllEntryTypes[j])
    ensures ParseEntryType(EntryTypeValue(t)) == Some(t)
    ensures ParseEntryType(s).None? <==> forall u :: u in AllEntryTypes ==> EntryTypeValue(u) != s
  {
  }

  /** `String(100)` on `title` and `max_length=100` in the request schemas. */
  const MaxTitleLength := 100

  predicate ValidTitle(title: string) {
    |title| <= MaxTitleLength
  }

  /** One `journal_entries` row. Every column but the last two is non-null. */
  datatype JournalEntry = JournalEntry(
    id: int,
    sessionId: string,
    entryDate: Day,
    entryType: EntryType,
    title: string,
    content: string,
    createdBy: string,
    createdAt: Timestamp,
    updatedAt: Timestamp,
    sourceMessageIds: Option<seq<int>>,
    entryMetadata: Option<Json>)

  /** The row constraints the table enforces. */
  predicate ValidEntry(e: JournalEntry) {
    ValidTitle(e.title)
  }

  /** The pydantic failure for a title over the limit. */
  datatype ValidationError = TitleTooLong(length: nat)

  /** `JournalEntryCreate`: the entry date may be left out. */
  datatype JournalEntryCreate = JournalEntryCreate(title: string, content: string, entryType: EntryType, entryDate: Option<Day>)

  /** `JournalEntryUpdate`: every field may be left out. */
  datatype JournalEntryUpdate = JournalEntryUpdate(
    title: Option<string>, content: Option<string>, entryType: Option<EntryType>, entryDate: Option<Day>)

  predicate ValidCreate(c: JournalEntryCreate) {
    ValidTitle(c.title)
  }

  predicate ValidUpdate(u: JournalEntryUpdate) {
    u.title.Some? ==> ValidTitle(u.title.value)
  }

  /** Constructing `JournalEntryCreate(...)`: it is built exactly when the title fits. */
  function MakeEntryCreate(title: string, content: string, entryType: EntryType, entryDate: Option<Day>)
    : (r: Result<JournalEntryCreate, ValidationError>)
    ensures r.Success? <==> ValidTitle(title)
    ensures r.Success? ==> ValidCreate(r.value) && r.value.title == title && r.value.content == content
                           && r.value.entryType == entryType && r.value.entryDate == entryDate
    ensures r.Failure? ==> r.error == TitleTooLong(|title|)
  {
    if |title| <= MaxTitleLength then Success(JournalEntryCreate(title, content, entryType, entryDate))
    else Failure(TitleTooLong(|title|))
  }

  /** Constructing `JournalEntryUpdate(...)`: a supplied title must still fit. */
  function MakeEntryUpdate(title: Option<string>, content: Option<string>, entryType: Option<EntryType>, entryDate: Option<Day>)
    : (r: Result<JournalEntryUpdate, ValidationError>)
    ensures r.Success? <==> (title.None? || ValidTitle(title.value))
    ensures r.Success? ==> ValidUpdate(r.value) && r.value == JournalEntryUpdate(title, content, entryType, entryDate)
  {
    if title.Some? && |title.value| > MaxTitleLength then Failure(TitleTooLong(|title.value|))
    else Success(JournalEntryUpdate(title, content, entryType, entryDate))
  }

  /** `JournalSuggestion`: one entry the classifier proposes. */
  datatype JournalSuggestion = JournalSuggestion(title: string, content: string, entryType: EntryType, confidence: real)

  /** `JournalSynthesisResult`. */
  datatype JournalSynthesisResult = JournalSynthesisResult(
    shouldCreate: bool, reasoning: string, suggestedEntries: seq<JournalSuggestion>)
}
