# AretaCare core, modelled in Dafny

AretaCare is a care-coordination assistant. A family member keeps a session for a
patient. The session holds a care journal, conversations with an AI assistant,
uploaded documents and audio recordings, and a daily plan. This project models the
core of the backend services and one frontend page, and proves what they promise.

- **Journal** (`backend/app/services/journal_service.py`, `backend/app/models/journal.py`,
  `backend/app/schemas/journal.py`):
  - the `journal_entries` table and its request schemas;
  - create, update and delete, with the owner-or-collaborator check and the session's
    `journal_entry_count`;
  - the date-grouped queries;
  - the tiered context renderer (recent entries in full, the previous month summarised,
    older entries as titles by month);
  - `assess_and_synthesize`, which asks a classifier for journal entries, parses its
    JSON answer and saves every suggestion.
- **OpenAI service** (`backend/app/services/openai_service.py`):
  - the line-oriented parsers of the medical summary and of the conversation coaching
    answer;
  - the code-fence cleaning and length caps of the document and audio categorisers;
  - how the chat messages are assembled, with and without the journal context.
- **Daily plan** (`backend/app/services/daily_plan_service.py`):
  - the sufficiency test;
  - the user prompt built from the gathered context;
  - whether a new plan is due;
  - `generate_daily_plan`, which returns the existing plan of the day when there is one.
- **Passwords** (`backend/app/core/auth.py`):
  - bcrypt reads at most 72 bytes, so passwords are cut to 72 UTF-8 bytes on a
    character boundary before hashing and before checking;
  - the strict UTF-8 decoder this relies on is modelled after section 3 of RFC 3629.
- **Administration** (`backend/app/services/admin_service.py`):
  - the audit-log retention cleanup;
  - the metrics trend with its gap-filled days;
  - the orphaned S3 file report and the guarded delete;
  - the system health roll-up;
  - the inactive-account report.
- **Journal page** (`frontend/src/pages/JournalView.jsx`):
  - the type and search filters over the date-keyed entries;
  - the date order;
  - the entry count.

Code that changes state step by step is modelled as methods with loops. Each such
method is proved against a function that states what it computes. This covers:
- the context renderer;
- the save loop of a synthesis;
- the response parsers;
- the prompt builder;
- the password truncation loop;
- the orphan scan;
- the delete loop;
- the trend's day loop;
- the inactive-account loop.

The journal service is a class over its table state. Expression-shaped code is
modelled as functions and lemmas.

Everything the services obtain from outside comes in as a parameter:
- the clock;
- the database rows;
- the language model's answers;
- JSON decoding;
- bcrypt;
- the S3 listing and delete calls.

## Model

| member | source | states |
|---|---|---|
| JournalModel.ParseEntryType | backend/app/models/journal.py:9-15 | `EntryType(s)` succeeds only for one of the six values, and gives the member whose value is `s` |
| JournalModel.EntryTypeClosed | backend/app/models/journal.py:9-15 | exactly six members with distinct values; each value parses back to its member; a string parses exactly when it is one of the six values |
| JournalModel.MakeEntryCreate | backend/app/schemas/journal.py:7-11 | a create request is built exactly when the title has at most 100 characters, and keeps every field; otherwise the error names the title's length |
| JournalModel.MakeEntryUpdate | backend/app/schemas/journal.py:14-18 | an update request is built exactly when no title is supplied or the supplied one fits in 100 characters |
| JournalStore.SortedSelection | backend/app/services/journal_service.py:395-403 | a filtered, ordered query returns exactly the rows its filter admits, drawn from the table, in descending order of its key |
| JournalStore.EntriesForDateCorrect | backend/app/services/journal_service.py:417-431 | `get_entries_for_date` lists exactly the session's rows of that day, most recently created first |
| JournalStore.RecentEntriesCorrect | backend/app/services/journal_service.py:439-447 | `_get_recent_entries` lists exactly the session's rows dated on or after `today - days`, newest date first |
| JournalStore.TimelineCorrect | backend/app/services/journal_service.py:200-202 | the context query lists every row of the session, newest date first |
| JournalStore.EntriesByDateCorrect | backend/app/services/journal_service.py:387-411 | one key per ISO date present in range; each date's list holds exactly the session's rows in range with that date, most recently created first |
| JournalStore.FindEntry | backend/app/services/journal_service.py:304 | the index of a row with that id, or `None` exactly when no row has it |
| JournalStore.NewEntry | backend/app/services/journal_service.py:265-275 | the inserted row gets the next id; the date defaults to today; the fields come from the request; the message ids default to `[]` |
| JournalStore.CreateEntry | backend/app/services/journal_service.py:256-294 | a row is returned exactly when both commits go through for an existing session; a failed insert changes nothing; otherwise the new row is appended under the next id, and the session's count rises by one and its synthesis time is stamped unless the second commit fails |
| JournalStore.UpdateEntry | backend/app/services/journal_service.py:296-339 | nothing is returned and nothing changes exactly when the row is missing or the user is neither the session's owner nor a collaborator; otherwise only that row changes |
| JournalStore.ApplyUpdate | backend/app/services/journal_service.py:324-334 | only the supplied fields change, `updated_at` is stamped, and the id, session, author and creation time are kept |
| JournalStore.DeleteEntry | backend/app/services/journal_service.py:346-380 | the delete succeeds exactly when the row exists and the user owns or collaborates on its session; on success the row goes and the count drops, floored at 0; otherwise nothing changes |
| JournalStore.CreatePreservesValid | backend/app/services/journal_service.py:256-294 | a create keeps ids increasing and every row valid and attached to an existing session, whichever commit fails |
| JournalStore.CreatePreservesCount | backend/app/services/journal_service.py:277-287 | a create that completes, or whose row commit fails, keeps every session's counter equal to its number of rows |
| JournalStore.CounterDriftsWhenSecondCommitFails | backend/app/services/journal_service.py:277-287 | when the counter commit fails after the row commit, the row is stored but the session's counter is one short |
| JournalStore.UpdatePreservesValid | backend/app/services/journal_service.py:296-339 | an update whose supplied title fits keeps the table well formed |
| JournalStore.UpdatePreservesCount | backend/app/services/journal_service.py:296-339 | an update never moves a row to another session, so every counter stays right |
| JournalStore.DeletePreservesValid | backend/app/services/journal_service.py:373-379 | a delete keeps the table well formed |
| JournalStore.DeleteRemoves | backend/app/services/journal_service.py:373 | after a successful delete no row with that id is left |
| JournalStore.DeletePreservesCount | backend/app/services/journal_service.py:376-377 | a delete keeps every counter equal to its rows and non-negative |
| JournalStore.CountsStayNonNegative | backend/app/services/journal_service.py:285 | no create, update or delete, whatever fails, drives a counter below zero |
| JournalStore.CreatedEntryListed | backend/app/services/journal_service.py:256-289 | a completed create is listed under its date and among the session's rows |
| JournalService.SourceIds | backend/app/services/journal_service.py:170 | the message ids are `[id]` exactly when a conversation id is given and is not 0 |
| JournalService.CreateAppends | backend/app/services/journal_service.py:256-294 | `create_entry` either leaves the rows unchanged or appends exactly its new row, and the row is appended whenever it is returned |
| JournalService.PersistAppends | backend/app/services/journal_service.py:158-171 | whatever fails, the save loop only appends: earlier rows stay, and the new rows are AI-authored rows for the suggestions, in order, on the chosen date, linked to the conversation |
| JournalService.PersistAll | backend/app/services/journal_service.py:158-171 | with titles that fit, an existing session and no failing commit, every suggestion is saved and the session's count grows by their number |
| JournalService.PersistPreserves | backend/app/services/journal_service.py:158-171 | the save loop keeps the table well formed, and keeps every counter right when no counter commit fails |
| JournalService.JournalService.constructor | backend/app/services/journal_service.py:58-61 | an empty, well-formed journal over the given sessions |
| JournalService.JournalService.CreateEntry | backend/app/services/journal_service.py:256-294 | the new table state and the returned row are those `JournalStore.CreateEntry` gives |
| JournalService.JournalService.UpdateEntry | backend/app/services/journal_service.py:296-344 | the lookup, the access check and the field assignments give the state and row `JournalStore.UpdateEntry` gives |
| JournalService.JournalService.DeleteEntry | backend/app/services/journal_service.py:346-385 | the lookup, the access check, the removal and the floored decrement give what `JournalStore.DeleteEntry` gives |
| JournalService.JournalService.GetEntriesByDate | backend/app/services/journal_service.py:387-415 | the grouping loop gives `EntriesByDate`; a failing query gives the empty map |
| JournalService.JournalService.GetEntriesForDate | backend/app/services/journal_service.py:417-435 | the day's rows, or `[]` when the query fails |
| JournalService.JournalService.FormatJournalContext | backend/app/services/journal_service.py:191-254 | the rendered context of the session's timeline with the default budget; the load-failure text when the query fails |
| JournalService.JournalService.SaveSuggestions | backend/app/services/journal_service.py:158-171 | one `create_entry` per suggestion, stopping at the first failure, with the state and completion flag `Persist` gives |
| JournalService.JournalService.AssessAndSynthesize | backend/app/services/journal_service.py:63-189 | the new state and result are what `Synthesize` gives: error results for no answer, an undecodable answer or one that fails validation (`should_create` read as pydantic's lax `bool`), and every suggestion saved otherwise |
| JournalContext.TierOf | backend/app/services/journal_service.py:212-220 | an entry at most 7 days old is recent (a future date too), one 8 to 30 days old is summarised, an older one is listed by title only |
| JournalContext.TiersCover | backend/app/services/journal_service.py:212-220 | the three tier lists together are the entries, each exactly once |
| JournalContext.InTierMembers | backend/app/services/journal_service.py:212-220 | an entry is in a tier's list exactly when it is an input entry and its age falls in that tier |
| JournalContext.Summary | backend/app/services/journal_service.py:234 | content of at most 150 characters is kept; longer content becomes its first 150 characters and `...` |
| JournalContext.Limit | backend/app/services/journal_service.py:246-248 | a context within `max_tokens * 4` characters is kept; a longer one is cut there and the truncation marker appended; the result is never longer than the budget plus the marker |
| JournalContext.JournalContext | backend/app/services/journal_service.py:204-250 | the empty-journal text comes back exactly when there are no entries, and the load-failure text never does |
| JournalContext.NotASentinel | backend/app/services/journal_service.py:222-248 | a rendered context, capped or not, is neither of the two fixed texts |
| JournalContext.StrippedContextNotEmptyJournal | backend/app/services/journal_service.py:204-250 | even after `strip()`, the context of a non-empty journal differs from the empty-journal text that the chat compares it with |
| JournalContext.RecentShownInFull | backend/app/services/journal_service.py:225-228 | every recent entry appears with its date, type, title and full content |
| JournalContext.SummarizedShownCut | backend/app/services/journal_service.py:231-235 | every mid-range entry appears with its date, title and content cut to 150 characters |
| JournalContext.OldShownUnderMonth | backend/app/services/journal_service.py:238-244 | every old entry's title is listed on the line of its month, and that line lists only old entries of the month |
| JournalContext.MonthOfEntry | backend/app/services/journal_service.py:460-466 | the month group of an old entry holds it, and only old entries of that month |
| JournalContext.GroupByMonth | backend/app/services/journal_service.py:460-466 | `_group_by_month` has a key exactly for each month present, and each month's list is its entries in input order |
| JournalContext.SplitTiers | backend/app/services/journal_service.py:208-220 | the tiering loop fills each list with exactly that tier's entries, in input order |
| JournalContext.RenderRecent | backend/app/services/journal_service.py:225-228 | the recent section's loop gives the heading and one full line per entry, or nothing when there are none |
| JournalContext.RenderSummarized | backend/app/services/journal_service.py:231-235 | the mid-range section's loop gives the heading and one summarised line per entry, or nothing |
| JournalContext.RenderEarlier | backend/app/services/journal_service.py:238-244 | the earlier section gives the heading and one line per month, or nothing |
| JournalContext.RenderMonths | backend/app/services/journal_service.py:241-244 | the month loop gives, per month in first-seen order, the month, its titles joined by commas and a blank line |
| JournalContext.RenderJournalContext | backend/app/services/journal_service.py:204-250 | the renderer's loops and cap give exactly `JournalContext` |
| JournalSynthesis.RecentBrief | backend/app/services/journal_service.py:449-458 | the fixed no-entries line comes back exactly when there are no entries |
| JournalSynthesis.BriefLinesRecovered | backend/app/services/journal_service.py:449-458 | splitting the brief at line breaks gives back one line per entry, when no title holds a line break |
| JournalSynthesis.StripCodeFence | backend/app/services/journal_service.py:127-137 | an answer that does not open a fence is only stripped |
| JournalSynthesis.FencedRoundTrip | backend/app/services/journal_service.py:127-137 | an answer wrapped in a fence, with or without a language tag, comes out as its stripped body |
| JournalSynthesis.UnfenceClosed | backend/app/services/journal_service.py:129-137 | when the answer opens a fence and its last line strips to the fence, the first and last lines are both dropped |
| JournalSynthesis.FenceTransparent | backend/app/services/journal_service.py:127-137 | wrapping an answer in a fence changes nothing after cleaning, unless the answer itself opens a fence |
| JournalSynthesis.ParseSuggestion | backend/app/services/journal_service.py:142-148 | an item parses only when it is an object with string `title`, `content` and a valid `entry_type`; the suggestion carries them, with confidence 1.0 |
| JournalSynthesis.ParseSuggestions | backend/app/services/journal_service.py:142-150 | a successful parse has one suggestion per item, each with confidence 1.0 |
| JournalSynthesis.ParseSuggestionsEach | backend/app/services/journal_service.py:142-150 | a successful parse holds, in order, what each item parses to |
| JournalSynthesis.ParseSuggestionsAll | backend/app/services/journal_service.py:142-150 | the list parses exactly when every item does |
| JournalSynthesis.LaxBool | backend/app/schemas/journal.py:52 | `should_create: bool` in lax mode is true exactly for `true`, the number 1 and the words `1 t y yes on true` in any ASCII case, false exactly for `false`, 0 and `0 f n no off false` |
| JournalSynthesis.LaxBoolWords | backend/app/schemas/journal.py:52 | numbers 1 and 0 and words such as `yes`, `Off` and `TRUE` validate; 2, `maybe` and the empty string do not |
| JournalSynthesis.ParseResult | backend/app/services/journal_service.py:139-156 | the answer is accepted exactly when every suggestion parses, `should_create` is present and validates as a lax `bool`, and `reasoning` is a string; the result then carries those three values; any failure is the synthesis error |
| JournalSynthesis.ParseResultRejects | backend/app/services/journal_service.py:139-156 | an answer that is not an object, lacks one of the three keys, has a `reasoning` that is not a string or a `should_create` that does not validate gives the synthesis error |
| JournalSynthesis.Interpret | backend/app/services/journal_service.py:117-189 | a failure is the parse error or the synthesis error; the parse error comes exactly when there is a non-empty answer that does not decode; every returned suggestion has confidence 1.0 |
| JournalSynthesis.ErrorResult | backend/app/services/journal_service.py:175-189 | a failure result creates nothing, suggests nothing and carries the reason |
| JournalSynthesis.SuggestionRoundTrip | backend/app/services/journal_service.py:92-103 | an entry written in the requested format is read back unchanged, except that its confidence becomes 1.0 |
| JournalSynthesis.ItemsRoundTrip | backend/app/services/journal_service.py:92-103 | a list of entries in the requested format is read back in order |
| JournalSynthesis.ResultRoundTrip | backend/app/services/journal_service.py:92-156 | an answer in the requested format is read back as the result it encodes |
| OpenAIService.ReplyNeverEmpty | backend/app/services/openai_service.py:383-385 | the reply is the model's text when there is any, otherwise the fallback text, so it is never empty |
| OpenAIService.Chat | backend/app/services/openai_service.py:376-385 | `chat` never returns an empty reply |
| OpenAIService.ChatShape | backend/app/services/openai_service.py:379-381 | `chat` sends the system prompt, then at most the ten latest history messages in their order, then the user's message |
| OpenAIService.JournalMessages | backend/app/services/openai_service.py:402-407 | at most one journal message is added |
| OpenAIService.ChatWithJournal | backend/app/services/openai_service.py:387-438 | the appends give exactly the message list `JournalChatMessages` describes; the reply is the model's text or the fallback, never empty |
| OpenAIService.JournalChatShape | backend/app/services/openai_service.py:397-434 | the two system prompts come first; the journal is the third message exactly when it is sent; then at most the ten latest history messages; the user's message is last |
| OpenAIService.MultimodalOnlyWithDocument | backend/app/services/openai_service.py:412-434 | the user's message is multimodal exactly when a document URL and a type are both given; it is then the text plus an image for type `image` and a file otherwise; else plain text |
| OpenAIService.EmptyJournalNotSent | backend/app/services/openai_service.py:403 | the empty-journal text, with any white space around it, is never sent |
| OpenAIService.StripPadded | backend/app/services/openai_service.py:403 | stripping white space around a string whose ends are not white space gives that string |
| OpenAIService.JournalContextNotEmpty | backend/app/services/journal_service.py:204-250 | the rendered context of a journal with entries is never empty |
| OpenAIService.RenderedJournalReachesChat | backend/app/services/openai_service.py:403-407 | the rendered context of a journal with entries is always sent to the model, and the empty-journal text never is |
| OpenAIService.UpToFence | backend/app/services/openai_service.py:245 | `split("```")[1]`'s cut: the text up to the first fence, or all of it, holds no fence |
| OpenAIService.CleanedFenceFree | backend/app/services/openai_service.py:242-248 | a cleaned fenced reply never contains a fence |
| OpenAIService.UnfencedOnlyStripped | backend/app/services/openai_service.py:242-243 | a reply that does not open with a fence is only stripped |
| OpenAIService.FencedJsonRoundTrip | backend/app/services/openai_service.py:242-248 | a JSON body wrapped in a `json` fence comes back exactly as written |
| OpenAIService.Capped | backend/app/services/openai_service.py:253 | `value[:200]` succeeds exactly for strings and lists; a string is cut to 200 characters, a list to its first 200 items |
| OpenAIService.ReadCategorization | backend/app/services/openai_service.py:237-265 | no answer, or an answer that does not decode, gives the fallback; only a decoded value can make the categoriser raise |
| OpenAIService.DescriptionCapped | backend/app/services/openai_service.py:253 | a description that comes back never exceeds 200 characters or items |
| OpenAIService.CategorizersCapped | backend/app/services/openai_service.py:208-310 | both categorisers, fallbacks included, return descriptions of at most 200 characters |
| OpenAIService.DecodedObjectRead | backend/app/services/openai_service.py:250-254 | a decoded object passes its category through and its description cut to 200 characters or to its first 200 items; missing keys take the defaults; a description that is an object gives the fallback; any other description raises |
| OpenAIService.NonObjectRaises | backend/app/services/openai_service.py:250-254 | a decoded value that is not an object makes the categoriser raise |
| OpenAIService.DocumentSampleOnly | backend/app/services/openai_service.py:214-217 | two documents that agree on their first 2000 characters produce the same request |
| OpenAIService.AudioSampleOnly | backend/app/services/openai_service.py:270-273 | two transcriptions that agree on their first 1500 characters produce the same request |
| OpenAIService.DocumentFallbackShape | backend/app/services/openai_service.py:257-265 | the document fallback is category `other` with `Document: <filename>` cut to 200 characters |
| ResponseParsers.BulletIgnoresIndent | backend/app/services/openai_service.py:81-86 | `is_bullet_start` looks past the indentation: an indented line opens a bullet exactly when the unindented line does |
| ResponseParsers.NumberedBullet | backend/app/services/openai_service.py:86 | a line starting with a one- or two-digit number and a dot opens a bullet |
| ResponseParsers.SavedSingle | backend/app/services/openai_service.py:88-99 | `save_current_item` on a one-line, already stripped item appends exactly that line |
| ResponseParsers.SavedClean | backend/app/services/openai_service.py:88-99 | `save_current_item` never appends an empty text or one with white space at either end |
| ResponseParsers.ParseMedicalSummary | backend/app/services/openai_service.py:69-152 | the line-by-line loop with its section and open-item variables computes the result of the run of the per-line step over the split reply |
| ResponseParsers.ReadSummaryLine | backend/app/services/openai_service.py:101-142 | one pass of the loop body: blank lines are skipped, a header saves the open item and switches section, summary and notes lines are kept, a bullet saves and opens an item, other text extends it |
| ResponseParsers.MedicalSummaryClean | backend/app/services/openai_service.py:69-152 | every key change and recommended question returned is non-empty and stripped; the summary and notes lines are never header lines |
| ResponseParsers.HeaderlessSummary | backend/app/services/openai_service.py:130-142 | lines before any header are dropped: a reply without a header gives an empty summary, no changes, no questions and empty notes |
| ResponseParsers.KeyChangesRead | backend/app/services/openai_service.py:101-128 | a `## key changes` header followed by one-line bullets is read as that heading and bullet text |
| ResponseParsers.ChangesCollected | backend/app/services/openai_service.py:135-145 | stored bullets after the changes header all end up, in order, in the key changes |
| ResponseParsers.KeyChangesRoundTrip | backend/app/services/openai_service.py:69-152 | a bullet list written under a key-changes header parses back to the same items in the same order |
| ResponseParsers.ParseCoachingResponse | backend/app/services/openai_service.py:312-374 | the loop computes the result of the run of the per-line step over the split reply |
| ResponseParsers.ReadCoachingLine | backend/app/services/openai_service.py:341-366 | one pass of the loop body: a non-bullet line mentioning a question switches to questions, one mentioning a tip or preparation to tips; a bullet saves and opens an item; other text extends it |
| ResponseParsers.CoachingResultClean | backend/app/services/openai_service.py:312-374 | every suggested question and preparation tip returned is non-empty and stripped |
| ResponseParsers.QuestionsRead | backend/app/services/openai_service.py:341-358 | a `questions to ask` header followed by one-line bullets is read as that heading and bullet text, whatever words the bullets hold |
| ResponseParsers.QuestionsCollected | backend/app/services/openai_service.py:360-369 | stored bullets after the questions header all end up, in order, in the questions, and no tip is made |
| ResponseParsers.QuestionsRoundTrip | backend/app/services/openai_service.py:312-374 | bullets written under a questions header parse back to the same list, even bullets that mention questions or tips, since only a non-bullet line can switch section |
| DailyPlanService.AppendPlans | backend/app/services/daily_plan_service.py:256-261 | earlier plans add nothing when there are none, else their heading and, per plan, a date heading and its content |
| DailyPlanService.AppendPlanLines | backend/app/services/daily_plan_service.py:259-261 | the loop appends each plan's date heading and content, in order |
| DailyPlanService.AppendEntries | backend/app/services/daily_plan_service.py:276-279 | the loop appends each entry's bullet and, when it has content, the content cut to 200 characters |
| DailyPlanService.AppendJournal | backend/app/services/daily_plan_service.py:263-279 | entries add nothing when there are none, else their heading and the sections of the types in the order they first occur |
| DailyPlanService.AppendTypeSections | backend/app/services/daily_plan_service.py:274-279 | type by type, the title-cased plural heading and the lines of the first five entries of that type |
| DailyPlanService.AppendConversations | backend/app/services/daily_plan_service.py:281-285 | conversations add nothing when there are none, else their heading and a line for each of the last ten messages |
| DailyPlanService.AppendConversationLines | backend/app/services/daily_plan_service.py:284-285 | the loop appends one role-and-content line per message, in order |
| DailyPlanService.AppendDocuments | backend/app/services/daily_plan_service.py:287-293 | documents add nothing when there are none, else their heading and the lines of the first five |
| DailyPlanService.AppendDocumentLines | backend/app/services/daily_plan_service.py:290-293 | the loop appends each document's lines, in order |
| DailyPlanService.AppendDocument | backend/app/services/daily_plan_service.py:291-293 | a document's name, type and upload line, then its preview line exactly when it has a preview |
| DailyPlanService.BuildUserPrompt | backend/app/services/daily_plan_service.py:249-297 | the prompt is the date line, the plans, journal, conversations and documents parts and the closing instruction, joined with newlines |
| DailyPlanService.PromptFrame | backend/app/services/daily_plan_service.py:253-254 | the prompt opens with the context's date, or the server's when the context has none, and closes with the instruction |
| DailyPlanService.EntryShown | backend/app/services/daily_plan_service.py:277-279 | an entry shows a content line exactly when it has content; that line holds the content cut to 200 characters |
| DailyPlanService.OlderConversationsIgnored | backend/app/services/daily_plan_service.py:284 | messages before the last ten never change the prompt |
| DailyPlanService.LaterDocumentsIgnored | backend/app/services/daily_plan_service.py:290 | documents after the first five never change the prompt |
| DailyPlanService.LaterEntryIgnored | backend/app/services/daily_plan_service.py:266-279 | a further entry of a type that already has five entries never changes the prompt |
| DailyPlanService.TypeHeadings | backend/app/services/daily_plan_service.py:275 | the six entry types and `note` get their `title()` plural headings, e.g. `Medical_Updates` and `Notes` |
| DailyPlanService.SessionPlans | backend/app/services/daily_plan_service.py:328-329 | the filter keeps exactly the session's plans |
| DailyPlanService.Latest | backend/app/services/daily_plan_service.py:328-330 | `order_by(date.desc()).first()` gives nothing exactly for no plans, else a plan with the latest date |
| DailyPlanService.ShouldGenerateIff | backend/app/services/daily_plan_service.py:320-343 | a new plan is due exactly when every plan of the session is for an earlier date; the plan returned is the session's, and none exactly when the session has none |
| DailyPlanService.FindPlan | backend/app/services/daily_plan_service.py:84-87 | the lookup finds nothing exactly when no plan has that session and date; what it finds has both |
| DailyPlanService.GenerateErrors | backend/app/services/daily_plan_service.py:99-131 | a failure leaves the table as it was (the rollback); the HTTP 400 comes exactly when no plan exists for the date and there are neither journal entries nor conversations |
| DailyPlanService.GenerateSucceeds | backend/app/services/daily_plan_service.py:83-122 | a returned plan is for the session and the date; it is either the one already stored, or a new unviewed plan appended under the next id |
| DailyPlanService.GenerateIdempotent | backend/app/services/daily_plan_service.py:83-91 | asking again for the same date returns the same plan and changes nothing |
| DailyPlanService.PlanDateFallback | backend/app/services/daily_plan_service.py:72-81 | an absent, empty or unparsable caller date falls back to the server's date; a parsable one is used |
| Auth.Truncated | backend/app/core/auth.py:15-29 | the truncated password is a prefix of the password |
| Auth.TruncatePassword | backend/app/core/auth.py:15-29 | the byte-dropping loop returns the longest run of whole leading characters whose UTF-8 encoding fits in `max_bytes` |
| Auth.TruncatedShort | backend/app/core/auth.py:17-19 | a password whose encoding fits is returned unchanged |
| Auth.TruncatedFits | backend/app/core/auth.py:21-28 | the result fits in `max_bytes`, its bytes are the first bytes of the password's and decode back to it, and one more character would not fit |
| Auth.FitCountMax | backend/app/core/auth.py:24-28 | no longer prefix of whole characters fits than the one kept |
| Auth.DecodedPrefix | backend/app/core/auth.py:24-26 | leading bytes of a password that decode at all decode to the characters that fit in them, ending on a character boundary |
| Auth.SharedPrefixKept | backend/app/core/auth.py:21-28 | what one password keeps, another whose first `max_bytes` bytes are the same keeps too |
| Auth.SharedPrefixSameTruncation | backend/app/core/auth.py:21-28 | two passwords whose encodings agree on their first `max_bytes` bytes truncate to the same string |
| Auth.GetPasswordHash | backend/app/core/auth.py:39-43 | the hash is bcrypt's hash of the password truncated to 72 bytes |
| Auth.VerifyPassword | backend/app/core/auth.py:32-36 | verification checks the password truncated to 72 bytes against the stored hash |
| Auth.HashThenVerify | backend/app/core/auth.py:32-43 | hashing and verification truncate alike, so a password, and any password sharing its first 72 bytes, verifies against its hash |
| Utf8.EncodeChar | backend/app/core/auth.py:17 | a character encodes to one to four bytes (section 3 of RFC 3629) |
| Utf8.DecodeFirst | backend/app/core/auth.py:26 | a well-formed leading sequence is one to four bytes long and lies within the input |
| Utf8.DecodeFirstEncoded | backend/app/core/auth.py:17-26 | a character's bytes decode to that character, whatever follows |
| Utf8.DecodeFirstCut | backend/app/core/auth.py:22-28 | a character's bytes cut short do not decode |
| Utf8.EncodeAppend | backend/app/core/auth.py:17 | the encoding of two strings joined is their encodings joined |
| Utf8.DecodeEncode | backend/app/core/auth.py:17-26 | every string's encoding decodes back to it |
| Utf8.FitCount | backend/app/core/auth.py:21-28 | the number of whole leading characters kept is at most the string's length |
| Utf8.FitCountLongest | backend/app/core/auth.py:21-28 | the kept characters fit, and one more would not |
| Utf8.FitCountUnique | backend/app/core/auth.py:21-28 | any prefix that fits and cannot grow is the one kept |
| Utf8.DecodePrefix | backend/app/core/auth.py:22-28 | the first `k` bytes of an encoding decode exactly when they end on a character boundary, and then to the characters before it |
| AdminService.ExpiredExactly | backend/app/services/admin_service.py:83-85 | the entries counted for deletion are exactly those created strictly before the cutoff |
| AdminService.RetainedExactly | backend/app/services/admin_service.py:89-91 | the entries left after the delete are exactly those created at or after the cutoff |
| AdminService.ExpiredRetainedCount | backend/app/services/admin_service.py:83-91 | the entries counted and the entries kept together make up the table |
| AdminService.CleanupDeletesOnlyExpired | backend/app/services/admin_service.py:69-96 | the cleanup deletes exactly the entries older than `now - retention_days` and returns how many; with none that old the table is untouched |
| AdminService.ParseMetric | backend/app/services/admin_service.py:130-140 | a metric is known exactly when it is one of the six names of `metric_map` |
| AdminService.Occurrences | backend/app/services/admin_service.py:145-155 | a day's count is at most the number of rows, and zero exactly when no row falls on that day |
| AdminService.GetMetricsTrend | backend/app/services/admin_service.py:114-167 | an unknown metric gives an empty list; otherwise one point per day from `end - (days - 1)` to `end`, ascending, each with that day's row count and 0 for a day without rows |
| AdminService.ScanListing | backend/app/services/admin_service.py:559-593 | one of the three listing loops appends exactly the listing's unreferenced files, adds their sizes and adds their number to that type's count |
| AdminService.ScanFile | backend/app/services/admin_service.py:560-569 | one file is reported, sized and counted exactly when its key is unreferenced |
| AdminService.GetOrphanedS3Files | backend/app/services/admin_service.py:533-600 | the report holds the orphans of the documents, thumbnails and audio listings, in that order, against the union of the three key columns (empty keys dropped for documents and audio, only NULL for thumbnails) |
| AdminService.OrphansExactly | backend/app/services/admin_service.py:560-569 | a listed file is reported exactly when the database does not refer to its key, and under the type of its listing |
| AdminService.OrphanReportConsistent | backend/app/services/admin_service.py:549-600 | the total count is the number of files and the sum of the per-type counts, the total size is the files' sizes summed, and the files are exactly the unreferenced listed files |
| AdminService.DeleteS3Files | backend/app/services/admin_service.py:602-643 | only unreferenced keys are handed to `delete_file`; the failed keys are the blocked ones and those whose delete failed or raised, in input order; deleted and failed add up to the number of keys |
| AdminService.ReferencedNeverDeleted | backend/app/services/admin_service.py:623-629 | a key the database refers to never reaches `delete_file` and is always reported failed; every failed key was asked for |
| AdminService.CheckSystemHealth | backend/app/services/admin_service.py:649-735 | the services are database, s3 and openai in that order with their probe's status and message; the overall status is the worst of them, OpenAI counting at most as degraded |
| AdminService.HealthRules | backend/app/services/admin_service.py:655-729 | unhealthy exactly when the database or S3 is down; healthy exactly when all three answer and OpenAI with HTTP 200; degraded otherwise |
| AdminService.MaxPresent | backend/app/services/admin_service.py:232-233 | `max` over the present timestamps: none exactly when all are absent, else one of them and no earlier than any |
| AdminService.GetInactiveAccounts | backend/app/services/admin_service.py:173-254 | the rows collected user by user, sorted by days inactive, most first |
| AdminService.InactiveRowsExactly | backend/app/services/admin_service.py:189-250 | a row is reported exactly for a user inactive for at least `days` days |
| AdminService.InactiveReport | backend/app/services/admin_service.py:173-254 | the report is a permutation of the collected rows, holds exactly the users inactive at least `days` days, and is ordered by days inactive, most first |
| AdminService.LastActivityLatest | backend/app/services/admin_service.py:231-238 | the last activity is the latest of the four recorded ones, absent exactly when none is, and then the days are counted from the account's creation |
| JournalView.KeepWhereSpec | frontend/src/pages/JournalView.jsx:53-61 | a reduce pass keeps, in their order, the dates that still have an entry and gives each the entries that pass, in their order; its keys are exactly its properties |
| JournalView.FilterDistinct | frontend/src/pages/JournalView.jsx:53-61 | a pass over dates listed once lists each date at most once |
| JournalView.KeepWhereObject | frontend/src/pages/JournalView.jsx:53-77 | a pass over an object yields an object: keys listed once, each a property |
| JournalView.BlankIffTrimmedEmpty | frontend/src/pages/JournalView.jsx:65 | `searchQuery.trim()` is empty exactly when the query is white space only |
| JournalView.UnfilteredIsIdentity | frontend/src/pages/JournalView.jsx:48-80 | with `'ALL'` and a blank query the entries are shown as they are |
| JournalView.FilterTwice | frontend/src/pages/JournalView.jsx:52-78 | the type pass then the search pass keep the entries that satisfy both, in order |
| JournalView.TypePass | frontend/src/pages/JournalView.jsx:52-62 | after the type pass, run or skipped, a date shows exactly the input's entries of that type |
| JournalView.ApplyFiltersSpec | frontend/src/pages/JournalView.jsx:48-81 | the result is an object whose dates are the input's; each shows the input's entries for that date passing both filters, in order; once any filter runs, no date is left empty |
| JournalView.ShownDateKept | frontend/src/pages/JournalView.jsx:48-81 | a date with an entry that passes both filters is always shown |
| JournalView.SortedDatesOrdered | frontend/src/pages/JournalView.jsx:99-101 | the shown dates, each exactly once, latest first |
| JournalView.CountOverAppend | frontend/src/pages/JournalView.jsx:103-106 | one more entry on a listed date raises the total by one |
| JournalView.CountOverNew | frontend/src/pages/JournalView.jsx:103-106 | one entry on a new date raises the total by one |
| JournalView.TotalOfGrouping | frontend/src/pages/JournalView.jsx:103-106 | over an object grouped from a list of entries by date, the total is the number of entries in the list |
| JsonValue.Lookup | backend/app/services/openai_service.py:250-253 | `data.get(key)` finds nothing exactly when no member has the key; what it finds is some member's value under that key |
| Sorting.SortDescCorrect | backend/app/services/admin_service.py:253 | the descending sort returns a permutation of its input ordered by key, largest first |
| Sorting.SortDescElements | backend/app/services/admin_service.py:253 | sorting keeps exactly the elements of its input |
| Grouping.GroupByCorrect | backend/app/services/journal_service.py:405-411 | grouping has a key exactly for each key that occurs, and each key's list is the entries with that key, in input order |
| Grouping.GroupInto | backend/app/services/journal_service.py:405-411 | the `defaultdict` loop builds exactly that grouping |
| Filtering.FilterMembers | frontend/src/pages/JournalView.jsx:54-56 | an element is kept exactly when it is in the input and passes |
| Filtering.FilterConcat | frontend/src/pages/JournalView.jsx:54-56 | filtering a concatenation filters each side |
| Filtering.FilterMultiset | frontend/src/pages/JournalView.jsx:54-56 | a filter keeps only passing elements of its input, each at most as often as it occurs |
| Strings.TrimStart | backend/app/services/openai_service.py:83 | `lstrip` drops only leading white space, and what it leaves does not start with white space |
| Strings.TrimEnd | backend/app/services/openai_service.py:102 | `rstrip` drops only trailing white space, and what it leaves does not end with white space |
| Strings.StripKeeps | backend/app/services/openai_service.py:102 | stripping a string whose ends are not white space leaves it unchanged |
| Strings.Lower | backend/app/services/openai_service.py:106 | lower-casing keeps the length and maps each character |
| Strings.Take | backend/app/services/daily_plan_service.py:279 | `s[:n]` is a prefix of `s` of length `n`, or all of `s` when it is shorter |
| Strings.Split | backend/app/services/openai_service.py:71 | `split('\n')` gives at least one piece, and no piece holds the separator |
| Strings.JoinSplit | backend/app/services/openai_service.py:71 | joining the pieces of a split with the separator gives back the text |
| Strings.SplitJoin | backend/app/services/openai_service.py:71 | splitting pieces joined with a separator none of them holds gives back the pieces |
| Strings.LastN | backend/app/services/daily_plan_service.py:284 | `s[-n:]` is the last `n` elements, or all of them |
| Strings.FirstN | backend/app/services/daily_plan_service.py:290 | `s[:n]` is the first `n` elements, or all of them |
| Strings.TitleCase | backend/app/services/daily_plan_service.py:275 | `title()` keeps the length |

## Left out

- Calls to the language model (`_create_response`, the classifier call of `assess_and_synthesize`, `_generate_plan_content`) are function parameters returning optional text; their prompts and model settings are not modelled.
- JSON decoding is a parameter from text to an optional decoded value; `json.loads` itself is not re-specified.
- SQLAlchemy queries, commits and rollbacks are in-memory sequences; concurrent sessions and lost counter updates are out of scope. Rows that tie in a query's `ORDER BY` come back in table order.
- `date.today()`, `datetime.utcnow()` and month naming (`strftime`) are parameters; dates are day numbers and timestamps whole seconds.
- `_gather_context` (daily_plan_service.py) is database plumbing: its result is the `PlanContext` parameter.
- `generate_medical_summary`, `generate_conversation_coaching`, `translate_jargon` and `transcribe_audio` are thin wrappers around model calls; only the parsers and assembly they use are modelled.
- `create_access_token` and `decode_access_token` are JWT library calls; bcrypt's hash and check are function parameters of the password methods.
- `log_action`, `get_platform_metrics`, `search_users` and `get_user_detail` are plain queries; `get_unusual_accounts` works in floating point.
- `list_s3_files` is the listing parameter of the orphan scan; when paging fails part-way the service keeps the files listed so far, which the model takes as just another listing.
- OpenAIService.ReadCategorization: slicing a description that is a JSON object is taken as Python 3.12 and later do it (a `KeyError`, which the categorisers catch and answer with the fallback); before 3.12 it is an uncaught `TypeError`.
- JournalSynthesis.LaxBool: follows pydantic 2's lax `bool` validation (the backend's settings use `pydantic_settings`, which needs pydantic 2); the strings are compared without stripping white space.
- CheckSystemHealth: the latencies are measured with the clock and are not modelled; the statuses and messages are.
- Strings.Lower: Python's `str.lower` and JavaScript's `toLowerCase` fold all of Unicode; the model folds ASCII letters only.
- Strings.TitleCase: Python's `str.title` on ASCII text only; the contract states the length, and the headings the service produces are proved one by one in `DailyPlanService.TypeHeadings`.
- ResponseParsers.IsBulletStart: `str.isdigit` is taken as the ASCII digits only.
- JournalView.SortedDatesOrdered: `new Date(...)` is a parameter giving each date string's time value; an unparsable date (NaN in JavaScript) is not modelled.
- JournalView.ApplyFilters: the React state around it (`setFilteredEntries`, `useEffect`) is UI and not modelled.
- The API routers, other frontend pages, S3, e-mail and OCR services are outside this model.
