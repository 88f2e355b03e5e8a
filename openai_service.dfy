/**
 * The request assembly and reply handling of `OpenAIService`
 * (backend/app/services/openai_service.py) around the language model: the
 * message lists of `chat` and `chat_with_journal`, and the clean-up,
 * decoding, fallbacks and length caps of `categorize_document` and
 * `categorize_audio_recording`. The model itself is an oracle from a message
 * list to an optional reply, JSON decoding a `Decoder`, and the prompt texts
 * of the configuration a `Prompts` value.
 */
module OpenAIService {
  import opened Wrappers
  import opened Strings
  import opened JsonValue
  import JournalModel
  import JournalContext

  /* ---------------- Messages ---------------- */

  datatype Role = System | User | Assistant

  /** One element of a multimodal message. */
  datatype Part = InputText(text: string) | InputImage(imageUrl: string) | InputFile(fileUrl: string)

  datatype Content = Plain(text: string) | Parts(parts: seq<Part>)

  datatype Message = Message(role: Role, content: Content)

  /** The model: `None` when the call fails or yields no text. */
  type Completion = seq<Message> -> Option<string>

  /**
   * The prompt texts and prompt builders of the configuration; their wording
   * is not part of this model.
   */
  datatype Prompts = Prompts(
    system: string,
    conversationInstructions: string,
    documentClassifier: string,
    audioClassifier: string,
    documentRequest: (string, string) -> string,
    audioRequest: (string, Option<real>) -> string)

  const MaxConversationContext: nat := 10
  const FallbackChat: string := "I apologize, but I'm unable to respond at this moment. Please try again or consult with your healthcare team directly."
  const JournalPreamble: string := "Care journal for context:\n\n"

  /** Python's truthiness of an optional string: present and non-empty. */
  predicate Truthy(s: Option<string>) {
    s.Some? && s.value != []
  }

  /** `response if response else FALLBACK_CHAT`. */
  function Reply(response: Option<string>): string {
    if Truthy(response) then response.value else FallbackChat
  }

  /** A reply is never empty: an empty or missing answer becomes the fallback text. */
  lemma ReplyNeverEmpty(response: Option<string>)
    ensures Reply(response) != []
    ensures Truthy(response) ==> Reply(response) == response.value
    ensures !Truthy(response) ==> Reply(response) == FallbackChat
  {
  }

  /* ---------------- `chat` ---------------- */

  /** The messages `chat` sends. */
  function ChatMessages(prompts: Prompts, message: string, history: seq<Message>): seq<Message> {
    [Message(System, Plain(prompts.system))] + LastN(history, MaxConversationContext) + [Message(User, Plain(message))]
  }

  /** `chat`. */
  function Chat(prompts: Prompts, message: string, history: seq<Message>, complete: Completion): (r: string)
    ensures r != []
  {
    ReplyNeverEmpty(complete(ChatMessages(prompts, message, history)));
    Reply(complete(ChatMessages(prompts, message, history)))
  }

  /**
   * `chat` sends the system prompt, at most the ten latest history messages
   * in their order, and the user's message last.
   */
  lemma ChatShape(prompts: Prompts, message: string, history: seq<Message>)
    ensures var m := ChatMessages(prompts, message, history);
            var k := |LastN(history, MaxConversationContext)|;
            |m| == k + 2 && k <= MaxConversationContext && (|history| <= MaxConversationContext ==> k == |history|) &&
            m[0] == Message(System, Plain(prompts.system)) &&
            m[1..k + 1] == history[|history| - k..] &&
            m[k + 1] == Message(User, Plain(message))
  {
    var m := ChatMessages(prompts, message, history);
    var k := |LastN(history, MaxConversationContext)|;
    assert m[1..k + 1] == LastN(history, MaxConversationContext);
  }

  /* ---------------- `chat_with_journal` ---------------- */

  /** Whether the journal context is sent: non-empty, and not the empty-journal text once stripped. */
  predicate JournalSent(journalContext: string) {
    journalContext != [] && Strip(journalContext) != JournalContext.EmptyJournal
  }

  /** The system message carrying the journal, when it is sent. */
  function JournalMessages(journalContext: string): (r: seq<Message>)
    ensures |r| <= 1
  {
    if JournalSent(journalContext) then [Message(System, Plain(JournalPreamble + journalContext))] else []
  }

  /**
   * The user's message: multimodal when a document URL and a document type
   * are both given, an image as `input_image`, anything else as `input_file`.
   */
  function UserMessage(message: string, documentUrl: Option<string>, documentType: Option<string>): Message {
    if Truthy(documentUrl) && Truthy(documentType) then
      var attachment := if documentType.value == "image" then InputImage(documentUrl.value) else InputFile(documentUrl.value);
      Message(User, Parts([InputText(message), attachment]))
    else Message(User, Plain(message))
  }

  /** The messages `chat_with_journal` sends. */
  function JournalChatMessages(prompts: Prompts, message: string, history: seq<Message>, journalContext: string,
                               documentUrl: Option<string>, documentType: Option<string>): seq<Message> {
    [Message(System, Plain(prompts.system)), Message(System, Plain(prompts.conversationInstructions))]
      + JournalMessages(journalContext) + LastN(history, MaxConversationContext)
      + [UserMessage(message, documentUrl, documentType)]
  }

  /** `chat_with_journal`: builds the message list by appending, then asks the model. */
  method ChatWithJournal(prompts: Prompts, message: string, history: seq<Message>, journalContext: string,
                         documentUrl: Option<string>, documentType: Option<string>, complete: Completion)
    returns (reply: string)
    ensures reply == Reply(complete(JournalChatMessages(prompts, message, history, journalContext, documentUrl, documentType)))
    ensures reply != []
  {
    var messages := [Message(System, Plain(prompts.system)), Message(System, Plain(prompts.conversationInstructions))];
    if journalContext != [] && Strip(journalContext) != JournalContext.EmptyJournal {
      messages := messages + [Message(System, Plain(JournalPreamble + journalContext))];
    }
    ghost var head := messages;
    assert head == [Message(System, Plain(prompts.system)), Message(System, Plain(prompts.conversationInstructions))]
                   + JournalMessages(journalContext);
    messages := messages + LastN(history, MaxConversationContext);
    ghost var user := UserMessage(message, documentUrl, documentType);
    if documentUrl.Some? && documentUrl.value != [] && documentType.Some? && documentType.value != [] {
      var items := [InputText(message)];
      if documentType.value == "image" {
        items := items + [InputImage(documentUrl.value)];
        assert items == [InputText(message), InputImage(documentUrl.value)];
      } else {
        items := items + [InputFile(documentUrl.value)];
        assert items == [InputText(message), InputFile(documentUrl.value)];
      }
      assert Message(User, Parts(items)) == user;
      messages := messages + [Message(User, Parts(items))];
    } else {
      messages := messages + [Message(User, Plain(message))];
    }
    assert messages == head + LastN(history, MaxConversationContext) + [user];
    assert messages == JournalChatMessages(prompts, message, history, journalContext, documentUrl, documentType);
    var response := complete(messages);
    ReplyNeverEmpty(response);
    reply := if response.Some? && response.value != [] then response.value else FallbackChat;
  }

  /**
   * `chat_with_journal` always opens with the two system prompts, carries the
   * journal as the third message exactly when it is sent, then at most the ten
   * latest history messages, and ends with the user's message.
   */
  lemma JournalChatShape(prompts: Prompts, message: string, history: seq<Message>, journalContext: string,
                         documentUrl: Option<string>, documentType: Option<string>)
    ensures var m := JournalChatMessages(prompts, message, history, journalContext, documentUrl, documentType);
            var j := if JournalSent(journalContext) then 1 else 0;
            var k := |LastN(history, MaxConversationContext)|;
            |m| == 3 + j + k && k <= MaxConversationContext &&
            m[0] == Message(System, Plain(prompts.system)) &&
            m[1] == Message(System, Plain(prompts.conversationInstructions)) &&
            (JournalSent(journalContext) ==> m[2] == Message(System, Plain(JournalPreamble + journalContext))) &&
            m[2 + j..2 + j + k] == history[|history| - k..] &&
            m[|m| - 1] == UserMessage(message, documentUrl, documentType)
  {
    var m := JournalChatMessages(prompts, message, history, journalContext, documentUrl, documentType);
    var j := if JournalSent(journalContext) then 1 else 0;
    var k := |LastN(history, MaxConversationContext)|;
    var head := [Message(System, Plain(prompts.system)), Message(System, Plain(prompts.conversationInstructions))]
      + JournalMessages(journalContext);
    assert |head| == 2 + j;
    assert m == head + LastN(history, MaxConversationContext) + [UserMessage(message, documentUrl, documentType)];
    assert m[2 + j..2 + j + k] == LastN(history, MaxConversationContext);
  }

  /** Only the user's message can be multimodal, and only when both document fields are given. */
  lemma MultimodalOnlyWithDocument(message: string, documentUrl: Option<string>, documentType: Option<string>)
    ensures var u := UserMessage(message, documentUrl, documentType);
            u.role == User &&
            (u.content.Parts? <==> Truthy(documentUrl) && Truthy(documentType)) &&
            (u.content.Plain? ==> u.content.text == message) &&
            (u.content.Parts? ==>
               (u.content.parts[0] == InputText(message) && |u.content.parts| == 2 &&
                (u.content.parts[1].InputImage? <==> documentType.value == "image") &&
                (u.content.parts[1] == InputImage(documentUrl.value) || u.content.parts[1] == InputFile(documentUrl.value))))
  {
  }

  /** The empty-journal text, even with white space around it, is never sent. */
  lemma EmptyJournalNotSent(padding: string, trailing: string)
    requires AllSpace(padding) && AllSpace(trailing)
    ensures !JournalSent(padding + JournalContext.EmptyJournal + trailing)
  {
    var e := JournalContext.EmptyJournal;
    StripPadded(padding, e, trailing);
  }

  /** Stripping white space around a string whose ends are not white space gives that string. */
  lemma StripPadded(padding: string, s: string, trailing: string)
    requires AllSpace(padding) && AllSpace(trailing)
    requires s != [] && !IsSpace(s[0]) && !IsSpace(s[|s| - 1])
    ensures Strip(padding + s + trailing) == s
  {
    TrimStartPadded(padding, s + trailing);
    assert padding + s + trailing == padding + (s + trailing);
    TrimEndPadded(s, trailing);
  }

  lemma {:induction false} TrimStartPadded(padding: string, s: string)
    requires AllSpace(padding) && (s == [] || !IsSpace(s[0]))
    ensures TrimStart(padding + s) == s
  {
    if padding == [] {
      assert padding + s == s;
    } else {
      assert (padding + s)[1..] == padding[1..] + s;
      TrimStartPadded(padding[1..], s);
    }
  }

  lemma {:induction false} TrimEndPadded(s: string, trailing: string)
    requires AllSpace(trailing) && (s == [] || !IsSpace(s[|s| - 1]))
    ensures TrimEnd(s + trailing) == s
  {
    if trailing == [] {
      assert s + trailing == s;
    } else {
      assert (s + trailing)[..|s + trailing| - 1] == s + trailing[..|trailing| - 1];
      TrimEndPadded(s, trailing[..|trailing| - 1]);
    }
  }

  /** The context of a journal with entries is never empty. */
  lemma JournalContextNotEmpty(entries: seq<JournalModel.JournalEntry>, today: int, maxTokens: int, cal: JournalContext.Calendar)
    requires entries != []
    ensures JournalContext.JournalContext(entries, today, maxTokens, cal) != []
  {
    var context := JournalContext.Assemble(entries, today, cal);
    var r := JournalContext.Limit(context, maxTokens);
    if |context| > maxTokens * JournalContext.CharsPerToken {
      assert |r| >= |JournalContext.TruncationMarker|;
    } else {
      assert |r| >= |JournalContext.ContextHeader|;
    }
  }

  /**
   * What `format_journal_context` renders reaches the chat: the context of a
   * journal with entries is always sent, the empty-journal text never is.
   */
  lemma RenderedJournalReachesChat(prompts: Prompts, message: string, history: seq<Message>,
                                   entries: seq<JournalModel.JournalEntry>, today: int, maxTokens: int,
                                   cal: JournalContext.Calendar, documentUrl: Option<string>, documentType: Option<string>)
    ensures var context := JournalContext.JournalContext(entries, today, maxTokens, cal);
            var m := JournalChatMessages(prompts, message, history, context, documentUrl, documentType);
            (entries != [] <==> JournalSent(context)) &&
            (entries != [] ==> m[2] == Message(System, Plain(JournalPreamble + context)))
  {
    var context := JournalContext.JournalContext(entries, today, maxTokens, cal);
    if entries == [] {
      assert [] + JournalContext.EmptyJournal + [] == JournalContext.EmptyJournal;
      EmptyJournalNotSent([], []);
    } else {
      JournalContext.StrippedContextNotEmptyJournal(entries, today, maxTokens, cal);
      JournalContextNotEmpty(entries, today, maxTokens, cal);
      JournalChatShape(prompts, message, history, context, documentUrl, documentType);
    }
  }

  /* ---------------- The categorizers' clean-up ---------------- */

  const Fence: string := "```"

  /**
   * The text before the first fence, or all of it: the piece
   * `s.split("```")` yields first.
   */
  function UpToFence(s: string): (r: string)
    ensures r <= s && !Contains(r, Fence)
    ensures r == s || StartsWith(s[|r|..], Fence)
  {
    if StartsWith(s, Fence) then []
    else if s == [] then []
    else
      var rest := UpToFence(s[1..]);
      NoFenceCons(s[0], rest);
      [s[0]] + rest
  }

  /** A character in front of fence-free text starts no fence when the text and it do not. */
  lemma NoFenceCons(c: char, rest: string)
    requires !Contains(rest, Fence) && !StartsWith([c] + rest, Fence)
    ensures !Contains([c] + rest, Fence)
  {
    var s := [c] + rest;
    forall k | 0 <= k <= |s|
      ensures !(Fence <= s[k..])
    {
      if 0 < k {
        assert s[k..] == rest[k - 1..];
      }
    }
  }

  /**
   * The clean-up in the categorizers: strip; a reply opening with a fence is
   * cut to the text between it and the next fence, a leading `json` is
   * removed, and the rest stripped.
   */
  function CleanResponse(response: string): string {
    var cleaned := Strip(response);
    if StartsWith(cleaned, Fence) then
      var piece := UpToFence(cleaned[3..]);
      var untagged := if StartsWith(piece, "json") then piece[4..] else piece;
      Strip(untagged)
    else cleaned
  }

  /** The cleaned reply of a fenced answer never holds a fence. */
  lemma CleanedFenceFree(response: string)
    requires StartsWith(Strip(response), Fence)
    ensures !Contains(CleanResponse(response), Fence)
  {
    var piece := UpToFence(Strip(response)[3..]);
    var untagged := if StartsWith(piece, "json") then piece[4..] else piece;
    SubstringFenceFree(piece, 0, |piece|);
    if StartsWith(piece, "json") {
      SubstringFenceFree(piece, 4, |piece|);
    }
    var t := TrimStart(untagged);
    SubstringFenceFree(untagged, |untagged| - |t|, |untagged|);
    SubstringFenceFree(t, 0, |Strip(untagged)|);
  }

  /** A slice of fence-free text is fence-free. */
  lemma SubstringFenceFree(s: string, i: nat, j: nat)
    requires i <= j <= |s| && !Contains(s, Fence)
    ensures !Contains(s[i..j], Fence)
  {
    var t := s[i..j];
    forall k | 0 <= k <= |t|
      ensures !(Fence <= t[k..])
    {
      assert !(Fence <= s[i + k..]);
      if k + 3 <= |t| {
        assert t[k..][..3] == s[i + k..][..3];
      }
    }
  }

  /** Text that does not open with a fence is only stripped. */
  lemma UnfencedOnlyStripped(response: string)
    requires !StartsWith(Strip(response), Fence)
    ensures CleanResponse(response) == Strip(response)
  {
  }

  /** A JSON body wrapped in a `json` fence comes back as written. */
  lemma FencedJsonRoundTrip(body: string)
    requires body != [] && !IsSpace(body[0]) && !IsSpace(body[|body| - 1]) && !Contains(body, Fence)
    ensures CleanResponse(Fence + "json\n" + body + "\n" + Fence) == body
  {
    FencedStripped(body);
    FencedPiece(body);
    UntaggedBody(body);
  }

  lemma FencedStripped(body: string)
    ensures var text := Fence + "json\n" + body + "\n" + Fence;
            Strip(text) == text && StartsWith(text, Fence)
  {
    var text := Fence + "json\n" + body + "\n" + Fence;
    assert text[0] == '`' && text[|text| - 1] == '`';
    StripKeeps(text);
  }

  /** The text between the two fences is the tag line, the body and a newline. */
  lemma FencedPiece(body: string)
    requires !Contains(body, Fence)
    ensures UpToFence((Fence + "json\n" + body + "\n" + Fence)[3..]) == "json\n" + body + "\n"
  {
    var piece := "json\n" + body + "\n";
    assert (Fence + "json\n" + body + "\n" + Fence)[3..] == piece + Fence;
    FenceFreeTail(body);
    UpToFenceFound(piece, Fence);
  }

  /** Dropping the tag and stripping leaves the body. */
  lemma UntaggedBody(body: string)
    requires body != [] && !IsSpace(body[0]) && !IsSpace(body[|body| - 1])
    ensures var piece := "json\n" + body + "\n";
            StartsWith(piece, "json") && Strip(piece[4..]) == body
  {
    var piece := "json\n" + body + "\n";
    assert piece[4..] == "\n" + body + "\n";
    assert AllSpace("\n");
    StripPadded("\n", body, "\n");
  }

  /** `json\n` + body + `\n` holds no fence when the body holds none. */
  lemma FenceFreeTail(body: string)
    requires !Contains(body, Fence)
    ensures !Contains("json\n" + body + "\n", Fence)
  {
    var s := "json\n" + body + "\n";
    forall k | 0 <= k <= |s|
      ensures !(Fence <= s[k..])
    {
      if k < 5 {
        assert s[k] != '`';
      } else if k + 3 <= 5 + |body| {
        assert !(Fence <= body[k - 5..]);
        assert s[k..k + 3] == body[k - 5..k - 2];
      } else if k + 3 <= |s| {
        assert s[k..][|s| - 1 - k] == '\n';
      }
    }
  }

  /** The first fence after fence-free text that does not end in a backtick is where the cut falls. */
  lemma {:induction false} UpToFenceFound(piece: string, rest: string)
    requires !Contains(piece, Fence) && (piece == [] || piece[|piece| - 1] != '`') && StartsWith(rest, Fence)
    ensures UpToFence(piece + rest) == piece
  {
    var s := piece + rest;
    if piece == [] {
      assert s == rest;
    } else {
      assert !(Fence <= piece[0..]);
      if |piece| >= 3 {
        assert s[..3] == piece[..3];
      } else {
        assert s[|piece| - 1] == piece[|piece| - 1];
      }
      SubstringFenceFree(piece, 1, |piece|);
      assert s[1..] == piece[1..] + rest;
      UpToFenceFound(piece[1..], rest);
    }
  }

  /* ---------------- `categorize_document` and `categorize_audio_recording` ---------------- */

  const FallbackCategory: string := "other"
  const DescriptionCap: nat := 200
  const DocumentSampleLength: nat := 2000
  const AudioSampleLength: nat := 1500
  const DocumentDescriptionDefault: string := "Document uploaded"
  const AudioSummary: string := "Audio recording"

  /** What a categorizer returns: the category and the description (or summary) as decoded. */
  datatype Categorization = Categorization(category: Json, description: Json)

  /**
   * The exceptions a categorizer lets through to its caller. Slicing an
   * object looks the slice up as a key; from Python 3.12 on that is a
   * `KeyError`, which the categorizer catches, so only values that are
   * neither sequences nor objects fail to slice.
   */
  datatype Raised = NotAnObject | NotSliceable

  /** `value[:200]`: strings and lists are cut, any other value cannot be sliced. */
  function Capped(value: Json): (r: Option<Json>)
    ensures r.Some? <==> value.JString? || value.JArray?
    ensures r.Some? && value.JString? ==> r.value == JString(Take(value.s, DescriptionCap))
    ensures r.Some? && value.JArray? ==> r.value == JArray(FirstN(value.items, DescriptionCap))
  {
    match value
    case JString(s) => Some(JString(Take(s, DescriptionCap)))
    case JArray(items) => Some(JArray(FirstN(items, DescriptionCap)))
    case _ => None
  }

  /** `data.get(key, default)`: a value that is not an object has no `get`. */
  function Get(data: Json, key: string, default: Json): Option<Json> {
    if data.JObject? then Some(Lookup(data.members, key).GetOr(default)) else None
  }

  /**
   * How a categorizer reads the model's answer: no answer, text that does
   * not decode, and a description that is itself an object give the fallback;
   * a decoded object gives its category and its capped description, with
   * defaults for missing keys; anything else raises.
   */
  function ReadCategorization(response: Option<string>, decode: Decoder, key: string, default: string,
                              fallback: Categorization): (r: Result<Categorization, Raised>)
    ensures !Truthy(response) ==> r == Success(fallback)
    ensures Truthy(response) && decode(CleanResponse(response.value)).None? ==> r == Success(fallback)
    ensures r.Failure? ==> Truthy(response) && decode(CleanResponse(response.value)).Some?
  {
    if !Truthy(response) then Success(fallback)
    else
      match decode(CleanResponse(response.value))
      case None => Success(fallback)
      case Some(data) =>
        match (Get(data, "category", JString(FallbackCategory)), Get(data, key, JString(default)))
        case (Some(category), Some(described)) =>
          (match Capped(described)
           case Some(capped) => Success(Categorization(category, capped))
           case None => if described.JObject? then Success(fallback) else Failure(NotSliceable))
        case _ => Failure(NotAnObject)
  }

  /** The messages `categorize_document` sends: the image goes along when there is one. */
  function DocumentRequest(prompts: Prompts, extractedText: Option<string>, filename: string, imageUrl: Option<string>): seq<Message> {
    var sample := if Truthy(extractedText) then Take(extractedText.value, DocumentSampleLength) else "";
    var prompt := prompts.documentRequest(filename, sample);
    var user := if Truthy(imageUrl) then Message(User, Parts([InputText(prompt), InputImage(imageUrl.value)]))
                else Message(User, Plain(prompt));
    [Message(System, Plain(prompts.documentClassifier)), user]
  }

  function DocumentFallback(filename: string): Categorization {
    Categorization(JString(FallbackCategory), JString(Take("Document: " + filename, DescriptionCap)))
  }

  /** `categorize_document`. */
  function CategorizeDocument(prompts: Prompts, extractedText: Option<string>, filename: string, imageUrl: Option<string>,
                              complete: Completion, decode: Decoder): Result<Categorization, Raised> {
    ReadCategorization(complete(DocumentRequest(prompts, extractedText, filename, imageUrl)), decode,
                       "description", DocumentDescriptionDefault, DocumentFallback(filename))
  }

  /** The messages `categorize_audio_recording` sends. */
  function AudioRequest(prompts: Prompts, transcribedText: Option<string>, duration: Option<real>): seq<Message> {
    var sample := if Truthy(transcribedText) then Take(transcribedText.value, AudioSampleLength) else "";
    [Message(System, Plain(prompts.audioClassifier)), Message(User, Plain(prompts.audioRequest(sample, duration)))]
  }

  const AudioFallback := Categorization(JString(FallbackCategory), JString(AudioSummary))

  /** `categorize_audio_recording`. */
  function CategorizeAudio(prompts: Prompts, transcribedText: Option<string>, duration: Option<real>,
                           complete: Completion, decode: Decoder): Result<Categorization, Raised> {
    ReadCategorization(complete(AudioRequest(prompts, transcribedText, duration)), decode,
                       "summary", AudioSummary, AudioFallback)
  }

  /** A description or summary that comes back never exceeds 200 characters or items. */
  lemma DescriptionCapped(response: Option<string>, decode: Decoder, key: string, default: string, fallback: Categorization)
    requires fallback.description.JString? && |fallback.description.s| <= DescriptionCap
    ensures var r := ReadCategorization(response, decode, key, default, fallback);
            r.Success? ==> (r.value.description.JString? && |r.value.description.s| <= DescriptionCap) ||
                           (r.value.description.JArray? && |r.value.description.items| <= DescriptionCap)
  {
  }

  /** Both categorizers stay within the cap, their fallbacks included. */
  lemma CategorizersCapped(prompts: Prompts, extractedText: Option<string>, filename: string, imageUrl: Option<string>,
                           duration: Option<real>, complete: Completion, decode: Decoder)
    ensures var r := CategorizeDocument(prompts, extractedText, filename, imageUrl, complete, decode);
            r.Success? && r.value.description.JString? ==> |r.value.description.s| <= DescriptionCap
    ensures var r := CategorizeAudio(prompts, extractedText, duration, complete, decode);
            r.Success? && r.value.description.JString? ==> |r.value.description.s| <= DescriptionCap
  {
    DescriptionCapped(complete(DocumentRequest(prompts, extractedText, filename, imageUrl)), decode,
                      "description", DocumentDescriptionDefault, DocumentFallback(filename));
    DescriptionCapped(complete(AudioRequest(prompts, extractedText, duration)), decode,
                      "summary", AudioSummary, AudioFallback);
  }

  /**
   * A decoded object passes its category through unchanged and its
   * description cut to 200 characters or items; missing keys take the
   * defaults; a description that is an object gives the fallback, and one
   * that is neither a string, a list nor an object raises.
   */
  lemma DecodedObjectRead(response: string, decode: Decoder, members: seq<(string, Json)>, key: string, default: string,
                          fallback: Categorization)
    requires response != [] && decode(CleanResponse(response)) == Some(JObject(members))
    ensures var r := ReadCategorization(Some(response), decode, key, default, fallback);
            var described := Lookup(members, key).GetOr(JString(default));
            var category := Lookup(members, "category").GetOr(JString(FallbackCategory));
            (r.Failure? <==> !(described.JString? || described.JArray? || described.JObject?)) &&
            (r.Failure? ==> r.error == NotSliceable) &&
            (described.JString? ==> r == Success(Categorization(category, JString(Take(described.s, DescriptionCap))))) &&
            (described.JArray? ==> r == Success(Categorization(category, JArray(FirstN(described.items, DescriptionCap))))) &&
            (described.JObject? ==> r == Success(fallback))
  {
  }

  /** A decoded value that is not an object makes the categorizer raise. */
  lemma NonObjectRaises(response: string, decode: Decoder, data: Json, key: string, default: string, fallback: Categorization)
    requires response != [] && decode(CleanResponse(response)) == Some(data) && !data.JObject?
    ensures ReadCategorization(Some(response), decode, key, default, fallback) == Failure(NotAnObject)
  {
  }

  /** Only the first 2000 characters of a document reach the model. */
  lemma DocumentSampleOnly(prompts: Prompts, a: string, b: string, filename: string, imageUrl: Option<string>)
    requires Take(a, DocumentSampleLength) == Take(b, DocumentSampleLength) && a != [] && b != []
    ensures DocumentRequest(prompts, Some(a), filename, imageUrl) == DocumentRequest(prompts, Some(b), filename, imageUrl)
  {
  }

  /** Only the first 1500 characters of a transcription reach the model. */
  lemma AudioSampleOnly(prompts: Prompts, a: string, b: string, duration: Option<real>)
    requires Take(a, AudioSampleLength) == Take(b, AudioSampleLength) && a != [] && b != []
    ensures AudioRequest(prompts, Some(a), duration) == AudioRequest(prompts, Some(b), duration)
  {
  }

  /** With no answer the document falls back to `other` and its file name, cut to 200 characters. */
  lemma DocumentFallbackShape(filename: string)
    ensures DocumentFallback(filename).category == JString("other")
    ensures DocumentFallback(filename).description.s <= "Document: " + filename
    ensures |DocumentFallback(filename).description.s| == if |filename| + 10 <= 200 then |filename| + 10 else 200
  {
  }
}
