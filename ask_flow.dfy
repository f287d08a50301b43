/**
 * `askCvAgent` (src/ai/flows/ask-cv-agent-flow.ts, lines 116-232): builds
 * the prompt for the page the question comes from, refuses it when the
 * request URL would be too long, sends it to the text service, and turns
 * the outcome (an error, a failed status, or a reply to clean up) into the
 * answer. The HTTP request is the parameter `fetch`, `JSON.parse` the
 * parameter `parse`.
 */
module AskCvAgentFlow {
  import opened Wrappers
  import opened Strings
  import opened CvTypes
  import opened CvContext
  import opened UriEncoding
  import opened ResponseSanitizer

  /** What the request produced: it threw (with its message, empty when the
      error has none), or the service answered with a status and a body. */
  datatype FetchResult = Threw(message: string) | Responded(status: nat, body: string)

  /** The question and, when the caller gives one, the page it comes from. */
  datatype AskInput = AskInput(question: string, contextType: Option<ContextType>)

  // ---------------------------------------------------------------------
  // The prompt (lines 117-132)

  /** How the template prints the context: its name, or `undefined` when
      the caller left it out. */
  function ContextLabel(contextType: Option<ContextType>): (r: string)
    ensures contextType.Some? ==> r == contextType.value.Name()
  {
    if contextType.Some? then contextType.value.Name() else "undefined"
  }

  const BaseLead := " Answer questions using ONLY the CV data provided for the current page context: "
  const BaseClose := ". Be concise. If information isn't in the provided data for this page, "
    + "clearly state that."

  function BaseInstruction(contextType: Option<ContextType>): string {
    Marker + BaseLead + ContextLabel(contextType) + BaseClose
  }

  const CvPageGuidance := "This page covers Experience, Education, and Skills. If asked about "
    + "specific Project details or direct Contact methods, please tell the user "
    + "to visit the 'Projects' or 'Contact Me' pages respectively and use the "
    + "AI assistant available there."
  const ProjectsPageGuidance := "This page covers Projects. If asked about detailed Work Experience, "
    + "Education, or general Skills, please tell the user to visit the main "
    + "'CV' page and use the AI assistant there."
  const ContactPageGuidance := "This page covers Contact Information. If asked about Work Experience, "
    + "Project details, or Skills, please tell the user to visit the 'CV' or "
    + "'Projects' pages and use the AI assistant there."

  /** The page-specific advice to send visitors elsewhere. */
  function Guidance(contextType: Option<ContextType>): string {
    match contextType
    case Some(CvPage) => CvPageGuidance
    case Some(ProjectsPage) => ProjectsPageGuidance
    case Some(ContactPage) => ContactPageGuidance
    case _ => ""
  }

  function SystemPrompt(contextType: Option<ContextType>): string {
    BaseInstruction(contextType) + " " + Guidance(contextType)
  }

  /** Everything before the question line. */
  function PromptHead(kb: CvData, contextType: Option<ContextType>): string {
    SystemPrompt(contextType) + "\n\nCV Information (Context: " + ContextLabel(contextType) + "):\n"
    + CvContextString(kb, ContextOrDefault(contextType)) + "\n\n"
  }

  const PromptTail := "\n\n" + AnswerMarker

  /** The question line and the answer label after a given head. */
  function PromptWithHead(head: string, question: string): string {
    head + QuestionLabel + question + PromptTail
  }

  function FullPrompt(kb: CvData, contextType: Option<ContextType>, question: string): string {
    PromptWithHead(PromptHead(kb, contextType), question)
  }

  /** Only the three named pages add advice. */
  lemma GuidanceOnlyForNamedPages()
    ensures Guidance(None) == [] && Guidance(Some(General)) == []
    ensures Guidance(Some(CvPage)) != [] && Guidance(Some(ProjectsPage)) != [] && Guidance(Some(ContactPage)) != []
  {
  }

  lemma StartsWithExtend(s: string, t: string, prefix: string)
    requires StartsWith(s, prefix)
    ensures StartsWith(s + t, prefix)
  {
    assert (s + t)[..|prefix|] == s[..|prefix|];
  }

  lemma SystemPromptStartsWithMarker(contextType: Option<ContextType>)
    ensures StartsWith(SystemPrompt(contextType), Marker)
  {
    StartsWithExtend(Marker, BaseLead, Marker);
    StartsWithExtend(Marker + BaseLead, ContextLabel(contextType), Marker);
    StartsWithExtend(Marker + BaseLead + ContextLabel(contextType), BaseClose, Marker);
    StartsWithExtend(BaseInstruction(contextType), " ", Marker);
    StartsWithExtend(BaseInstruction(contextType) + " ", Guidance(contextType), Marker);
  }

  lemma PromptHeadStartsWithMarker(kb: CvData, contextType: Option<ContextType>)
    ensures StartsWith(PromptHead(kb, contextType), Marker)
  {
    SystemPromptStartsWithMarker(contextType);
    var sys := SystemPrompt(contextType);
    var intro := "\n\nCV Information (Context: ";
    var name := ContextLabel(contextType);
    var block := CvContextString(kb, ContextOrDefault(contextType));
    StartsWithExtend(sys, intro, Marker);
    StartsWithExtend(sys + intro, name, Marker);
    StartsWithExtend(sys + intro + name, "):\n", Marker);
    StartsWithExtend(sys + intro + name + "):\n", block, Marker);
    StartsWithExtend(sys + intro + name + "):\n" + block, "\n\n", Marker);
  }

  lemma HeadedPromptStartsWithMarker(head: string, question: string)
    requires StartsWith(head, Marker)
    ensures StartsWith(PromptWithHead(head, question), Marker)
  {
    StartsWithExtend(head, QuestionLabel, Marker);
    StartsWithExtend(head + QuestionLabel, question, Marker);
    StartsWithExtend(head + QuestionLabel + question, PromptTail, Marker);
  }

  /** The prompt opens with the system instruction. */
  lemma PromptStartsWithMarker(kb: CvData, contextType: Option<ContextType>, question: string)
    ensures StartsWith(FullPrompt(kb, contextType, question), Marker)
  {
    PromptHeadStartsWithMarker(kb, contextType);
    HeadedPromptStartsWithMarker(PromptHead(kb, contextType), question);
  }

  lemma PromptLayout(head: string, question: string)
    ensures var p := PromptWithHead(head, question);
            p == head + (QuestionLabel + question) + PromptTail
            && OccursAt(p, QuestionLabel + question, |head|)
            && |p| == |head| + |QuestionLabel| + |question| + 12
            && p[|p| - 12..] == PromptTail
  {
    var line := QuestionLabel + question;
    var p := PromptWithHead(head, question);
    assert p == head + line + PromptTail;
    assert p[|head|..|head| + |line|] == line;
  }

  /** The prompt holds the question line and closes with the answer label. */
  lemma PromptShape(kb: CvData, contextType: Option<ContextType>, question: string)
    ensures var p := FullPrompt(kb, contextType, question);
            p == PromptHead(kb, contextType) + (QuestionLabel + question) + PromptTail
            && Contains(p, QuestionLabel + question)
            && |p| == |PromptHead(kb, contextType)| + |QuestionLabel| + |question| + 12
            && p[|p| - 12..] == PromptTail
  {
    PromptLayout(PromptHead(kb, contextType), question);
  }

  lemma OccursAtEnd(a: string, b: string)
    ensures OccursAt(a + b, b, |a|)
  {
    assert (a + b)[|a|..|a| + |b|] == b;
  }

  lemma OccursExtend(s: string, t: string, p: string, k: int)
    requires OccursAt(s, p, k)
    ensures OccursAt(s + t, p, k)
  {
    assert (s + t)[k..k + |p|] == s[k..k + |p|];
  }

  /** The context block in the prompt is the one for the page, with the
      general page standing in when the caller gives none. */
  lemma PromptHoldsContextBlock(kb: CvData, contextType: Option<ContextType>, question: string)
    ensures Contains(FullPrompt(kb, contextType, question), CvContextString(kb, ContextOrDefault(contextType)))
  {
    var block := CvContextString(kb, ContextOrDefault(contextType));
    var before := SystemPrompt(contextType) + "\n\nCV Information (Context: " + ContextLabel(contextType) + "):\n";
    var k := |before|;
    OccursAtEnd(before, block);
    OccursExtend(before + block, "\n\n", block, k);
    var head := PromptHead(kb, contextType);
    assert head == before + block + "\n\n";
    OccursExtend(head, QuestionLabel, block, k);
    OccursExtend(head + QuestionLabel, question, block, k);
    OccursExtend(head + QuestionLabel + question, PromptTail, block, k);
  }

  // ---------------------------------------------------------------------
  // The request URL and its length guard (lines 134-143)

  const BaseUrl := "https://pollinations.ai/p/"
  const MaxUrlLength := 1800

  function RequestUrl(prompt: string): string {
    BaseUrl + Encode(prompt)
  }

  /** The URL carries the whole prompt: decoding what follows the base
      gives it back, and the URL is ASCII, so its length in UTF-16 units is
      its length here. */
  lemma RequestUrlCarriesPrompt(prompt: string)
    ensures var url := RequestUrl(prompt);
            |url| == 26 + |Encode(prompt)| && Decode(url[26..]) == Some(prompt) && IsAscii(url)
  {
    var url := RequestUrl(prompt);
    assert url[26..] == Encode(prompt);
    DecodeEncode(prompt);
    EncodeAscii(prompt);
    assert IsAscii(BaseUrl);
  }

  // ---------------------------------------------------------------------
  // Failures (lines 153-159 and 221-231)

  const TooLongMessage := "I'm sorry, but the request to the AI assistant was too long, even after "
    + "maximum simplification of the CV data for this section. This AI service "
    + "has strict limitations. A different AI approach might be needed if this "
    + "issue continues."
  const UnexpectedErrorMessage := "An unexpected error occurred while contacting the AI assistant."
  const NetworkErrorMessage := "A network error occurred while trying to reach the AI assistant. Please "
    + "check your internet connection and try again."

  /** `response.ok`: a status in the 2xx range. */
  predicate IsOk(status: nat) {
    200 <= status <= 299
  }

  const StatusLead := "Sorry, there was an error contacting the AI assistant (Status: "
  const StatusClose := "). Please try again."

  /** The answer for a status that is not ok. */
  function StatusAnswer(status: nat): string {
    if status == 431 || status == 414 then TooLongMessage
    else StatusLead + NatToString(status) + StatusClose
  }

  /** The answer for a thrown error, by its message. */
  function ErrorAnswer(message: string): string {
    if message != [] && (Contains(message, "fetch failed") || Contains(message, "NetworkError")) then NetworkErrorMessage
    else if message != [] then "An error occurred: " + message
    else UnexpectedErrorMessage
  }

  /** The two "too long" statuses give the length guard's message; any
      other status is reported by number, in decimal. */
  lemma StatusAnswers(status: nat)
    ensures status == 431 || status == 414 ==> StatusAnswer(status) == TooLongMessage
    ensures status != 431 && status != 414 ==>
              var r := StatusAnswer(status);
              StartsWith(r, StatusLead)
              && exists digits: string ::
                   && r == StatusLead + digits + StatusClose
                   && (forall i | 0 <= i < |digits| :: IsAsciiDigit(digits[i]))
                   && DigitsValue(digits) == status
  {
    if status != 431 && status != 414 {
      var digits := NatToString(status);
      var r := StatusAnswer(status);
      assert r == StatusLead + (digits + StatusClose);
      assert r[..|StatusLead|] == StatusLead;
      NatToStringRoundTrip(status);
    }
  }

  /** Messages naming a network failure give the connectivity message;
      other messages are reported; an error without a message gives the
      generic one. */
  lemma ErrorAnswers(message: string)
    ensures Contains(message, "fetch failed") || Contains(message, "NetworkError") ==>
              ErrorAnswer(message) == NetworkErrorMessage
    ensures !Contains(message, "fetch failed") && !Contains(message, "NetworkError") && message != [] ==>
              ErrorAnswer(message) == "An error occurred: " + message
    ensures message == [] ==> ErrorAnswer(message) == UnexpectedErrorMessage
  {
    if Contains(message, "fetch failed") {
      var i :| 0 <= i <= |message| - 12 && OccursAt(message, "fetch failed", i);
      assert |message| >= 12;
    }
    if Contains(message, "NetworkError") {
      var i :| 0 <= i <= |message| - 12 && OccursAt(message, "NetworkError", i);
      assert |message| >= 12;
    }
  }

  // ---------------------------------------------------------------------
  // askCvAgent

  /** What happens to a built prompt (lines 134-231): the length guard, the
      request, and the outcome turned into the answer; `needle` is the
      question line the echo check looks for. */
  function AnswerWith(prompt: string, needle: string, fetch: string -> FetchResult,
                      parse: string -> ParseOutcome): string
  {
    var url := RequestUrl(prompt);
    if |url| > MaxUrlLength then TooLongMessage
    else
      match fetch(url)
      case Threw(message) => ErrorAnswer(message)
      case Responded(status, body) =>
        if !IsOk(status) then StatusAnswer(status) else SanitizeWith(body, needle, parse)
  }

  /** As written: the echo check looks for the question as typed. */
  function AnswerFor(prompt: string, question: string, fetch: string -> FetchResult,
                     parse: string -> ParseOutcome): string
  {
    AnswerWith(prompt, QuestionLabel + question, fetch, parse)
  }

  /** Corrected: the echo check looks for the question line cleaned like
      the reply. */
  function CorrectedAnswerFor(prompt: string, question: string, fetch: string -> FetchResult,
                              parse: string -> ParseOutcome): string
  {
    AnswerWith(prompt, Strip(QuestionLabel + question), fetch, parse)
  }

  /** The answer to a question: the prompt for its page, then the request. */
  function AskCvAgent(kb: CvData, input: AskInput, fetch: string -> FetchResult, parse: string -> ParseOutcome): string
  {
    AnswerFor(FullPrompt(kb, input.contextType, input.question), input.question, fetch, parse)
  }

  /** The same, with the corrected echo check. */
  function CorrectedAskCvAgent(kb: CvData, input: AskInput, fetch: string -> FetchResult,
                               parse: string -> ParseOutcome): string
  {
    CorrectedAnswerFor(FullPrompt(kb, input.contextType, input.question), input.question, fetch, parse)
  }

  /** A request over the limit is never sent: the answer is the fixed
      message whatever the service would have done. */
  lemma TooLongIsNotSent(prompt: string, question: string, fetch1: string -> FetchResult,
                         fetch2: string -> FetchResult, parse: string -> ParseOutcome)
    requires |RequestUrl(prompt)| > MaxUrlLength
    ensures AnswerFor(prompt, question, fetch1, parse) == TooLongMessage
    ensures AnswerFor(prompt, question, fetch1, parse) == AnswerFor(prompt, question, fetch2, parse)
  {
  }

  /** The service is asked one thing only: the answer depends on what the
      request URL fetches and on nothing else `fetch` could do. */
  lemma OnlyTheRequestUrlIsFetched(prompt: string, question: string, fetch1: string -> FetchResult,
                                   fetch2: string -> FetchResult, parse: string -> ParseOutcome)
    requires fetch1(RequestUrl(prompt)) == fetch2(RequestUrl(prompt))
    ensures AnswerFor(prompt, question, fetch1, parse) == AnswerFor(prompt, question, fetch2, parse)
  {
  }

  /** A prompt longer than 1774 characters always exceeds the limit. */
  lemma LongPromptIsRefused(prompt: string, question: string, fetch: string -> FetchResult,
                            parse: string -> ParseOutcome)
    requires |prompt| > MaxUrlLength - |BaseUrl|
    ensures AnswerFor(prompt, question, fetch, parse) == TooLongMessage
  {
    EncodeLength(prompt);
  }

  /** A question longer than 1774 characters always exceeds the limit,
      whatever the page and the CV. */
  lemma LongQuestionIsRefused(kb: CvData, input: AskInput, fetch: string -> FetchResult, parse: string -> ParseOutcome)
    requires |input.question| > MaxUrlLength - |BaseUrl|
    ensures AskCvAgent(kb, input, fetch, parse) == TooLongMessage
  {
    var head := PromptHead(kb, input.contextType);
    PromptLayout(head, input.question);
    LongPromptIsRefused(PromptWithHead(head, input.question), input.question, fetch, parse);
  }

  /** How each outcome of the request becomes the answer, for a request
      within the limit. */
  lemma OutcomeAnswers(prompt: string, question: string, fetch: string -> FetchResult, parse: string -> ParseOutcome)
    requires |RequestUrl(prompt)| <= MaxUrlLength
    ensures var outcome := fetch(RequestUrl(prompt));
            var answer := AnswerFor(prompt, question, fetch, parse);
            && (outcome.Threw? ==> answer == ErrorAnswer(outcome.message))
            && (outcome.Responded? && (outcome.status == 431 || outcome.status == 414) ==> answer == TooLongMessage)
            && (outcome.Responded? && !IsOk(outcome.status) ==> answer == StatusAnswer(outcome.status))
            && (outcome.Responded? && IsOk(outcome.status) ==> answer == SanitizeAsWritten(outcome.body, question, parse))
  {
  }

  /** The correction changes only the answer to a successful reply, and
      nothing at all for a question made of printable ASCII and whitespace. */
  lemma CorrectionOnlyTouchesReplies(prompt: string, question: string, fetch: string -> FetchResult,
                                     parse: string -> ParseOutcome)
    ensures var outcome := fetch(RequestUrl(prompt));
            !(|RequestUrl(prompt)| <= MaxUrlLength && outcome.Responded? && IsOk(outcome.status)) ==>
              CorrectedAnswerFor(prompt, question, fetch, parse) == AnswerFor(prompt, question, fetch, parse)
    ensures var outcome := fetch(RequestUrl(prompt));
            |RequestUrl(prompt)| <= MaxUrlLength && outcome.Responded? && IsOk(outcome.status) ==>
              CorrectedAnswerFor(prompt, question, fetch, parse) == Sanitize(outcome.body, question, parse)
    ensures AllKept(question) ==>
              CorrectedAnswerFor(prompt, question, fetch, parse) == AnswerFor(prompt, question, fetch, parse)
  {
    var outcome := fetch(RequestUrl(prompt));
    if AllKept(question) && outcome.Responded? {
      CorrectionKeepsKeptQuestions(outcome.body, question, parse);
    }
  }

  /** The answer is empty only for a reply whose `prompt` has nothing but
      whitespace before the system instruction. */
  lemma EmptyAnswerOnlyFromStructuredReply(prompt: string, question: string, fetch: string -> FetchResult,
                                           parse: string -> ParseOutcome)
    ensures var outcome := fetch(RequestUrl(prompt));
            AnswerFor(prompt, question, fetch, parse) == [] ==>
              outcome.Responded? && IsOk(outcome.status)
              && FluxGroup(outcome.body).Some? && parse(FluxGroup(outcome.body).value).ParsedPrompt?
              && var p := parse(FluxGroup(outcome.body).value).prompt;
                 IndexOf(p, Marker) > 0 && AllWhitespace(p[..IndexOf(p, Marker)])
  {
    var url := RequestUrl(prompt);
    assert |TooLongMessage| > 0 && |UnexpectedErrorMessage| > 0 && |NetworkErrorMessage| > 0;
    match fetch(url)
    case Threw(message) =>
    case Responded(status, body) =>
      ResponseSanitizer.EmptyAnswerOnlyFromBlankPreamble(body, QuestionLabel + question, parse);
  }

  // ---------------------------------------------------------------------
  // A reply that echoes the prompt back

  lemma StripOfTail()
    ensures Strip(PromptTail) == "\n\n" + AnswerMarker
  {
    assert AllKept("\n\nAI Answer:") by {}
    StripKept(PromptTail);
  }

  lemma StripKeepsMarker(head: string)
    requires StartsWith(head, Marker)
    ensures StartsWith(Strip(head), Marker)
  {
    assert head == Marker + head[|Marker|..];
    assert AllKept("You are Mohamed Ismail's AI assistant.") by {}
    StripKept(Marker);
    StripAppend(Marker, head[|Marker|..]);
    StartsWithExtend(Marker, Strip(head[|Marker|..]), Marker);
  }

  lemma StripOfPieces(head: string, line: string)
    ensures Strip(head + line + PromptTail) == Strip(head) + Strip(line) + ("\n\n" + AnswerMarker)
  {
    StripOfTail();
    StripAppend(head + line, PromptTail);
    StripAppend(head, line);
  }

  /** Stripping a prompt of this shape, piece by piece. */
  lemma StripOfPrompt(head: string, line: string)
    requires StartsWith(head, Marker)
    ensures var s := Strip(head + line + PromptTail);
            && s == (Strip(head) + Strip(line) + "\n\n") + AnswerMarker + []
            && StartsWith(s, Marker)
            && OccursAt(s, Strip(line), |Strip(head)|)
  {
    var h, l := Strip(head), Strip(line);
    var t := "\n\n" + AnswerMarker;
    StripOfPieces(head, line);
    assert h + l + t == (h + l + "\n\n") + AnswerMarker + [];
    StripKeepsMarker(head);
    StartsWithExtend(h, l, Marker);
    StartsWithExtend(h + l, t, Marker);
    OccursAtEnd(h, l);
    OccursExtend(h + l, t, l, |h|);
  }

  /** A prompt that opens with the system instruction needs no trimming:
      it starts with `Y` and ends with `:`. */
  lemma HeadedPromptIsTrimmed(head: string, question: string)
    requires StartsWith(head, Marker)
    ensures Trim(PromptWithHead(head, question)) == PromptWithHead(head, question)
  {
    var p := PromptWithHead(head, question);
    PromptLayout(head, question);
    HeadedPromptStartsWithMarker(head, question);
    assert p[0] == Marker[0];
    assert p[|p| - 1] == PromptTail[11];
    TrimOfTrimmed(p);
  }

  lemma PromptIsTrimmed(kb: CvData, contextType: Option<ContextType>, question: string)
    ensures var p := FullPrompt(kb, contextType, question);
            Trim(p) == p
  {
    PromptHeadStartsWithMarker(kb, contextType);
    HeadedPromptIsTrimmed(PromptHead(kb, contextType), question);
  }

  /** What the clean-up makes of an echoed prompt: it is already trimmed,
      the stripped text still opens with the system instruction, holds the
      stripped question line and ends with the bare answer label. */
  lemma EchoCleanup(head: string, question: string)
    requires StartsWith(head, Marker)
    ensures var p := PromptWithHead(head, question);
            var line := QuestionLabel + question;
            var x := Strip(head) + Strip(line) + "\n\n";
            && Trim(p) == p
            && Strip(p) == x + AnswerMarker + []
            && StartsWith(Strip(p), Marker)
            && Contains(Strip(p), Strip(line))
  {
    var line := QuestionLabel + question;
    HeadedPromptIsTrimmed(head, question);
    PromptLayout(head, question);
    StripOfPrompt(head, line);
  }

  /** The corrected check recognises any prompt of this shape repeated
      word for word. */
  lemma EchoRecognised(head: string, question: string, parse: string -> ParseOutcome)
    requires StartsWith(head, Marker)
    ensures var p := PromptWithHead(head, question);
            FluxGroup(p).None? ==> Sanitize(p, question, parse) == RawEchoMessage
  {
    var p := PromptWithHead(head, question);
    var line := QuestionLabel + question;
    var x := Strip(head) + Strip(line) + "\n\n";
    EchoCleanup(head, question);
    StartsWithOccurs(Strip(p), Marker);
    LastAnswerMarker(x, []);
    assert AnswerAfterLastMarker(Strip(p)).None? by {
      assert Strip(p)[|x| + |AnswerMarker|..] == [];
    }
  }

  /** With the corrected check, a reply that repeats the prompt word for
      word (and holds no `fluxASCII{...}` object) is recognised as an echo,
      whatever characters the question holds. */
  lemma EchoedPromptRecognised(kb: CvData, contextType: Option<ContextType>, question: string,
                               parse: string -> ParseOutcome)
    ensures var p := FullPrompt(kb, contextType, question);
            FluxGroup(p).None? ==> Sanitize(p, question, parse) == RawEchoMessage
  {
    PromptHeadStartsWithMarker(kb, contextType);
    EchoRecognised(PromptHead(kb, contextType), question, parse);
  }

  lemma EchoMessageIsNoPrompt()
    ensures !StartsWith(RawEchoMessage, Marker)
  {
    assert RawEchoMessage[37] != Marker[37];
  }

  /** A text that opens with the system instruction and needs no
      trimming, checked against a question holding a character the clean-up
      removes, is returned stripped but otherwise whole. */
  lemma UnkeptQuestionMissed(body: string, question: string, parse: string -> ParseOutcome, k: nat)
    requires StartsWith(body, Marker) && Trim(body) == body
    requires k < |question| && !IsKept(question[k])
    ensures FluxGroup(body).None? ==>
              var r := SanitizeAsWritten(body, question, parse);
              r == Strip(body) && StartsWith(r, Marker) && r != RawEchoMessage
  {
    var needle := QuestionLabel + question;
    StripKeepsMarker(body);
    EchoMessageIsNoPrompt();
    assert needle[|QuestionLabel| + k] == question[k];
    NotContainsUnkept(Strip(body), needle, |QuestionLabel| + k);
  }

  /** As written, the same echo slips through when the question holds a
      character the clean-up removes: the visitor is shown the stripped
      prompt, system instruction and CV block included. */
  lemma EchoedPromptMissedAsWritten(kb: CvData, contextType: Option<ContextType>, question: string,
                                    parse: string -> ParseOutcome, k: nat)
    requires k < |question| && !IsKept(question[k])
    ensures var p := FullPrompt(kb, contextType, question);
            FluxGroup(p).None? ==>
              var r := SanitizeAsWritten(p, question, parse);
              r == Strip(p) && StartsWith(r, Marker) && r != RawEchoMessage
  {
    PromptIsTrimmed(kb, contextType, question);
    PromptStartsWithMarker(kb, contextType, question);
    UnkeptQuestionMissed(FullPrompt(kb, contextType, question), question, parse, k);
  }

  /** A concrete question for the finding: an accented letter. */
  lemma AccentedQuestionEchoMissed(kb: CvData, contextType: Option<ContextType>, parse: string -> ParseOutcome)
    ensures var p := FullPrompt(kb, contextType, "O\U{f9} a-t-il travaill\U{e9} ?");
            FluxGroup(p).None? ==>
              && SanitizeAsWritten(p, "O\U{f9} a-t-il travaill\U{e9} ?", parse) == Strip(p)
              && Sanitize(p, "O\U{f9} a-t-il travaill\U{e9} ?", parse) == RawEchoMessage
  {
    var q := "O\U{f9} a-t-il travaill\U{e9} ?";
    assert !IsKept(q[1]);
    EchoedPromptMissedAsWritten(kb, contextType, q, parse, 1);
    EchoedPromptRecognised(kb, contextType, q, parse);
  }

  /** End to end, as written: when the service answers a question holding
      a character the clean-up removes by repeating the prompt, the visitor
      is shown the cleaned prompt; the corrected flow gives the echo
      message instead. */
  lemma EchoedReplyShownAsWritten(kb: CvData, input: AskInput, fetch: string -> FetchResult,
                                  parse: string -> ParseOutcome, k: nat)
    requires k < |input.question| && !IsKept(input.question[k])
    ensures var p := FullPrompt(kb, input.contextType, input.question);
            |RequestUrl(p)| <= MaxUrlLength && fetch(RequestUrl(p)) == Responded(200, p) && FluxGroup(p).None? ==>
              && AskCvAgent(kb, input, fetch, parse) == Strip(p)
              && StartsWith(AskCvAgent(kb, input, fetch, parse), Marker)
              && CorrectedAskCvAgent(kb, input, fetch, parse) == RawEchoMessage
  {
    var p := FullPrompt(kb, input.contextType, input.question);
    if |RequestUrl(p)| <= MaxUrlLength && fetch(RequestUrl(p)) == Responded(200, p) && FluxGroup(p).None? {
      OutcomeAnswers(p, input.question, fetch, parse);
      CorrectionOnlyTouchesReplies(p, input.question, fetch, parse);
      EchoedPromptMissedAsWritten(kb, input.contextType, input.question, parse, k);
      EchoedPromptRecognised(kb, input.contextType, input.question, parse);
    }
  }
}
