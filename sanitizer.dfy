/**
 * How the chat assistant turns the text the AI service sent back into the
 * answer shown to the visitor (the `try` block at lines 161-219 of
 * src/ai/flows/ask-cv-agent-flow.ts). The service may wrap its reply as
 * `fluxASCII{...json...}`; the JSON's `prompt` field then holds the reply,
 * possibly together with an echo of the question's prompt. Without such a
 * wrapper the raw text is cleaned and checked for an echo of the prompt.
 */
module ResponseSanitizer {
  import opened Wrappers
  import opened Strings

  /** What `JSON.parse` and the `jsonData && jsonData.prompt` test make of
      the wrapped block: the parse (or the use of a non-string `prompt`)
      throws, a string `prompt` is found, or there is no truthy `prompt`. */
  datatype ParseOutcome = Throws | ParsedPrompt(prompt: string) | NoPrompt

  /** The opening of the system instruction every prompt starts with. */
  const Marker := "You are Mohamed Ismail's AI assistant."
  const AnswerMarker := "AI Answer:"
  const QuestionLabel := "User Question: "
  const FluxOpen := "fluxASCII{"

  const StructuredEchoMessage := "The AI assistant returned the input prompt or an unparseable response. "
    + "Please try rephrasing your question."
  const StructuredEmptyMessage := "Received a structured response, but couldn't isolate a clear answer."
  const CatchEchoMessage := "The AI's response seems to be an echo of the input, or contained "
    + "unparseable characters. Please try rephrasing."
  const RawEchoMessage := "The AI's response seems to be an echo of the input. Please try rephrasing."
  const EmptyMessage := "Sorry, I couldn't get a clear answer from the AI. The response was empty or unparseable."

  // ---------------------------------------------------------------------
  // responseText.match(/fluxASCII(\{.*\})/s)

  /** The capture group of the greedy match: from the `{` of the first
      `fluxASCII{` to the last `}` after it, if there is one. */
  function FluxGroup(body: string): (r: Option<string>)
    ensures r.Some? ==> 2 <= |r.value| && r.value[0] == '{' && r.value[|r.value| - 1] == '}'
  {
    var p := IndexOf(body, FluxOpen);
    var l := LastIndexOf(body, "}");
    if p != -1 && p + 10 <= l then
      assert body[p..p + 10][9] == body[p + 9];
      assert body[l..l + 1][0] == body[l];
      Some(body[p + 9..l + 1])
    else None
  }

  /** The match exists exactly when some `fluxASCII{` is followed, later on,
      by a `}`; the group starts at the first `fluxASCII{` and runs to the
      last `}`, so nothing after it is a `}`. */
  lemma LastBrace(body: string)
    ensures var l := LastIndexOf(body, "}");
            forall j | 0 <= j < |body| && body[j] == '}' :: j <= l
  {
    var l := LastIndexOf(body, "}");
    forall j | 0 <= j < |body| && body[j] == '}' ensures j <= l {
      assert body[j..j + 1] == "}";
      assert OccursAt(body, "}", j);
    }
  }

  /** There is a group exactly when some `fluxASCII{` has a `}` at or
      after its own brace. */
  lemma FluxGroupExists(body: string)
    ensures FluxGroup(body).Some? <==>
              exists i, j | 0 <= i && i + 10 <= j < |body| :: OccursAt(body, FluxOpen, i) && body[j] == '}'
  {
    var p := IndexOf(body, FluxOpen);
    var l := LastIndexOf(body, "}");
    LastBrace(body);
    if exists i, j | 0 <= i && i + 10 <= j < |body| :: OccursAt(body, FluxOpen, i) && body[j] == '}' {
      var i, j :| 0 <= i && i + 10 <= j < |body| && OccursAt(body, FluxOpen, i) && body[j] == '}';
      assert Contains(body, FluxOpen);
      assert p <= i;
    }
    if FluxGroup(body).Some? {
      assert l < |body| && body[l..l + 1] == "}";
      assert body[l] == '}';
    }
  }

  /** The group starts at the first `fluxASCII{` and ends at the last `}`:
      the greedy `.*` of the regular expression. */
  lemma FluxGroupIsLeftmostLongest(body: string)
    ensures FluxGroup(body).Some? <==>
              exists i, j | 0 <= i && i + 10 <= j < |body| :: OccursAt(body, FluxOpen, i) && body[j] == '}'
    ensures FluxGroup(body).Some? ==>
              var i := IndexOf(body, FluxOpen);
              var g := FluxGroup(body).value;
              OccursAt(body, "fluxASCII" + g, i)
              && (forall k | 0 <= k < i :: !OccursAt(body, FluxOpen, k))
              && (forall j | i + 9 + |g| <= j < |body| :: body[j] != '}')
  {
    FluxGroupExists(body);
    if FluxGroup(body).Some? {
      var p := IndexOf(body, FluxOpen);
      var l := LastIndexOf(body, "}");
      var g := FluxGroup(body).value;
      LastBrace(body);
      assert body[p..p + 10] == FluxOpen;
      assert body[p..p + 9 + |g|] == "fluxASCII" + g by {
        assert body[p..p + 9 + |g|] == body[p..p + 9] + body[p + 9..l + 1];
        assert body[p..p + 9] == FluxOpen[..9];
      }
    }
  }

  /** A reply that is exactly `fluxASCII` followed by a JSON object yields
      that object. */
  lemma FluxGroupOfWrappedObject(json: string)
    requires 2 <= |json| && json[0] == '{' && json[|json| - 1] == '}'
    ensures FluxGroup("fluxASCII" + json) == Some(json)
  {
    var body := "fluxASCII" + json;
    assert body[..10] == FluxOpen;
    StartsWithOccurs(body, FluxOpen);
    var l := LastIndexOf(body, "}");
    assert body[|body| - 1..|body|] == "}";
    assert OccursAt(body, "}", |body| - 1);
    assert l == |body| - 1;
    assert body[9..|body|] == json;
  }

  // ---------------------------------------------------------------------
  // The tail after the last "AI Answer:"

  /** The trimmed text after the last `AI Answer:`, when it is non-empty and
      does not start over with the system instruction. */
  function AnswerAfterLastMarker(text: string): Option<string>
  {
    var i := LastIndexOf(text, AnswerMarker);
    if i == -1 then None
    else
      var a := Trim(text[i + |AnswerMarker|..]);
      if a != [] && !StartsWith(a, Marker) then Some(a) else None
  }

  /** The answer is the trimmed text after the last marker. */
  lemma AnswerIsTrimmedTail(text: string)
    requires AnswerAfterLastMarker(text).Some?
    ensures var i := LastIndexOf(text, AnswerMarker);
            && 0 <= i && i + |AnswerMarker| <= |text|
            && AnswerAfterLastMarker(text).value == Trim(text[i + |AnswerMarker|..])
            && AnswerAfterLastMarker(text).value != []
            && !StartsWith(AnswerAfterLastMarker(text).value, Marker)
  {
  }

  /** An extracted answer is trimmed, non-empty, does not start with the
      system instruction and holds no further `AI Answer:`. */
  lemma ExtractedAnswerIsClean(text: string)
    requires AnswerAfterLastMarker(text).Some?
    ensures var a := AnswerAfterLastMarker(text).value;
            a != [] && Trim(a) == a && !StartsWith(a, Marker) && !Contains(a, AnswerMarker)
  {
    AnswerIsTrimmedTail(text);
    var i := LastIndexOf(text, AnswerMarker);
    var tail := text[i + |AnswerMarker|..];
    TrimIdempotent(tail);
    NoMarkerInTail(text, i, tail);
  }

  lemma NoMarkerInTail(text: string, i: int, tail: string)
    requires i == LastIndexOf(text, AnswerMarker) != -1
    requires tail == text[i + |AnswerMarker|..]
    ensures !Contains(Trim(tail), AnswerMarker)
  {
    var start := i + |AnswerMarker|;
    assert forall j :: start <= j ==> !OccursAt(text, AnswerMarker, j);
    NoOccurrenceInSlice(text, AnswerMarker, start, |text|);
    assert text[start..|text|] == tail;
    assert forall q :: !OccursAt(tail, AnswerMarker, q);
    var t := TrimStart(tail);
    var r := Trim(tail);
    NoOccurrenceInSlice(tail, AnswerMarker, t, t + |r|);
    assert tail[t..t + |r|] == r;
  }

  /** Text made of kept characters gives an answer made of kept characters. */
  lemma ExtractedAnswerKept(text: string)
    requires AllKept(text)
    requires AnswerAfterLastMarker(text).Some?
    ensures AllKept(AnswerAfterLastMarker(text).value)
  {
    AnswerIsTrimmedTail(text);
    var i := LastIndexOf(text, AnswerMarker);
    var tail := text[i + |AnswerMarker|..];
    AllKeptSlice(text, i + |AnswerMarker|, |text|);
    assert text[i + |AnswerMarker|..|text|] == tail;
    var t := TrimStart(tail);
    var r := Trim(tail);
    AllKeptSlice(tail, t, t + |r|);
    assert tail[t..t + |r|] == r;
  }

  /** A second `AI Answer:` cannot start inside the first one. */
  lemma AnswerMarkerNoOverlap(t: string, n: int, j: int)
    requires OccursAt(t, AnswerMarker, n)
    requires n < j < n + |AnswerMarker|
    ensures !OccursAt(t, AnswerMarker, j)
  {
    if j + |AnswerMarker| <= |t| {
      var k := j - n;
      var w := t[n..n + 10];
      assert t[j] == w[k];
      assert t[j..j + 10][0] == t[j];
      if k == 3 {
        assert t[j + 1] == w[4];
        assert t[j..j + 10][1] == t[j + 1];
      }
    }
  }

  /** `AI Answer:` cannot overlap itself: after `x + "AI Answer:" + ans`,
      with no marker inside `ans`, the last marker is the one after `x`. */
  lemma LastAnswerMarker(x: string, ans: string)
    requires !Contains(ans, AnswerMarker)
    ensures LastIndexOf(x + AnswerMarker + ans, AnswerMarker) == |x|
  {
    var t := x + AnswerMarker + ans;
    var n := |x|;
    assert t[n..n + 10] == AnswerMarker;
    assert OccursAt(t, AnswerMarker, n);
    forall j | n < j ensures !OccursAt(t, AnswerMarker, j) {
      if j < n + 10 {
        AnswerMarkerNoOverlap(t, n, j);
      } else {
        assert t == (x + AnswerMarker) + ans;
        OccursInSuffix(x + AnswerMarker, ans, AnswerMarker, j - n - 10);
        assert !OccursAt(ans, AnswerMarker, j - n - 10);
      }
    }
  }

  lemma MarkerHasOneY()
    ensures Marker[0] == 'Y' && 'Y' !in Marker[1..]
  {
    assert Marker == "Y" + "ou are Mohamed Ismail's AI assistant.";
    assert 'Y' !in "ou are Mohamed Ismail's AI assistant.";
  }

  /** The system instruction cannot overlap itself either: it has a single
      capital `Y`, at its start. */
  lemma FirstMarker(pre: string, rest: string)
    requires !Contains(pre, Marker)
    ensures IndexOf(pre + Marker + rest, Marker) == |pre|
  {
    var t := pre + Marker + rest;
    var n := |pre|;
    assert t[n..n + |Marker|] == Marker;
    assert OccursAt(t, Marker, n);
    forall j | 0 <= j < n ensures !OccursAt(t, Marker, j) {
      if j + |Marker| <= |t| {
        if j + |Marker| <= n {
          assert t[j..j + |Marker|] == pre[j..j + |Marker|];
          assert !OccursAt(pre, Marker, j);
        } else {
          var k := n - j;
          MarkerHasOneY();
          assert t[n..n + |Marker|][0] == t[n];
          assert t[j..j + |Marker|][k] == t[n];
          assert Marker[k] == Marker[1..][k - 1];
        }
      }
    }
  }

  // ---------------------------------------------------------------------
  // The structured reply (lines 165-181)

  /** The answer read from the `prompt` field, by the offset of the system
      instruction in it. */
  function StructuredAnswer(p: string): string
  {
    var offset := IndexOf(p, Marker);
    if offset > 0 then Trim(p[..offset])
    else if offset == 0 then
      match AnswerAfterLastMarker(p)
      case Some(a) => a
      case None => StructuredEchoMessage
    else if Trim(p) != [] then Trim(p)
    else StructuredEmptyMessage
  }

  /** Text followed by the echoed prompt: the text before the echo is the
      answer. */
  lemma StructuredLeadingAnswer(ans: string, rest: string)
    requires ans != [] && !Contains(ans, Marker)
    ensures StructuredAnswer(ans + Marker + rest) == Trim(ans)
  {
    FirstMarker(ans, rest);
    assert (ans + Marker + rest)[..|ans|] == ans;
  }

  /** A reply that is the echoed prompt followed by an answer: the answer
      after the last `AI Answer:` is returned, trimmed, unless it is blank
      or starts over with the instruction, when the fixed echo message is. */
  lemma StructuredEchoedPrompt(mid: string, ans: string)
    requires !Contains(ans, AnswerMarker)
    ensures var a := Trim(ans);
            StructuredAnswer(Marker + mid + AnswerMarker + ans)
            == if a != [] && !StartsWith(a, Marker) then a else StructuredEchoMessage
  {
    var p := Marker + mid + AnswerMarker + ans;
    assert p[..|Marker|] == Marker;
    StartsWithOccurs(p, Marker);
    LastAnswerMarker(Marker + mid, ans);
    assert p[|Marker + mid| + |AnswerMarker|..] == ans;
  }

  /** A reply that opens with the instruction but holds no `AI Answer:`
      label gives the fixed echo message. */
  lemma StructuredEchoWithoutLabel(mid: string)
    requires !Contains(Marker + mid, AnswerMarker)
    ensures StructuredAnswer(Marker + mid) == StructuredEchoMessage
  {
    StartsWithOccurs(Marker + mid, Marker);
    assert (Marker + mid)[..|Marker|] == Marker;
  }

  /** A reply without the instruction is returned trimmed, or the fixed
      message when it is blank. */
  lemma StructuredWithoutMarker(p: string)
    requires !Contains(p, Marker)
    ensures StructuredAnswer(p) == if AllWhitespace(p) then StructuredEmptyMessage else Trim(p)
  {
  }

  /** The structured answer is empty exactly when only whitespace comes
      before the instruction. */
  lemma StructuredEmptyAnswer(p: string)
    ensures StructuredAnswer(p) == [] <==>
              IndexOf(p, Marker) > 0 && AllWhitespace(p[..IndexOf(p, Marker)])
  {
  }

  // ---------------------------------------------------------------------
  // The raw-text fallbacks (lines 184-219)

  /** Both the instruction and the question line occur: the text is taken
      to be an echo of the prompt. */
  predicate LooksLikeEcho(text: string, needle: string) {
    Contains(text, Marker) && Contains(text, needle)
  }

  /** The cleaned text, unless it looks like an echo, in which case only the
      answer after the last `AI Answer:` is kept, or the given echo message
      when there is none. */
  function EchoFiltered(text: string, needle: string, echoMessage: string): string
  {
    if LooksLikeEcho(text, needle) then
      match AnswerAfterLastMarker(text)
      case Some(a) => a
      case None => echoMessage
    else text
  }

  /** Line 203: the whole reply, trimmed and then cleaned; the fixed message
      when nothing is left. */
  function RawFallback(body: string, needle: string): string
  {
    var cleaned := Strip(Trim(body));
    if cleaned != [] then EchoFiltered(cleaned, needle, RawEchoMessage) else EmptyMessage
  }

  /** Line 186, after the wrapped block could not be read: the reply cleaned
      and then trimmed; when nothing is left, control falls through to
      line 203. */
  function CatchFallback(body: string, needle: string): string
  {
    var cleaned := Trim(Strip(body));
    if cleaned != [] then EchoFiltered(cleaned, needle, CatchEchoMessage) else RawFallback(body, needle)
  }

  /** The whole chain, for a given question line `needle` that marks an
      echo. */
  function SanitizeWith(body: string, needle: string, parse: string -> ParseOutcome): string
  {
    match FluxGroup(body)
    case None => RawFallback(body, needle)
    case Some(group) =>
      match parse(group)
      case Throws => CatchFallback(body, needle)
      case NoPrompt => RawFallback(body, needle)
      case ParsedPrompt(p) => if p != [] then StructuredAnswer(p) else RawFallback(body, needle)
  }

  /** The chain as written: the cleaned reply is searched for the question
      line as the visitor typed it, characters the clean-up removes
      included. */
  function SanitizeAsWritten(body: string, question: string, parse: string -> ParseOutcome): string
  {
    SanitizeWith(body, QuestionLabel + question, parse)
  }

  /** The chain with the question line cleaned like the reply before it is
      searched for. */
  function Sanitize(body: string, question: string, parse: string -> ParseOutcome): string
  {
    SanitizeWith(body, Strip(QuestionLabel + question), parse)
  }

  // ---------------------------------------------------------------------
  // What the fallbacks promise

  /** An echo-filtered text made of kept characters is the echo message
      or is made of kept characters. */
  lemma EchoFilteredKept(text: string, needle: string, echoMessage: string)
    requires AllKept(text)
    ensures var r := EchoFiltered(text, needle, echoMessage);
            r == echoMessage || AllKept(r)
  {
    if LooksLikeEcho(text, needle) && AnswerAfterLastMarker(text).Some? {
      ExtractedAnswerKept(text);
    }
  }

  /** Without a wrapped block whose `prompt` was read, the answer is one of
      the fixed messages or holds only printable ASCII and whitespace. */
  lemma FallbackAnswerIsPrintable(body: string, needle: string, parse: string -> ParseOutcome)
    requires FluxGroup(body).None? || !parse(FluxGroup(body).value).ParsedPrompt?
    ensures var r := SanitizeWith(body, needle, parse);
            r == CatchEchoMessage || r == RawEchoMessage || r == EmptyMessage || AllKept(r)
  {
    var raw := Strip(Trim(body));
    EchoFilteredKept(raw, needle, RawEchoMessage);
    var caught := Trim(Strip(body));
    AllKeptSlice(Strip(body), TrimStart(Strip(body)), TrimStart(Strip(body)) + |caught|);
    EchoFilteredKept(caught, needle, CatchEchoMessage);
  }

  /** Only a text that looks like an echo is changed by the echo filter,
      and then it becomes a clean answer or the echo message. */
  lemma EchoFilterOutcome(text: string, needle: string, echoMessage: string)
    ensures !LooksLikeEcho(text, needle) ==> EchoFiltered(text, needle, echoMessage) == text
    ensures LooksLikeEcho(text, needle) ==>
              var r := EchoFiltered(text, needle, echoMessage);
              r == echoMessage
              || (r != [] && Trim(r) == r && !StartsWith(r, Marker) && !Contains(r, AnswerMarker))
  {
    if LooksLikeEcho(text, needle) && AnswerAfterLastMarker(text).Some? {
      ExtractedAnswerIsClean(text);
    }
  }

  lemma EchoFilteredNonEmpty(text: string, needle: string, echoMessage: string)
    requires text != [] && echoMessage != []
    ensures EchoFiltered(text, needle, echoMessage) != []
  {
    if LooksLikeEcho(text, needle) && AnswerAfterLastMarker(text).Some? {
      ExtractedAnswerIsClean(text);
    }
  }

  /** The answer is empty exactly when a structured reply has only blank
      text before the instruction. */
  lemma EmptyAnswerOnlyFromBlankPreamble(body: string, needle: string, parse: string -> ParseOutcome)
    ensures SanitizeWith(body, needle, parse) == [] <==>
              FluxGroup(body).Some? && parse(FluxGroup(body).value).ParsedPrompt?
              && var p := parse(FluxGroup(body).value).prompt;
                 IndexOf(p, Marker) > 0 && AllWhitespace(p[..IndexOf(p, Marker)])
  {
    if Strip(Trim(body)) != [] {
      EchoFilteredNonEmpty(Strip(Trim(body)), needle, RawEchoMessage);
    }
    if Trim(Strip(body)) != [] {
      EchoFilteredNonEmpty(Trim(Strip(body)), needle, CatchEchoMessage);
    }
    if FluxGroup(body).Some? && parse(FluxGroup(body).value).ParsedPrompt? {
      var p := parse(FluxGroup(body).value).prompt;
      StructuredEmptyAnswer(p);
      if p == [] {
        assert IndexOf(p, Marker) == -1;
      }
    }
  }

  /** A reply without the instruction, already trimmed and made of kept
      characters, is returned whole. */
  lemma UnmarkedReplyReturnedWhole(body: string, needle: string, parse: string -> ParseOutcome)
    requires FluxGroup(body).None?
    requires AllKept(body) && !Contains(body, Marker)
    requires body != [] && !IsJsWhitespace(body[0]) && !IsJsWhitespace(body[|body| - 1])
    ensures SanitizeWith(body, needle, parse) == body
  {
    TrimOfTrimmed(body);
    StripKept(body);
  }

  /** A reply of the answer label, a line break and a sentence. */
  const LabelledReply := "AI Answer:\nHe was a Software Tester."

  lemma LabelledReplyHasNoGroup()
    ensures FluxGroup(LabelledReply).None?
  {
    assert '}' !in "AI Answer:\nHe was a Software Tester.";
    ContainsChar(LabelledReply, '}');
  }

  lemma LabelledReplyIsKept()
    ensures AllKept(LabelledReply)
  {
    assert AllKept("AI Answer:\nHe was a Software Tester.");
  }

  lemma LabelledReplyShape()
    ensures FluxGroup(LabelledReply).None? && AllKept(LabelledReply) && !Contains(LabelledReply, Marker)
  {
    LabelledReplyHasNoGroup();
    LabelledReplyIsKept();
    assert |LabelledReply| < |Marker|;
  }

  /** Such a reply keeps its `AI Answer:` label: it is returned as it came,
      whatever question line the echo check looks for, so both as written
      and corrected. */
  lemma LabelledReplyKeepsItsLabel(needle: string, parse: string -> ParseOutcome)
    ensures SanitizeWith(LabelledReply, needle, parse) == LabelledReply
  {
    LabelledReplyShape();
    UnmarkedReplyReturnedWhole(LabelledReply, needle, parse);
  }

  /** Line 203 trims before it cleans, so characters removed by the clean-up
      can shield whitespace from the trim: a reply of a space between two
      control characters gives a blank answer. */
  lemma BlankAnswerAfterCleanUp(needle: string, parse: string -> ParseOutcome)
    ensures var body := "\U{1} \U{1}";
            SanitizeWith(body, needle, parse) == " " && AllWhitespace(" ")
  {
    var body := "\U{1} \U{1}";
    assert Trim(Strip(body)) == [] by {
      assert Strip(body) == " ";
    }
    TrimOfTrimmed(body);
    assert Strip(body) == " ";
  }

  /** The correction only matters for questions holding a character the
      clean-up removes: for any other question both chains give the same
      answer. */
  lemma CorrectionKeepsKeptQuestions(body: string, question: string, parse: string -> ParseOutcome)
    requires AllKept(question)
    ensures SanitizeAsWritten(body, question, parse) == Sanitize(body, question, parse)
  {
    assert AllKept("User Question: ") by {}
    StripKept(QuestionLabel);
    StripKept(question);
    StripAppend(QuestionLabel, question);
  }
}
