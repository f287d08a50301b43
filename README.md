# CV site: chat assistant and CV components, modelled in Dafny

This project models the logic of a personal CV website, kingusa1/my-website.
It covers four pieces:

- **The chat assistant's server action `askCvAgent`**
  (src/ai/flows/ask-cv-agent-flow.ts):
  - builds a context-scoped slice of the CV (`getCvContextString`);
  - wraps it in a prompt for the page the question comes from;
  - refuses prompts whose request URL would exceed 1800 characters;
  - sends the prompt to the text service;
  - turns the outcome (a thrown error, a failed status, or a reply) into the answer shown to the visitor. A reply may be a `fluxASCII{...}` JSON wrapper, a raw text, or an echo of the prompt.
- **The project card** (src/components/projects/ProjectCard.tsx):
  - cuts a description into visible lines;
  - classifies each line as a heading, a bullet or a paragraph, using the heading loop with its `break`;
  - chooses between the summary bullets and a shortened description.
- **The timeline entry** (src/components/cv/TimelineItem.tsx): turns `website:` description items into links.
- **The contact header** (src/components/cv/ContactHeader.tsx): normalises link targets and builds the Google Maps search link.

Some JavaScript built-ins are specified here, in `strings.dfy` and `uri.dfy`:

- `trim` with its whitespace set;
- `indexOf`, `lastIndexOf`, `includes`, `split` and `join`;
- the `/[^\x20-\x7E\s]+/g` clean-up;
- `encodeURIComponent`, as UTF-8 percent-encoding. It is proved to round-trip through a decoder.

Two things are parameters, because they are I/O and a foreign parser:

- The HTTP request is the parameter `fetch: string -> FetchResult`. It either throws with a message, or responds with a status and a body.
- `JSON.parse`, together with the `jsonData && jsonData.prompt` test, is the parameter `parse: string -> ParseOutcome`. Its outcome is one of:
  - `Throws`: the parse threw, or `prompt` is a truthy non-string and `indexOf` throws;
  - `ParsedPrompt(p)`;
  - `NoPrompt`.

`getCvContextString` pushes lines onto an array, and its skills are grouped by a `reduce` that mutates a dictionary. Both are methods:

- `GetCvContextString` and its `Push...Sections` steps;
- `GroupSkills`, a loop over a map.

Each method is proved equal to a specification function (`CvContextString`, `Categories`/`NamesIn`). The lemmas are stated about those functions. The project card's heading test is the method `HeadingTest`, with the loop and `break` of the source. Everything else is functions and lemmas.

`AskCvAgent` models `askCvAgent` as written, including its echo check. That check searches the cleaned reply for the question as typed (see "## Findings"). `CorrectedAskCvAgent` is the same flow with the echo check corrected, and the lemmas state where the two differ.

Files:

| file | module |
|---|---|
| `wrappers.dfy` | `Option` |
| `strings.dfy` | JavaScript string operations |
| `uri.dfy` | `encodeURIComponent` and its decoder |
| `cv_types.dfy` | the CV record of src/lib/types.ts |
| `context_builder.dfy` | `getCvContextString` |
| `sanitizer.dfy` | the reply clean-up, lines 161-219 |
| `ask_flow.dfy` | prompt, URL guard, status and error answers, `askCvAgent` |
| `project_card.dfy` | ProjectCard |
| `timeline_item.dfy` | TimelineItem |
| `contact_header.dfy` | ContactHeader |

## Model

| member | source | states |
|---|---|---|
| CvContext.Truncate | src/ai/flows/ask-cv-agent-flow.ts:36 | text no longer than the limit is kept whole; longer text keeps exactly its first n characters, and "..." is added |
| CvContext.ListUpTo | src/ai/flows/ask-cv-agent-flow.ts:51 | at most k names, joined by ", ", and ", etc." exactly when more exist |
| CvContext.KeyPoint | src/ai/flows/ask-cv-agent-flow.ts:63-65 | the key point is never longer than the limit plus 3; it is the first summary bullet when there are bullets, else the description, whole when it fits, else its first n characters and "..." |
| CvContext.Categories | src/ai/flows/ask-cv-agent-flow.ts:44-48 | the categories are distinct, and every skill's category is listed |
| CvContext.CategoriesInFirstAppearanceOrder | src/ai/flows/ask-cv-agent-flow.ts:44-50 | categories are listed in the order in which their first skill appears |
| CvContext.GroupingIsPartition | src/ai/flows/ask-cv-agent-flow.ts:44-48 | the groups together hold exactly as many names as there are skills: none lost, none invented |
| CvContext.GroupSkills | src/ai/flows/ask-cv-agent-flow.ts:92-96 | the reduce loop yields the keys in first-appearance order, and for each key its names in their original order |
| CvContext.FormatGroups | src/ai/flows/ask-cv-agent-flow.ts:97-99 | one line per dictionary entry, in key order, equal to the specification's skill lines |
| CvContext.GetCvContextString | src/ai/flows/ask-cv-agent-flow.ts:29-114 | the pushed lines, joined by blank lines, are the context block for the page; an omitted page means general |
| CvContext.PushCvPageSections | src/ai/flows/ask-cv-agent-flow.ts:35-57 | the CV page branch pushes summary (100), full experience and education, skills (3 per category), languages and the note, in that order |
| CvContext.PushProjectsPageSections | src/ai/flows/ask-cv-agent-flow.ts:59-69 | the projects branch pushes brief summary (80), projects with highlights (70) and two technologies, and the note |
| CvContext.PushContactPageSections | src/ai/flows/ask-cv-agent-flow.ts:71-80 | the contact branch pushes brief summary (80), all six contact fields and the note |
| CvContext.PushGeneralSections | src/ai/flows/ask-cv-agent-flow.ts:82-111 | the general branch pushes summary (80), email and LinkedIn, brief entries, skills (2 per category), projects with key point (50), languages |
| CvContext.ContextOrDefault | src/ai/flows/ask-cv-agent-flow.ts:29 | an omitted context is the general one |
| CvContext.ContextSections | src/ai/flows/ask-cv-agent-flow.ts:32-111 | the block has exactly the sections listed for its context, each line starting with its section heading |
| CvContext.SectionLine | src/ai/flows/ask-cv-agent-flow.ts:32-111 | each line is its heading followed by that section's text |
| CvContext.ContextStartsWithNameAndTitle | src/ai/flows/ask-cv-agent-flow.ts:32-33 | every block opens with "Name: ..." and then "Title: ...", each followed by a blank line |
| CvContext.CvPageOmitsProjectsAndContact | src/ai/flows/ask-cv-agent-flow.ts:35-57 | changing the projects or contact details does not change the CV page's block |
| CvContext.ProjectsPageOmitsCvSections | src/ai/flows/ask-cv-agent-flow.ts:59-69 | the projects page's block depends only on name, title, summary and projects |
| CvContext.ContactPageOmitsCvSections | src/ai/flows/ask-cv-agent-flow.ts:71-80 | the contact page's block depends only on name, title, summary and contact details |
| CvContext.GeneralShowsOverviewOnly | src/ai/flows/ask-cv-agent-flow.ts:84-87 | the general block ignores contact fields other than email and LinkedIn, and the subtitle and location of experience entries |
| CvContext.LanguageTags | src/ai/flows/ask-cv-agent-flow.ts:55 | native languages are tagged " (Native)"; a proficiency from `listening`, or "Competent", appears only on the CV page |
| AskCvAgentFlow.ContextLabel | src/ai/flows/ask-cv-agent-flow.ts:120 | a given context prints its own name |
| AskCvAgentFlow.GuidanceOnlyForNamedPages | src/ai/flows/ask-cv-agent-flow.ts:119-128 | guidance is empty for the general or an omitted context, and non-empty for the three named pages |
| AskCvAgentFlow.SystemPromptStartsWithMarker | src/ai/flows/ask-cv-agent-flow.ts:120-130 | the system prompt opens with the assistant's self-introduction |
| AskCvAgentFlow.PromptStartsWithMarker | src/ai/flows/ask-cv-agent-flow.ts:132 | the full prompt opens with the self-introduction |
| AskCvAgentFlow.PromptShape | src/ai/flows/ask-cv-agent-flow.ts:132 | the prompt is the head, then "User Question: " and the question, then "\n\nAI Answer:"; it holds the question line, and its length is the sum of its parts |
| AskCvAgentFlow.PromptHoldsContextBlock | src/ai/flows/ask-cv-agent-flow.ts:117 | the prompt holds the context block for the page, the general one when none is given |
| AskCvAgentFlow.RequestUrlCarriesPrompt | src/ai/flows/ask-cv-agent-flow.ts:134-135 | the URL is the 26-character base and the encoded prompt; decoding gives the prompt back; the URL is ASCII, so its JavaScript length is its length here |
| AskCvAgentFlow.StatusAnswers | src/ai/flows/ask-cv-agent-flow.ts:155-158 | 431 and 414 give the too-long message; any other status is reported by its decimal digits, which read back as the status |
| AskCvAgentFlow.ErrorAnswers | src/ai/flows/ask-cv-agent-flow.ts:223-230 | "fetch failed" or "NetworkError" gives the network message; another message is reported; no message gives the generic one |
| AskCvAgentFlow.TooLongIsNotSent | src/ai/flows/ask-cv-agent-flow.ts:137-140 | over the limit, the answer is the fixed message, whatever the service would have returned |
| AskCvAgentFlow.OnlyTheRequestUrlIsFetched | src/ai/flows/ask-cv-agent-flow.ts:146 | the answer depends on `fetch` only through the request URL |
| AskCvAgentFlow.LongPromptIsRefused | src/ai/flows/ask-cv-agent-flow.ts:134-140 | a prompt over 1774 characters is always refused |
| AskCvAgentFlow.LongQuestionIsRefused | src/ai/flows/ask-cv-agent-flow.ts:132-140 | a question over 1774 characters is always refused, for every page and CV |
| AskCvAgentFlow.OutcomeAnswers | src/ai/flows/ask-cv-agent-flow.ts:145-231 | within the limit, a thrown error gives the error answer, a failed status gives the status answer (the too-long message for 431 and 414), and an ok reply goes through the reply clean-up with the echo check as written |
| AskCvAgentFlow.CorrectionOnlyTouchesReplies | src/ai/flows/ask-cv-agent-flow.ts:137-231 | the corrected flow answers exactly as the written one, except for an ok reply within the limit, which it cleans up with the corrected echo check; for a question of printable ASCII and whitespace the two flows always agree |
| AskCvAgentFlow.EchoedReplyShownAsWritten | src/ai/flows/ask-cv-agent-flow.ts:134-216 | end to end: for a question holding a character the clean-up removes, a status-200 reply that repeats the prompt unwrapped is answered, as written, with the cleaned prompt, which opens with the self-introduction; the corrected flow gives the echo message |
| AskCvAgentFlow.EmptyAnswerOnlyFromStructuredReply | src/ai/flows/ask-cv-agent-flow.ts:145-231 | an empty answer comes only from an ok, wrapped reply whose `prompt` has only whitespace before the self-introduction |
| AskCvAgentFlow.PromptIsTrimmed | src/ai/flows/ask-cv-agent-flow.ts:132 | the prompt needs no trimming |
| AskCvAgentFlow.StripOfPrompt | src/ai/flows/ask-cv-agent-flow.ts:203 | the cleaned prompt is the cleaned head and question line, then "\n\nAI Answer:"; it still opens with the self-introduction |
| AskCvAgentFlow.EchoCleanup | src/ai/flows/ask-cv-agent-flow.ts:203 | an echoed prompt, cleaned, opens with the self-introduction, holds the cleaned question line and ends with the bare answer label |
| AskCvAgentFlow.EchoRecognised | src/ai/flows/ask-cv-agent-flow.ts:203-214 | with the corrected check, every prompt of this shape repeated back without a wrapper gives the echo message |
| AskCvAgentFlow.EchoedPromptRecognised | src/ai/flows/ask-cv-agent-flow.ts:203-214 | with the corrected check, the prompt repeated back gives the echo message, whatever the question holds |
| AskCvAgentFlow.UnkeptQuestionMissed | src/ai/flows/ask-cv-agent-flow.ts:203-216 | as written, a question holding a character that the clean-up removes is never found, so an echoed text is returned whole |
| AskCvAgentFlow.EchoedPromptMissedAsWritten | src/ai/flows/ask-cv-agent-flow.ts:203-216 | as written, for such a question the echoed prompt is answered with the cleaned prompt itself, opening with the self-introduction, and not with the echo message |
| AskCvAgentFlow.AccentedQuestionEchoMissed | src/ai/flows/ask-cv-agent-flow.ts:205 | for "Où a-t-il travaillé ?" the as-written chain returns the echoed prompt, and the corrected one returns the echo message |
| ResponseSanitizer.FluxGroup | src/ai/flows/ask-cv-agent-flow.ts:162 | a captured group starts with "{" and ends with "}" |
| ResponseSanitizer.FluxGroupIsLeftmostLongest | src/ai/flows/ask-cv-agent-flow.ts:162 | there is a match exactly when some "fluxASCII{" has a later "}"; the group starts at the first "fluxASCII{" and no "}" follows it (greedy, dot-all) |
| ResponseSanitizer.FluxGroupOfWrappedObject | src/ai/flows/ask-cv-agent-flow.ts:162-164 | a reply that is "fluxASCII" followed by a JSON object yields exactly that object |
| ResponseSanitizer.ExtractedAnswerIsClean | src/ai/flows/ask-cv-agent-flow.ts:174-177 | an answer taken after the last "AI Answer:" is non-empty and trimmed; it does not start with the self-introduction and holds no further "AI Answer:" |
| ResponseSanitizer.ExtractedAnswerKept | src/ai/flows/ask-cv-agent-flow.ts:190-192 | an answer taken from cleaned text is itself clean |
| ResponseSanitizer.LastAnswerMarker | src/ai/flows/ask-cv-agent-flow.ts:174 | the answer label cannot overlap itself, so the last label is the one before an answer that holds none |
| ResponseSanitizer.FirstMarker | src/ai/flows/ask-cv-agent-flow.ts:168 | the self-introduction cannot overlap itself, so its first occurrence is the one after a preamble without it |
| ResponseSanitizer.StructuredLeadingAnswer | src/ai/flows/ask-cv-agent-flow.ts:170-171 | text before an echoed self-introduction is the answer, trimmed |
| ResponseSanitizer.StructuredEchoedPrompt | src/ai/flows/ask-cv-agent-flow.ts:172-179 | for a reply opening with the self-introduction and holding an "AI Answer:" label, the answer is the trimmed text after the last label, unless it is blank or starts over, when it is the echo message |
| ResponseSanitizer.StructuredEchoWithoutLabel | src/ai/flows/ask-cv-agent-flow.ts:172-179 | a reply opening with the self-introduction but holding no "AI Answer:" label gives the echo message |
| ResponseSanitizer.StructuredWithoutMarker | src/ai/flows/ask-cv-agent-flow.ts:181 | a reply without the self-introduction is returned trimmed, or the fixed message when blank |
| ResponseSanitizer.StructuredEmptyAnswer | src/ai/flows/ask-cv-agent-flow.ts:170-181 | the structured answer is empty exactly when only whitespace precedes the self-introduction |
| ResponseSanitizer.EchoFilterOutcome | src/ai/flows/ask-cv-agent-flow.ts:188-199 | a text is changed only when it looks like an echo, and then it becomes a clean answer or the echo message |
| ResponseSanitizer.EchoFilteredKept | src/ai/flows/ask-cv-agent-flow.ts:186-199 | filtering clean text gives clean text or the echo message |
| ResponseSanitizer.EchoFilteredNonEmpty | src/ai/flows/ask-cv-agent-flow.ts:187-199 | a non-empty text never filters to an empty answer |
| ResponseSanitizer.FallbackAnswerIsPrintable | src/ai/flows/ask-cv-agent-flow.ts:184-219 | without a read `prompt`, the answer is a fixed message or holds only printable ASCII and whitespace |
| ResponseSanitizer.EmptyAnswerOnlyFromBlankPreamble | src/ai/flows/ask-cv-agent-flow.ts:161-219 | the answer is empty exactly when a wrapped `prompt` has only whitespace before the self-introduction |
| ResponseSanitizer.UnmarkedReplyReturnedWhole | src/ai/flows/ask-cv-agent-flow.ts:203-216 | a clean, trimmed reply without the self-introduction is returned unchanged |
| ResponseSanitizer.LabelledReplyKeepsItsLabel | src/ai/flows/ask-cv-agent-flow.ts:203-216 | the reply "AI Answer:\nHe was a Software Tester." is returned with its label, with either echo check |
| ResponseSanitizer.BlankAnswerAfterCleanUp | src/ai/flows/ask-cv-agent-flow.ts:203-204 | the reply U+0001, space, U+0001 gives the answer " " with either echo check, because trimming happens before the clean-up |
| ResponseSanitizer.CorrectionKeepsKeptQuestions | src/ai/flows/ask-cv-agent-flow.ts:186-216 | for a question of printable ASCII and whitespace, the written and the corrected clean-up give the same answer for every reply |
| UriEncoding.DecodeEncode | src/ai/flows/ask-cv-agent-flow.ts:134 | decoding the encoded text gives it back |
| UriEncoding.EncodeAscii | src/ai/flows/ask-cv-agent-flow.ts:134 | the encoding is ASCII |
| UriEncoding.EncodeLength | src/ai/flows/ask-cv-agent-flow.ts:134 | the encoding is at least as long as the text and at most 12 times longer; unreserved text is unchanged |
| UriEncoding.EncodeAppend | src/components/cv/ContactHeader.tsx:52 | encoding a concatenation encodes each part |
| Strings.Trim | src/ai/flows/ask-cv-agent-flow.ts:176 | the result is a slice of the input with only whitespace removed at both ends; it is empty exactly for an all-whitespace input |
| Strings.TrimIdempotent | src/components/projects/ProjectCard.tsx:42 | trimming twice is trimming once |
| Strings.Strip | src/ai/flows/ask-cv-agent-flow.ts:186 | the clean-up keeps only printable ASCII and whitespace, and never lengthens |
| Strings.StripKept | src/ai/flows/ask-cv-agent-flow.ts:186 | a clean text is unchanged |
| Strings.StripAppend | src/ai/flows/ask-cv-agent-flow.ts:203 | cleaning a concatenation cleans each part |
| Strings.StripIdempotent | src/ai/flows/ask-cv-agent-flow.ts:186 | cleaning twice is cleaning once |
| Strings.NotContainsUnkept | src/ai/flows/ask-cv-agent-flow.ts:205 | clean text never contains a string with a character that the clean-up removes |
| Strings.IndexOf | src/ai/flows/ask-cv-agent-flow.ts:168 | -1 exactly when absent, else the first occurrence |
| Strings.LastIndexOf | src/ai/flows/ask-cv-agent-flow.ts:174 | -1 exactly when absent, else the last occurrence |
| Strings.SplitJoin | src/components/projects/ProjectCard.tsx:27 | splitting on a character and joining with it gives the text back |
| Strings.Split | src/components/projects/ProjectCard.tsx:27 | there is always at least one piece, and no piece holds the separator |
| Strings.NatToStringRoundTrip | src/ai/flows/ask-cv-agent-flow.ts:158 | the decimal digits of a status read back as the status |
| ProjectCard.NonBlank | src/components/projects/ProjectCard.tsx:27 | only lines that are non-blank after trimming survive, each taken from the input |
| ProjectCard.NonBlankAppend | src/components/projects/ProjectCard.tsx:27 | filtering keeps the order: the filter of a concatenation is the concatenation of the filters |
| ProjectCard.HeadingTest | src/components/projects/ProjectCard.tsx:43-52 | the loop with `break` reports a heading exactly when the line starts with one of the eight keywords, with the heading text the line itself |
| ProjectCard.LeadingDigits | src/components/projects/ProjectCard.tsx:60 | counts the ASCII digits the line starts with, stopping at the first non-digit |
| ProjectCard.NumberedItemIsRegexMatch | src/components/projects/ProjectCard.tsx:60 | the numbered-item test holds exactly when some non-empty run of digits is followed by "." and whitespace |
| ProjectCard.RenderLine | src/components/projects/ProjectCard.tsx:42-72 | a line becomes a heading exactly when it passes the heading test, a bullet exactly when it passes only the bullet test, and a paragraph otherwise; its text is the trimmed line |
| ProjectCard.ElementOf | src/components/projects/ProjectCard.tsx:42-72 | an element's text is the trimmed line |
| ProjectCard.ElementsAreTrimmedLines | src/components/projects/ProjectCard.tsx:41-42 | each rendered element shows its visible line trimmed: non-empty, trimmed, without a line break |
| ProjectCard.HeadingsAreNeverBullets | src/components/projects/ProjectCard.tsx:54-60 | no line passes both tests, so trying the heading test first decides nothing against the bullets |
| ProjectCard.ParsedDescriptionCons | src/components/projects/ProjectCard.tsx:27-41 | a line put before a description adds its element in front when it is not blank, and nothing otherwise |
| ProjectCard.DisplaySummary | src/components/projects/ProjectCard.tsx:87-89 | the card always has something to list |
| ProjectCard.SummaryChoice | src/components/projects/ProjectCard.tsx:87-91 | with bullets, the card lists them all; without, it shows one line: the description when it is short, else its first 150 characters and "..." |
| TimelineItem.WebsitePrefixIgnoresCase | src/components/cv/TimelineItem.tsx:20-21 | the prefix test looks only at the first eight characters, whatever their letter case |
| TimelineItem.WebsitePrefixExamples | src/components/cv/TimelineItem.tsx:20-21 | "Website:" and "WEBSITE:" count; "Web site:" does not |
| TimelineItem.NormalizeWebsite | src/components/cv/TimelineItem.tsx:24-26 | the target always has an http:// or https:// scheme |
| TimelineItem.NormalizeWebsiteIdempotent | src/components/cv/TimelineItem.tsx:24-26 | a target with a scheme is kept; any other gains "https://"; normalising twice is normalising once |
| TimelineItem.LinkText | src/components/cv/TimelineItem.tsx:34 | the link text is a suffix of the target |
| TimelineItem.LinkTextOfNormalized | src/components/cv/TimelineItem.tsx:24-34 | the scheme and the link text make up the target; an address typed without a scheme is shown as typed |
| TimelineItem.RenderedItem | src/components/cv/TimelineItem.tsx:19-48 | an item links exactly when it has the prefix and something after it; the link has a scheme and ends with the trimmed address; any other item is shown as written |
| TimelineItem.RenderDescription | src/components/cv/TimelineItem.tsx:70 | one rendered item per description string |
| TimelineItem.RenderedDescription | src/components/cv/TimelineItem.tsx:70 | every string is shown once, at its own position, as itself or as a link |
| ContactHeader.NormalizeHref | src/components/cv/ContactHeader.tsx:36 | every target starts with "http", "mailto:" or "tel:" |
| ContactHeader.NormalizeHrefShape | src/components/cv/ContactHeader.tsx:36 | a link-like href is kept, any other gains "https://", and normalising twice is normalising once |
| ContactHeader.HostStartingWithHttpIsKept | src/components/cv/ContactHeader.tsx:36 | "httpbin.org" is kept as it is (only "http" is looked for), while "example.org" gains "https://" |
| ContactHeader.ContactLink | src/components/cv/ContactHeader.tsx:35 | an item links exactly when its href is non-empty |
| ContactHeader.PhoneAndEmailPassThrough | src/components/cv/ContactHeader.tsx:111-118 | the tel: and mailto: targets pass the normalisation unchanged, for every number and address |
| ContactHeader.MapsUrlCarriesAddress | src/components/cv/ContactHeader.tsx:52 | the Maps link is the fixed search URL and the encoded address, which decodes back; it is ASCII and passes the normalisation unchanged |
| ContactHeader.ContactLinksShape | src/components/cv/ContactHeader.tsx:108-142 | phone, email and Maps always link; LinkedIn and GitHub link exactly when given; every target looks like a link |

## Left out

- **The HTTP request** (lines 145-150 of src/ai/flows/ask-cv-agent-flow.ts) is the `fetch` parameter. Its `statusText`, the reading of the body as text, and a `text()` call that throws are folded into the two outcomes.
- **Logging:**
  - All `console.error`/`console.warn` calls are not modelled.
  - The 1500-character warning at lines 141-143 is not modelled. It only logs, so no answer depends on it.
- **`JSON.parse`** is the `parse` parameter, not a JSON parser.
- **Strings are sequences of Unicode scalar values.** JavaScript counts UTF-16 code units, so three things use this project's lengths and indices:
  - `substring(0, n)` in the truncations and the summary;
  - the 150-character cut;
  - `length` comparisons.

  The lengths agree for text without characters outside the Basic Multilingual Plane. The request URL is ASCII, so its length is exact.
- **Lone surrogates.** A `substring` cut at lines 36, 60, 64-65, 72, 83 or 104-105 can split a surrogate pair, and a question can hold a lone surrogate. Then `encodeURIComponent` at line 134 throws `URIError`. That is before the `try` at line 145, so `askCvAgent` rejects instead of returning an answer. Dafny strings cannot hold a lone surrogate, so this case is not modelled. The model's promise that every call ends in an answer does not hold for it.
- **`toLowerCase`** is modelled on ASCII letters only (TimelineItem.LowerAsciiString). This is exact for the "website:" prefix test. No other character lower-cases to a string that starts with a letter of "website" or a colon and then continues the word. For example, U+0130 lower-cases to "i" followed by U+0307, and U+0307 cannot continue "website:".
- **Dictionary key order.** `Object.entries` is taken to list the skill categories in insertion order. Category names that look like array indices would be listed first by JavaScript; this is not modelled.
- **Inherited dictionary names.** The skills dictionary at lines 44-48 and 92-96 is a plain `{}`. For a category named after an inherited property ("constructor", "toString", "__proto__"), `acc[category]` is already truthy and is not an array, so `push` throws a `TypeError`. That happens inside `getCvContextString`, called at line 117 outside any `try`, so `askCvAgent` rejects. The model groups such a skill like any other.
- **Input validation.** `askCvAgent` receives its input untyped at run time. A `question` that is not a string, or an unknown `contextType` value, is not modelled. An omitted `contextType` is modelled: the prompt prints "undefined" and the context block is the general one.
- **`Skill.level`** and the URLs of a project are carried in the data but are never used by the modelled code.
- **Not modelled:**
  - React rendering, class names, animation, modal state, the `key` props and the `aria` labels.
  - The concrete CV data of src/lib/data.ts.
  - The chat popup, the floating button, the disabled forms, the layout files and the scroll-animation hook.
- AskCvAgentFlow.ErrorAnswers: an error whose `message` is not a string is not modelled. The message is a string, and empty means absent.
- ResponseSanitizer.LabelledReplyKeepsItsLabel: this follows the code, which shows a plain "AI Answer:" reply whole, label included. A description of the intended behaviour, in which only the text after the label is shown, disagrees with it.

## Findings

| source | as written | input that shows it | evidently intended | confidence | as-written member | corrected member |
|---|---|---|---|---|---|---|
| src/ai/flows/ask-cv-agent-flow.ts:203-205 | the reply is stripped of characters outside printable ASCII and whitespace, but is then searched for "User Question: " followed by the question exactly as typed | the question "Où a-t-il travaillé ?" with a reply that repeats the prompt: the stripped reply cannot contain "ù", so the echo is not recognised, and the visitor is shown the whole stripped prompt, system instruction and CV block included | search the stripped reply for the stripped question line, so that an echoed prompt gives the echo message for every question | not executed | AskCvAgentFlow.EchoedPromptMissedAsWritten | AskCvAgentFlow.EchoedPromptRecognised |
