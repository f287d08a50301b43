/**
 * How a project card presents its text (src/components/projects/ProjectCard.tsx).
 * The details dialog cuts the description into lines and shows each line as
 * a heading, an indented bullet or a paragraph; the card itself shows the
 * summary bullets, or a shortened description when there are none.
 */
module ProjectCard {
  import opened Wrappers
  import opened Strings
  import opened CvTypes

  // ---------------------------------------------------------------------
  // Cutting the description into lines (line 27)

  /** The lines that are not blank (`line.trim() !== ''`), in their
      original order. */
  function NonBlank(lines: seq<string>): (r: seq<string>)
    ensures |r| <= |lines|
    ensures forall k | 0 <= k < |r| :: Trim(r[k]) != [] && r[k] in lines
  {
    if lines == [] then []
    else if !AllWhitespace(lines[0]) then [lines[0]] + NonBlank(lines[1..])
    else NonBlank(lines[1..])
  }

  /** Filtering a concatenation filters each part: no line is moved, and
      only blank lines are dropped. */
  lemma {:induction false} NonBlankAppend(a: seq<string>, b: seq<string>)
    ensures NonBlank(a + b) == NonBlank(a) + NonBlank(b)
    decreases |a|
  {
    if a != [] {
      assert (a + b)[1..] == a[1..] + b;
      NonBlankAppend(a[1..], b);
    } else {
      assert a + b == b;
    }
  }

  /** A single line survives exactly when it is not blank. */
  lemma NonBlankSingle(line: string)
    ensures NonBlank([line]) == if Trim(line) != [] then [line] else []
  {
    assert [line][1..] == [];
    assert NonBlank([line][1..]) == [];
  }

  /** The description's lines that are shown. */
  function VisibleLines(description: string): seq<string> {
    NonBlank(Split(description, '\n'))
  }

  // ---------------------------------------------------------------------
  // Headings (lines 28-52)

  /** The keywords that open a heading, in the order they are tried. */
  const HeadingKeywords: seq<string> := [
    "Overview:",
    "Key Steps & Challenges:",
    "Results / Impact:",
    "Solution & Key Steps:",
    "Outcome & Benefits:",
    "Tech Stack:",
    "Tech Stack & Integrations:",
    "Overview & Business Need:"]

  predicate IsHeading(trimmedLine: string) {
    exists i | 0 <= i < |HeadingKeywords| :: StartsWith(trimmedLine, HeadingKeywords[i])
  }

  /** The heading test as the component runs it: the keywords are tried in
      order and the loop stops at the first one the line starts with. */
  method HeadingTest(trimmedLine: string) returns (isHeading: bool, headingText: string)
    ensures isHeading <==> IsHeading(trimmedLine)
    ensures headingText == if isHeading then trimmedLine else ""
  {
    isHeading := false;
    headingText := "";
    var i := 0;
    while i < |HeadingKeywords|
      invariant 0 <= i <= |HeadingKeywords|
      invariant !isHeading && headingText == ""
      invariant forall j | 0 <= j < i :: !StartsWith(trimmedLine, HeadingKeywords[j])
    {
      if StartsWith(trimmedLine, HeadingKeywords[i]) {
        isHeading := true;
        headingText := trimmedLine;
        break;
      }
      i := i + 1;
    }
  }

  // ---------------------------------------------------------------------
  // Bullets (line 60)

  /** `"â€¢ "`: the bullet character as it reads after its UTF-8 bytes were
      taken for Windows-1252 text, then a space. */
  const MisencodedBullet := "\U{e2}\U{20ac}\U{a2} "

  /** How many ASCII digits `s` starts with. */
  function LeadingDigits(s: string): (n: nat)
    ensures n <= |s|
    ensures forall k | 0 <= k < n :: IsAsciiDigit(s[k])
    ensures n < |s| ==> !IsAsciiDigit(s[n])
  {
    if s != [] && IsAsciiDigit(s[0]) then 1 + LeadingDigits(s[1..]) else 0
  }

  /** The `/^\d+\.\s/` test: the digits are taken greedily, and since a dot
      is not a digit no shorter run of digits could be followed by one. */
  predicate IsNumberedItem(s: string) {
    var n := LeadingDigits(s);
    0 < n && n + 1 < |s| && s[n] == '.' && IsJsWhitespace(s[n + 1])
  }

  /** `s` opens with `n` ASCII digits (at least one) and then a dot that
      has a character after it. */
  predicate DigitsThenDot(s: string, n: int) {
    1 <= n && n + 1 < |s| && (forall k | 0 <= k < n :: IsAsciiDigit(s[k])) && s[n] == '.'
  }

  /** The greedy test agrees with the regular expression's meaning: some
      non-empty run of digits is followed by a dot and a whitespace
      character. */
  lemma NumberedItemIsRegexMatch(s: string)
    ensures IsNumberedItem(s) <==> exists n :: DigitsThenDot(s, n) && IsJsWhitespace(s[n + 1])
  {
    var d := LeadingDigits(s);
    if IsNumberedItem(s) {
      assert DigitsThenDot(s, d);
    }
    forall n | DigitsThenDot(s, n)
      ensures n == d
    {
      assert !IsAsciiDigit(s[n]);
    }
  }

  predicate IsBulletLine(trimmedLine: string) {
    || StartsWith(trimmedLine, "- ")
    || StartsWith(trimmedLine, MisencodedBullet)
    || StartsWith(trimmedLine, "* ")
    || IsNumberedItem(trimmedLine)
  }

  // ---------------------------------------------------------------------
  // Rendered elements (lines 41-73)

  /** What one line is shown as; the text is always the trimmed line. */
  datatype Element = Heading(text: string) | Bullet(text: string) | Paragraph(text: string)

  /** The element for one line: the heading test first, then the bullet test. */
  function ElementOf(line: string): (e: Element)
    ensures e.text == Trim(line)
  {
    var t := Trim(line);
    if IsHeading(t) then Heading(t)
    else if IsBulletLine(t) then Bullet(t)
    else Paragraph(t)
  }

  /** One line rendered as the component does it, with the heading loop. */
  method RenderLine(line: string) returns (e: Element)
    ensures e == ElementOf(line)
    ensures e.Heading? <==> IsHeading(Trim(line))
    ensures e.Bullet? <==> !IsHeading(Trim(line)) && IsBulletLine(Trim(line))
  {
    var trimmedLine := Trim(line);
    var isHeading, headingText := HeadingTest(trimmedLine);
    if isHeading {
      e := Heading(headingText);
    } else if StartsWith(trimmedLine, "- ") || StartsWith(trimmedLine, MisencodedBullet)
              || StartsWith(trimmedLine, "* ") || IsNumberedItem(trimmedLine) {
      e := Bullet(trimmedLine);
    } else {
      e := Paragraph(trimmedLine);
    }
  }

  /** One element per line, in order (`lines.map`). */
  function Elements(lines: seq<string>): (elements: seq<Element>)
    ensures |elements| == |lines|
  {
    seq(|lines|, i requires 0 <= i < |lines| => ElementOf(lines[i]))
  }

  lemma ElementsAppend(a: seq<string>, b: seq<string>)
    ensures Elements(a + b) == Elements(a) + Elements(b)
  {
    var ab := a + b;
    forall i | 0 <= i < |ab|
      ensures Elements(ab)[i] == (Elements(a) + Elements(b))[i]
    {
      if i >= |a| {
        assert ab[i] == b[i - |a|];
      }
    }
  }

  /** The description as rendered: one element per visible line. */
  function ParsedDescription(description: string): (elements: seq<Element>)
    ensures |elements| == |VisibleLines(description)|
  {
    Elements(VisibleLines(description))
  }

  /** Trimming a line without a line break gives a trimmed text without
      one either. */
  lemma TrimmedLine(line: string)
    requires '\n' !in line
    ensures Trim(Trim(line)) == Trim(line) && '\n' !in Trim(line)
  {
    TrimIdempotent(line);
    CharNotInTrim(line, '\n');
  }

  /** Every element shows the trimmed form of its line: non-empty, with no
      whitespace at either end and no line break. */
  lemma ElementsAreTrimmedLines(description: string)
    ensures var lines := VisibleLines(description);
            var elements := ParsedDescription(description);
            forall i | 0 <= i < |elements| ::
              && elements[i].text == Trim(lines[i])
              && elements[i].text != []
              && Trim(elements[i].text) == elements[i].text
              && '\n' !in elements[i].text
  {
    var lines := VisibleLines(description);
    var pieces := Split(description, '\n');
    var elements := ParsedDescription(description);
    forall i | 0 <= i < |elements|
      ensures elements[i].text == Trim(lines[i]) && elements[i].text != []
      ensures Trim(elements[i].text) == elements[i].text && '\n' !in elements[i].text
    {
      assert elements[i] == ElementOf(lines[i]);
      assert lines[i] in pieces;
      TrimmedLine(lines[i]);
    }
  }

  /** The keywords and the bullet markers start with different characters,
      so no line passes both tests and the order of the two tests does not
      change what a line becomes. */
  lemma HeadingsAreNeverBullets(trimmedLine: string)
    ensures IsHeading(trimmedLine) ==> !IsBulletLine(trimmedLine)
  {
    if IsHeading(trimmedLine) {
      var i :| 0 <= i < |HeadingKeywords| && StartsWith(trimmedLine, HeadingKeywords[i]);
      assert trimmedLine[0] == HeadingKeywords[i][0];
      assert trimmedLine[0] in "OKRST" by {
        assert i == 0 || i == 1 || i == 2 || i == 3 || i == 4 || i == 5 || i == 6 || i == 7;
      }
      assert MisencodedBullet[0] == '\U{e2}';
    }
  }

  /** Prepending a line to the description prepends its element, if the
      line is not blank, and leaves the rest alone. */
  lemma ParsedDescriptionCons(line: string, rest: string)
    requires '\n' !in line
    ensures ParsedDescription(line + "\n" + rest) ==
              (if Trim(line) != [] then [ElementOf(line)] else []) + ParsedDescription(rest)
  {
    var s := line + "\n" + rest;
    SplitCons(line, rest, '\n');
    NonBlankAppend([line], Split(rest, '\n'));
    NonBlankSingle(line);
    var head := if Trim(line) != [] then [line] else [];
    assert VisibleLines(s) == head + VisibleLines(rest);
    ElementsAppend(head, VisibleLines(rest));
    assert Elements(head) == if Trim(line) != [] then [ElementOf(line)] else [];
  }

  // ---------------------------------------------------------------------
  // The card summary (lines 87-91)

  const SummaryLength := 150

  /** The bullets when there are any, otherwise the first 150 characters of
      the description, with "..." when something was cut. */
  function DisplaySummary(p: Project): (r: seq<string>)
    ensures r != []
  {
    if HasSummaryBullets(p) then p.summaryBullets.value
    else [Prefix(p.description, SummaryLength) + (if |p.description| > SummaryLength then "..." else "")]
  }

  /** The "Key Highlights:" heading is shown exactly when there are bullets. */
  predicate ShowsKeyHighlights(p: Project) {
    HasSummaryBullets(p)
  }

  /** With bullets the card lists them all; without, it shows one line: the
      whole description when it is short, otherwise its first 150
      characters followed by "...". */
  lemma SummaryChoice(p: Project)
    ensures ShowsKeyHighlights(p) ==> DisplaySummary(p) == p.summaryBullets.value && |DisplaySummary(p)| > 0
    ensures !ShowsKeyHighlights(p) ==> |DisplaySummary(p)| == 1
    ensures !ShowsKeyHighlights(p) && |p.description| <= SummaryLength ==> DisplaySummary(p)[0] == p.description
    ensures !ShowsKeyHighlights(p) && |p.description| > SummaryLength ==>
              var s := DisplaySummary(p)[0];
              |s| == SummaryLength + 3 && StartsWith(p.description, s[..SummaryLength]) && s[SummaryLength..] == "..."
  {
    if !ShowsKeyHighlights(p) && |p.description| > SummaryLength {
      var s := DisplaySummary(p)[0];
      assert s == p.description[..SummaryLength] + "...";
      assert s[..SummaryLength] == p.description[..SummaryLength];
    }
  }
}
