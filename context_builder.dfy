/**
 * The context-scoped slice of the CV that the chat assistant puts into its
 * prompt (`getCvContextString` in src/ai/flows/ask-cv-agent-flow.ts). The
 * page the question comes from decides which parts of the CV appear and how
 * hard they are cut, so that the encoded prompt stays short.
 */
module CvContext {
  import opened Wrappers
  import opened Strings
  import opened CvTypes

  // ---------------------------------------------------------------------
  // Truncation rules

  /** `s.substring(0, n) + (s.length > n ? '...' : '')`: short text is kept
      whole; longer text keeps its first `n` characters and gains an
      ellipsis. */
  function Truncate(s: string, n: nat): (r: string)
    ensures |s| <= n ==> r == s
    ensures |s| > n ==> |r| == n + 3 && StartsWith(s, r[..n]) && r[n..] == "..."
  {
    Prefix(s, n) + (if |s| > n then "..." else "")
  }

  /** `items.slice(0, k).join(', ') + (items.length > k ? ', etc.' : '')`. */
  function ListUpTo(items: seq<string>, k: nat): (r: string)
    ensures |items| <= k ==> r == Join(items, ", ")
    ensures |items| > k ==> r == Join(items[..k], ", ") + ", etc."
  {
    var shown := if |items| <= k then items else items[..k];
    Join(shown, ", ") + (if |items| > k then ", etc." else "")
  }

  /** The one-line highlight of a project: its first summary bullet when it
      has bullets, its description otherwise, cut to `n` characters. It is
      never longer than `n` plus the three dots, and it is the chosen text
      itself when that fits. */
  function KeyPoint(p: Project, n: nat): (r: string)
    ensures |r| <= n + 3
    ensures var src := if HasSummaryBullets(p) then p.summaryBullets.value[0] else p.description;
            && (|src| <= n ==> r == src)
            && (|src| > n ==> |r| == n + 3 && StartsWith(src, r[..n]) && r[n..] == "...")
  {
    if HasSummaryBullets(p) then Truncate(p.summaryBullets.value[0], n)
    else Truncate(p.description, n)
  }

  // ---------------------------------------------------------------------
  // Skills grouped by category (the `reduce` into `categorizedSkills`)

  /** The categories of `skills`, each once, in order of first appearance. */
  function Categories(skills: seq<Skill>): (cats: seq<string>)
    ensures forall i, j | 0 <= i < j < |cats| :: cats[i] != cats[j]
    ensures forall k | 0 <= k < |skills| :: skills[k].category in cats
  {
    if skills == [] then []
    else
      var init := skills[..|skills| - 1];
      var cats := Categories(init);
      var c := skills[|skills| - 1].category;
      assert forall k | 0 <= k < |init| :: skills[k] == init[k];
      if c in cats then cats else cats + [c]
  }

  /** The names of the skills in category `c`, in their original order. */
  function NamesIn(skills: seq<Skill>, c: string): (names: seq<string>)
  {
    if skills == [] then []
    else
      var last := skills[|skills| - 1];
      NamesIn(skills[..|skills| - 1], c) + (if last.category == c then [last.name] else [])
  }

  /** The index of the first skill in category `c`, or the number of
      skills when there is none. */
  function FirstSeen(skills: seq<Skill>, c: string): (k: nat)
    ensures k <= |skills|
    ensures k < |skills| ==> skills[k].category == c
    ensures forall j | 0 <= j < k :: skills[j].category != c
  {
    if skills == [] || skills[0].category == c then 0
    else
      var k := 1 + FirstSeen(skills[1..], c);
      assert forall j | 1 <= j < k :: skills[j] == skills[1..][j - 1];
      k
  }

  /** Every listed category is the category of some skill. */
  lemma {:induction false} CategoriesSeen(skills: seq<Skill>)
    ensures forall c | c in Categories(skills) :: FirstSeen(skills, c) < |skills|
    decreases |skills|
  {
    if skills != [] {
      var init := skills[..|skills| - 1];
      var last := skills[|skills| - 1].category;
      CategoriesSeen(init);
      assert init == skills[..|init|];
      forall c | c in Categories(skills) ensures FirstSeen(skills, c) < |skills| {
        if c in Categories(init) {
          FirstSeenPrefix(skills, init, c);
        } else {
          assert skills[|skills| - 1].category == c;
        }
      }
    }
  }

  /** Categories are listed in the order in which they first appear. */
  lemma {:induction false} CategoriesInFirstAppearanceOrder(skills: seq<Skill>, i: nat, j: nat)
    requires i < j < |Categories(skills)|
    ensures FirstSeen(skills, Categories(skills)[i]) < FirstSeen(skills, Categories(skills)[j]) < |skills|
    decreases |skills|
  {
    var init := skills[..|skills| - 1];
    var last := skills[|skills| - 1].category;
    var pre := Categories(init);
    var cats := Categories(skills);
    assert cats == if last in pre then pre else pre + [last];
    assert init == skills[..|init|];
    assert cats[i] == pre[i];
    CategoriesSeen(init);
    FirstSeenPrefix(skills, init, pre[i]);
    if j < |pre| {
      assert cats[j] == pre[j];
      CategoriesInFirstAppearanceOrder(init, i, j);
      FirstSeenPrefix(skills, init, pre[j]);
    } else {
      FirstSeenOfNewCategory(skills);
    }
  }

  /** A category that none of the earlier skills has is first seen at the
      last skill. */
  lemma FirstSeenOfNewCategory(skills: seq<Skill>)
    requires skills != []
    requires skills[|skills| - 1].category !in Categories(skills[..|skills| - 1])
    ensures FirstSeen(skills, skills[|skills| - 1].category) == |skills| - 1
  {
    var init := skills[..|skills| - 1];
    var last := skills[|skills| - 1].category;
    assert skills[|skills| - 1].category == last;
    forall j | 0 <= j < |init|
      ensures skills[j].category != last
    {
      assert skills[j] == init[j];
      assert init[j].category in Categories(init);
    }
    var k := FirstSeen(skills, last);
    assert !(k < |init|);
  }

  /** Appending skills does not move the first skill of a category that
      already occurs. */
  lemma FirstSeenPrefix(skills: seq<Skill>, init: seq<Skill>, c: string)
    requires |init| <= |skills| && init == skills[..|init|]
    requires FirstSeen(init, c) < |init|
    ensures FirstSeen(skills, c) == FirstSeen(init, c)
  {
    var k := FirstSeen(init, c);
    assert skills[k] == init[k];
    forall j | 0 <= j < k ensures skills[j].category != c {
      assert skills[j] == init[j];
    }
    var m := FirstSeen(skills, c);
    assert !(m > k);
  }

  /** The total number of names over the given categories. */
  function GroupedCount(skills: seq<Skill>, cats: seq<string>): nat
  {
    if cats == [] then 0 else |NamesIn(skills, cats[0])| + GroupedCount(skills, cats[1..])
  }

  lemma NamesInOtherCategory(skills: seq<Skill>, c: string)
    requires c !in Categories(skills)
    ensures NamesIn(skills, c) == []
  {
    if skills != [] {
      NamesInOtherCategory(skills[..|skills| - 1], c);
    }
  }

  lemma {:induction false} GroupedCountAppend(skills: seq<Skill>, s: Skill, cats: seq<string>)
    ensures GroupedCount(skills + [s], cats)
         == GroupedCount(skills, cats) + (if s.category in cats then Occurrences(cats, s.category) else 0)
    decreases |cats|
  {
    var all := skills + [s];
    assert all[..|all| - 1] == skills;
    if cats != [] {
      GroupedCountAppend(skills, s, cats[1..]);
      assert s.category in cats[1..] || s.category == cats[0] ==> s.category in cats;
      if s.category !in cats[1..] {
        assert Occurrences(cats[1..], s.category) == 0 by { OccurrencesAbsent(cats[1..], s.category); }
      }
    }
  }

  function Occurrences(cats: seq<string>, c: string): nat
  {
    if cats == [] then 0 else (if cats[0] == c then 1 else 0) + Occurrences(cats[1..], c)
  }

  lemma OccurrencesAbsent(cats: seq<string>, c: string)
    requires c !in cats
    ensures Occurrences(cats, c) == 0
  {
    if cats != [] {
      OccurrencesAbsent(cats[1..], c);
    }
  }

  lemma {:induction false} OccurrencesDistinct(cats: seq<string>, c: string)
    requires forall i, j | 0 <= i < j < |cats| :: cats[i] != cats[j]
    requires c in cats
    ensures Occurrences(cats, c) == 1
    decreases |cats|
  {
    if cats[0] == c {
      assert c !in cats[1..] by {
        forall k | 0 <= k < |cats[1..]| ensures cats[1..][k] != c {
          assert cats[1..][k] == cats[k + 1];
        }
      }
      OccurrencesAbsent(cats[1..], c);
    } else {
      OccurrencesDistinct(cats[1..], c);
    }
  }

  lemma {:induction false} GroupedCountSnoc(skills: seq<Skill>, cats: seq<string>, c: string)
    ensures GroupedCount(skills, cats + [c]) == GroupedCount(skills, cats) + |NamesIn(skills, c)|
    decreases |cats|
  {
    if cats == [] {
      assert GroupedCount(skills, [c]) == |NamesIn(skills, c)| + GroupedCount(skills, []);
    } else {
      assert (cats + [c])[1..] == cats[1..] + [c];
      GroupedCountSnoc(skills, cats[1..], c);
    }
  }

  /** Grouping loses no skill and invents none: the groups together hold
      exactly as many names as there are skills. */
  lemma {:induction false} GroupingIsPartition(skills: seq<Skill>)
    ensures GroupedCount(skills, Categories(skills)) == |skills|
    decreases |skills|
  {
    if skills != [] {
      var init := skills[..|skills| - 1];
      var s := skills[|skills| - 1];
      assert skills == init + [s];
      GroupingIsPartition(init);
      var cats := Categories(init);
      GroupedCountAppend(init, s, cats);
      if s.category in cats {
        OccurrencesDistinct(cats, s.category);
      } else {
        GroupedCountSnoc(skills, cats, s.category);
        NamesInOtherCategory(init, s.category);
        assert NamesIn(skills, s.category) == [s.name];
      }
    }
  }

  /** The `reduce` at lines 44-48 and 92-96: walks the skills once, creating
      a group the first time a category is seen and appending each name to
      its group. `order` is the insertion order of the keys, which
      `Object.entries` reports. */
  method GroupSkills(skills: seq<Skill>) returns (order: seq<string>, groups: map<string, seq<string>>)
    ensures order == Categories(skills)
    ensures forall c :: c in groups <==> c in order
    ensures forall c | c in order :: groups[c] == NamesIn(skills, c)
  {
    order, groups := [], map[];
    for i := 0 to |skills|
      invariant order == Categories(skills[..i])
      invariant forall c :: c in groups <==> c in order
      invariant forall c | c in order :: groups[c] == NamesIn(skills[..i], c)
    {
      var skill := skills[i];
      assert skills[..i + 1][..i] == skills[..i];
      if skill.category !in groups {
        NamesInOtherCategory(skills[..i], skill.category);
        groups := groups[skill.category := []];
        order := order + [skill.category];
      }
      groups := groups[skill.category := groups[skill.category] + [skill.name]];
    }
    assert skills[..|skills|] == skills;
  }

  // ---------------------------------------------------------------------
  // Formatting of the entries

  function FullEntryLine(e: TimelineEvent): string {
    "- " + e.title + ", " + e.subtitle + " (" + e.date + ")."
  }

  function BriefEntryLine(e: TimelineEvent): string {
    "- " + e.title + " (" + e.date + ")."
  }

  /** `lang.listening || 'Competent'` */
  function ListeningOrCompetent(l: LanguageSkill): string {
    if l.listening.Some? && l.listening.value != [] then l.listening.value else "Competent"
  }

  function CvLanguageLine(l: LanguageSkill): string {
    "  - " + l.name + (if IsNative(l) then " (Native)" else " (Proficiency: " + ListeningOrCompetent(l) + ")")
  }

  function GeneralLanguageLine(l: LanguageSkill): string {
    "  - " + l.name + (if IsNative(l) then " (Native)" else "")
  }

  function ProjectsPageLine(p: Project): string {
    "- Project: " + p.name + " - Highlights: " + KeyPoint(p, 70) + ". Tech: " + ListUpTo(p.technologies, 2)
  }

  function GeneralProjectLine(p: Project): string {
    "- Project: " + p.name + " - Key Point: " + KeyPoint(p, 50)
  }

  function SkillGroupLine(c: string, names: seq<string>, k: nat): string {
    "  - " + c + ": " + ListUpTo(names, k)
  }

  /** One line per category, listing at most `k` of its names. */
  function SkillLines(skills: seq<Skill>, k: nat): seq<string> {
    var cats := Categories(skills);
    seq(|cats|, i requires 0 <= i < |cats| => SkillGroupLine(cats[i], NamesIn(skills, cats[i]), k))
  }

  function EntryLines(es: seq<TimelineEvent>, full: bool): seq<string> {
    seq(|es|, i requires 0 <= i < |es| => if full then FullEntryLine(es[i]) else BriefEntryLine(es[i]))
  }

  function LanguageLines(ls: seq<LanguageSkill>, cv: bool): seq<string> {
    seq(|ls|, i requires 0 <= i < |ls| => if cv then CvLanguageLine(ls[i]) else GeneralLanguageLine(ls[i]))
  }

  function ProjectLines(ps: seq<Project>, projectsPage: bool): seq<string> {
    seq(|ps|, i requires 0 <= i < |ps| => if projectsPage then ProjectsPageLine(ps[i]) else GeneralProjectLine(ps[i]))
  }

  function ContactOverview(c: ContactInfo): string {
    "Email: " + c.email + ", LinkedIn: " + c.linkedin
  }

  function ContactDetails(c: ContactInfo): string {
    "Email: " + c.email + "\nPhone: " + c.phone + "\nLinkedIn: " + c.linkedin
    + "\nGitHub: " + c.github + "\nAddress: " + c.address + "\nWebsite: " + c.website
  }

  const NameHead := "Name: "
  const TitleHead := "Title: "
  const SummaryHead := "Summary: "
  const BriefSummaryHead := "Brief Summary: "
  const ExperienceHead := "Experience:\n"
  const EducationHead := "Education:\n"
  const SkillsHead := "Skills:\n"
  const LanguagesHead := "Language Skills:\n"
  const ProjectsHead := "Projects:\n"
  const ContactHead := "Contact Information:\n"
  const OverviewHead := "Contact (Overview): "
  const NoteHead := "\nNote: "

  const CvPageNote := "This CV summary focuses on experience, education, and skills. For project details or full contact information, please navigate to the 'Projects' or 'Contact Me' pages and use the AI assistant there."
  const ProjectsPageNote := "This page focuses on project summaries. For detailed work history, education, or general skills, please navigate to the main 'CV' page and use the AI assistant there."
  const ContactPageNote := "This page focuses on contact information. For work experience, project details, or skills, please navigate to the 'CV' or 'Projects' pages and use the AI assistant there."
  // ---------------------------------------------------------------------
  // The context block

  /** The lines after the name and title on the CV page. */
  function CvPageSections(kb: CvData): seq<string> {
    [ SummaryHead + Truncate(kb.summary, 100),
      ExperienceHead + Join(EntryLines(kb.experience, true), "\n"),
      EducationHead + Join(EntryLines(kb.education, true), "\n"),
      SkillsHead + Join(SkillLines(kb.skills, 3), "\n"),
      LanguagesHead + Join(LanguageLines(kb.languageSkills, true), "\n"),
      NoteHead + CvPageNote ]
  }

  /** The lines after the name and title on the projects page. */
  function ProjectsPageSections(kb: CvData): seq<string> {
    [ BriefSummaryHead + Truncate(kb.summary, 80),
      ProjectsHead + Join(ProjectLines(kb.projects, true), "\n"),
      NoteHead + ProjectsPageNote ]
  }

  /** The lines after the name and title on the contact page. */
  function ContactPageSections(kb: CvData): seq<string> {
    [ BriefSummaryHead + Truncate(kb.summary, 80),
      ContactHead + ContactDetails(kb.contact),
      NoteHead + ContactPageNote ]
  }

  /** The lines after the name and title in the general context. */
  function GeneralSections(kb: CvData): seq<string> {
    [ SummaryHead + Truncate(kb.summary, 80),
      OverviewHead + ContactOverview(kb.contact),
      ExperienceHead + Join(EntryLines(kb.experience, false), "\n"),
      EducationHead + Join(EntryLines(kb.education, false), "\n"),
      SkillsHead + Join(SkillLines(kb.skills, 2), "\n"),
      ProjectsHead + Join(ProjectLines(kb.projects, false), "\n"),
      LanguagesHead + Join(LanguageLines(kb.languageSkills, false), "\n") ]
  }

  /** The lines of the context block, in the order they are pushed. */
  function ContextLines(kb: CvData, ctx: ContextType): seq<string> {
    [NameHead + kb.name, TitleHead + kb.title] +
      match ctx
      case CvPage => CvPageSections(kb)
      case ProjectsPage => ProjectsPageSections(kb)
      case ContactPage => ContactPageSections(kb)
      case General => GeneralSections(kb)
  }

  /** The context block: the lines separated by blank lines. */
  function CvContextString(kb: CvData, ctx: ContextType): string {
    Join(ContextLines(kb, ctx), "\n\n")
  }

  /** The parameter default of `getCvContextString`. */
  function ContextOrDefault(contextType: Option<ContextType>): (ctx: ContextType)
    ensures contextType.None? ==> ctx == General
    ensures contextType.Some? ==> ctx == contextType.value
  {
    if contextType.Some? then contextType.value else General
  }

  /** `getCvContextString` as the source writes it: lines pushed one by one
      onto `contextLines`, the skills grouped by the loop in `GroupSkills`,
      and the lines joined by blank lines at the end. */
  method GetCvContextString(kb: CvData, contextType: Option<ContextType>) returns (text: string)
    ensures text == CvContextString(kb, ContextOrDefault(contextType))
  {
    var ctx := ContextOrDefault(contextType);
    var contextLines: seq<string> := [];
    contextLines := contextLines + [NameHead + kb.name];
    contextLines := contextLines + [TitleHead + kb.title];
    match ctx {
    case CvPage => contextLines := PushCvPageSections(kb, contextLines);
    case ProjectsPage => contextLines := PushProjectsPageSections(kb, contextLines);
    case ContactPage => contextLines := PushContactPageSections(kb, contextLines);
    case General => contextLines := PushGeneralSections(kb, contextLines);
    }
    assert contextLines == ContextLines(kb, ctx);
    text := Join(contextLines, "\n\n");
  }

  /** The pushes of the CV page branch. */
  method PushCvPageSections(kb: CvData, lines: seq<string>) returns (contextLines: seq<string>)
    ensures contextLines == lines + CvPageSections(kb)
  {
    contextLines := lines;
    contextLines := contextLines + [SummaryHead + Truncate(kb.summary, 100)];
    contextLines := contextLines + [ExperienceHead + Join(EntryLines(kb.experience, true), "\n")];
    contextLines := contextLines + [EducationHead + Join(EntryLines(kb.education, true), "\n")];
    var skillLines := FormatGroups(kb.skills, 3);
    contextLines := contextLines + [SkillsHead + Join(skillLines, "\n")];
    contextLines := contextLines + [LanguagesHead + Join(LanguageLines(kb.languageSkills, true), "\n")];
    contextLines := contextLines + [NoteHead + CvPageNote];
  }

  /** The pushes of the projects page branch. */
  method PushProjectsPageSections(kb: CvData, lines: seq<string>) returns (contextLines: seq<string>)
    ensures contextLines == lines + ProjectsPageSections(kb)
  {
    contextLines := lines;
    contextLines := contextLines + [BriefSummaryHead + Truncate(kb.summary, 80)];
    contextLines := contextLines + [ProjectsHead + Join(ProjectLines(kb.projects, true), "\n")];
    contextLines := contextLines + [NoteHead + ProjectsPageNote];
  }

  /** The pushes of the contact page branch. */
  method PushContactPageSections(kb: CvData, lines: seq<string>) returns (contextLines: seq<string>)
    ensures contextLines == lines + ContactPageSections(kb)
  {
    contextLines := lines;
    contextLines := contextLines + [BriefSummaryHead + Truncate(kb.summary, 80)];
    contextLines := contextLines + [ContactHead + ContactDetails(kb.contact)];
    contextLines := contextLines + [NoteHead + ContactPageNote];
  }

  /** The pushes of the general branch. */
  method PushGeneralSections(kb: CvData, lines: seq<string>) returns (contextLines: seq<string>)
    ensures contextLines == lines + GeneralSections(kb)
  {
    contextLines := lines;
    contextLines := contextLines + [SummaryHead + Truncate(kb.summary, 80)];
    contextLines := contextLines + [OverviewHead + ContactOverview(kb.contact)];
    contextLines := contextLines + [ExperienceHead + Join(EntryLines(kb.experience, false), "\n")];
    contextLines := contextLines + [EducationHead + Join(EntryLines(kb.education, false), "\n")];
    var skillLines := FormatGroups(kb.skills, 2);
    contextLines := contextLines + [SkillsHead + Join(skillLines, "\n")];
    contextLines := contextLines + [ProjectsHead + Join(ProjectLines(kb.projects, false), "\n")];
    contextLines := contextLines + [LanguagesHead + Join(LanguageLines(kb.languageSkills, false), "\n")];
  }

  /** Groups the skills with the loop and formats one line per entry of the
      resulting dictionary, in key order. */
  method FormatGroups(skills: seq<Skill>, k: nat) returns (lines: seq<string>)
    ensures lines == SkillLines(skills, k)
  {
    var order, groups := GroupSkills(skills);
    lines := seq(|order|, i requires 0 <= i < |order| => SkillGroupLine(order[i], groups[order[i]], k));
  }

  // ---------------------------------------------------------------------
  // What the context block contains

  /** The fixed start of each line, per context: the sections a context
      shows, and so the ones it leaves out. */
  function SectionHeads(ctx: ContextType): seq<string> {
    match ctx
    case CvPage =>
      [NameHead, TitleHead, SummaryHead, ExperienceHead, EducationHead, SkillsHead, LanguagesHead, NoteHead]
    case ProjectsPage =>
      [NameHead, TitleHead, BriefSummaryHead, ProjectsHead, NoteHead]
    case ContactPage =>
      [NameHead, TitleHead, BriefSummaryHead, ContactHead, NoteHead]
    case General =>
      [NameHead, TitleHead, SummaryHead, OverviewHead, ExperienceHead, EducationHead,
       SkillsHead, ProjectsHead, LanguagesHead]
  }

  lemma StartsWithAppend(h: string, x: string)
    ensures StartsWith(h + x, h)
  {
    assert (h + x)[..|h|] == h;
  }

  /** What follows each heading, per context. */
  function SectionBodies(kb: CvData, ctx: ContextType): (r: seq<string>)
    ensures |r| == |SectionHeads(ctx)|
  {
    match ctx
    case CvPage =>
      [kb.name, kb.title, Truncate(kb.summary, 100), Join(EntryLines(kb.experience, true), "\n"),
       Join(EntryLines(kb.education, true), "\n"), Join(SkillLines(kb.skills, 3), "\n"),
       Join(LanguageLines(kb.languageSkills, true), "\n"), CvPageNote]
    case ProjectsPage =>
      [kb.name, kb.title, Truncate(kb.summary, 80), Join(ProjectLines(kb.projects, true), "\n"), ProjectsPageNote]
    case ContactPage =>
      [kb.name, kb.title, Truncate(kb.summary, 80), ContactDetails(kb.contact), ContactPageNote]
    case General =>
      [kb.name, kb.title, Truncate(kb.summary, 80),
       ContactOverview(kb.contact),
       Join(EntryLines(kb.experience, false), "\n"), Join(EntryLines(kb.education, false), "\n"),
       Join(SkillLines(kb.skills, 2), "\n"), Join(ProjectLines(kb.projects, false), "\n"),
       Join(LanguageLines(kb.languageSkills, false), "\n")]
  }

  /** One line of the block is its section's heading followed by the
      section's text. */
  lemma SectionLine(kb: CvData, ctx: ContextType, i: nat)
    requires i < |SectionHeads(ctx)|
    ensures i < |ContextLines(kb, ctx)|
    ensures ContextLines(kb, ctx)[i] == SectionHeads(ctx)[i] + SectionBodies(kb, ctx)[i]
  {
    match ctx {
      case CvPage => CvPageSectionLine(kb, i);
      case ProjectsPage => ProjectsPageSectionLine(kb, i);
      case ContactPage => ContactPageSectionLine(kb, i);
      case General => GeneralSectionLine(kb, i);
    }
  }

  lemma CvPageSectionLine(kb: CvData, i: nat)
    requires i < 8
    ensures |ContextLines(kb, CvPage)| == 8
    ensures ContextLines(kb, CvPage)[i] == SectionHeads(CvPage)[i] + SectionBodies(kb, CvPage)[i]
  {
    assert i == 0 || i == 1 || i == 2 || i == 3 || i == 4 || i == 5 || i == 6 || i == 7;
  }

  lemma ProjectsPageSectionLine(kb: CvData, i: nat)
    requires i < 5
    ensures |ContextLines(kb, ProjectsPage)| == 5
    ensures ContextLines(kb, ProjectsPage)[i] == SectionHeads(ProjectsPage)[i] + SectionBodies(kb, ProjectsPage)[i]
  {
    assert i == 0 || i == 1 || i == 2 || i == 3 || i == 4;
  }

  lemma ContactPageSectionLine(kb: CvData, i: nat)
    requires i < 5
    ensures |ContextLines(kb, ContactPage)| == 5
    ensures ContextLines(kb, ContactPage)[i] == SectionHeads(ContactPage)[i] + SectionBodies(kb, ContactPage)[i]
  {
    assert i == 0 || i == 1 || i == 2 || i == 3 || i == 4;
  }

  lemma GeneralSectionLine(kb: CvData, i: nat)
    requires i < 9
    ensures |ContextLines(kb, General)| == 9
    ensures ContextLines(kb, General)[i] == SectionHeads(General)[i] + SectionBodies(kb, General)[i]
  {
    assert i == 0 || i == 1 || i == 2 || i == 3 || i == 4 || i == 5 || i == 6 || i == 7 || i == 8;
  }

  /** Each line of the context block starts with its section's heading, and
      the block has exactly the sections listed for its context. */
  lemma ContextSections(kb: CvData, ctx: ContextType)
    ensures |ContextLines(kb, ctx)| == |SectionHeads(ctx)|
    ensures forall i | 0 <= i < |SectionHeads(ctx)| :: StartsWith(ContextLines(kb, ctx)[i], SectionHeads(ctx)[i])
  {
    var heads := SectionHeads(ctx);
    forall i | 0 <= i < |heads| ensures StartsWith(ContextLines(kb, ctx)[i], heads[i]) {
      SectionLine(kb, ctx, i);
      StartsWithAppend(heads[i], SectionBodies(kb, ctx)[i]);
    }
  }

  /** Every context pushes the name and then the title first. */
  lemma ContextOpensWithNameAndTitle(kb: CvData, ctx: ContextType)
    ensures var lines := ContextLines(kb, ctx);
            |lines| > 2 && lines[0] == NameHead + kb.name && lines[1] == TitleHead + kb.title
  {
  }

  /** A join of three or more lines opens with the first two, each followed
      by the separator. */
  lemma JoinOpensWithTwo(lines: seq<string>, sep: string)
    requires |lines| > 2
    ensures StartsWith(Join(lines, sep), (lines[0] + sep) + (lines[1] + sep))
  {
    var rest := lines[2..];
    assert lines == [lines[0]] + ([lines[1]] + rest);
    JoinCons(lines[0], [lines[1]] + rest, sep);
    JoinCons(lines[1], rest, sep);
    StartsWithConcat(lines[0] + sep, lines[1] + sep, Join(rest, sep));
  }

  /** The block always opens with the name and then the title, each on its
      own line and followed by a blank line. */
  lemma ContextStartsWithNameAndTitle(kb: CvData, ctx: ContextType)
    ensures StartsWith(CvContextString(kb, ctx), ("Name: " + kb.name + "\n\n") + ("Title: " + kb.title + "\n\n"))
  {
    ContextOpensWithNameAndTitle(kb, ctx);
    JoinOpensWithTwo(ContextLines(kb, ctx), "\n\n");
  }

  lemma StartsWithConcat(a: string, b: string, c: string)
    ensures StartsWith(a + (b + c), a + b)
  {
    assert a + (b + c) == (a + b) + c;
    StartsWithAppend(a + b, c);
  }

  /** The CV page's block depends only on the name, title, summary,
      experience, education, skills and languages: projects and contact
      details never reach it. */
  lemma CvPageOmitsProjectsAndContact(kb: CvData, projects: seq<Project>, contact: ContactInfo)
    ensures ContextLines(kb.(projects := projects, contact := contact), CvPage) == ContextLines(kb, CvPage)
  {
  }

  /** The projects page's block depends only on the name, title, summary
      and projects. */
  lemma ProjectsPageOmitsCvSections(kb: CvData, other: CvData)
    requires other.name == kb.name && other.title == kb.title && other.summary == kb.summary
    requires other.projects == kb.projects
    ensures ContextLines(other, ProjectsPage) == ContextLines(kb, ProjectsPage)
  {
  }

  /** The contact page's block depends only on the name, title, summary and
      contact details. */
  lemma ContactPageOmitsCvSections(kb: CvData, other: CvData)
    requires other.name == kb.name && other.title == kb.title && other.summary == kb.summary
    requires other.contact == kb.contact
    ensures ContextLines(other, ContactPage) == ContextLines(kb, ContactPage)
  {
  }

  /** The general block shows only the email and LinkedIn of the contact
      details, and only titles and dates of experience and education. */
  lemma GeneralShowsOverviewOnly(kb: CvData, contact: ContactInfo, i: nat, subtitle: string, location: Option<string>)
    requires contact.email == kb.contact.email && contact.linkedin == kb.contact.linkedin
    requires i < |kb.experience|
    ensures var e := kb.experience[i].(subtitle := subtitle, location := location);
            ContextLines(kb.(contact := contact, experience := kb.experience[i := e]), General) == ContextLines(kb, General)
  {
    var e := kb.experience[i].(subtitle := subtitle, location := location);
    assert EntryLines(kb.experience[i := e], false) == EntryLines(kb.experience, false);
  }

  /** Native languages are tagged " (Native)" in both contexts that list
      languages; a proficiency note, from `listening` or else "Competent",
      appears only on the CV page. */
  lemma LanguageTags(l: LanguageSkill)
    ensures IsNative(l) ==> CvLanguageLine(l) == GeneralLanguageLine(l) == "  - " + l.name + " (Native)"
    ensures !IsNative(l) ==> GeneralLanguageLine(l) == "  - " + l.name
    ensures !IsNative(l) && l.listening.Some? && l.listening.value != [] ==>
              CvLanguageLine(l) == "  - " + l.name + " (Proficiency: " + l.listening.value + ")"
    ensures !IsNative(l) && (l.listening.None? || l.listening.value == []) ==>
              CvLanguageLine(l) == "  - " + l.name + " (Proficiency: Competent)"
  {
  }
}
