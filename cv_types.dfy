/**
 * The CV record (src/lib/types.ts). It is read-only everywhere in the
 * system: every operation below takes it as an input.
 */
module CvTypes {
  import opened Wrappers

  datatype ContactInfo = ContactInfo(
    phone: string,
    email: string,
    website: string,
    linkedin: string,
    address: string,
    github: string)

  /** One experience or education entry. */
  datatype TimelineEvent = TimelineEvent(
    id: string,
    title: string,
    subtitle: string,
    location: Option<string>,
    date: string,
    description: seq<string>)

  datatype Skill = Skill(id: string, name: string, category: string)

  datatype Project = Project(
    id: string,
    name: string,
    description: string,
    summaryBullets: Option<seq<string>>,
    technologies: seq<string>,
    githubUrl: Option<string>,
    youtubeUrl: Option<string>,
    liveUrl: Option<string>)

  datatype LanguageSkill = LanguageSkill(
    id: string,
    name: string,
    listening: Option<string>,
    reading: Option<string>,
    spokenProduction: Option<string>,
    spokenInteraction: Option<string>,
    writing: Option<string>,
    motherTongue: Option<bool>)

  datatype CvData = CvData(
    name: string,
    title: string,
    contact: ContactInfo,
    summary: string,
    experience: seq<TimelineEvent>,
    education: seq<TimelineEvent>,
    skills: seq<Skill>,
    projects: seq<Project>,
    languageSkills: seq<LanguageSkill>,
    profilePhotoUrl: Option<string>)

  /** The page a question is asked from. */
  datatype ContextType = CvPage | ProjectsPage | ContactPage | General {
    /** The name the prompt prints for the context. */
    function Name(): (r: string)
      ensures r != []
    {
      match this
      case CvPage => "cvPage"
      case ProjectsPage => "projectsPage"
      case ContactPage => "contactPage"
      case General => "general"
    }
  }

  /** A project has summary bullets when the optional list is present and
      non-empty (the `summaryBullets && summaryBullets.length > 0` test). */
  predicate HasSummaryBullets(p: Project) {
    p.summaryBullets.Some? && |p.summaryBullets.value| > 0
  }

  /** `motherTongue` is optional; only an explicit `true` marks a native
      language. */
  predicate IsNative(l: LanguageSkill) {
    l.motherTongue == Some(true)
  }
}
