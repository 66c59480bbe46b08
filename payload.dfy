/**
 * The profile bundle the home page fetches, and the normalization the page
 * applies to it before rendering (src/Pages/HomePage.js:80-176): a non-ok
 * response or a payload without `profile_data` is a failure; otherwise the
 * title and bio are rewritten by fixed rules and every empty or missing list
 * except the certificates is replaced by a fixed placeholder list.
 *
 * JSON fields that may be absent or null are `Option`s. A string field that is
 * present but empty is `Some("")`, which JavaScript treats as falsy.
 */
module Payload {
  import opened Wrappers
  import opened Text

  datatype Profile = Profile(
    name: Option<string>,
    title: Option<string>,
    bio: Option<string>,
    github: Option<string>,
    linkedin: Option<string>,
    phone: Option<string>,
    resume: Option<string>,
    profile_image: Option<string>)

  datatype Skill = Skill(id: int, name: string, level: Option<string>)

  datatype Language = Language(id: int, name: string, progress: int, color: string)

  datatype Project = Project(
    id: int,
    title: string,
    description: Option<string>,
    technologies: string,
    image: string,
    project_url: Option<string>,
    github_url: Option<string>)

  /** An experience entry. The roadmap looks a start date up under three
      keys, an end date under three more, and a collaborator name under
      three, so all of them are kept. */
  datatype Experience = Experience(
    id: int,
    position: Option<string>,
    company_name: Option<string>,
    company: Option<string>,
    institution: Option<string>,
    start_date: Option<string>,
    startDate: Option<string>,
    start_year: Option<string>,
    end_date: Option<string>,
    endDate: Option<string>,
    end_year: Option<string>)

  datatype Education = Education(
    id: int,
    institution: string,
    degree: string,
    field_of_study: string,
    start_year: string,
    end_year: Option<string>)

  datatype Certificate = Certificate(name: string, organization: string, year: string, image: string)

  /** The decoded JSON body as the server sent it. */
  datatype RawPayload = RawPayload(
    profile_data: Option<Profile>,
    skills_data: Option<seq<Skill>>,
    language_data: Option<seq<Language>>,
    projects_data: Option<seq<Project>>,
    experience_data: Option<seq<Experience>>,
    education_data: Option<seq<Education>>,
    certificates_data: Option<seq<Certificate>>)

  /** The HTTP response: its `ok` flag, and the body decoded as JSON, which
      is `None` when decoding fails or yields a falsy value. */
  datatype Response = Response(ok: bool, body: Option<RawPayload>)

  /** The normalized bundle the page renders. */
  datatype Bundle = Bundle(
    profile_data: Profile,
    skills_data: seq<Skill>,
    language_data: seq<Language>,
    projects_data: seq<Project>,
    experience_data: seq<Experience>,
    education_data: seq<Education>,
    certificates_data: Option<seq<Certificate>>)

  datatype Outcome = Failed | Success(bundle: Bundle)

  // ------------------------------------------------------------ constants

  const SeniorTitle := "Senior Graphic Designer"
  const PlainTitle := "Graphic Designer"
  const SentinelBio := "Lorem impus"
  const DefaultBio := "Passionate graphic designer dedicated to creating impactful visual experiences. Specializing in branding, digital design, and illustration, I bring ideas to life through creative thinking and meticulous attention to detail."

  const DefaultSkills: seq<Skill> := [
    Skill(1, "Adobe Photoshop", Some("Expert")),
    Skill(2, "Adobe Illustrator", Some("Expert")),
    Skill(3, "Figma", Some("Advanced")),
    Skill(4, "Brand Identity", Some("Expert")),
    Skill(5, "Typography", Some("Advanced")),
    Skill(6, "UI/UX Design", Some("Intermediate"))
  ]

  const DefaultLanguages: seq<Language> := [
    Language(1, "Visual Design", 95, "#00ffa3"),
    Language(2, "Branding", 90, "#2563eb"),
    Language(3, "Illustration", 85, "#7c3aed")
  ]

  const DefaultProjects: seq<Project> := [
    Project(1, "EcoStore Branding",
      Some("Full brand identity for a sustainable products store, including logo design, color palette, and packaging."),
      "Illustrator, Photoshop", "", None, None),
    Project(2, "FitLife App Design",
      Some("Mobile application UI/UX design focused on fitness tracking and community engagement."),
      "Figma, Adobe XD", "", None, None)
  ]

  const DefaultExperience: seq<Experience> := [
    Experience(1, Some("Lead Designer"), Some("Creative Studio"), None, None,
      Some("2021-01-01"), None, None, None, None, None),
    Experience(2, Some("Graphic Designer"), Some("Design Agency"), None, None,
      Some("2019-06-01"), None, None, Some("2020-12-31"), None, None)
  ]

  const DefaultEducation: seq<Education> := [
    Education(1, "Design University", "Bachelor", "Graphic Design", "2015", Some("2019"))
  ]

  // ---------------------------------------------------------------- rules

  /** The lower-cased title mentions "developer" or "software". */
  predicate HasDeveloperKeyword(title: string) {
    Contains(ToLower(title), "developer") || Contains(ToLower(title), "software")
  }

  /** A pattern holding a character the text lacks does not occur in it. */
  lemma MissingCharNotContained(s: string, p: string, c: char)
    requires c in p && c !in s
    ensures !Contains(s, p)
  {
  }

  /** A string without 'v', 'V', 'w' and 'W' has no developer keyword:
      "developer" holds a 'v' and "software" a 'w'. */
  lemma {:induction false} NoKeywordWithoutVW(t: string)
    requires 'v' !in t && 'V' !in t && 'w' !in t && 'W' !in t
    ensures !HasDeveloperKeyword(t)
  {
    var l := ToLower(t);
    assert 'v' !in l && 'w' !in l by {
      forall i | 0 <= i < |l| ensures l[i] != 'v' && l[i] != 'w' {
        assert t[i] in t;
      }
    }
    MissingCharNotContained(l, "developer", 'v');
    MissingCharNotContained(l, "software", 'w');
  }

  /** The two designer titles survive the rule unchanged. */
  lemma DesignerTitlesHaveNoKeyword()
    ensures !HasDeveloperKeyword(SeniorTitle) && !HasDeveloperKeyword(PlainTitle)
  {
    assert 'v' !in PlainTitle && 'V' !in PlainTitle && 'w' !in PlainTitle && 'W' !in PlainTitle;
    NoKeywordWithoutVW(PlainTitle);
    SeniorTitleHasNoKeyword();
  }

  lemma SeniorTitleHasNoKeyword()
    ensures !HasDeveloperKeyword(SeniorTitle)
  {
    assert 'v' !in SeniorTitle && 'V' !in SeniorTitle && 'w' !in SeniorTitle && 'W' !in SeniorTitle;
    NoKeywordWithoutVW(SeniorTitle);
  }

  /** The title rule (src/Pages/HomePage.js:91-95). */
  function NormalizeTitle(title: Option<string>): (t: string)
    ensures t != "" && !HasDeveloperKeyword(t)
    ensures Truthy(title) && HasDeveloperKeyword(title.value) ==> t == SeniorTitle
    ensures !Truthy(title) ==> t == PlainTitle
    ensures Truthy(title) && !HasDeveloperKeyword(title.value) ==> t == title.value
  {
    DesignerTitlesHaveNoKeyword();
    if Truthy(title) && HasDeveloperKeyword(title.value) then SeniorTitle
    else if !Truthy(title) then PlainTitle
    else title.value
  }

  /** The bio rule (src/Pages/HomePage.js:98-101). */
  function NormalizeBio(bio: Option<string>): (b: string)
    ensures b != "" && b != SentinelBio
    ensures !Truthy(bio) || bio.value == SentinelBio ==> b == DefaultBio
    ensures Truthy(bio) && bio.value != SentinelBio ==> b == bio.value
  {
    if !Truthy(bio) || bio.value == SentinelBio then DefaultBio else bio.value
  }

  /** The list rule (src/Pages/HomePage.js:104-168): the whole fallback when
      the list is absent or empty, the list itself otherwise, never a merge. */
  function OrDefault<T>(list: Option<seq<T>>, fallback: seq<T>): (r: seq<T>)
    ensures list.None? || |list.value| == 0 ==> r == fallback
    ensures list.Some? && |list.value| > 0 ==> r == list.value
  {
    if list.None? || |list.value| == 0 then fallback else list.value
  }

  /** What the page may rely on after normalization: a title and bio to show,
      and five non-empty lists. */
  predicate WellFormed(b: Bundle) {
    Truthy(b.profile_data.title) && !HasDeveloperKeyword(b.profile_data.title.value)
    && Truthy(b.profile_data.bio) && b.profile_data.bio.value != SentinelBio
    && |b.skills_data| > 0 && |b.language_data| > 0 && |b.projects_data| > 0
    && |b.experience_data| > 0 && |b.education_data| > 0
  }

  /** The normalization block of `fetchData`, for a payload whose envelope
      passed validation: the title and bio follow their rules, the five lists
      the list rule, and nothing else in the payload changes. */
  function Normalize(p: RawPayload): (b: Bundle)
    requires p.profile_data.Some?
    ensures b.profile_data == p.profile_data.value.(title := b.profile_data.title, bio := b.profile_data.bio)
    ensures b.certificates_data == p.certificates_data
  {
    var profile := p.profile_data.value;
    Bundle(
      profile.(title := Some(NormalizeTitle(profile.title)), bio := Some(NormalizeBio(profile.bio))),
      OrDefault(p.skills_data, DefaultSkills),
      OrDefault(p.language_data, DefaultLanguages),
      OrDefault(p.projects_data, DefaultProjects),
      OrDefault(p.experience_data, DefaultExperience),
      OrDefault(p.education_data, DefaultEducation),
      p.certificates_data)
  }

  /** Every normalized bundle has a title and bio to show, neither of them a
      developer title or the placeholder, and five non-empty lists. */
  lemma NormalizedIsWellFormed(p: RawPayload)
    requires p.profile_data.Some?
    ensures WellFormed(Normalize(p))
  {
  }

  /** Envelope validation followed by normalization
      (src/Pages/HomePage.js:80-88 and 170-176). */
  function Receive(resp: Response): (r: Outcome)
    ensures r.Failed? <==> !resp.ok || resp.body.None? || resp.body.value.profile_data.None?
    ensures r.Success? ==> r.bundle == Normalize(resp.body.value) && WellFormed(r.bundle)
  {
    if !resp.ok || resp.body.None? || resp.body.value.profile_data.None? then Failed
    else
      NormalizedIsWellFormed(resp.body.value);
      Success(Normalize(resp.body.value))
  }

  /** The profile part of the normalization block as `fetchData` runs it:
      the title is overwritten first, then the bio, each only when its rule
      says so (src/Pages/HomePage.js:90-101). */
  method NormalizeProfileFields(profile: Profile) returns (q: Profile)
    ensures q == profile.(title := Some(NormalizeTitle(profile.title)), bio := Some(NormalizeBio(profile.bio)))
  {
    q := profile;
    if Truthy(q.title) && HasDeveloperKeyword(q.title.value) {
      q := q.(title := Some(SeniorTitle));
    } else if !Truthy(q.title) {
      q := q.(title := Some(PlainTitle));
    }
    if !Truthy(q.bio) || q.bio.value == SentinelBio {
      q := q.(bio := Some(DefaultBio));
    }
  }

  /** One list step of the normalization block: an absent or empty list is
      overwritten by its fallback (src/Pages/HomePage.js:104-168). */
  method FillList<T>(list: Option<seq<T>>, fallback: seq<T>) returns (r: Option<seq<T>>)
    ensures r == Some(OrDefault(list, fallback))
  {
    r := list;
    if r.None? || |r.value| == 0 {
      r := Some(fallback);
    }
  }

  /** The normalization block as `fetchData` runs it: the payload's fields
      are overwritten one rule at a time, in the source's order. */
  method NormalizeFields(payload: RawPayload) returns (b: Bundle)
    requires payload.profile_data.Some?
    ensures b == Normalize(payload)
  {
    var data := payload;
    var profile := NormalizeProfileFields(data.profile_data.value);
    data := data.(profile_data := Some(profile));
    var skills := FillList(data.skills_data, DefaultSkills);
    data := data.(skills_data := skills);
    var languages := FillList(data.language_data, DefaultLanguages);
    data := data.(language_data := languages);
    var projects := FillList(data.projects_data, DefaultProjects);
    data := data.(projects_data := projects);
    var experience := FillList(data.experience_data, DefaultExperience);
    data := data.(experience_data := experience);
    var education := FillList(data.education_data, DefaultEducation);
    data := data.(education_data := education);
    b := Bundle(profile, skills.value, languages.value, projects.value,
      experience.value, education.value, data.certificates_data);
  }

  /** The bundle sent back as a payload, field for field. */
  function AsPayload(b: Bundle): RawPayload {
    RawPayload(Some(b.profile_data), Some(b.skills_data), Some(b.language_data),
      Some(b.projects_data), Some(b.experience_data), Some(b.education_data),
      b.certificates_data)
  }

  /** Defaults only fill genuine gaps: normalizing a well-formed bundle again
      changes nothing, so normalization is idempotent. */
  lemma WellFormedIsFixedPoint(b: Bundle)
    requires WellFormed(b)
    ensures Normalize(AsPayload(b)) == b
  {
  }

  lemma NormalizeIdempotent(p: RawPayload)
    requires p.profile_data.Some?
    ensures Normalize(AsPayload(Normalize(p))) == Normalize(p)
  {
    NormalizedIsWellFormed(p);
    WellFormedIsFixedPoint(Normalize(p));
  }

  /** The title examples: a developer title is replaced, an absent one
      defaulted, any other kept. */
  lemma TitleExamples()
    ensures NormalizeTitle(Some("Full Stack Developer")) == SeniorTitle
    ensures NormalizeTitle(None) == PlainTitle
    ensures NormalizeTitle(Some("Art Director")) == "Art Director"
  {
    var dev := ToLower("Full Stack Developer");
    assert dev[11..20] == "developer";
    assert OccursAt(dev, "developer", 11);
    NoKeywordWithoutVW("Art Director");
  }
}
