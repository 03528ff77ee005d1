/**
  The case-study page of a project: its own copy of the tech classifier, the
  pairing of challenges with solutions, and which of the optional sections
  the page renders, with the values it passes to the snippet and video
  components.

  A section guarded by `x && <section/>` renders nothing when `x` is
  `undefined`, `false` or `''`, the section when `x` is truthy, and the text
  `0` when `x` is the number `0`: React prints numbers. The guards written
  as a list length (`list?.length && ...`) therefore print `0` for a list
  that is present but empty.
 */
module ProjectCaseStudy {
  import opened Wrappers
  import opened ContentSchema
  import opened JsString
  import ProjectCard
  import VideoEmbed

  /* ---------- the tech classifier ---------- */

  const FrontendTechs: seq<string> := [
    "react", "vue.js", "angular", "next.js", "nuxt.js", "svelte", "typescript", "javascript",
    "html", "css", "tailwind css", "sass", "scss", "material-ui", "chakra ui", "styled-components"]

  const BackendTechs: seq<string> := [
    "node.js", "express.js", "fastapi", "django", "flask", "spring boot", "laravel", "ruby on rails",
    "asp.net", "php", "python", "java", "c#", "go", "rust"]

  const DatabaseTechs: seq<string> := [
    "postgresql", "mysql", "mongodb", "redis", "sqlite", "firebase", "supabase", "prisma",
    "typeorm", "sequelize"]

  const CloudTechs: seq<string> := [
    "aws", "azure", "gcp", "vercel", "netlify", "heroku", "docker", "kubernetes", "terraform"]

  const ToolTechs: seq<string> := [
    "webpack", "vite", "rollup", "babel", "eslint", "prettier", "jest", "cypress", "playwright",
    "storybook", "figma", "adobe xd"]

  /** The page's `getTechCategory`: the `data-category` of a tech badge. */
  function TechCategory(tech: string): string {
    var t := Lower(tech);
    if t in FrontendTechs then "frontend"
    else if t in BackendTechs then "backend"
    else if t in DatabaseTechs then "database"
    else if t in CloudTechs then "cloud"
    else if t in ToolTechs then "tool"
    else "default"
  }

  lemma SameLists()
    ensures FrontendTechs == ProjectCard.FrontendTechs && BackendTechs == ProjectCard.BackendTechs
    ensures DatabaseTechs == ProjectCard.DatabaseTechs && CloudTechs == ProjectCard.CloudTechs
    ensures ToolTechs == ProjectCard.ToolTechs
  {
  }

  /** The page and the project card classify every tech alike. */
  lemma ClassifiersAgree(tech: string)
    ensures TechCategory(tech) == ProjectCard.CategoryName(ProjectCard.GetTechCategory(tech))
  {
    SameLists();
  }

  /** The badges' categories, one per tech of the stack, in order. */
  function BadgeCategories(techStack: seq<string>): (r: seq<string>)
    ensures |r| == |techStack|
    ensures forall i :: 0 <= i < |r| ==> r[i] == ProjectCard.CategoryName(ProjectCard.GetTechCategory(techStack[i]))
  {
    seq(|techStack|, i requires 0 <= i < |techStack| => (ClassifiersAgree(techStack[i]); TechCategory(techStack[i])))
  }

  /* ---------- challenges and solutions ---------- */

  /** One challenge block: its number, its text and the solution shown under it, if any. */
  datatype ChallengeItem = ChallengeItem(number: nat, challenge: string, solution: Option<string>)

  /** `project.solutions?.[index]`, kept only when truthy. */
  function SolutionAt(solutions: Option<seq<string>>, index: nat): Option<string> {
    if solutions.Some? && index < |solutions.value| && solutions.value[index] != "" then Some(solutions.value[index])
    else None
  }

  /** `project.challenges?.map(...)`: one block per challenge. */
  function ChallengeItems(challenges: Option<seq<string>>, solutions: Option<seq<string>>): (r: seq<ChallengeItem>)
    ensures challenges.None? ==> r == []
    ensures challenges.Some? ==> |r| == |challenges.value|
    ensures challenges.Some? ==> forall i :: 0 <= i < |r| ==>
      r[i].number == i + 1 && r[i].challenge == challenges.value[i]
      && (r[i].solution.Some? <==> solutions.Some? && i < |solutions.value| && solutions.value[i] != "")
      && (r[i].solution.Some? ==> r[i].solution.value == solutions.value[i])
  {
    match challenges
    case None => []
    case Some(cs) => seq(|cs|, i requires 0 <= i < |cs| => ChallengeItem(i + 1, cs[i], SolutionAt(solutions, i)))
  }

  /**
    Solutions past the last challenge are never shown: cutting them off, or
    dropping an absent list for an empty one, leaves the blocks unchanged.
   */
  lemma ExtraSolutionsIgnored(challenges: seq<string>, solutions: seq<string>, extra: seq<string>)
    requires |solutions| >= |challenges|
    ensures ChallengeItems(Some(challenges), Some(solutions + extra)) == ChallengeItems(Some(challenges), Some(solutions))
    ensures ChallengeItems(Some(challenges), Some(solutions)) == ChallengeItems(Some(challenges), Some(solutions[..|challenges|]))
    ensures ChallengeItems(Some(challenges), None) == ChallengeItems(Some(challenges), Some([]))
  {
    var a := ChallengeItems(Some(challenges), Some(solutions + extra));
    var b := ChallengeItems(Some(challenges), Some(solutions));
    var c := ChallengeItems(Some(challenges), Some(solutions[..|challenges|]));
    assert forall i :: 0 <= i < |a| ==> a[i] == b[i];
    assert forall i :: 0 <= i < |b| ==> b[i] == c[i];
  }

  /* ---------- guarded sections ---------- */

  /** The value of `list?.length`: `undefined`, or a number. */
  datatype Length = Undefined | Count(n: nat)

  function LengthOf<T>(list: Option<seq<T>>): (r: Length)
    ensures r.Undefined? <==> list.None?
    ensures r.Count? ==> r.n == |list.value|
  {
    match list
    case None => Undefined
    case Some(xs) => Count(|xs|)
  }

  predicate Truthy(v: Length) {
    v.Count? && v.n != 0
  }

  /** JavaScript's `a || b` on lengths: `a` if truthy, else `b`. */
  function Or(a: Length, b: Length): (r: Length)
    ensures Truthy(r) <==> Truthy(a) || Truthy(b)
    ensures Truthy(a) ==> r == a
  {
    if Truthy(a) then a else b
  }

  /** What a JSX child `{guard && content}` renders. */
  datatype Rendered<T> = Nothing | ZeroText | Content(content: T)

  /** `{guard && content}` with a length as the guard, as written. */
  function Guard<T>(guard: Length, content: T): (r: Rendered<T>)
    ensures r.Content? <==> Truthy(guard)
    ensures r == ZeroText <==> guard == Count(0)
    ensures r.Content? ==> r.content == content
  {
    match guard
    case Undefined => Nothing
    case Count(n) => if n == 0 then ZeroText else Content(content)
  }

  /** The guard the section evidently means: content iff the condition holds, and never a stray `0`. */
  function When<T>(condition: bool, content: T): (r: Rendered<T>)
    ensures r.Content? <==> condition
    ensures r != ZeroText
    ensures r.Content? ==> r.content == content
  {
    if condition then Content(content) else Nothing
  }

  /** Whether a list is present and non-empty. */
  predicate NonEmpty<T>(list: Option<seq<T>>) {
    list.Some? && |list.value| > 0
  }

  /** The challenges-and-solutions section as written: `(challenges?.length || solutions?.length) && ...`. */
  function ChallengesSectionAsWritten(challenges: Option<seq<string>>, solutions: Option<seq<string>>): Rendered<seq<ChallengeItem>> {
    Guard(Or(LengthOf(challenges), LengthOf(solutions)), ChallengeItems(challenges, solutions))
  }

  /** The challenges-and-solutions section: shown iff either list has an entry. */
  function ChallengesSection(challenges: Option<seq<string>>, solutions: Option<seq<string>>): (r: Rendered<seq<ChallengeItem>>)
    ensures r.Content? <==> NonEmpty(challenges) || NonEmpty(solutions)
    ensures r.Content? ==> r.content == ChallengeItems(challenges, solutions)
    ensures r != ZeroText
  {
    When(NonEmpty(challenges) || NonEmpty(solutions), ChallengeItems(challenges, solutions))
  }

  /**
    As written, the section prints a stray `0` exactly when there is no
    challenge and the solutions list is present but empty; in every other
    case it renders what the corrected guard renders.
   */
  lemma ChallengesSectionZero(challenges: Option<seq<string>>, solutions: Option<seq<string>>)
    ensures ChallengesSectionAsWritten(challenges, solutions) == ZeroText <==>
      !NonEmpty(challenges) && solutions == Some([])
    ensures ChallengesSectionAsWritten(challenges, solutions) != ZeroText ==>
      ChallengesSectionAsWritten(challenges, solutions) == ChallengesSection(challenges, solutions)
  {
    if solutions.Some? && solutions.value == [] {
      assert LengthOf(solutions) == Count(0);
    }
  }

  /** A case study with no challenges and `solutions: []` shows `0` on the page. */
  lemma EmptySolutionsShowZero()
    ensures ChallengesSectionAsWritten(None, Some([])) == ZeroText
    ensures ChallengesSection(None, Some([])) == Nothing
  {
    ChallengesSectionZero(None, Some([]));
  }

  /** A list section (snippets, gallery, outcomes) as written: `list?.length && ...`. */
  function ListSectionAsWritten<T>(list: Option<seq<T>>): Rendered<seq<T>>
  {
    Guard(LengthOf(list), if list.Some? then list.value else [])
  }

  /** A list section: shown, with the list, iff the list has an entry. */
  function ListSection<T>(list: Option<seq<T>>): (r: Rendered<seq<T>>)
    ensures r.Content? <==> NonEmpty(list)
    ensures r.Content? ==> r.content == list.value
    ensures r != ZeroText
  {
    When(NonEmpty(list), if list.Some? then list.value else [])
  }

  /** As written, a list section prints `0` exactly for a present but empty list, and otherwise agrees. */
  lemma ListSectionZero<T>(list: Option<seq<T>>)
    ensures ListSectionAsWritten(list) == ZeroText <==> list == Some([])
    ensures ListSectionAsWritten(list) != ZeroText ==> ListSectionAsWritten(list) == ListSection(list)
  {
  }

  /** The snippet description passed on: `snippet.description || ''`. */
  function SnippetDescription(s: CodeSnippet): (r: string)
    ensures s.description.Some? ==> r == s.description.value
    ensures s.description.None? ==> r == ""
  {
    if s.description.Some? && s.description.value != "" then s.description.value else ""
  }

  /** The props of the video player: its URL, title and platform. */
  datatype VideoProps = VideoProps(url: string, title: string, platform: Platform)

  /** `{project.videoUrl && <VideoEmbed ... platform={project.videoPlatform || 'youtube'} />}`. */
  function VideoSection(title: string, videoUrl: Option<string>, videoPlatform: Option<Platform>): (r: Rendered<VideoProps>)
    ensures r != ZeroText
    ensures r.Content? <==> videoUrl.Some? && videoUrl.value != ""
    ensures r.Content? ==> r.content.url == videoUrl.value && r.content.title == title + " demo video"
    ensures r.Content? ==> r.content.platform == VideoEmbed.PlatformOrDefault(videoPlatform)
    ensures r.Content? && videoPlatform.None? ==> r.content.platform == YouTube
  {
    if videoUrl.Some? && videoUrl.value != "" then
      Content(VideoProps(videoUrl.value, title + " demo video", videoPlatform.GetOr(YouTube)))
    else Nothing
  }

  /**
    A text guarded by itself, `{text && <... {text} ...>}`: a string is never
    the number `0`, so the guard renders the text iff it is present and
    non-empty, and nothing otherwise.
   */
  function TextSection(text: Option<string>): (r: Rendered<string>)
    ensures r != ZeroText
    ensures r.Content? <==> text.Some? && text.value != ""
    ensures r.Content? ==> r.content == text.value
  {
    When(text.Some? && text.value != "", text.GetOr(""))
  }

  /** The two links of the links section, each shown iff its URL is non-empty. */
  datatype Links = Links(live: Rendered<string>, source: Rendered<string>)

  /**
    `{(liveUrl || githubUrl) && <section> {liveUrl && <a/>} {githubUrl && <a/>} </section>}`:
    the section shows iff either URL is non-empty, and within it each link
    iff its own URL is.
   */
  function LinksSection(liveUrl: Option<string>, githubUrl: Option<string>): (r: Rendered<Links>)
    ensures r != ZeroText
    ensures r.Content? <==> (liveUrl.Some? && liveUrl.value != "") || (githubUrl.Some? && githubUrl.value != "")
    ensures r.Content? ==> (r.content.live.Content? <==> liveUrl.Some? && liveUrl.value != "")
    ensures r.Content? ==> (r.content.source.Content? <==> githubUrl.Some? && githubUrl.value != "")
    ensures r.Content? && r.content.live.Content? ==> r.content.live.content == liveUrl.value
    ensures r.Content? && r.content.source.Content? ==> r.content.source.content == githubUrl.value
  {
    var live, source := TextSection(liveUrl), TextSection(githubUrl);
    When(live.Content? || source.Content?, Links(live, source))
  }

  /** What the case-study page shows beyond the fixed hero text and the navigation. */
  datatype Page = Page(
    role: Rendered<string>,
    timeline: Rendered<string>,
    complexity: Rendered<string>,
    badges: seq<string>,
    problemStatement: Rendered<string>,
    approach: Rendered<string>,
    architectureDiagram: Rendered<string>,
    challenges: Rendered<seq<ChallengeItem>>,
    snippets: Rendered<seq<CodeSnippet>>,
    gallery: Rendered<seq<string>>,
    video: Rendered<VideoProps>,
    outcomes: Rendered<seq<string>>,
    links: Rendered<Links>)

  /** No section of the page prints a stray `0`. */
  predicate NoStrayZero(page: Page) {
    && page.role != ZeroText && page.timeline != ZeroText && page.complexity != ZeroText
    && page.problemStatement != ZeroText && page.approach != ZeroText && page.architectureDiagram != ZeroText
    && page.challenges != ZeroText && page.snippets != ZeroText && page.gallery != ZeroText
    && page.video != ZeroText && page.outcomes != ZeroText && page.links != ZeroText
  }

  /** The page of a project, with the list guards corrected so that no stray `0` is printed. */
  function RenderPage(p: Project): (r: Page)
    ensures r.role == TextSection(p.caseStudy.role) && r.timeline == TextSection(p.caseStudy.timeline)
    ensures r.complexity.Content? <==> p.complexity.Some?
    ensures r.complexity.Content? ==> r.complexity.content == LevelName(p.complexity.value)
    ensures r.badges == BadgeCategories(p.techStack)
    ensures r.problemStatement.Content? <==> p.caseStudy.problemStatement.Some? && p.caseStudy.problemStatement.value != ""
    ensures r.approach.Content? <==> p.caseStudy.approach.Some? && p.caseStudy.approach.value != ""
    ensures r.architectureDiagram.Content? <==>
      p.caseStudy.architectureDiagram.Some? && p.caseStudy.architectureDiagram.value != ""
    ensures r.challenges.Content? <==> NonEmpty(p.caseStudy.challenges) || NonEmpty(p.caseStudy.solutions)
    ensures r.challenges.Content? ==> r.challenges.content == ChallengeItems(p.caseStudy.challenges, p.caseStudy.solutions)
    ensures r.snippets.Content? <==> NonEmpty(p.caseStudy.codeSnippets)
    ensures r.gallery.Content? <==> NonEmpty(p.caseStudy.gallery)
    ensures r.outcomes.Content? <==> NonEmpty(p.caseStudy.outcomes)
    ensures r.video.Content? <==> p.caseStudy.videoUrl.Some? && p.caseStudy.videoUrl.value != ""
    ensures r.video.Content? ==> r.video.content.platform == p.videoPlatform
    ensures r.links.Content? <==> (p.liveUrl.Some? && p.liveUrl.value != "") || (p.githubUrl.Some? && p.githubUrl.value != "")
    ensures r.problemStatement == TextSection(p.caseStudy.problemStatement)
    ensures r.approach == TextSection(p.caseStudy.approach)
    ensures r.architectureDiagram == TextSection(p.caseStudy.architectureDiagram)
    ensures r.snippets == ListSection(p.caseStudy.codeSnippets)
    ensures r.gallery == ListSection(p.caseStudy.gallery)
    ensures r.outcomes == ListSection(p.caseStudy.outcomes)
    ensures r.video == VideoSection(p.title, p.caseStudy.videoUrl, Some(p.videoPlatform))
    ensures r.links == LinksSection(p.liveUrl, p.githubUrl)
    ensures NoStrayZero(r)
  {
    var c := p.caseStudy;
    Page(
      TextSection(c.role),
      TextSection(c.timeline),
      When(p.complexity.Some?, if p.complexity.Some? then LevelName(p.complexity.value) else ""),
      BadgeCategories(p.techStack),
      TextSection(c.problemStatement),
      TextSection(c.approach),
      TextSection(c.architectureDiagram),
      ChallengesSection(c.challenges, c.solutions),
      ListSection(c.codeSnippets),
      ListSection(c.gallery),
      VideoSection(p.title, c.videoUrl, Some(p.videoPlatform)),
      ListSection(c.outcomes),
      LinksSection(p.liveUrl, p.githubUrl))
  }

  /** The page as written, with the list guards `list?.length && ...`. */
  function RenderPageAsWritten(p: Project): Page {
    var c := p.caseStudy;
    RenderPage(p).(
      challenges := ChallengesSectionAsWritten(c.challenges, c.solutions),
      snippets := ListSectionAsWritten(c.codeSnippets),
      gallery := ListSectionAsWritten(c.gallery),
      outcomes := ListSectionAsWritten(c.outcomes))
  }

  /**
    The page as written and the corrected page differ exactly when one of the
    list sections gets a present but empty list (for the challenges section:
    no challenge and `solutions: []`), and there the difference is a stray `0`.
   */
  lemma AsWrittenPageDiffers(p: Project)
    ensures var c := p.caseStudy;
      RenderPageAsWritten(p) != RenderPage(p) <==>
        || c.codeSnippets == Some([]) || c.gallery == Some([]) || c.outcomes == Some([])
        || (!NonEmpty(c.challenges) && c.solutions == Some([]))
    ensures var w, r := RenderPageAsWritten(p), RenderPage(p);
      && (w.challenges == r.challenges || w.challenges == ZeroText)
      && (w.snippets == r.snippets || w.snippets == ZeroText)
      && (w.gallery == r.gallery || w.gallery == ZeroText)
      && (w.outcomes == r.outcomes || w.outcomes == ZeroText)
  {
    var c := p.caseStudy;
    ChallengesSectionZero(c.challenges, c.solutions);
    ListSectionZero(c.codeSnippets);
    ListSectionZero(c.gallery);
    ListSectionZero(c.outcomes);
  }
}
