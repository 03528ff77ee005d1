/**
  The three content document types (Project, BlogPost, Certification): the
  fields each declares in its front matter (required, optional, defaulted,
  enumerated) and the fields computed from the file (slug, reading time,
  excerpt, expiry). A content file is parsed into a typed record or rejected
  with the first schema error, in declaration order.
 */
module ContentSchema {
  import opened Wrappers
  import opened JsString
  import opened JsMath

  /** The front-matter keys the three document types declare. */
  datatype Key =
    | Id | Title | Description | Image | TechStack | LiveUrl | GithubUrl | Featured
    | Category | Complexity | Date | ProblemStatement | Role | Timeline | Approach
    | Challenges | Solutions | Outcomes | ArchitectureDiagram | CodeSnippets | Gallery
    | VideoUrl | VideoPlatform
    | PublishedAt | UpdatedAt | Tags | Draft | Author
    | Issuer | IssueDate | ExpiryDate | CredentialId | CredentialUrl | Skills

  /** One entry of a project's `codeSnippets` JSON, in the shape the case study reads. */
  datatype CodeSnippet = CodeSnippet(title: string, language: string, code: string, description: Option<string>)

  /** A front-matter value: text, a boolean, a list of texts, a date (ms since the epoch) or JSON. */
  datatype RawValue =
    | Text(text: string)
    | Flag(flag: bool)
    | TextList(items: seq<string>)
    | DateValue(ms: int)
    | SnippetsJson(snippets: seq<CodeSnippet>)
    | AuthorJson(author: string)

  /** The front matter of a file: the value written for each declared key, if any. */
  type FrontMatter = Key -> Option<RawValue>

  /** A content file: its path below the content directory without extension, its body and its front matter. */
  datatype RawDocument = RawDocument(flattenedPath: string, body: string, frontMatter: FrontMatter)

  /** Why a file does not make a document. */
  datatype SchemaError =
    | MissingRequiredField(key: Key)
    | IncompatibleType(key: Key)
    | InvalidEnumValue(key: Key, value: string)

  /** The `complexity` options. */
  datatype Level = Beginner | Intermediate | Advanced

  /** The `videoPlatform` options. */
  datatype Platform = YouTube | Vimeo | Custom

  /* ---------- reading one field ---------- */

  function RequiredText(fm: FrontMatter, k: Key): Result<string, SchemaError> {
    if fm(k).None? then Failure(MissingRequiredField(k))
    else if fm(k).value.Text? then Success(fm(k).value.text)
    else Failure(IncompatibleType(k))
  }

  function OptionalText(fm: FrontMatter, k: Key): Result<Option<string>, SchemaError> {
    if fm(k).None? then Success(None)
    else if fm(k).value.Text? then Success(Some(fm(k).value.text))
    else Failure(IncompatibleType(k))
  }

  function RequiredList(fm: FrontMatter, k: Key): Result<seq<string>, SchemaError> {
    if fm(k).None? then Failure(MissingRequiredField(k))
    else if fm(k).value.TextList? then Success(fm(k).value.items)
    else Failure(IncompatibleType(k))
  }

  function OptionalList(fm: FrontMatter, k: Key): Result<Option<seq<string>>, SchemaError> {
    if fm(k).None? then Success(None)
    else if fm(k).value.TextList? then Success(Some(fm(k).value.items))
    else Failure(IncompatibleType(k))
  }

  function RequiredDate(fm: FrontMatter, k: Key): Result<int, SchemaError> {
    if fm(k).None? then Failure(MissingRequiredField(k))
    else if fm(k).value.DateValue? then Success(fm(k).value.ms)
    else Failure(IncompatibleType(k))
  }

  function OptionalDate(fm: FrontMatter, k: Key): Result<Option<int>, SchemaError> {
    if fm(k).None? then Success(None)
    else if fm(k).value.DateValue? then Success(Some(fm(k).value.ms))
    else Failure(IncompatibleType(k))
  }

  /** A boolean field with a `default`. */
  function FlagOr(fm: FrontMatter, k: Key, default: bool): Result<bool, SchemaError> {
    if fm(k).None? then Success(default)
    else if fm(k).value.Flag? then Success(fm(k).value.flag)
    else Failure(IncompatibleType(k))
  }

  function LevelOf(s: string): Option<Level> {
    if s == "beginner" then Some(Beginner)
    else if s == "intermediate" then Some(Intermediate)
    else if s == "advanced" then Some(Advanced)
    else None
  }

  function LevelName(l: Level): string {
    match l
    case Beginner => "beginner"
    case Intermediate => "intermediate"
    case Advanced => "advanced"
  }

  /** Reading an option name back gives the option, and nothing else reads as an option. */
  lemma LevelNames(l: Level, s: string)
    ensures LevelOf(LevelName(l)) == Some(l)
    ensures LevelOf(s).Some? <==> s in {"beginner", "intermediate", "advanced"}
  {
  }

  function PlatformOf(s: string): Option<Platform> {
    if s == "youtube" then Some(YouTube)
    else if s == "vimeo" then Some(Vimeo)
    else if s == "custom" then Some(Custom)
    else None
  }

  function PlatformName(p: Platform): string {
    match p
    case YouTube => "youtube"
    case Vimeo => "vimeo"
    case Custom => "custom"
  }

  function OptionalLevel(fm: FrontMatter, k: Key): Result<Option<Level>, SchemaError> {
    if fm(k).None? then Success(None)
    else if !fm(k).value.Text? then Failure(IncompatibleType(k))
    else match LevelOf(fm(k).value.text)
      case Some(l) => Success(Some(l))
      case None => Failure(InvalidEnumValue(k, fm(k).value.text))
  }

  /** An enumerated platform field with a `default`. */
  function PlatformOr(fm: FrontMatter, k: Key, default: Platform): Result<Platform, SchemaError> {
    if fm(k).None? then Success(default)
    else if !fm(k).value.Text? then Failure(IncompatibleType(k))
    else match PlatformOf(fm(k).value.text)
      case Some(p) => Success(p)
      case None => Failure(InvalidEnumValue(k, fm(k).value.text))
  }

  function OptionalSnippets(fm: FrontMatter, k: Key): Result<Option<seq<CodeSnippet>>, SchemaError> {
    if fm(k).None? then Success(None)
    else if fm(k).value.SnippetsJson? then Success(Some(fm(k).value.snippets))
    else Failure(IncompatibleType(k))
  }

  function OptionalAuthor(fm: FrontMatter, k: Key): Result<Option<string>, SchemaError> {
    if fm(k).None? then Success(None)
    else if fm(k).value.AuthorJson? then Success(Some(fm(k).value.author))
    else Failure(IncompatibleType(k))
  }

  function TextEntry(v: Option<string>): Option<RawValue> {
    if v.Some? then Some(Text(v.value)) else None
  }

  function ListEntry(v: Option<seq<string>>): Option<RawValue> {
    if v.Some? then Some(TextList(v.value)) else None
  }

  function DateEntry(v: Option<int>): Option<RawValue> {
    if v.Some? then Some(DateValue(v.value)) else None
  }

  /* ---------- computed fields ---------- */

  const ProjectsDir := "projects/"
  const BlogDir := "blog/"
  const CertificationsDir := "certifications/"

  /**
    The slug: the flattened path with the first occurrence of the type's
    directory segment removed (a string `replace`, not a prefix strip).
   */
  function Slug(flattenedPath: string, dir: string): (r: string)
    ensures !Includes(flattenedPath, dir) ==> r == flattenedPath
    ensures StartsWith(flattenedPath, dir) ==> r == flattenedPath[|dir|..]
    ensures forall i: nat :: FirstOccurrence(flattenedPath, dir, i) ==>
      r == flattenedPath[..i] + flattenedPath[i + |dir|..]
    ensures Includes(flattenedPath, dir) ==> |r| == |flattenedPath| - |dir|
  {
    var r := ReplaceFirst(flattenedPath, dir, "");
    assert forall a: string, b: string :: a + "" + b == a + b;
    r
  }

  /** A file directly in the type's directory gets the rest of its path as slug. */
  lemma SlugOfFileInDir(dir: string, rest: string)
    ensures Slug(dir + rest, dir) == rest
  {
    assert StartsWith(dir + rest, dir) by {
      assert (dir + rest)[..|dir|] == dir;
    }
    assert (dir + rest)[|dir|..] == rest;
  }

  /** Only the first occurrence is removed, so applying the rule to a slug can change it again. */
  lemma SlugNotIdempotent()
    ensures Slug("projects/projects/a", ProjectsDir) == "projects/a"
    ensures Slug(Slug("projects/projects/a", ProjectsDir), ProjectsDir) == "a"
  {
    assert "projects/projects/a" == ProjectsDir + "projects/a";
    SlugOfFileInDir(ProjectsDir, "projects/a");
    assert "projects/a" == ProjectsDir + "a";
    SlugOfFileInDir(ProjectsDir, "a");
  }

  const WordsPerMinute := 200

  /**
    Minutes to read the body: the number of pieces `split(/\s+/)` makes of
    it, divided by 200 and rounded up. Leading or trailing whitespace makes
    an empty piece that still counts, so even an empty body reads in one minute.
   */
  function ReadingTime(body: string): (r: int)
    ensures r >= 1
    ensures (r - 1) * WordsPerMinute < |SplitWs(body)| <= r * WordsPerMinute
  {
    CeilDivPositive(|SplitWs(body)|, WordsPerMinute);
    CeilDiv(|SplitWs(body)|, WordsPerMinute)
  }

  /** The piece count is one more than the number of whitespace runs in the body. */
  lemma PieceCount(body: string)
    ensures |SplitWs(body)| == Count(Collapse(body), ' ') + 1
  {
    SplitWsIsSplitOfCollapse(body);
  }

  lemma ReadingTimeOfEmptyBody()
    ensures ReadingTime("") == 1
  {
  }

  const ExcerptWords := 30

  /** The first 30 pieces of the body joined by single spaces, and `...` when there were more. */
  function Excerpt(body: string): (r: string)
    ensures |SplitWs(body)| <= ExcerptWords ==> r == Collapse(body)
    ensures |SplitWs(body)| > ExcerptWords ==>
      |r| >= 3 && r[|r| - 3..] == "..."
      && StartsWith(Collapse(body), r[..|r| - 3] + " ")
  {
    var words := SplitWs(body);
    JoinSplitWs(body);
    if |words| <= ExcerptWords then
      assert words[..|words|] == words;
      Join(words, " ")
    else
      var head := Join(words[..ExcerptWords], " ");
      JoinAppend(words[..ExcerptWords], words[ExcerptWords..], " ");
      assert words[..ExcerptWords] + words[ExcerptWords..] == words;
      var r := head + "...";
      assert r[..|r| - 3] == head;
      assert Collapse(body)[..|head + " "|] == head + " ";
      r
  }

  /** The excerpt holds exactly the first 30 pieces when there are more. */
  lemma ExcerptPieces(body: string)
    requires |SplitWs(body)| > ExcerptWords
    ensures var r := Excerpt(body);
      SplitOn(r[..|r| - 3], ' ') == SplitWs(body)[..ExcerptWords]
  {
    var words := SplitWs(body);
    SplitWsPiecesHaveNoSpace(body);
    SplitOnJoin(words[..ExcerptWords], ' ');
  }

  /** Whether the certification has expired at time `now`; one without an expiry date never does. */
  function IsExpired(expiryDate: Option<int>, now: int): bool {
    expiryDate.Some? && expiryDate.value < now
  }

  /**
    Whole days until expiry, rounded up, or the sentinel -1 when there is no
    expiry date.
   */
  function DaysUntilExpiry(expiryDate: Option<int>, now: int): (r: int)
    ensures expiryDate.None? ==> r == -1
    ensures expiryDate.Some? ==> (r - 1) * MsPerDay < expiryDate.value - now <= r * MsPerDay
  {
    if expiryDate.None? then -1 else CeilDiv(expiryDate.value - now, MsPerDay)
  }

  /** The two expiry fields agree: an expired certification has no days left, a current one has some. */
  lemma ExpiryFieldsAgree(expiryDate: Option<int>, now: int)
    ensures expiryDate.None? ==> !IsExpired(expiryDate, now) && DaysUntilExpiry(expiryDate, now) == -1
    ensures IsExpired(expiryDate, now) ==> DaysUntilExpiry(expiryDate, now) <= 0
    ensures expiryDate.Some? && !IsExpired(expiryDate, now) ==> DaysUntilExpiry(expiryDate, now) >= 0
    ensures expiryDate.Some? ==> (DaysUntilExpiry(expiryDate, now) >= 1 <==> expiryDate.value > now)
  {
    if expiryDate.Some? {
      var r := DaysUntilExpiry(expiryDate, now);
      var d := expiryDate.value - now;
      if r >= 1 {
        assert d > (r - 1) * MsPerDay >= 0;
      } else {
        assert r * MsPerDay <= 0;
      }
      if d < 0 {
        assert (r - 1) * MsPerDay < 0;
      } else {
        assert r * MsPerDay >= 0;
      }
    }
  }

  /** Expired on 2023-01-10, looked at on 2023-01-15: five days past expiry. */
  lemma ExpiredFiveDaysAgo()
    ensures IsExpired(Some(1673308800000), 1673740800000)
    ensures DaysUntilExpiry(Some(1673308800000), 1673740800000) == -5
  {
    CeilDivUnique(1673308800000 - 1673740800000, MsPerDay, -5);
  }

  /* ---------- Project ---------- */

  datatype Project = Project(
    id: string, title: string, description: string, image: string, techStack: seq<string>,
    liveUrl: Option<string>, githubUrl: Option<string>, featured: bool,
    category: Option<string>, complexity: Option<Level>, date: Option<int>,
    caseStudy: CaseStudy, videoPlatform: Platform,
    slug: string, readingTime: int)

  /** The optional case-study fields of a project. */
  datatype CaseStudy = CaseStudy(
    problemStatement: Option<string>, role: Option<string>, timeline: Option<string>,
    approach: Option<string>, challenges: Option<seq<string>>, solutions: Option<seq<string>>,
    outcomes: Option<seq<string>>, architectureDiagram: Option<string>,
    codeSnippets: Option<seq<CodeSnippet>>, gallery: Option<seq<string>>, videoUrl: Option<string>)

  const ProjectRequired: set<Key> := {Id, Title, Description, Image, TechStack}

  /** The narrative fields of a case study: problem statement, role, timeline, approach. */
  function ParseNarrative(fm: FrontMatter): Result<(Option<string>, Option<string>, Option<string>, Option<string>), SchemaError> {
    var problemStatement :- OptionalText(fm, ProblemStatement);
    var role :- OptionalText(fm, Role);
    var timeline :- OptionalText(fm, Timeline);
    var approach :- OptionalText(fm, Approach);
    Success((problemStatement, role, timeline, approach))
  }

  /** The list fields of a case study: challenges, solutions, outcomes. */
  function ParseFindings(fm: FrontMatter): Result<(Option<seq<string>>, Option<seq<string>>, Option<seq<string>>), SchemaError> {
    var challenges :- OptionalList(fm, Challenges);
    var solutions :- OptionalList(fm, Solutions);
    var outcomes :- OptionalList(fm, Outcomes);
    Success((challenges, solutions, outcomes))
  }

  /** The media fields of a case study: diagram, snippets, gallery, video. */
  function ParseMedia(fm: FrontMatter): Result<(Option<string>, Option<seq<CodeSnippet>>, Option<seq<string>>, Option<string>), SchemaError> {
    var architectureDiagram :- OptionalText(fm, ArchitectureDiagram);
    var codeSnippets :- OptionalSnippets(fm, CodeSnippets);
    var gallery :- OptionalList(fm, Gallery);
    var videoUrl :- OptionalText(fm, VideoUrl);
    Success((architectureDiagram, codeSnippets, gallery, videoUrl))
  }

  function ParseCaseStudy(fm: FrontMatter): Result<CaseStudy, SchemaError> {
    var n :- ParseNarrative(fm);
    var f :- ParseFindings(fm);
    var m :- ParseMedia(fm);
    Success(CaseStudy(n.0, n.1, n.2, n.3, f.0, f.1, f.2, m.0, m.1, m.2, m.3))
  }

  /**
    A project file as contentlayer builds it: the five required fields must be
    present, `featured` defaults to false, `videoPlatform` to YouTube, and
    `complexity` must be one of its three options.
   */
  function ParseProject(doc: RawDocument): (r: Result<Project, SchemaError>)
    ensures r.Success? ==> forall k :: k in ProjectRequired ==> doc.frontMatter(k).Some?
    ensures r.Success? && doc.frontMatter(Featured).None? ==> !r.value.featured
    ensures r.Success? && doc.frontMatter(VideoPlatform).None? ==> r.value.videoPlatform == YouTube
    ensures r.Success? && doc.frontMatter(Complexity).Some? ==>
      doc.frontMatter(Complexity).value.Text? && doc.frontMatter(Complexity).value.text in {"beginner", "intermediate", "advanced"}
    ensures r.Success? ==> r.value.slug == Slug(doc.flattenedPath, ProjectsDir) && r.value.readingTime >= 1
    ensures doc.frontMatter(Id).None? ==> r == Failure(MissingRequiredField(Id))
  {
    var fm := doc.frontMatter;
    var q :- ParseProjectRequired(fm);
    var l :- ParseListing(fm);
    var caseStudy :- ParseCaseStudy(fm);
    var videoPlatform :- PlatformOr(fm, VideoPlatform, YouTube);
    Success(Project(q.0, q.1, q.2, q.3, q.4, l.0, l.1, l.2, l.3, l.4, l.5, caseStudy, videoPlatform,
      Slug(doc.flattenedPath, ProjectsDir), ReadingTime(doc.body)))
  }

  /** The five required project fields, in declaration order. */
  function ParseProjectRequired(fm: FrontMatter): (r: Result<(string, string, string, string, seq<string>), SchemaError>)
    ensures r.Success? ==> forall k :: k in ProjectRequired ==> fm(k).Some?
    ensures fm(Id).None? ==> r == Failure(MissingRequiredField(Id))
  {
    var id :- RequiredText(fm, Id);
    var title :- RequiredText(fm, Title);
    var description :- RequiredText(fm, Description);
    var image :- RequiredText(fm, Image);
    var techStack :- RequiredList(fm, TechStack);
    Success((id, title, description, image, techStack))
  }

  /** The optional listing fields of a project: links, featured flag, category, complexity, date. */
  function ParseListing(fm: FrontMatter)
    : (r: Result<(Option<string>, Option<string>, bool, Option<string>, Option<Level>, Option<int>), SchemaError>)
    ensures r.Success? && fm(Featured).None? ==> !r.value.2
    ensures r.Success? && fm(Complexity).Some? ==>
      fm(Complexity).value.Text? && fm(Complexity).value.text in {"beginner", "intermediate", "advanced"}
  {
    var liveUrl :- OptionalText(fm, LiveUrl);
    var githubUrl :- OptionalText(fm, GithubUrl);
    var featured :- FlagOr(fm, Featured, false);
    var category :- OptionalText(fm, Category);
    var complexity :- OptionalLevel(fm, Complexity);
    var date :- OptionalDate(fm, Date);
    Success((liveUrl, githubUrl, featured, category, complexity, date))
  }

  /** `fm` holds each declared field of the case study `c` under its key. */
  ghost predicate WritesCaseStudy(fm: FrontMatter, c: CaseStudy) {
    fm(ProblemStatement) == TextEntry(c.problemStatement) && fm(Role) == TextEntry(c.role)
    && fm(Timeline) == TextEntry(c.timeline) && fm(Approach) == TextEntry(c.approach)
    && fm(Challenges) == ListEntry(c.challenges) && fm(Solutions) == ListEntry(c.solutions)
    && fm(Outcomes) == ListEntry(c.outcomes) && fm(ArchitectureDiagram) == TextEntry(c.architectureDiagram)
    && fm(CodeSnippets) == (if c.codeSnippets.Some? then Some(SnippetsJson(c.codeSnippets.value)) else None)
    && fm(Gallery) == ListEntry(c.gallery) && fm(VideoUrl) == TextEntry(c.videoUrl)
  }

  /** `fm` holds each declared field of the project `p` under its key, as a file written from `p` would. */
  ghost predicate WritesProject(fm: FrontMatter, p: Project) {
    fm(Id) == Some(Text(p.id)) && fm(Title) == Some(Text(p.title))
    && fm(Description) == Some(Text(p.description)) && fm(Image) == Some(Text(p.image))
    && fm(TechStack) == Some(TextList(p.techStack))
    && fm(LiveUrl) == TextEntry(p.liveUrl) && fm(GithubUrl) == TextEntry(p.githubUrl)
    && fm(Featured) == Some(Flag(p.featured)) && fm(Category) == TextEntry(p.category)
    && fm(Complexity) == (if p.complexity.Some? then Some(Text(LevelName(p.complexity.value))) else None)
    && fm(Date) == DateEntry(p.date)
    && WritesCaseStudy(fm, p.caseStudy)
    && fm(VideoPlatform) == Some(Text(PlatformName(p.videoPlatform)))
  }

  /** The case-study fields written out under their keys are read back unchanged. */
  lemma CaseStudyRoundTrip(fm: FrontMatter, c: CaseStudy)
    requires WritesCaseStudy(fm, c)
    ensures ParseCaseStudy(fm) == Success(c)
  {
    assert ParseNarrative(fm) == Success((c.problemStatement, c.role, c.timeline, c.approach)) by {
      assert OptionalText(fm, ProblemStatement) == Success(c.problemStatement);
      assert OptionalText(fm, Role) == Success(c.role);
      assert OptionalText(fm, Timeline) == Success(c.timeline);
      assert OptionalText(fm, Approach) == Success(c.approach);
    }
    assert ParseFindings(fm) == Success((c.challenges, c.solutions, c.outcomes)) by {
      assert OptionalList(fm, Challenges) == Success(c.challenges);
      assert OptionalList(fm, Solutions) == Success(c.solutions);
      assert OptionalList(fm, Outcomes) == Success(c.outcomes);
    }
    assert ParseMedia(fm) == Success((c.architectureDiagram, c.codeSnippets, c.gallery, c.videoUrl)) by {
      assert OptionalText(fm, ArchitectureDiagram) == Success(c.architectureDiagram);
      assert OptionalSnippets(fm, CodeSnippets) == Success(c.codeSnippets);
      assert OptionalList(fm, Gallery) == Success(c.gallery);
      assert OptionalText(fm, VideoUrl) == Success(c.videoUrl);
    }
  }

  lemma ListingRoundTrip(p: Project, fm: FrontMatter)
    requires WritesProject(fm, p)
    ensures ParseProjectRequired(fm) == Success((p.id, p.title, p.description, p.image, p.techStack))
    ensures ParseListing(fm) == Success((p.liveUrl, p.githubUrl, p.featured, p.category, p.complexity, p.date))
  {
    assert RequiredText(fm, Id) == Success(p.id);
    assert RequiredText(fm, Title) == Success(p.title);
    assert RequiredText(fm, Description) == Success(p.description);
    assert RequiredText(fm, Image) == Success(p.image);
    assert RequiredList(fm, TechStack) == Success(p.techStack);
    assert OptionalText(fm, LiveUrl) == Success(p.liveUrl);
    assert OptionalText(fm, GithubUrl) == Success(p.githubUrl);
    assert FlagOr(fm, Featured, false) == Success(p.featured);
    assert OptionalText(fm, Category) == Success(p.category);
    assert OptionalLevel(fm, Complexity) == Success(p.complexity) by {
      if p.complexity.Some? {
        LevelNames(p.complexity.value, "");
      }
    }
    assert OptionalDate(fm, Date) == Success(p.date);
  }

  /** A project is assembled from its parsed field groups and the computed fields. */
  lemma AssembleProject(p: Project, doc: RawDocument)
    requires ParseProjectRequired(doc.frontMatter) == Success((p.id, p.title, p.description, p.image, p.techStack))
    requires ParseListing(doc.frontMatter) == Success((p.liveUrl, p.githubUrl, p.featured, p.category, p.complexity, p.date))
    requires ParseCaseStudy(doc.frontMatter) == Success(p.caseStudy)
    requires PlatformOr(doc.frontMatter, VideoPlatform, YouTube) == Success(p.videoPlatform)
    ensures ParseProject(doc)
      == Success(p.(slug := Slug(doc.flattenedPath, ProjectsDir), readingTime := ReadingTime(doc.body)))
  {
  }

  /**
    Writing out a project's declared fields and reading them back loses
    nothing; the computed fields are recomputed from the path and body.
   */
  lemma ProjectRoundTrip(p: Project, doc: RawDocument)
    requires WritesProject(doc.frontMatter, p)
    ensures ParseProject(doc)
      == Success(p.(slug := Slug(doc.flattenedPath, ProjectsDir), readingTime := ReadingTime(doc.body)))
  {
    ListingRoundTrip(p, doc.frontMatter);
    CaseStudyRoundTrip(doc.frontMatter, p.caseStudy);
    assert PlatformOf(PlatformName(p.videoPlatform)) == Some(p.videoPlatform);
    AssembleProject(p, doc);
  }

  /* ---------- BlogPost ---------- */

  datatype BlogPost = BlogPost(
    title: string, description: string, image: string, publishedAt: int,
    updatedAt: Option<int>, tags: Option<seq<string>>, featured: bool, draft: bool,
    author: Option<string>,
    slug: string, readingTime: int, excerpt: string)

  const BlogPostRequired: set<Key> := {Title, Description, Image, PublishedAt}

  /** A blog post file: four required fields; `featured` and `draft` default to false. */
  function ParseBlogPost(doc: RawDocument): (r: Result<BlogPost, SchemaError>)
    ensures r.Success? ==> forall k :: k in BlogPostRequired ==> doc.frontMatter(k).Some?
    ensures r.Success? && doc.frontMatter(Featured).None? ==> !r.value.featured
    ensures r.Success? && doc.frontMatter(Draft).None? ==> !r.value.draft
    ensures r.Success? ==>
      r.value.slug == Slug(doc.flattenedPath, BlogDir) && r.value.excerpt == Excerpt(doc.body) && r.value.readingTime >= 1
  {
    var fm := doc.frontMatter;
    var title :- RequiredText(fm, Title);
    var description :- RequiredText(fm, Description);
    var image :- RequiredText(fm, Image);
    var publishedAt :- RequiredDate(fm, PublishedAt);
    var updatedAt :- OptionalDate(fm, UpdatedAt);
    var tags :- OptionalList(fm, Tags);
    var featured :- FlagOr(fm, Featured, false);
    var draft :- FlagOr(fm, Draft, false);
    var author :- OptionalAuthor(fm, Author);
    Success(BlogPost(title, description, image, publishedAt, updatedAt, tags, featured, draft,
      author, Slug(doc.flattenedPath, BlogDir), ReadingTime(doc.body), Excerpt(doc.body)))
  }

  /** `fm` holds each declared field of the post `p` under its key. */
  ghost predicate WritesBlogPost(fm: FrontMatter, p: BlogPost) {
    fm(Title) == Some(Text(p.title)) && fm(Description) == Some(Text(p.description))
    && fm(Image) == Some(Text(p.image)) && fm(PublishedAt) == Some(DateValue(p.publishedAt))
    && fm(UpdatedAt) == DateEntry(p.updatedAt) && fm(Tags) == ListEntry(p.tags)
    && fm(Featured) == Some(Flag(p.featured)) && fm(Draft) == Some(Flag(p.draft))
    && fm(Author) == (if p.author.Some? then Some(AuthorJson(p.author.value)) else None)
  }

  /** Writing out a post's declared fields and reading them back loses nothing. */
  lemma BlogPostRoundTrip(p: BlogPost, doc: RawDocument)
    requires WritesBlogPost(doc.frontMatter, p)
    ensures ParseBlogPost(doc) == Success(p.(slug := Slug(doc.flattenedPath, BlogDir),
      readingTime := ReadingTime(doc.body), excerpt := Excerpt(doc.body)))
  {
    var fm := doc.frontMatter;
    assert RequiredText(fm, Title) == Success(p.title);
    assert RequiredText(fm, Description) == Success(p.description);
    assert RequiredText(fm, Image) == Success(p.image);
    assert RequiredDate(fm, PublishedAt) == Success(p.publishedAt);
    assert OptionalDate(fm, UpdatedAt) == Success(p.updatedAt);
    assert OptionalList(fm, Tags) == Success(p.tags);
    assert FlagOr(fm, Featured, false) == Success(p.featured);
    assert FlagOr(fm, Draft, false) == Success(p.draft);
    assert OptionalAuthor(fm, Author) == Success(p.author);
  }

  /* ---------- Certification ---------- */

  datatype Certification = Certification(
    title: string, issuer: string, issueDate: int, expiryDate: Option<int>,
    credentialId: Option<string>, credentialUrl: Option<string>, image: string,
    skills: Option<seq<string>>, featured: bool,
    slug: string, isExpired: bool, daysUntilExpiry: int)

  const CertificationRequired: set<Key> := {Title, Issuer, IssueDate, Image}

  /**
    A certification file, with its expiry fields computed at build time `now`:
    four required fields, `featured` defaults to false.
   */
  function ParseCertification(doc: RawDocument, now: int): (r: Result<Certification, SchemaError>)
    ensures r.Success? ==> forall k :: k in CertificationRequired ==> doc.frontMatter(k).Some?
    ensures r.Success? && doc.frontMatter(Featured).None? ==> !r.value.featured
    ensures r.Success? && doc.frontMatter(ExpiryDate).None? ==> !r.value.isExpired && r.value.daysUntilExpiry == -1
    ensures r.Success? ==> r.value.slug == Slug(doc.flattenedPath, CertificationsDir)
  {
    var fm := doc.frontMatter;
    var title :- RequiredText(fm, Title);
    var issuer :- RequiredText(fm, Issuer);
    var issueDate :- RequiredDate(fm, IssueDate);
    var expiryDate :- OptionalDate(fm, ExpiryDate);
    var credentialId :- OptionalText(fm, CredentialId);
    var credentialUrl :- OptionalText(fm, CredentialUrl);
    var image :- RequiredText(fm, Image);
    var skills :- OptionalList(fm, Skills);
    var featured :- FlagOr(fm, Featured, false);
    Success(Certification(title, issuer, issueDate, expiryDate, credentialId, credentialUrl, image,
      skills, featured, Slug(doc.flattenedPath, CertificationsDir),
      IsExpired(expiryDate, now), DaysUntilExpiry(expiryDate, now)))
  }

  /** `fm` holds each declared field of the certification `c` under its key. */
  ghost predicate WritesCertification(fm: FrontMatter, c: Certification) {
    fm(Title) == Some(Text(c.title)) && fm(Issuer) == Some(Text(c.issuer))
    && fm(IssueDate) == Some(DateValue(c.issueDate)) && fm(ExpiryDate) == DateEntry(c.expiryDate)
    && fm(CredentialId) == TextEntry(c.credentialId) && fm(CredentialUrl) == TextEntry(c.credentialUrl)
    && fm(Image) == Some(Text(c.image)) && fm(Skills) == ListEntry(c.skills)
    && fm(Featured) == Some(Flag(c.featured))
  }

  /** Writing out a certification's declared fields and reading them back loses nothing. */
  lemma CertificationRoundTrip(c: Certification, doc: RawDocument, now: int)
    requires WritesCertification(doc.frontMatter, c)
    ensures ParseCertification(doc, now) == Success(c.(slug := Slug(doc.flattenedPath, CertificationsDir),
      isExpired := IsExpired(c.expiryDate, now), daysUntilExpiry := DaysUntilExpiry(c.expiryDate, now)))
  {
    var fm := doc.frontMatter;
    assert RequiredText(fm, Title) == Success(c.title);
    assert RequiredText(fm, Issuer) == Success(c.issuer);
    assert RequiredDate(fm, IssueDate) == Success(c.issueDate);
    assert OptionalDate(fm, ExpiryDate) == Success(c.expiryDate);
    assert OptionalText(fm, CredentialId) == Success(c.credentialId);
    assert OptionalText(fm, CredentialUrl) == Success(c.credentialUrl);
    assert RequiredText(fm, Image) == Success(c.image);
    assert OptionalList(fm, Skills) == Success(c.skills);
    assert FlagOr(fm, Featured, false) == Success(c.featured);
  }
}
