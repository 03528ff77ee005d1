/**
  The content query layer: validators that test a document object's required
  fields for truthiness, the featured / published / valid filters, and the
  case-insensitive search over projects and blog posts.
 */
module ContentLib {
  import opened Wrappers
  import opened JsString
  import opened JsArray
  import opened ContentSchema

  /** A property value of a document object, as JavaScript's truthiness sees it. */
  datatype JsValue =
    | Undefined
    | Null
    | Bool(b: bool)
    | Num(n: int)
    | Str(s: string)
    | StrList(items: seq<string>)
    | DateText(ms: int)
    | Obj

  /** JavaScript truthiness; every array is truthy, empty or not, and a date field's ISO text is never empty. */
  predicate Truthy(v: JsValue) {
    match v
    case Undefined => false
    case Null => false
    case Bool(b) => b
    case Num(n) => n != 0
    case Str(s) => s != ""
    case StrList(_) => true
    case DateText(_) => true
    case Obj => true
  }

  /** A document object of any shape: the value of each property name. */
  type JsObject = string -> JsValue

  /** `fields.every(field => obj[field])`. */
  function Every(fields: seq<string>, obj: JsObject): (r: bool)
    ensures r <==> forall i :: 0 <= i < |fields| ==> Truthy(obj(fields[i]))
  {
    if fields == [] then true
    else
      assert forall i :: 1 <= i < |fields| ==> fields[i] == fields[1..][i - 1];
      Truthy(obj(fields[0])) && Every(fields[1..], obj)
  }

  const ProjectRequiredFields: seq<string> := ["id", "title", "description", "image", "techStack"]
  const BlogPostRequiredFields: seq<string> := ["title", "description", "image", "publishedAt"]
  const CertificationRequiredFields: seq<string> := ["title", "issuer", "issueDate", "image"]

  predicate ValidateProject(obj: JsObject) {
    Every(ProjectRequiredFields, obj)
  }

  predicate ValidateBlogPost(obj: JsObject) {
    Every(BlogPostRequiredFields, obj)
  }

  predicate ValidateCertification(obj: JsObject) {
    Every(CertificationRequiredFields, obj)
  }

  /** A project valid for the validator has all five required properties truthy. */
  lemma ValidateProjectIff(obj: JsObject)
    ensures ValidateProject(obj) <==>
      Truthy(obj("id")) && Truthy(obj("title")) && Truthy(obj("description"))
      && Truthy(obj("image")) && Truthy(obj("techStack"))
  {
  }

  lemma ValidateBlogPostIff(obj: JsObject)
    ensures ValidateBlogPost(obj) <==>
      Truthy(obj("title")) && Truthy(obj("description")) && Truthy(obj("image")) && Truthy(obj("publishedAt"))
  {
  }

  lemma ValidateCertificationIff(obj: JsObject)
    ensures ValidateCertification(obj) <==>
      Truthy(obj("title")) && Truthy(obj("issuer")) && Truthy(obj("issueDate")) && Truthy(obj("image"))
  {
  }

  function OptionText(v: Option<string>): JsValue {
    if v.Some? then Str(v.value) else Undefined
  }

  function OptionList(v: Option<seq<string>>): JsValue {
    if v.Some? then StrList(v.value) else Undefined
  }

  function OptionDate(v: Option<int>): JsValue {
    if v.Some? then DateText(v.value) else Undefined
  }

  /** The document object of a built project (the properties the query layer reads). */
  function ProjectObject(p: Project): JsObject {
    f =>
      if f == "id" then Str(p.id)
      else if f == "title" then Str(p.title)
      else if f == "description" then Str(p.description)
      else if f == "image" then Str(p.image)
      else if f == "techStack" then StrList(p.techStack)
      else if f == "featured" then Bool(p.featured)
      else if f == "category" then OptionText(p.category)
      else if f == "slug" then Str(p.slug)
      else Undefined
  }

  function BlogPostObject(p: BlogPost): JsObject {
    f =>
      if f == "title" then Str(p.title)
      else if f == "description" then Str(p.description)
      else if f == "image" then Str(p.image)
      else if f == "publishedAt" then DateText(p.publishedAt)
      else if f == "tags" then OptionList(p.tags)
      else if f == "draft" then Bool(p.draft)
      else if f == "featured" then Bool(p.featured)
      else if f == "slug" then Str(p.slug)
      else Undefined
  }

  function CertificationObject(c: Certification): JsObject {
    f =>
      if f == "title" then Str(c.title)
      else if f == "issuer" then Str(c.issuer)
      else if f == "issueDate" then DateText(c.issueDate)
      else if f == "expiryDate" then OptionDate(c.expiryDate)
      else if f == "image" then Str(c.image)
      else if f == "skills" then OptionList(c.skills)
      else if f == "featured" then Bool(c.featured)
      else if f == "slug" then Str(c.slug)
      else Undefined
  }

  /**
    On a built project the validator only rejects empty texts: `techStack` is
    an array, truthy even when empty.
   */
  lemma ValidateBuiltProject(p: Project)
    ensures ValidateProject(ProjectObject(p)) <==>
      p.id != "" && p.title != "" && p.description != "" && p.image != ""
  {
    ValidateProjectIff(ProjectObject(p));
  }

  /** On a built post the date is always present, so only empty texts are rejected. */
  lemma ValidateBuiltBlogPost(p: BlogPost)
    ensures ValidateBlogPost(BlogPostObject(p)) <==> p.title != "" && p.description != "" && p.image != ""
  {
    ValidateBlogPostIff(BlogPostObject(p));
  }

  lemma ValidateBuiltCertification(c: Certification)
    ensures ValidateCertification(CertificationObject(c)) <==> c.title != "" && c.issuer != "" && c.image != ""
  {
    ValidateCertificationIff(CertificationObject(c));
  }

  /* ---------- filters ---------- */

  predicate IsFeatured(p: Project) {
    p.featured
  }

  predicate IsPublished(p: BlogPost) {
    !p.draft
  }

  predicate IsValidCertification(c: Certification) {
    ValidateCertification(CertificationObject(c))
  }

  function GetFeaturedProjects(all: seq<Project>): seq<Project> {
    Filter(all, IsFeatured)
  }

  function GetPublishedBlogPosts(all: seq<BlogPost>): seq<BlogPost> {
    Filter(all, IsPublished)
  }

  function GetValidCertifications(all: seq<Certification>): seq<Certification> {
    Filter(all, IsValidCertification)
  }

  /**
    The featured projects are exactly the featured ones, each as many times
    as in the collection, in collection order.
   */
  lemma FeaturedProjects(all: seq<Project>, more: seq<Project>)
    ensures forall p :: multiset(GetFeaturedProjects(all))[p] == if p.featured then multiset(all)[p] else 0
    ensures GetFeaturedProjects(all + more) == GetFeaturedProjects(all) + GetFeaturedProjects(more)
  {
    FilterMultiset(all, IsFeatured);
    FilterAppend(all, more, IsFeatured);
  }

  /** Publishing removes exactly the drafts and keeps the order. */
  lemma PublishedBlogPosts(all: seq<BlogPost>, more: seq<BlogPost>)
    ensures forall p :: multiset(GetPublishedBlogPosts(all))[p] == if p.draft then 0 else multiset(all)[p]
    ensures GetPublishedBlogPosts(all + more) == GetPublishedBlogPosts(all) + GetPublishedBlogPosts(more)
  {
    FilterMultiset(all, IsPublished);
    FilterAppend(all, more, IsPublished);
  }

  /** The valid certifications are those with a non-empty title, issuer and image, in order. */
  lemma ValidCertifications(all: seq<Certification>, more: seq<Certification>)
    ensures forall c :: c in GetValidCertifications(all) <==>
      c in all && c.title != "" && c.issuer != "" && c.image != ""
    ensures GetValidCertifications(all + more) == GetValidCertifications(all) + GetValidCertifications(more)
  {
    forall c: Certification {
      ValidateBuiltCertification(c);
    }
    FilterAppend(all, more, IsValidCertification);
  }

  /* ---------- search ---------- */

  /** Whether a project matches an already lower-cased query. */
  predicate ProjectMatches(p: Project, q: string) {
    Includes(Lower(p.title), q) || Includes(Lower(p.description), q)
    || Any(p.techStack, tech => Includes(Lower(tech), q))
  }

  /** Whether a post matches an already lower-cased query; a post without tags has no tag to match. */
  predicate BlogPostMatches(p: BlogPost, q: string) {
    Includes(Lower(p.title), q) || Includes(Lower(p.description), q)
    || (p.tags.Some? && Any(p.tags.value, tag => Includes(Lower(tag), q)))
  }

  function ProjectMatcher(q: string): Project -> bool {
    p => ProjectMatches(p, q)
  }

  function BlogPostMatcher(q: string): BlogPost -> bool {
    p => BlogPostMatches(p, q)
  }

  function SearchProjects(all: seq<Project>, query: string): seq<Project> {
    Filter(all, ProjectMatcher(Lower(query)))
  }

  function SearchBlogPosts(all: seq<BlogPost>, query: string): seq<BlogPost> {
    Filter(all, BlogPostMatcher(Lower(query)))
  }

  /**
    A project is found iff the lower-cased query occurs in its lower-cased
    title, description or one of its techs.
   */
  lemma SearchProjectsSpec(all: seq<Project>, query: string)
    ensures forall p :: p in SearchProjects(all, query) <==>
      p in all
      && (Includes(Lower(p.title), Lower(query)) || Includes(Lower(p.description), Lower(query))
        || exists i :: 0 <= i < |p.techStack| && Includes(Lower(p.techStack[i]), Lower(query)))
  {
  }

  /** Search results keep collection order. */
  lemma SearchProjectsOrder(all: seq<Project>, more: seq<Project>, query: string)
    ensures SearchProjects(all + more, query) == SearchProjects(all, query) + SearchProjects(more, query)
  {
    FilterAppend(all, more, ProjectMatcher(Lower(query)));
  }

  /** The empty query finds every project, in order. */
  lemma {:induction false} SearchProjectsEmptyQuery(all: seq<Project>)
    ensures SearchProjects(all, "") == all
  {
    forall i | 0 <= i < |all| ensures ProjectMatches(all[i], Lower("")) {
      IncludesEmpty(Lower(all[i].title));
    }
    FilterAll(all, ProjectMatcher(Lower("")));
  }

  /** Searching is case-insensitive: lower-casing the query first finds the same projects. */
  lemma SearchProjectsCaseInsensitive(all: seq<Project>, query: string)
    ensures SearchProjects(all, Lower(query)) == SearchProjects(all, query)
  {
    LowerIdempotent(query);
  }

  /** A post is found iff the query occurs in its title, description or one of its tags. */
  lemma SearchBlogPostsSpec(all: seq<BlogPost>, query: string)
    ensures forall p :: p in SearchBlogPosts(all, query) <==>
      p in all
      && (Includes(Lower(p.title), Lower(query)) || Includes(Lower(p.description), Lower(query))
        || (p.tags.Some? && exists i :: 0 <= i < |p.tags.value| && Includes(Lower(p.tags.value[i]), Lower(query))))
  {
  }

  /** A post without tags is found only through its title or description. */
  lemma SearchUntaggedPost(p: BlogPost, query: string)
    requires p.tags.None?
    ensures p in SearchBlogPosts([p], query) <==>
      Includes(Lower(p.title), Lower(query)) || Includes(Lower(p.description), Lower(query))
  {
  }

  /** Search results keep collection order. */
  lemma SearchBlogPostsOrder(all: seq<BlogPost>, more: seq<BlogPost>, query: string)
    ensures SearchBlogPosts(all + more, query) == SearchBlogPosts(all, query) + SearchBlogPosts(more, query)
  {
    FilterAppend(all, more, BlogPostMatcher(Lower(query)));
  }

  /** The empty query finds every post, in order. */
  lemma {:induction false} SearchBlogPostsEmptyQuery(all: seq<BlogPost>)
    ensures SearchBlogPosts(all, "") == all
  {
    forall i | 0 <= i < |all| ensures BlogPostMatches(all[i], Lower("")) {
      IncludesEmpty(Lower(all[i].title));
    }
    FilterAll(all, BlogPostMatcher(Lower("")));
  }
}
