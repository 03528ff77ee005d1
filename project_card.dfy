/**
  The project card's tech badges: the keyword-table classifier that picks a
  badge colour for each tech, and the badge's title text.
 */
module ProjectCard {
  import opened JsString

  datatype TechCategory = Frontend | Backend | Database | Cloud | Tool | Other

  /** The category name as it appears in `data-category` and the badge title. */
  function CategoryName(c: TechCategory): string {
    match c
    case Frontend => "frontend"
    case Backend => "backend"
    case Database => "database"
    case Cloud => "cloud"
    case Tool => "tool"
    case Other => "default"
  }

  const FrontendTechs: seq<string> := [
    "react", "vue.js", "angular", "next.js", "nuxt.js", "svelte", "typescript", "javascript",
    "html", "css", "tailwind css", "sass", "scss", "material-ui", "chakra ui", "styled-components"]

  const BackendTechs: seq<string> := [
    "node.js", "express.js", "fastapi", "django", "flask", "spring boot", "laravel", "ruby on rails",
    "asp.net", "php", "python", "java", "c#", "go", "rust"]

  const DatabaseTechs: seq<string> := [
    "postgresql", "mysql", "mongodb", "redis", "sqlite", "firebase", "supabase", "prisma",
    "typeorm", "sequelize"]

  const CloudTechs: seq<string> := [
    "aws", "azure", "gcp", "vercel", "netlify", "heroku", "docker", "kubernetes", "terraform"]

  const ToolTechs: seq<string> := [
    "webpack", "vite", "rollup", "babel", "eslint", "prettier", "jest", "cypress", "playwright",
    "storybook", "figma", "adobe xd"]

  /** `getTechCategory`: the first list holding the lower-cased tech, checked in a fixed order. */
  function GetTechCategory(tech: string): TechCategory {
    var t := Lower(tech);
    if t in FrontendTechs then Frontend
    else if t in BackendTechs then Backend
    else if t in DatabaseTechs then Database
    else if t in CloudTechs then Cloud
    else if t in ToolTechs then Tool
    else Other
  }

  lemma DisjointFrontendBackend()
    ensures forall t :: t in FrontendTechs ==> t !in BackendTechs
  {
  }

  lemma DisjointFrontendDatabase()
    ensures forall t :: t in FrontendTechs ==> t !in DatabaseTechs
  {
  }

  lemma DisjointFrontendCloud()
    ensures forall t :: t in FrontendTechs ==> t !in CloudTechs
  {
  }

  lemma DisjointFrontendTool()
    ensures forall t :: t in FrontendTechs ==> t !in ToolTechs
  {
  }

  lemma DisjointBackendDatabase()
    ensures forall t :: t in BackendTechs ==> t !in DatabaseTechs
  {
  }

  lemma DisjointBackendCloud()
    ensures forall t :: t in BackendTechs ==> t !in CloudTechs
  {
  }

  lemma DisjointBackendTool()
    ensures forall t :: t in BackendTechs ==> t !in ToolTechs
  {
  }

  lemma DisjointDatabaseCloud()
    ensures forall t :: t in DatabaseTechs ==> t !in CloudTechs
  {
  }

  lemma DisjointDatabaseTool()
    ensures forall t :: t in DatabaseTechs ==> t !in ToolTechs
  {
  }

  lemma DisjointCloudTool()
    ensures forall t :: t in CloudTechs ==> t !in ToolTechs
  {
  }

  /** No keyword is in two lists, so the order the lists are checked in never decides anything. */
  lemma ListsDisjoint()
    ensures forall t :: t in FrontendTechs ==> t !in BackendTechs && t !in DatabaseTechs && t !in CloudTechs && t !in ToolTechs
    ensures forall t :: t in BackendTechs ==> t !in DatabaseTechs && t !in CloudTechs && t !in ToolTechs
    ensures forall t :: t in DatabaseTechs ==> t !in CloudTechs && t !in ToolTechs
    ensures forall t :: t in CloudTechs ==> t !in ToolTechs
  {
    DisjointFrontendBackend();
    DisjointFrontendDatabase();
    DisjointFrontendCloud();
    DisjointFrontendTool();
    DisjointBackendDatabase();
    DisjointBackendCloud();
    DisjointBackendTool();
    DisjointDatabaseCloud();
    DisjointDatabaseTool();
    DisjointCloudTool();
  }

  /** The label a list gives its keywords. */
  function ListOf(c: TechCategory): seq<string>
    requires c != Other
  {
    match c
    case Frontend => FrontendTechs
    case Backend => BackendTechs
    case Database => DatabaseTechs
    case Cloud => CloudTechs
    case Tool => ToolTechs
  }

  /**
    A tech gets a category iff its lower-cased form is, exactly, a keyword
    of that category's list, and `default` iff it is in no list.
   */
  lemma GetTechCategorySpec(tech: string, c: TechCategory)
    ensures c != Other ==> (GetTechCategory(tech) == c <==> Lower(tech) in ListOf(c))
    ensures GetTechCategory(tech) == Other <==>
      var t := Lower(tech);
      t !in FrontendTechs && t !in BackendTechs && t !in DatabaseTechs && t !in CloudTechs && t !in ToolTechs
  {
    ListsDisjoint();
  }

  /** Classification ignores the case of the ASCII letters. */
  lemma GetTechCategoryIgnoresCase(tech: string)
    ensures GetTechCategory(Lower(tech)) == GetTechCategory(tech)
  {
    LowerIdempotent(tech);
  }

  /** `React` and `TypeScript` are frontend techs and `Jest` is a tool, whatever their case. */
  lemma GetTechCategoryExamples()
    ensures GetTechCategory("React") == Frontend
    ensures GetTechCategory("TypeScript") == Frontend
    ensures GetTechCategory("Jest") == Tool
  {
    ReactIsFrontend();
    TypeScriptIsFrontend();
    JestIsTool();
  }

  lemma ReactIsFrontend()
    ensures GetTechCategory("React") == Frontend
  {
    assert Lower("React") == "react";
  }

  lemma TypeScriptIsFrontend()
    ensures GetTechCategory("TypeScript") == Frontend
  {
    assert FrontendTechs[6] == "typescript";
    LowerTypeScript();
    FrontendByLowered("TypeScript", 6);
  }

  /** A tech whose lower-cased form is the `k`-th frontend keyword is a frontend tech. */
  lemma FrontendByLowered(tech: string, k: nat)
    requires k < |FrontendTechs| && Lower(tech) == FrontendTechs[k]
    ensures GetTechCategory(tech) == Frontend
  {
  }

  lemma LowerTypeScript()
    ensures Lower("TypeScript") == "typescript"
  {
    var s, t := "TypeScript", "typescript";
    assert LowerChar(s[0]) == t[0] && LowerChar(s[4]) == t[4];
    assert forall i :: 0 <= i < |s| && i != 0 && i != 4 ==> s[i] == t[i] && !('A' <= s[i] <= 'Z');
    LowerEach(s, t);
  }

  lemma LowerEach(s: string, t: string)
    requires |s| == |t| && forall i :: 0 <= i < |s| ==> LowerChar(s[i]) == t[i]
    ensures Lower(s) == t
  {
  }

  lemma JestIsTool()
    ensures GetTechCategory("Jest") == Tool
  {
    var t := Lower("Jest");
    assert t == "jest";
    assert t !in FrontendTechs;
    assert t !in BackendTechs;
    assert t !in DatabaseTechs;
    assert t !in CloudTechs;
    assert t == ToolTechs[6];
  }

  lemma FrontendShape(t: string)
    requires |t| == 12 && t[0] == 'r'
    ensures t !in FrontendTechs
  {
  }

  lemma BackendShape(t: string)
    requires |t| == 12 && t[0] == 'r'
    ensures t !in BackendTechs
  {
  }

  lemma DatabaseShape(t: string)
    requires |t| == 12 && t[0] == 'r'
    ensures t !in DatabaseTechs
  {
  }

  lemma CloudShape(t: string)
    requires |t| == 12 && t[0] == 'r'
    ensures t !in CloudTechs
  {
  }

  lemma ToolShape(t: string)
    requires |t| == 12 && t[0] == 'r'
    ensures t !in ToolTechs
  {
  }

  /** No keyword has twelve characters and starts with `r` (the only twelve-character one is `tailwind css`). */
  lemma NoKeywordOfLength12StartingWithR(t: string)
    requires |t| == 12 && t[0] == 'r'
    ensures t !in FrontendTechs && t !in BackendTechs && t !in DatabaseTechs
    ensures t !in CloudTechs && t !in ToolTechs
  {
    FrontendShape(t);
    BackendShape(t);
    DatabaseShape(t);
    CloudShape(t);
    ToolShape(t);
  }

  /** Matching is by whole keyword, not substring: `React Native` is in no list. */
  lemma ReactNativeIsDefault()
    ensures GetTechCategory("React Native") == Other
  {
    var t := Lower("React Native");
    assert |t| == 12 && t[0] == 'r';
    NoKeywordOfLength12StartingWithR(t);
  }

  /** The badge's title: `<tech> - <category> technology`. */
  function BadgeTitle(tech: string): (r: string)
    ensures StartsWith(r, tech + " - ")
    ensures r[|tech| + 3..] == CategoryName(GetTechCategory(tech)) + " technology"
  {
    var r := tech + " - " + CategoryName(GetTechCategory(tech)) + " technology";
    assert r[..|tech| + 3] == tech + " - ";
    r
  }
}
