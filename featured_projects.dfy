/**
  The featured-projects section: the category and tech-stack filter, the
  comparator built from the chosen sort key and order, the stable in-place
  sort of the freshly filtered array, and the category and tech lists
  offered to the filter panel.
 */
module FeaturedProjects {
  import opened Wrappers
  import opened JsArray
  import opened JsSort

  datatype Complexity = Beginner | Intermediate | Advanced

  /** A project as the section lists it; `date` is the parsed timestamp in ms, absent when not given. */
  datatype Project = Project(
    id: string,
    title: string,
    description: string,
    image: string,
    techStack: seq<string>,
    liveUrl: Option<string>,
    githubUrl: Option<string>,
    featured: bool,
    category: Option<string>,
    complexity: Option<Complexity>,
    date: Option<int>)

  datatype SortKey = ByTitle | ByDate | ByComplexity
  datatype SortOrder = Asc | Desc

  datatype FilterOptions = FilterOptions(
    category: string,
    techStack: seq<string>,
    sortBy: SortKey,
    sortOrder: SortOrder)

  /** The filters the section starts with: every category, no tech, newest first. */
  const InitialFilters := FilterOptions("all", [], ByDate, Desc)

  /** 2023-01-01T00:00:00Z in ms, the date a project without one sorts as. */
  const FallbackDate: int := 1672531200000

  /* ---------- filter ---------- */

  /** The category test: `all` lets everything through, anything else needs the same category. */
  predicate CategoryPasses(p: Project, category: string) {
    !(category != "all" && p.category != Some(category))
  }

  /** The tech test: an empty selection lets everything through, otherwise one shared tech is enough. */
  predicate TechPasses(p: Project, selected: seq<string>) {
    !(|selected| > 0 && !Any(selected, tech => tech in p.techStack))
  }

  predicate Matches(p: Project, f: FilterOptions) {
    CategoryPasses(p, f.category) && TechPasses(p, f.techStack)
  }

  function Matcher(f: FilterOptions): Project -> bool {
    p => Matches(p, f)
  }

  /** Whether a project passes the filter, stated directly from the two rules. */
  lemma MatchesIff(p: Project, f: FilterOptions)
    ensures Matches(p, f) <==>
      (f.category == "all" || p.category == Some(f.category))
      && (f.techStack == [] || exists i :: 0 <= i < |f.techStack| && f.techStack[i] in p.techStack)
  {
  }

  /* ---------- comparator ---------- */

  /** The date a project sorts by. */
  function DateOf(p: Project): int {
    p.date.GetOr(FallbackDate)
  }

  /** The complexity rank a project sorts by; a missing complexity ranks as intermediate. */
  function Rank(p: Project): (r: int)
    ensures 1 <= r <= 3
  {
    match p.complexity.GetOr(Intermediate)
    case Beginner => 1
    case Intermediate => 2
    case Advanced => 3
  }

  /** The ranks are fixed: beginner before intermediate before advanced, missing as intermediate. */
  lemma RankOrder(p: Project, q: Project)
    ensures p.complexity == Some(Beginner) && q.complexity != Some(Beginner) ==> Rank(p) < Rank(q)
    ensures p.complexity == Some(Advanced) && q.complexity != Some(Advanced) ==> Rank(p) > Rank(q)
    ensures p.complexity.None? ==> Rank(p) == Rank(p.(complexity := Some(Intermediate)))
  {
  }

  /** The comparison before the sort order is applied. */
  function Comparison(key: SortKey, localeCompare: (string, string) -> int, a: Project, b: Project): int {
    match key
    case ByTitle => localeCompare(a.title, b.title)
    case ByDate => DateOf(a) - DateOf(b)
    case ByComplexity => Rank(a) - Rank(b)
  }

  /** The comparator handed to `sort`: the comparison, negated for `desc`. */
  function Comparator(f: FilterOptions, localeCompare: (string, string) -> int): (Project, Project) -> int {
    (a, b) =>
      var c := Comparison(f.sortBy, localeCompare, a, b);
      if f.sortOrder == Desc then -c else c
  }

  /** `desc` reverses the comparison in every case, ties included. */
  lemma DescNegates(f: FilterOptions, localeCompare: (string, string) -> int, a: Project, b: Project)
    ensures Comparator(f.(sortOrder := Desc), localeCompare)(a, b) == -Comparator(f.(sortOrder := Asc), localeCompare)(a, b)
    ensures Comparator(f.(sortOrder := Desc), localeCompare)(a, b) == 0 <==> Comparator(f.(sortOrder := Asc), localeCompare)(a, b) == 0
  {
  }

  /** With a consistent `localeCompare`, every comparator the section builds is consistent. */
  lemma ComparatorConsistent(f: FilterOptions, localeCompare: (string, string) -> int)
    requires Consistent(localeCompare)
    ensures Consistent(Comparator(f, localeCompare))
  {
    var c := Comparator(f, localeCompare);
    var asc := (a: Project, b: Project) => Comparison(f.sortBy, localeCompare, a, b);
    assert Consistent(asc) by {
      forall a: Project, b: Project, d: Project | asc(a, b) <= 0 && asc(b, d) <= 0
        ensures asc(a, d) <= 0
      {
        if f.sortBy == ByTitle {
          assert localeCompare(a.title, b.title) <= 0 && localeCompare(b.title, d.title) <= 0;
        }
      }
    }
    if f.sortOrder == Desc {
      forall a: Project, b: Project, d: Project | c(a, b) <= 0 && c(b, d) <= 0
        ensures c(a, d) <= 0
      {
        assert asc(b, a) <= 0 && asc(d, b) <= 0;
      }
    } else {
      assert forall a, b :: c(a, b) == asc(a, b);
    }
  }

  /**
    The order a sorted result keeps between an earlier project `a` and a
    later project `b`, stated per key and direction.
   */
  ghost predicate InOrder(f: FilterOptions, localeCompare: (string, string) -> int, a: Project, b: Project) {
    match (f.sortBy, f.sortOrder)
    case (ByTitle, Asc) => localeCompare(a.title, b.title) <= 0
    case (ByTitle, Desc) => localeCompare(a.title, b.title) >= 0
    case (ByDate, Asc) => DateOf(a) <= DateOf(b)
    case (ByDate, Desc) => DateOf(a) >= DateOf(b)
    case (ByComplexity, Asc) => Rank(a) <= Rank(b)
    case (ByComplexity, Desc) => Rank(a) >= Rank(b)
  }

  /* ---------- filter, then sort ---------- */

  /** The projects shown for `filters`: the filtered projects, stably sorted by the comparator. */
  function Shown(projects: seq<Project>, f: FilterOptions, localeCompare: (string, string) -> int): seq<Project> {
    SortedBy(Filter(projects, Matcher(f)), Comparator(f, localeCompare))
  }

  /**
    `projects.filter(...)` then `filtered.sort(...)`: the filter builds a
    fresh array and the sort reorders that array in place, so the project
    list itself is never reordered.
   */
  method FilteredAndSortedProjects(projects: seq<Project>, f: FilterOptions, localeCompare: (string, string) -> int)
    returns (r: seq<Project>)
    ensures r == Shown(projects, f, localeCompare)
  {
    var kept := Filter(projects, Matcher(f));
    var filtered := new Project[|kept|](i requires 0 <= i < |kept| => kept[i]);
    assert filtered[..] == kept;
    SortInPlace(filtered, Comparator(f, localeCompare));
    r := filtered[..];
  }

  /** The shown projects are exactly the matching ones, each as often as in the list. */
  lemma ShownPermutation(projects: seq<Project>, f: FilterOptions, localeCompare: (string, string) -> int)
    ensures multiset(Shown(projects, f, localeCompare)) == multiset(Filter(projects, Matcher(f)))
    ensures forall p :: p in Shown(projects, f, localeCompare) <==> p in projects && Matches(p, f)
  {
    var kept := Filter(projects, Matcher(f));
    var r := Shown(projects, f, localeCompare);
    SortedByPermutation(kept, Comparator(f, localeCompare));
    forall p ensures p in r <==> p in projects && Matches(p, f) {
      assert p in r <==> p in multiset(r);
      assert p in kept <==> p in multiset(kept);
    }
  }

  /** The shown projects follow the chosen key in the chosen direction. */
  lemma ShownInOrder(projects: seq<Project>, f: FilterOptions, localeCompare: (string, string) -> int)
    requires Consistent(localeCompare)
    ensures forall i, j :: 0 <= i < j < |Shown(projects, f, localeCompare)| ==>
      InOrder(f, localeCompare, Shown(projects, f, localeCompare)[i], Shown(projects, f, localeCompare)[j])
  {
    var cmp := Comparator(f, localeCompare);
    var r := Shown(projects, f, localeCompare);
    ComparatorConsistent(f, localeCompare);
    SortedBySorted(Filter(projects, Matcher(f)), cmp);
    forall i, j | 0 <= i < j < |r| ensures InOrder(f, localeCompare, r[i], r[j]) {
      assert cmp(r[i], r[j]) <= 0;
      if f.sortBy == ByTitle && f.sortOrder == Desc {
        assert localeCompare(r[j].title, r[i].title) <= 0;
      }
    }
  }

  /**
    Projects the comparator calls equal keep their list order, in either
    direction (the sort is stable and `desc` keeps the same ties).
   */
  lemma ShownStable(projects: seq<Project>, f: FilterOptions, localeCompare: (string, string) -> int, x: Project)
    requires Consistent(localeCompare)
    ensures Ties(Shown(projects, f, localeCompare), x, Comparator(f, localeCompare))
         == Ties(Filter(projects, Matcher(f)), x, Comparator(f, localeCompare))
  {
    ComparatorConsistent(f, localeCompare);
    SortedByStable(Filter(projects, Matcher(f)), x, Comparator(f, localeCompare));
  }

  /** With category `all` and no tech selected, every project is shown. */
  lemma NoFilterShowsAll(projects: seq<Project>, f: FilterOptions, localeCompare: (string, string) -> int)
    requires f.category == "all" && f.techStack == []
    ensures multiset(Shown(projects, f, localeCompare)) == multiset(projects)
  {
    FilterAll(projects, Matcher(f));
    ShownPermutation(projects, f, localeCompare);
  }

  /* ---------- the lists offered to the filter panel ---------- */

  /** The categories given and non-empty (`.map(p => p.category).filter(Boolean)`), in order. */
  function PresentCategories(projects: seq<Project>): (r: seq<string>)
    ensures forall c :: c in r <==> c != "" && exists i :: 0 <= i < |projects| && projects[i].category == Some(c)
  {
    if projects == [] then []
    else
      assert forall i :: 1 <= i < |projects| ==> projects[i] == projects[1..][i - 1];
      var rest := PresentCategories(projects[1..]);
      match projects[0].category
      case Some(c) => if c != "" then [c] + rest else rest
      case None => rest
  }

  function AvailableCategories(projects: seq<Project>): seq<string> {
    Distinct(PresentCategories(projects))
  }

  /** The category list: each non-empty category once, in order of first appearance. */
  lemma AvailableCategoriesSpec(projects: seq<Project>)
    ensures NoDup(AvailableCategories(projects))
    ensures forall c :: c in AvailableCategories(projects) <==>
      c != "" && exists i :: 0 <= i < |projects| && projects[i].category == Some(c)
    ensures forall i, j :: 0 <= i < j < |AvailableCategories(projects)| ==>
      FirstIndex(PresentCategories(projects), AvailableCategories(projects)[i])
      < FirstIndex(PresentCategories(projects), AvailableCategories(projects)[j])
  {
    forall i, j | 0 <= i < j < |AvailableCategories(projects)|
      ensures FirstIndex(PresentCategories(projects), AvailableCategories(projects)[i])
        < FirstIndex(PresentCategories(projects), AvailableCategories(projects)[j])
    {
      DistinctOrder(PresentCategories(projects), i, j);
    }
  }

  function TechStacks(projects: seq<Project>): (r: seq<seq<string>>)
    ensures |r| == |projects| && forall i :: 0 <= i < |r| ==> r[i] == projects[i].techStack
  {
    if projects == [] then [] else [projects[0].techStack] + TechStacks(projects[1..])
  }

  /** `Array.from(new Set(projects.flatMap(p => p.techStack))).sort()`. */
  function AvailableTechStack(projects: seq<Project>): seq<string> {
    SortedBy(Distinct(Flatten(TechStacks(projects))), DefaultCompare)
  }

  /** The tech list: every tech used by some project, once each, in strictly increasing character order (the same as code-unit order below U+10000). */
  lemma AvailableTechStackSpec(projects: seq<Project>)
    ensures forall t :: t in AvailableTechStack(projects) <==>
      exists i :: 0 <= i < |projects| && t in projects[i].techStack
    ensures NoDup(AvailableTechStack(projects))
    ensures forall i, j :: 0 <= i < j < |AvailableTechStack(projects)| ==>
      LexLe(AvailableTechStack(projects)[i], AvailableTechStack(projects)[j])
      && AvailableTechStack(projects)[i] != AvailableTechStack(projects)[j]
  {
    var d := Distinct(Flatten(TechStacks(projects)));
    var r := AvailableTechStack(projects);
    SortedByPermutation(d, DefaultCompare);
    NoDupPermutation(d, r);
    DefaultCompareConsistent();
    SortedBySorted(d, DefaultCompare);
    forall t ensures t in r <==> exists i :: 0 <= i < |projects| && t in projects[i].techStack {
      assert t in r <==> t in multiset(r);
      assert t in d <==> t in multiset(d);
      if t in d {
        var i :| 0 <= i < |TechStacks(projects)| && t in TechStacks(projects)[i];
        assert t in projects[i].techStack;
      }
      if exists i :: 0 <= i < |projects| && t in projects[i].techStack {
        var i :| 0 <= i < |projects| && t in projects[i].techStack;
        assert t in TechStacks(projects)[i];
      }
    }
    forall i, j | 0 <= i < j < |r| ensures LexLe(r[i], r[j]) && r[i] != r[j] {
      assert DefaultCompare(r[i], r[j]) <= 0;
    }
  }

  /* ---------- the section's state ---------- */

  /** The section: its project list and the filters last reported by the filter panel. */
  class Section {
    const projects: seq<Project>
    var filters: FilterOptions

    constructor(projects: seq<Project>)
      ensures this.projects == projects && filters == InitialFilters
    {
      this.projects := projects;
      filters := InitialFilters;
    }

    /** `handleFilterChange`: the panel's record replaces the filters whole. */
    method HandleFilterChange(newFilters: FilterOptions)
      modifies this
      ensures filters == newFilters
    {
      filters := newFilters;
    }

    /** The projects the section renders for its current filters. */
    method Visible(localeCompare: (string, string) -> int) returns (r: seq<Project>)
      ensures r == Shown(projects, filters, localeCompare)
    {
      r := FilteredAndSortedProjects(projects, filters, localeCompare);
    }
  }
}
