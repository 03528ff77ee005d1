/**
  The filter panel of the featured-projects section: its filter record and
  expanded flag, changed by the category, tech, sort-key, sort-order and
  clear handlers, each of which also reports the new record to the section.
 */
module ProjectFilter {
  import opened Wrappers
  import opened JsArray
  import opened FeaturedProjects

  /** The record the panel starts from and returns to on "Clear All": title order, ascending. */
  const Cleared := FilterOptions("all", [], ByTitle, Asc)

  /** A `Partial<FilterOptions>`: the fields a handler supplies. */
  datatype FilterPatch = FilterPatch(
    category: Option<string>,
    techStack: Option<seq<string>>,
    sortBy: Option<SortKey>,
    sortOrder: Option<SortOrder>)

  /** `{ ...filters, ...patch }`. */
  function Merge(f: FilterOptions, patch: FilterPatch): FilterOptions {
    FilterOptions(
      patch.category.GetOr(f.category),
      patch.techStack.GetOr(f.techStack),
      patch.sortBy.GetOr(f.sortBy),
      patch.sortOrder.GetOr(f.sortOrder))
  }

  /**
    A merge takes each supplied field from the patch and keeps every other
    field; merging the same patch again changes nothing more.
   */
  lemma MergeSpec(f: FilterOptions, patch: FilterPatch)
    ensures patch.category.Some? ==> Merge(f, patch).category == patch.category.value
    ensures patch.category.None? ==> Merge(f, patch).category == f.category
    ensures patch.techStack.Some? ==> Merge(f, patch).techStack == patch.techStack.value
    ensures patch.techStack.None? ==> Merge(f, patch).techStack == f.techStack
    ensures patch.sortBy.Some? ==> Merge(f, patch).sortBy == patch.sortBy.value
    ensures patch.sortBy.None? ==> Merge(f, patch).sortBy == f.sortBy
    ensures patch.sortOrder.Some? ==> Merge(f, patch).sortOrder == patch.sortOrder.value
    ensures patch.sortOrder.None? ==> Merge(f, patch).sortOrder == f.sortOrder
    ensures Merge(Merge(f, patch), patch) == Merge(f, patch)
    ensures Merge(f, FilterPatch(None, None, None, None)) == f
  {
  }

  /** Whether an entry differs from `tech`. */
  function Other(tech: string): string -> bool {
    t => t != tech
  }

  /** The new selection after clicking `tech`: every copy removed if present, else appended. */
  function Toggled(selected: seq<string>, tech: string): (r: seq<string>)
    ensures tech in r <==> tech !in selected
    ensures forall t :: t != tech ==> multiset(r)[t] == multiset(selected)[t]
  {
    FilterMultiset(selected, Other(tech));
    if tech in selected then Filter(selected, Other(tech)) else selected + [tech]
  }

  /** Clicking an unselected tech twice restores the selection exactly, order included. */
  lemma {:induction false} ToggleTwice(selected: seq<string>, tech: string)
    requires tech !in selected
    ensures Toggled(Toggled(selected, tech), tech) == selected
  {
    FilterAppend(selected, [tech], Other(tech));
    FilterAll(selected, Other(tech));
    assert Filter([tech], Other(tech)) == [];
  }

  /** Clicking a tech appends it at the end when it was not selected. */
  lemma ToggleAppends(selected: seq<string>, tech: string)
    requires tech !in selected
    ensures Toggled(selected, tech) == selected + [tech]
  {
  }

  /** The count on the panel's badge. */
  function ActiveFiltersCount(f: FilterOptions): nat {
    (if f.category != "all" then 1 else 0) + |f.techStack|
  }

  /**
    Only the category and the tech selection count as active filters, so
    the badge and the "Clear All" button show iff one of them is set.
   */
  lemma ActiveFiltersCountSpec(f: FilterOptions, key: SortKey, order: SortOrder)
    ensures ActiveFiltersCount(f) == 0 <==> f.category == "all" && f.techStack == []
    ensures ActiveFiltersCount(f.(sortBy := key, sortOrder := order)) == ActiveFiltersCount(f)
    ensures ActiveFiltersCount(Cleared) == 0
  {
  }

  /** The sort-order button's new order. */
  function Flip(order: SortOrder): (r: SortOrder)
    ensures r != order
  {
    if order == Asc then Desc else Asc
  }

  /** The panel's state. `reported` lists the records passed to `onFilterChange`, oldest first. */
  class FilterPanel {
    var filters: FilterOptions
    var isExpanded: bool
    var reported: seq<FilterOptions>

    constructor()
      ensures filters == Cleared && !isExpanded && reported == []
    {
      filters := Cleared;
      isExpanded := false;
      reported := [];
    }

    /** `updateFilters`: merge the supplied fields in, then report the merged record. */
    method UpdateFilters(patch: FilterPatch)
      modifies this
      ensures filters == Merge(old(filters), patch)
      ensures reported == old(reported) + [filters]
      ensures isExpanded == old(isExpanded)
    {
      filters := Merge(filters, patch);
      reported := reported + [filters];
    }

    /** A category button (`All Projects` passes `all`). */
    method SelectCategory(category: string)
      modifies this
      ensures filters == old(filters).(category := category)
      ensures reported == old(reported) + [filters]
      ensures isExpanded == old(isExpanded)
    {
      UpdateFilters(FilterPatch(Some(category), None, None, None));
    }

    /** `handleTechStackToggle`. */
    method ToggleTech(tech: string)
      modifies this
      ensures filters == old(filters).(techStack := Toggled(old(filters.techStack), tech))
      ensures reported == old(reported) + [filters]
      ensures isExpanded == old(isExpanded)
    {
      UpdateFilters(FilterPatch(None, Some(Toggled(filters.techStack, tech)), None, None));
    }

    /** The sort-key select. */
    method SelectSortBy(key: SortKey)
      modifies this
      ensures filters == old(filters).(sortBy := key)
      ensures reported == old(reported) + [filters]
      ensures isExpanded == old(isExpanded)
    {
      UpdateFilters(FilterPatch(None, None, Some(key), None));
    }

    /** The sort-order button: flips asc and desc, nothing else. */
    method FlipSortOrder()
      modifies this
      ensures filters == old(filters).(sortOrder := Flip(old(filters.sortOrder)))
      ensures reported == old(reported) + [filters]
      ensures isExpanded == old(isExpanded)
    {
      UpdateFilters(FilterPatch(None, None, None, Some(Flip(filters.sortOrder))));
    }

    /** `clearAllFilters`: the initial record, set and reported as a whole. */
    method ClearAllFilters()
      modifies this
      ensures filters == Cleared
      ensures reported == old(reported) + [Cleared]
      ensures isExpanded == old(isExpanded)
    {
      filters := Cleared;
      reported := reported + [Cleared];
    }

    /** The header button shows or hides the panel; the filters are untouched and nothing is reported. */
    method ToggleExpanded()
      modifies this
      ensures isExpanded == !old(isExpanded)
      ensures filters == old(filters) && reported == old(reported)
    {
      isExpanded := !isExpanded;
    }
  }

  /**
    Picking `Frontend` on a fresh panel reports a record with that category
    and one active filter; picking `React` reports `techStack == ["React"]`.
   */
  lemma FreshPanelExamples()
    ensures Merge(Cleared, FilterPatch(Some("Frontend"), None, None, None)).category == "Frontend"
    ensures ActiveFiltersCount(Merge(Cleared, FilterPatch(Some("Frontend"), None, None, None))) == 1
    ensures Toggled(Cleared.techStack, "React") == ["React"]
  {
  }
}
