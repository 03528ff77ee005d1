/**
  The blog index page: the published posts, newest first, and the
  "No posts yet" block shown when there are none.
 */
module BlogPage {
  import opened JsArray
  import opened JsSort
  import opened ContentSchema
  import ContentLib

  /** `(a, b) => b.publishedAt - a.publishedAt`: later posts first. */
  function NewestFirst(): (BlogPost, BlogPost) -> int {
    (a: BlogPost, b: BlogPost) => b.publishedAt - a.publishedAt
  }

  lemma NewestFirstConsistent()
    ensures Consistent(NewestFirst())
  {
  }

  /** `allBlogPosts.filter(post => !post.draft).sort(NewestFirst)`. */
  function PublishedPosts(all: seq<BlogPost>): seq<BlogPost> {
    SortedBy(Filter(all, ContentLib.IsPublished), NewestFirst())
  }

  /**
    No draft is listed, and every other post is listed as often as it occurs
    in the collection (once, for distinct posts).
   */
  lemma PublishedPostsContent(all: seq<BlogPost>)
    ensures forall p :: multiset(PublishedPosts(all))[p] == if p.draft then 0 else multiset(all)[p]
    ensures forall p :: p in PublishedPosts(all) ==> !p.draft
  {
    var r := PublishedPosts(all);
    FilterMultiset(all, ContentLib.IsPublished);
    SortedByPermutation(Filter(all, ContentLib.IsPublished), NewestFirst());
    forall p | p in r ensures !p.draft {
      assert p in multiset(r);
    }
  }

  /** The list runs newest first. */
  lemma PublishedPostsOrder(all: seq<BlogPost>)
    ensures forall i, j :: 0 <= i < j < |PublishedPosts(all)| ==>
      PublishedPosts(all)[i].publishedAt >= PublishedPosts(all)[j].publishedAt
  {
    var r := PublishedPosts(all);
    NewestFirstConsistent();
    SortedBySorted(Filter(all, ContentLib.IsPublished), NewestFirst());
    forall i, j | 0 <= i < j < |r| ensures r[i].publishedAt >= r[j].publishedAt {
      assert NewestFirst()(r[i], r[j]) <= 0;
    }
  }

  /** Posts published at the same instant keep collection order. */
  lemma PublishedPostsStable(all: seq<BlogPost>, x: BlogPost)
    ensures Ties(PublishedPosts(all), x, NewestFirst()) == Ties(Filter(all, ContentLib.IsPublished), x, NewestFirst())
  {
    NewestFirstConsistent();
    SortedByStable(Filter(all, ContentLib.IsPublished), x, NewestFirst());
  }

  /** The page lists the same posts as `getPublishedBlogPosts`, only reordered. */
  lemma SameAsPublishedBlogPosts(all: seq<BlogPost>)
    ensures multiset(PublishedPosts(all)) == multiset(ContentLib.GetPublishedBlogPosts(all))
  {
    SortedByPermutation(Filter(all, ContentLib.IsPublished), NewestFirst());
  }

  /** `publishedPosts.length === 0`. */
  predicate ShowsEmptyState(all: seq<BlogPost>) {
    |PublishedPosts(all)| == 0
  }

  /** The empty-state block shows iff every post is a draft (or there are none). */
  lemma EmptyStateIff(all: seq<BlogPost>)
    ensures ShowsEmptyState(all) <==> forall i :: 0 <= i < |all| ==> all[i].draft
  {
    var kept := Filter(all, ContentLib.IsPublished);
    SortedByPermutation(kept, NewestFirst());
    assert |PublishedPosts(all)| == |multiset(PublishedPosts(all))| == |multiset(kept)| == |kept|;
    if exists i :: 0 <= i < |all| && !all[i].draft {
      var i :| 0 <= i < |all| && !all[i].draft;
      assert all[i] in kept;
    }
  }
}
