/**
  The blog index: a strip of at most three featured posts, and the post list
  ordered newest first and narrowed by category and by a text query. Post
  dates are timestamps.
 */
module Blog {
  import opened Types
  import opened Strings
  import opened Seqs

  datatype BlogPost = BlogPost(
    id: string,
    slug: string,
    title: string,
    excerpt: string,
    content: string,
    image: string,
    thumbnail: Option<string>,
    author: Option<string>,
    date: int,
    categories: seq<string>,
    isFeatured: bool
  )

  /** The featured strip holds at most this many posts. */
  const FeaturedLimit: nat := 3

  /** The featured strip: the first three featured posts, in source order. */
  function FeaturedPosts(posts: seq<BlogPost>): (r: seq<BlogPost>)
    ensures |r| == Min(FeaturedLimit, |Filter(posts, (p: BlogPost) => p.isFeatured)|)
    ensures forall i :: 0 <= i < |r| ==> r[i].isFeatured && r[i] in posts
    ensures forall i :: 0 <= i < |r| ==> r[i] == Filter(posts, (p: BlogPost) => p.isFeatured)[i]
  {
    Take(Filter(posts, (p: BlogPost) => p.isFeatured), FeaturedLimit)
  }

  /** Newest first: the comparator date(b) − date(a). */
  predicate NewerLe(a: BlogPost, b: BlogPost) {
    a.date >= b.date
  }

  /** The lowercased title or excerpt contains the lowercased query. */
  predicate MatchesQuery(p: BlogPost, query: string) {
    Contains(Lower(p.title), Lower(query)) || Contains(Lower(p.excerpt), Lower(query))
  }

  /** Newer posts come first. */
  predicate DateDescending(xs: seq<BlogPost>) {
    forall i, j :: 0 <= i < j < |xs| ==> xs[i].date >= xs[j].date
  }

  /** A sorted copy of the posts, newest first. */
  function Newest(posts: seq<BlogPost>): (r: seq<BlogPost>)
    ensures multiset(r) == multiset(posts)
    ensures DateDescending(r)
    ensures forall x :: x in r <==> x in posts
  {
    var r := SortBy(posts, NewerLe);
    assert TotalPreorder(NewerLe);
    SortBySorted(posts, NewerLe);
    assert forall x :: x in r <==> x in posts by {
      forall x ensures x in r <==> x in posts {
        assert x in r <==> x in multiset(r);
        assert x in posts <==> x in multiset(posts);
      }
    }
    r
  }

  /** The posts tagged with a category, in the order given. */
  function InCategory(xs: seq<BlogPost>, cat: string): (r: seq<BlogPost>)
    ensures multiset(r) <= multiset(xs)
    ensures forall x :: x in r <==> x in xs && cat in x.categories
    ensures DateDescending(xs) ==> DateDescending(r)
  {
    var r := Filter(xs, (p: BlogPost) => cat in p.categories);
    FilterSubMultiset(xs, (p: BlogPost) => cat in p.categories);
    assert forall x :: x in r <==> x in xs && cat in x.categories by {
      forall x ensures x in r <==> x in xs && cat in x.categories {
        if x in r {
          var i :| 0 <= i < |r| && r[i] == x;
        }
        if x in xs && cat in x.categories {
          var i :| 0 <= i < |xs| && xs[i] == x;
        }
      }
    }
    assert DateDescending(xs) ==> DateDescending(r) by {
      if DateDescending(xs) {
        assert Sorted(xs, NewerLe);
        FilterKeepsSorted(xs, (p: BlogPost) => cat in p.categories, NewerLe);
      }
    }
    r
  }

  /** The category filter keeps the given order: filtering two runs of posts
      one after the other gives the two results one after the other. */
  lemma InCategoryKeepsOrder(a: seq<BlogPost>, b: seq<BlogPost>, cat: string)
    ensures InCategory(a + b, cat) == InCategory(a, cat) + InCategory(b, cat)
  {
    FilterAppend(a, b, (p: BlogPost) => cat in p.categories);
  }

  /** The posts whose title or excerpt mention the query, in the order given. */
  function Matching(xs: seq<BlogPost>, query: string): (r: seq<BlogPost>)
    ensures multiset(r) <= multiset(xs)
    ensures forall x :: x in r <==> x in xs && MatchesQuery(x, query)
    ensures DateDescending(xs) ==> DateDescending(r)
  {
    var r := Filter(xs, (p: BlogPost) => MatchesQuery(p, query));
    FilterSubMultiset(xs, (p: BlogPost) => MatchesQuery(p, query));
    assert forall x :: x in r <==> x in xs && MatchesQuery(x, query) by {
      forall x ensures x in r <==> x in xs && MatchesQuery(x, query) {
        if x in r {
          var i :| 0 <= i < |r| && r[i] == x;
        }
        if x in xs && MatchesQuery(x, query) {
          var i :| 0 <= i < |xs| && xs[i] == x;
        }
      }
    }
    assert DateDescending(xs) ==> DateDescending(r) by {
      if DateDescending(xs) {
        assert Sorted(xs, NewerLe);
        FilterKeepsSorted(xs, (p: BlogPost) => MatchesQuery(p, query), NewerLe);
      }
    }
    r
  }

  /** The query filter keeps the given order: filtering two runs of posts one
      after the other gives the two results one after the other. */
  lemma MatchingKeepsOrder(a: seq<BlogPost>, b: seq<BlogPost>, query: string)
    ensures Matching(a + b, query) == Matching(a, query) + Matching(b, query)
  {
    FilterAppend(a, b, (p: BlogPost) => MatchesQuery(p, query));
  }

  /** The post list: a sorted copy of the posts, then the category filter (for
      a non-empty category), then the query filter (for a query that is not blank). */
  function FilteredPosts(posts: seq<BlogPost>, query: string, activeCat: string): (r: seq<BlogPost>)
    ensures DateDescending(r)
    ensures multiset(r) <= multiset(posts)
    ensures forall x :: x in r <==>
      && x in posts
      && (activeCat == "" || activeCat in x.categories)
      && (IsBlank(query) || MatchesQuery(x, query))
    ensures activeCat == "" && IsBlank(query) ==> multiset(r) == multiset(posts)
  {
    var sorted := Newest(posts);
    var byCat := if activeCat != "" then InCategory(sorted, activeCat) else sorted;
    if !IsBlank(query) then Matching(byCat, query) else byCat
  }
}
