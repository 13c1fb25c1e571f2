/** The blog index: a search filter over the posts, fixed-size pages, the page-number strip and
    the current-page state driven by the search box and the pagination buttons. */
module BlogList {

  import opened Text
  import Seqs

  /** The fields of a post the listing reads. */
  datatype Post = Post(slug: string, title: string, excerpt: string, date: string, author: string)

  /** `postsPerPage` */
  const PostsPerPage: nat := 6

  /** A post matches when its lowercased title or excerpt contains the lowercased query. */
  predicate Matches(post: Post, query: string) {
    Contains(Lower(post.title), Lower(query)) || Contains(Lower(post.excerpt), Lower(query))
  }

  /** `filteredPosts` */
  function FilterPosts(posts: seq<Post>, query: string): (r: seq<Post>)
    ensures |r| <= |posts|
    ensures forall i :: 0 <= i < |r| ==> Matches(r[i], query)
  {
    Seqs.Filter(posts, p => Matches(p, query))
  }

  /** The filter keeps exactly the matching posts, in their original order. */
  lemma FilterPostsExact(posts: seq<Post>, query: string, p: Post)
    ensures p in FilterPosts(posts, query) <==> p in posts && Matches(p, query)
    ensures Seqs.IsSubsequence(FilterPosts(posts, query), posts)
  {
    Seqs.FilterMembership(posts, q => Matches(q, query), p);
    Seqs.FilterIsSubsequence(posts, q => Matches(q, query));
  }

  /** An empty search shows every post. */
  lemma EmptyQueryKeepsAll(posts: seq<Post>)
    ensures FilterPosts(posts, "") == posts
  {
    forall i | 0 <= i < |posts| ensures Matches(posts[i], "") {
      assert Lower("") == "";
    }
    Seqs.FilterKeepsAll(posts, q => Matches(q, ""));
  }

  /** `Math.ceil(n / postsPerPage)`: the fewest pages of PostsPerPage that hold `n` posts. */
  function TotalPages(n: nat): (t: nat)
    ensures n <= t * PostsPerPage
    ensures t > 0 ==> (t - 1) * PostsPerPage < n
  {
    (n + PostsPerPage - 1) / PostsPerPage
  }

  /** `currentPosts`: `filtered.slice((page - 1) * 6, page * 6)`. */
  function CurrentPosts(filtered: seq<Post>, page: int): (r: seq<Post>)
    ensures |r| <= PostsPerPage
  {
    Seqs.Slice(filtered, page * PostsPerPage - PostsPerPage, page * PostsPerPage)
  }

  /** Page `page` holds the posts at positions `(page - 1) * 6` onwards, as many as remain, at most 6. */
  lemma CurrentPostsWindow(filtered: seq<Post>, page: int)
    requires page >= 1
    ensures var first := (page - 1) * PostsPerPage;
      && |CurrentPosts(filtered, page)| == (if |filtered| <= first then 0
                                            else if |filtered| - first < PostsPerPage then |filtered| - first
                                            else PostsPerPage)
      && forall i :: 0 <= i < |CurrentPosts(filtered, page)| ==> CurrentPosts(filtered, page)[i] == filtered[first + i]
  {
  }

  /** The pages 1 to `k`, one after the other. */
  function PagesUpTo(filtered: seq<Post>, k: nat): seq<Post> {
    if k == 0 then [] else PagesUpTo(filtered, k - 1) + CurrentPosts(filtered, k)
  }

  lemma {:induction false} PagesUpToPrefix(filtered: seq<Post>, k: nat)
    ensures k * PostsPerPage <= |filtered| ==> PagesUpTo(filtered, k) == filtered[..k * PostsPerPage]
    ensures k * PostsPerPage > |filtered| ==> PagesUpTo(filtered, k) == filtered
  {
    if k > 0 {
      var first := (k - 1) * PostsPerPage;
      assert k * PostsPerPage == first + PostsPerPage;
      PagesUpToPrefix(filtered, k - 1);
      assert CurrentPosts(filtered, k) == Seqs.Slice(filtered, first, first + PostsPerPage);
      PageStep(filtered, first, PagesUpTo(filtered, k - 1), CurrentPosts(filtered, k));
    }
  }

  /** Appending the page that starts at `first` to the posts before it. */
  lemma {:induction false} PageStep(filtered: seq<Post>, first: nat, before: seq<Post>, page: seq<Post>)
    requires page == Seqs.Slice(filtered, first, first + PostsPerPage)
    requires first <= |filtered| ==> before == filtered[..first]
    requires first > |filtered| ==> before == filtered
    ensures first + PostsPerPage <= |filtered| ==> before + page == filtered[..first + PostsPerPage]
    ensures first + PostsPerPage > |filtered| ==> before + page == filtered
  {
    var last := first + PostsPerPage;
    if last <= |filtered| {
      assert page == filtered[first..last];
      assert filtered[..first] + filtered[first..last] == filtered[..last];
    } else if first <= |filtered| {
      assert Seqs.SliceBound(last, |filtered|) == |filtered|;
      assert page == filtered[first..];
      assert filtered[..first] + filtered[first..] == filtered;
    } else {
      assert Seqs.SliceBound(first, |filtered|) == |filtered|;
      assert page == [];
    }
  }

  /** Reading the pages 1 to `totalPages` in turn shows every filtered post exactly once, in order. */
  lemma PagesCoverAll(filtered: seq<Post>)
    ensures PagesUpTo(filtered, TotalPages(|filtered|)) == filtered
  {
    var t := TotalPages(|filtered|);
    PagesUpToPrefix(filtered, t);
    if t * PostsPerPage <= |filtered| {
      assert filtered[..t * PostsPerPage] == filtered;
    }
  }

  /** One entry of the pagination strip. */
  datatype PageItem = Num(n: int) | Ellipsis

  /** `[1, 2, ..., hi]` as strip entries. */
  function Range(hi: int): (r: seq<PageItem>)
    ensures |r| == if hi < 0 then 0 else hi
    ensures forall i :: 0 <= i < |r| ==> r[i] == Num(i + 1)
    decreases hi
  {
    if hi <= 0 then [] else Range(hi - 1) + [Num(hi)]
  }

  /** The strip `getPageNumbers` builds, as a value. */
  function PageStrip(total: int, current: int): (r: seq<PageItem>)
    ensures total <= 7 ==> r == Range(total)
    ensures total > 7 ==> |r| == 7 && r[0] == Num(1) && r[6] == Num(total)
  {
    if total <= 7 then Range(total)
    else if current <= 4 then [Num(1), Num(2), Num(3), Num(4), Num(5), Ellipsis, Num(total)]
    else if current >= total - 3 then
      [Num(1), Ellipsis, Num(total - 4), Num(total - 3), Num(total - 2), Num(total - 1), Num(total)]
    else [Num(1), Ellipsis, Num(current - 1), Num(current), Num(current + 1), Ellipsis, Num(total)]
  }

  /** `getPageNumbers`: the loop for short listings, the three fixed shapes otherwise. */
  method GetPageNumbers(total: int, current: int) returns (pages: seq<PageItem>)
    ensures pages == PageStrip(total, current)
  {
    pages := [];
    if total <= 7 {
      var i := 1;
      while i <= total
        invariant 1 <= i <= (if total < 1 then 1 else total + 1)
        invariant pages == Range(i - 1)
      {
        pages := pages + [Num(i)];
        i := i + 1;
      }
    } else if current <= 4 {
      pages := pages + [Num(1), Num(2), Num(3), Num(4), Num(5), Ellipsis, Num(total)];
    } else if current >= total - 3 {
      pages := pages + [Num(1), Ellipsis, Num(total - 4), Num(total - 3), Num(total - 2), Num(total - 1), Num(total)];
    } else {
      pages := pages + [Num(1), Ellipsis, Num(current - 1), Num(current), Num(current + 1), Ellipsis, Num(total)];
    }
  }

  /** Every page number in the strip is a real page, and the numbers strictly increase. */
  lemma StripNumbersIncrease(total: int, current: int)
    ensures var r := PageStrip(total, current);
      && (forall i :: 0 <= i < |r| && r[i].Num? ==> 1 <= r[i].n <= total)
      && (forall i, j :: 0 <= i < j < |r| && r[i].Num? && r[j].Num? ==> r[i].n < r[j].n)
  {
  }

  /** The current page is always in the strip. */
  lemma StripShowsCurrent(total: int, current: int)
    requires 1 <= current <= total
    ensures Num(current) in PageStrip(total, current)
  {
    var r := PageStrip(total, current);
    if total <= 7 {
      assert r[current - 1] == Num(current);
    } else if current <= 4 {
      assert r[current - 1] == Num(current);
    } else if current >= total - 3 {
      assert r[current - total + 6] == Num(current);
    } else {
      assert r[3] == Num(current);
    }
  }

  /** Neighbouring numbers are consecutive pages, and an ellipsis always stands between two
      numbers with at least one page hidden between them. */
  lemma StripGapsAreEllipses(total: int, current: int)
    ensures var r := PageStrip(total, current);
      && (forall i :: 0 <= i < |r| - 1 && r[i].Num? && r[i + 1].Num? ==> r[i + 1].n == r[i].n + 1)
      && (forall i :: 0 <= i < |r| && r[i].Ellipsis? ==>
            && 0 < i < |r| - 1 && r[i - 1].Num? && r[i + 1].Num? && r[i + 1].n - r[i - 1].n >= 2)
  {
  }

  /** The component's state: the posts it was given, the search box and the current page. */
  class BlogListView {
    const posts: seq<Post>
    var query: string
    var currentPage: int

    function Filtered(): seq<Post>
      reads this
    {
      FilterPosts(posts, query)
    }

    function Pages(): nat
      reads this
    {
      TotalPages(|Filtered()|)
    }

    /** The current page is a real page, or page 1 of an empty listing. */
    ghost predicate Valid()
      reads this
    {
      1 <= currentPage && (currentPage <= Pages() || currentPage == 1)
    }

    constructor (initialPosts: seq<Post>)
      ensures Valid()
      ensures posts == initialPosts && query == "" && currentPage == 1
    {
      posts := initialPosts;
      query := "";
      currentPage := 1;
    }

    /** `handleSearchChange`: a new query always starts again from page 1. */
    method HandleSearchChange(q: string)
      modifies this
      ensures Valid()
      ensures query == q && currentPage == 1
    {
      query := q;
      currentPage := 1;
    }

    /** The previous-page button: `Math.max(1, p - 1)`. */
    method Previous()
      requires Valid()
      modifies this
      ensures Valid()
      ensures query == old(query)
      ensures currentPage == if old(currentPage) > 1 then old(currentPage) - 1 else 1
    {
      currentPage := if currentPage - 1 > 1 then currentPage - 1 else 1;
    }

    /** The next-page button, rendered only when there is more than one page:
        `Math.min(totalPages, p + 1)`. */
    method Next()
      requires Valid() && Pages() > 1
      modifies this
      ensures Valid()
      ensures query == old(query)
      ensures currentPage == if old(currentPage) < Pages() then old(currentPage) + 1 else Pages()
    {
      var t := Pages();
      currentPage := if currentPage + 1 < t then currentPage + 1 else t;
    }

    /** A numbered button of the strip. */
    method SelectPage(n: int)
      requires Valid() && Num(n) in PageStrip(Pages(), currentPage)
      modifies this
      ensures Valid()
      ensures query == old(query) && currentPage == n
    {
      StripNumbersIncrease(Pages(), currentPage);
      currentPage := n;
    }

    /** The posts on screen. */
    function Visible(): (r: seq<Post>)
      reads this
      ensures |r| <= PostsPerPage
      ensures forall i :: 0 <= i < |r| ==> Matches(r[i], query)
    {
      CurrentPosts(Filtered(), currentPage)
    }
  }
}
