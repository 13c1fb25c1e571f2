/** The site header: the page title derived from the path, the quick-jump search over the five
    top-level pages and its suggestion list. The router is modelled by the list of paths pushed. */
module Header {

  import opened Wrappers
  import opened Text
  import Seqs

  /** The first letter upper-cased, the rest kept. */
  function Capitalize(s: string): (r: string)
    ensures |r| == |s|
    ensures s != [] ==> r[0] == UpperChar(s[0]) && r[1..] == s[1..]
  {
    if s == [] then [] else [UpperChar(s[0])] + s[1..]
  }

  /** `getPageTitle` */
  function GetPageTitle(path: string): (r: string)
    ensures r != []
    ensures path == "/" ==> r == "Home"
  {
    if path == "/" then "Home"
    else match Piece(path, '/', 1)
      case Some(segment) => if segment != [] then Capitalize(segment) else "Home"
      case None => "Home"
  }

  /** A path `/segment...` is titled by its first segment, capitalised; a path with no first
      segment is "Home". */
  lemma TitleOfFirstSegment(segment: string, rest: string)
    requires '/' !in segment
    requires rest == [] || rest[0] == '/'
    ensures segment != [] ==> GetPageTitle("/" + segment + rest) == Capitalize(segment)
    ensures segment == [] && rest != [] ==> GetPageTitle("/" + segment + rest) == "Home"
  {
    var path := "/" + segment + rest;
    var tail := segment + rest;
    assert path == "/" + tail && path[0] == '/' && path[1..] == tail;
    SplitFreePrefix(segment, rest, '/');
    assert Split(rest, '/')[0] == [] by {
      if rest != [] {
        assert rest[0] == '/';
      }
    }
    assert Split(tail, '/')[0] == segment + [];
    assert Split(path, '/') == [[]] + Split(tail, '/');
    assert segment + [] == segment;
    if segment == [] && rest != [] {
      assert path != "/" by { assert |path| > 1; }
    }
    if segment != [] {
      assert path != "/" by { assert |path| > 1; }
    }
  }

  /** The pages the quick-jump knows, in the order they are tried. */
  const Pages: seq<string> := ["projects", "services", "blog", "contact", "home"]

  /** The position of the first page that contains `q`. */
  function FindIndex(pages: seq<string>, q: string): (r: Option<nat>)
    ensures r.None? <==> forall i :: 0 <= i < |pages| ==> !Contains(pages[i], q)
    ensures r.Some? ==> r.value < |pages| && Contains(pages[r.value], q)
    ensures r.Some? ==> forall j :: 0 <= j < r.value ==> !Contains(pages[j], q)
  {
    if pages == [] then None
    else if Contains(pages[0], q) then Some(0)
    else match FindIndex(pages[1..], q)
      case None => None
      case Some(k) => Some(k + 1)
  }

  /** A page containing `q` at `k` means the search stops at `k` or before. */
  lemma FoundNoLaterThan(pages: seq<string>, q: string, k: nat)
    requires k < |pages| && Contains(pages[k], q)
    ensures FindIndex(pages, q).Some? && FindIndex(pages, q).value <= k
  {
  }

  /** `pages.find(p => p.includes(query.toLowerCase()))` */
  function MatchedPage(query: string): (r: Option<string>)
    ensures r.None? <==> forall i :: 0 <= i < |Pages| ==> !Contains(Pages[i], Lower(query))
    ensures r.Some? ==> r.value in Pages && Contains(r.value, Lower(query))
    ensures r.Some? ==> r.value == Pages[FindIndex(Pages, Lower(query)).value]
  {
    match FindIndex(Pages, Lower(query))
    case None => None
    case Some(k) => Some(Pages[k])
  }

  /** Where a matched page lives. */
  function Route(page: string): (r: string)
    ensures r != [] && r[0] == '/'
    ensures page == "home" ==> r == "/"
    ensures page != "home" ==> r[1..] == page
  {
    if page == "home" then "/" else "/" + page
  }

  /** The suggestion list for the text in the search box. */
  function Suggestions(value: string): (r: seq<string>)
    ensures value == [] ==> r == []
    ensures forall i :: 0 <= i < |r| ==> Contains(r[i], Lower(value))
  {
    if |value| > 0 then Seqs.Filter(Pages, p => Contains(p, Lower(value))) else []
  }

  /** The first page tried is the first page the filter keeps. */
  lemma {:induction false} FindIsFirstOfFilter(pages: seq<string>, q: string)
    ensures FindIndex(pages, q).None? <==> Seqs.Filter(pages, p => Contains(p, q)) == []
    ensures FindIndex(pages, q).Some? ==>
      Seqs.Filter(pages, p => Contains(p, q))[0] == pages[FindIndex(pages, q).value]
  {
    if pages != [] {
      FindIsFirstOfFilter(pages[1..], q);
      if !Contains(pages[0], q) {
        assert Seqs.Filter(pages, p => Contains(p, q)) == Seqs.Filter(pages[1..], p => Contains(p, q));
      }
    }
  }

  /** For a non-empty query, the jump goes to the first suggestion, and there is a jump exactly
      when there is a suggestion. */
  lemma JumpIsFirstSuggestion(value: string)
    requires value != []
    ensures MatchedPage(value).Some? <==> Suggestions(value) != []
    ensures Suggestions(value) != [] ==> MatchedPage(value) == Some(Suggestions(value)[0])
  {
    FindIsFirstOfFilter(Pages, Lower(value));
  }

  /** Suggestions keep exactly the pages containing the input, in the pages' order. */
  lemma SuggestionsExact(value: string, p: string)
    requires value != []
    ensures p in Suggestions(value) <==> p in Pages && Contains(p, Lower(value))
    ensures Seqs.IsSubsequence(Suggestions(value), Pages)
  {
    Seqs.FilterMembership(Pages, x => Contains(x, Lower(value)), p);
    Seqs.FilterIsSubsequence(Pages, x => Contains(x, Lower(value)));
  }

  /** An empty query jumps to the projects page, since every string contains "". */
  lemma EmptyQueryGoesToProjects()
    ensures MatchedPage("") == Some("projects")
  {
    assert Lower("") == "";
    assert Contains(Pages[0], "");
  }

  /** Every page name is written in lower case. */
  lemma PagesAreLowerCase(k: nat)
    requires k < |Pages|
    ensures Lower(Pages[k]) == Pages[k]
  {
    var p := Pages[k];
    assert forall i :: 0 <= i < |p| ==> 'a' <= p[i] <= 'z';
  }

  /** Clicking a suggestion always navigates somewhere: to the first page containing the
      suggestion, which is the suggestion itself unless an earlier page contains it. */
  lemma SuggestionClickNavigates(value: string, p: string)
    requires p in Suggestions(value)
    ensures MatchedPage(p).Some? && Contains(MatchedPage(p).value, p)
  {
    SuggestionsExact(value, p);
    var k :| 0 <= k < |Pages| && Pages[k] == p;
    PagesAreLowerCase(k);
    assert Contains(Pages[k], p) by { assert p <= p; }
    FoundNoLaterThan(Pages, p, k);
  }

  /** The page's state: the search box, the suggestions and the paths pushed on the router. */
  class HeaderState {
    var searchQuery: string
    var suggestions: seq<string>
    var pushed: seq<string>

    constructor ()
      ensures searchQuery == [] && suggestions == [] && pushed == []
    {
      searchQuery, suggestions, pushed := [], [], [];
    }

    /** `navigateToPage`: with a match, push its route and clear the box; otherwise nothing. */
    method NavigateToPage(query: string)
      modifies this
      ensures MatchedPage(query).None? ==>
        searchQuery == old(searchQuery) && suggestions == old(suggestions) && pushed == old(pushed)
      ensures MatchedPage(query).Some? ==>
        && pushed == old(pushed) + [Route(MatchedPage(query).value)]
        && searchQuery == [] && suggestions == []
    {
      var lowerQuery := Lower(query);
      var found := FindIndex(Pages, lowerQuery);
      if found.Some? {
        var matched := Pages[found.value];
        pushed := pushed + [if matched == "home" then "/" else "/" + matched];
        searchQuery := [];
        suggestions := [];
      }
    }

    /** `handleSearch`: the form submits the box's text. */
    method HandleSearch()
      modifies this
      ensures MatchedPage(old(searchQuery)).None? ==>
        searchQuery == old(searchQuery) && suggestions == old(suggestions) && pushed == old(pushed)
      ensures MatchedPage(old(searchQuery)).Some? ==>
        && pushed == old(pushed) + [Route(MatchedPage(old(searchQuery)).value)]
        && searchQuery == [] && suggestions == []
    {
      NavigateToPage(searchQuery);
    }

    /** `handleInputChange` */
    method HandleInputChange(value: string)
      modifies this
      ensures searchQuery == value && suggestions == Suggestions(value) && pushed == old(pushed)
    {
      searchQuery := value;
      if |value| > 0 {
        suggestions := Seqs.Filter(Pages, p => Contains(p, Lower(value)));
      } else {
        suggestions := [];
      }
    }

    /** The callback the search box schedules on blur: the suggestion list closes. */
    method HandleBlurTimeout()
      modifies this
      ensures suggestions == [] && searchQuery == old(searchQuery) && pushed == old(pushed)
    {
      suggestions := [];
    }
  }
}
