/** The scraper page: the deduplicated, capped search history, the search gate, the outcome of a
    search and the tab switch. The scrapers themselves are inputs: a search's outcome is given. */
module Scraping {

  import opened Wrappers
  import opened Text
  import Seqs

  datatype Tab = Wikipedia | GitHub | Reddit | HackerNews | ProductHunt | YouTube | GoogleMaps

  /** The news tabs take no query and keep no history. */
  predicate IsFeedTab(tab: Tab) {
    tab == HackerNews || tab == ProductHunt
  }

  datatype Entry = Entry(tab: Tab, query: string, timestamp: int)

  predicate SameSearch(e: Entry, tab: Tab, query: string) {
    e.tab == tab && e.query == query
  }

  /** No two entries are the same (tab, query) search. */
  predicate NoRepeats(history: seq<Entry>) {
    forall i, j :: 0 <= i < j < |history| ==> !SameSearch(history[j], history[i].tab, history[i].query)
  }

  /** The earlier entries that are not the given search, in their order. */
  function OtherSearches(history: seq<Entry>, tab: Tab, query: string): seq<Entry> {
    Seqs.Filter(history, (h: Entry) => !SameSearch(h, tab, query))
  }

  /** `saveToHistory`: the search goes first, earlier copies of it go, and the first nine of the
      other entries follow in their order. */
  function SaveToHistory(history: seq<Entry>, tab: Tab, query: string, now: int): (r: seq<Entry>)
    ensures 1 <= |r| <= 10 && r[0] == Entry(tab, query, now)
    ensures forall i :: 1 <= i < |r| ==> r[i] in history && !SameSearch(r[i], tab, query)
    ensures r[1..] <= OtherSearches(history, tab, query)
    ensures var n := |OtherSearches(history, tab, query)|; |r| == 1 + (if n < 9 then n else 9)
  {
    var others := OtherSearches(history, tab, query);
    assert forall i :: 0 <= i < |others| ==> others[i] in history by {
      forall i | 0 <= i < |others| ensures others[i] in history {
        Seqs.FilterMembership(history, (h: Entry) => !SameSearch(h, tab, query), others[i]);
      }
    }
    [Entry(tab, query, now)] + Seqs.Take(others, 9)
  }

  /** Filtering a history without repeats leaves one without repeats. */
  lemma {:induction false} FilterKeepsNoRepeats(history: seq<Entry>, p: Entry -> bool)
    requires NoRepeats(history)
    ensures NoRepeats(Seqs.Filter(history, p))
  {
    if history != [] {
      var tail := history[1..];
      assert NoRepeats(tail) by {
        forall i, j | 0 <= i < j < |tail| ensures !SameSearch(tail[j], tail[i].tab, tail[i].query) {
          assert tail[i] == history[i + 1] && tail[j] == history[j + 1];
        }
      }
      FilterKeepsNoRepeats(tail, p);
      var rest := Seqs.Filter(tail, p);
      if p(history[0]) {
        var r := [history[0]] + rest;
        assert Seqs.Filter(history, p) == r;
        forall i, j | 0 <= i < j < |r| ensures !SameSearch(r[j], r[i].tab, r[i].query) {
          if i == 0 {
            Seqs.FilterMembership(tail, p, r[j]);
            var k :| 0 <= k < |tail| && tail[k] == r[j];
            assert history[k + 1] == r[j];
          } else {
            assert r[i] == rest[i - 1] && r[j] == rest[j - 1];
          }
        }
      } else {
        assert Seqs.Filter(history, p) == rest;
      }
    }
  }

  /** A history without repeated searches keeps that property through `saveToHistory`. */
  lemma SaveKeepsNoRepeats(history: seq<Entry>, tab: Tab, query: string, now: int)
    requires NoRepeats(history)
    ensures NoRepeats(SaveToHistory(history, tab, query, now))
  {
    var p := (h: Entry) => !SameSearch(h, tab, query);
    var others := Seqs.Filter(history, p);
    FilterKeepsNoRepeats(history, p);
    var kept := Seqs.Take(others, 9);
    var r := SaveToHistory(history, tab, query, now);
    assert r == [Entry(tab, query, now)] + kept;
    forall i, j | 0 <= i < j < |r| ensures !SameSearch(r[j], r[i].tab, r[i].query) {
      if i > 0 {
        assert r[i] == others[i - 1] && r[j] == others[j - 1];
      }
    }
  }

  /** The new history keeps the earlier searches it retains in their order. */
  lemma SaveKeepsOrder(history: seq<Entry>, tab: Tab, query: string, now: int)
    ensures var r := SaveToHistory(history, tab, query, now);
      Seqs.IsSubsequence(r[1..], history)
  {
    Seqs.FilterIsSubsequence(history, (h: Entry) => !SameSearch(h, tab, query));
    var r := SaveToHistory(history, tab, query, now);
    PrefixOfSubsequence(r[1..], OtherSearches(history, tab, query), history);
  }

  lemma {:induction false} PrefixOfSubsequence(a: seq<Entry>, b: seq<Entry>, c: seq<Entry>)
    requires a <= b && Seqs.IsSubsequence(b, c)
    ensures Seqs.IsSubsequence(a, c)
    decreases |c|
  {
    if a != [] && c != [] {
      if b[0] == c[0] {
        assert a[0] == b[0];
        PrefixOfSubsequence(a[1..], b[1..], c[1..]);
      } else {
        PrefixOfSubsequence(a, b, c[1..]);
      }
    }
  }

  /** The entries of one tab, in their order. */
  function EntriesOf(history: seq<Entry>, tab: Tab): seq<Entry> {
    Seqs.Filter(history, (h: Entry) => h.tab == tab)
  }

  /** `currentHistory`: the first five entries of the active tab, in order. */
  function CurrentHistory(history: seq<Entry>, tab: Tab): (r: seq<Entry>)
    ensures forall i :: 0 <= i < |r| ==> r[i].tab == tab
    ensures r <= EntriesOf(history, tab)
    ensures var n := |EntriesOf(history, tab)|; |r| == if n < 5 then n else 5
  {
    Seqs.Take(EntriesOf(history, tab), 5)
  }

  /** The dropdown lists only entries of the active tab, drawn in order from the history, and
      shows all of them when there are at most five. */
  lemma CurrentHistoryExact(history: seq<Entry>, tab: Tab)
    ensures Seqs.IsSubsequence(CurrentHistory(history, tab), history)
    ensures |EntriesOf(history, tab)| <= 5 ==>
      forall e :: e in history && e.tab == tab ==> e in CurrentHistory(history, tab)
  {
    var p := (h: Entry) => h.tab == tab;
    Seqs.FilterIsSubsequence(history, p);
    PrefixOfSubsequence(CurrentHistory(history, tab), Seqs.Filter(history, p), history);
    forall e | e in history && e.tab == tab {
      Seqs.FilterMembership(history, p, e);
    }
  }

  /** What one scraper call produced. */
  datatype Outcome =
    | Succeeded(data: string)     // `{ success: true, data }`
    | Failed(error: string)       // `{ success: false, error }`; an empty error counts as missing
    | Threw                       // the call raised

  const GenericError: string := "Terjadi kesalahan"
  const FetchError: string := "Terjadi kesalahan saat mengambil data"

  /** A search runs unless the query is blank on a tab that needs one. */
  function SearchRuns(query: string, tab: Tab): (b: bool)
    ensures IsFeedTab(tab) ==> b
    ensures query == [] ==> (b <==> IsFeedTab(tab))
    ensures query != [] && !IsSpace(query[0]) ==> b
  {
    !IsBlank(query) || IsFeedTab(tab)
  }

  /** The gate in the source's terms: `query.trim()` is non-empty, or the tab is a feed. */
  lemma SearchRunsIffTrim(query: string, tab: Tab)
    ensures SearchRuns(query, tab) <==> Trim(query) != [] || IsFeedTab(tab)
  {
    BlankIffTrimsToEmpty(query);
  }

  /** The result panel after a search. */
  function ShownResult(outcome: Outcome): (r: Option<string>)
    ensures r.Some? <==> outcome.Succeeded?
    ensures r.Some? ==> r.value == outcome.data
  {
    if outcome.Succeeded? then Some(outcome.data) else None
  }

  /** The error line after a search: the scraper's message, a generic one when it gave none, or
      the fetch failure when the call raised. */
  function ShownError(outcome: Outcome): (r: string)
    ensures outcome.Succeeded? <==> r == []
    ensures outcome.Failed? && outcome.error != [] ==> r == outcome.error
    ensures outcome.Failed? && outcome.error == [] ==> r == GenericError
    ensures outcome.Threw? ==> r == FetchError
  {
    match outcome
    case Succeeded(_) => []
    case Failed(message) => if message != [] then message else GenericError
    case Threw => FetchError
  }

  /** The history after a search: recorded for the query tabs once the scraper has answered. */
  function HistoryAfter(history: seq<Entry>, tab: Tab, query: string, outcome: Outcome, now: int): (r: seq<Entry>)
    ensures IsFeedTab(tab) || outcome.Threw? ==> r == history
    ensures !IsFeedTab(tab) && !outcome.Threw? ==> r == SaveToHistory(history, tab, query, now)
  {
    if IsFeedTab(tab) || outcome.Threw? then history else SaveToHistory(history, tab, query, now)
  }

  /** Every search leaves a history without repeated searches free of them. */
  lemma HistoryAfterKeepsNoRepeats(history: seq<Entry>, tab: Tab, query: string, outcome: Outcome, now: int)
    ensures NoRepeats(history) ==> NoRepeats(HistoryAfter(history, tab, query, outcome, now))
  {
    if NoRepeats(history) && !IsFeedTab(tab) && !outcome.Threw? {
      SaveKeepsNoRepeats(history, tab, query, now);
    }
  }

  /** The body of `handleSearch` once the search runs: what is shown and what is saved. */
  method SearchStep(h: seq<Entry>, tab: Tab, q: string, outcome: Outcome, now: int)
    returns (shown: Option<string>, message: string, saved: seq<Entry>)
    ensures shown == ShownResult(outcome) && message == ShownError(outcome)
    ensures saved == HistoryAfter(h, tab, q, outcome, now)
  {
    shown, message, saved := None, [], h;
    if outcome.Threw? {
      message := FetchError;
    } else {
      if !(tab == HackerNews || tab == ProductHunt) {
        saved := SaveToHistory(h, tab, q, now);
      }
      match outcome
      case Succeeded(data) =>
        shown := Some(data);
      case Failed(e) =>
        message := if e != [] then e else GenericError;
    }
  }

  /** The page's state; the history is also what storage holds. */
  class ScrapingPage {
    var activeTab: Tab
    var query: string
    var loading: bool
    var result: Option<string>
    var error: string
    var history: seq<Entry>

    constructor (saved: seq<Entry>)
      ensures activeTab == Wikipedia && query == [] && !loading && result == None && error == []
      ensures history == saved
    {
      activeTab, query, loading, result, error, history := Wikipedia, [], false, None, [], saved;
    }

    /** `handleSearch` with the scraper's outcome and the clock reading taken when it returned. */
    method HandleSearch(outcome: Outcome, now: int)
      modifies this
      ensures !SearchRuns(old(query), old(activeTab)) ==>
        loading == old(loading) && result == old(result) && error == old(error) && history == old(history)
      ensures SearchRuns(old(query), old(activeTab)) ==>
        && !loading && result == ShownResult(outcome) && error == ShownError(outcome)
        && history == HistoryAfter(old(history), old(activeTab), old(query), outcome, now)
      ensures old(NoRepeats(history)) ==> NoRepeats(history)
      ensures activeTab == old(activeTab) && query == old(query)
    {
      var tab, q, h := activeTab, query, history;
      HistoryAfterKeepsNoRepeats(h, tab, q, outcome, now);
      if !SearchRuns(q, tab) {
        return;
      }
      loading := true;
      var shown, message, saved := SearchStep(h, tab, q, outcome, now);
      result, error, history, loading := shown, message, saved, false;
    }

    /** The tab buttons: switching clears the result, the error and the query. */
    method SwitchTab(tab: Tab)
      modifies this
      ensures activeTab == tab && result == None && error == [] && query == []
      ensures history == old(history) && loading == old(loading)
    {
      activeTab := tab;
      result := None;
      error := [];
      query := [];
    }

    /** Typing in the search box, or picking an entry from the history dropdown. */
    method SetQuery(q: string)
      modifies this
      ensures query == q
      ensures activeTab == old(activeTab) && history == old(history) && result == old(result) && error == old(error)
      ensures loading == old(loading)
    {
      query := q;
    }
  }
}
