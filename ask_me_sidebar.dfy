/** The chat list beside the "Ask Me" page: loading it newest first, deleting a chat and copying
    a conversation as Markdown. It shares the browser storage and the open chat with the page. */
module AskMeSidebar {

  import opened Wrappers
  import opened Text
  import Seqs
  import opened AskMe

  /** Newest first: dates never increase along the list. */
  predicate NewestFirst(s: seq<HistoryItem>) {
    forall i, j :: 0 <= i < j < |s| ==> s[i].date >= s[j].date
  }

  /** Places `x` before the first entry that is not newer than it, so that among equal dates the
      earlier entry stays first. */
  function Insert(x: HistoryItem, s: seq<HistoryItem>): (r: seq<HistoryItem>)
    requires NewestFirst(s)
    ensures |r| == |s| + 1
    ensures NewestFirst(r)
    ensures r[0] == x || (s != [] && r[0] == s[0])
  {
    if s == [] then [x]
    else if s[0].date <= x.date then
      ConsNewestFirst(x, s);
      [x] + s
    else
      var rest := Insert(x, s[1..]);
      ConsNewestFirst(s[0], rest);
      [s[0]] + rest
  }

  /** Inserting adds `x` and loses nothing. */
  lemma {:induction false} InsertPermutes(x: HistoryItem, s: seq<HistoryItem>)
    requires NewestFirst(s)
    ensures multiset(Insert(x, s)) == multiset(s) + multiset{x}
  {
    if s != [] && s[0].date > x.date {
      InsertPermutes(x, s[1..]);
      assert s == [s[0]] + s[1..];
      assert Insert(x, s) == [s[0]] + Insert(x, s[1..]);
    }
  }

  lemma {:induction false} ConsNewestFirst(h: HistoryItem, s: seq<HistoryItem>)
    requires NewestFirst(s)
    requires s == [] || s[0].date <= h.date
    ensures NewestFirst([h] + s)
  {
    var r := [h] + s;
    forall i, j | 0 <= i < j < |r| ensures r[i].date >= r[j].date {
      if i == 0 {
        assert r[j] == s[j - 1];
        if j > 1 { assert s[0].date >= s[j - 1].date; }
      } else {
        assert r[i] == s[i - 1] && r[j] == s[j - 1];
      }
    }
  }

  /** `parsed.sort((a, b) => b.date - a.date)`: the same entries, newest first. */
  function SortNewestFirst(s: seq<HistoryItem>): (r: seq<HistoryItem>)
    ensures NewestFirst(r)
    ensures multiset(r) == multiset(s)
  {
    if s == [] then []
    else
      assert s == [s[0]] + s[1..];
      InsertPermutes(s[0], SortNewestFirst(s[1..]));
      Insert(s[0], SortNewestFirst(s[1..]))
  }

  /** Sorting a list that is already newest first changes nothing. */
  lemma {:induction false} SortKeepsSorted(s: seq<HistoryItem>)
    requires NewestFirst(s)
    ensures SortNewestFirst(s) == s
  {
    if s != [] {
      SortKeepsSorted(s[1..]);
      assert s == [s[0]] + s[1..];
      if s[1..] != [] {
        assert s[1] == s[1..][0];
      }
    }
  }

  /** The chats of one date, in list order. */
  function DatedOn(s: seq<HistoryItem>, d: int): seq<HistoryItem> {
    Seqs.Filter(s, (e: HistoryItem) => e.date == d)
  }

  /** The sort is stable: chats with the same date keep the order they were stored in. */
  lemma {:induction false} SortStable(s: seq<HistoryItem>, d: int)
    ensures DatedOn(SortNewestFirst(s), d) == DatedOn(s, d)
  {
    if s != [] {
      var p := (e: HistoryItem) => e.date == d;
      var sorted := SortNewestFirst(s[1..]);
      SortStable(s[1..], d);
      InsertStable(s[0], sorted, d);
      Seqs.FilterAppend([s[0]], sorted, p);
      Seqs.FilterAppend([s[0]], s[1..], p);
      assert s == [s[0]] + s[1..];
    }
  }

  /** Inserting `x` keeps it ahead of every entry of its own date. */
  lemma {:induction false} InsertStable(x: HistoryItem, s: seq<HistoryItem>, d: int)
    requires NewestFirst(s)
    ensures DatedOn(Insert(x, s), d) == DatedOn([x] + s, d)
  {
    if s != [] && s[0].date > x.date {
      var tail := s[1..];
      TailNewestFirst(s);
      InsertStable(x, tail, d);
      assert Insert(x, s) == [s[0]] + Insert(x, tail);
      Seqs.FilterAppend([s[0]], Insert(x, tail), (e: HistoryItem) => e.date == d);
      Seqs.FilterAppend([s[0]], [x] + tail, (e: HistoryItem) => e.date == d);
      assert s == [s[0]] + tail;
      DatedSwap(x, s[0], tail, d);
    }
  }

  lemma TailNewestFirst(s: seq<HistoryItem>)
    requires s != [] && NewestFirst(s)
    ensures NewestFirst(s[1..])
  {
    var tail := s[1..];
    forall i, j | 0 <= i < j < |tail| ensures tail[i].date >= tail[j].date {
      assert tail[i] == s[i + 1] && tail[j] == s[j + 1];
    }
  }

  /** Two chats of different dates can trade places without changing any date's chats. */
  lemma DatedSwap(x: HistoryItem, y: HistoryItem, t: seq<HistoryItem>, d: int)
    requires x.date != y.date
    ensures DatedOn([y] + ([x] + t), d) == DatedOn([x] + ([y] + t), d)
  {
    var hx := if x.date == d then [x] else [];
    var hy := if y.date == d then [y] else [];
    DatedCons(y, [x] + t, d);
    DatedCons(x, t, d);
    DatedCons(x, [y] + t, d);
    DatedCons(y, t, d);
    assert hx == [] || hy == [];
  }

  lemma DatedCons(a: HistoryItem, t: seq<HistoryItem>, d: int)
    ensures DatedOn([a] + t, d) == (if a.date == d then [a] else []) + DatedOn(t, d)
  {
    assert ([a] + t)[1..] == t;
  }

  /** The chat list without the chat `id`. */
  function DeleteById(s: seq<HistoryItem>, id: string): (r: seq<HistoryItem>)
    ensures forall k :: 0 <= k < |r| ==> r[k].id != id
  {
    Seqs.Filter(s, (item: HistoryItem) => item.id != id)
  }

  /** Deleting removes exactly the entries with that id and keeps the others in order. */
  lemma DeleteExact(s: seq<HistoryItem>, id: string, item: HistoryItem)
    ensures item in DeleteById(s, id) <==> item in s && item.id != id
    ensures Seqs.IsSubsequence(DeleteById(s, id), s)
  {
    Seqs.FilterMembership(s, (x: HistoryItem) => x.id != id, item);
    Seqs.FilterIsSubsequence(s, (x: HistoryItem) => x.id != id);
  }

  /** A list that is newest first stays so after a deletion. */
  lemma {:induction false} DeleteKeepsNewestFirst(s: seq<HistoryItem>, id: string)
    requires NewestFirst(s)
    ensures NewestFirst(DeleteById(s, id))
  {
    if s != [] {
      DeleteKeepsNewestFirst(s[1..], id);
      var rest := DeleteById(s[1..], id);
      assert DeleteById(s, id) == (if s[0].id != id then [s[0]] else []) + rest;
      forall k | 0 <= k < |rest| ensures rest[k].date <= s[0].date {
        DeleteExact(s[1..], id, rest[k]);
        var j :| 0 <= j < |s[1..]| && s[1..][j] == rest[k];
        assert s[j + 1] == rest[k];
      }
    }
  }

  /** How one message reads in a shared transcript. */
  function Line(m: Message): (r: string)
    ensures m.role == User ==> r == "**User**: " + m.text
    ensures m.role == Model ==> r == "**Abyan AI**: " + m.text
  {
    "**" + (if m.role == User then "User" else "Abyan AI") + "**: " + m.text
  }

  function Lines(ms: seq<Message>): (r: seq<string>)
    ensures |r| == |ms| && forall k :: 0 <= k < |ms| ==> r[k] == Line(ms[k])
  {
    if ms == [] then [] else [Line(ms[0])] + Lines(ms[1..])
  }

  const BlankLine: string := "\n\n"

  /** The Markdown copied by "share": one line per message, in order, separated by a blank line. */
  function ShareText(ms: seq<Message>): (r: string)
    ensures ms == [] ==> r == []
    ensures ms != [] ==> Line(ms[0]) <= r
    ensures ms != [] ==> |Line(ms[|ms| - 1])| <= |r| && r[|r| - |Line(ms[|ms| - 1])|..] == Line(ms[|ms| - 1])
  {
    if ms == [] then []
    else
      JoinEndsWithLast(Lines(ms), BlankLine);
      Join(Lines(ms), BlankLine)
  }

  /** The transcript grows message by message: one more message adds a blank line and its line. */
  lemma ShareAppend(ms: seq<Message>, m: Message)
    ensures ms == [] ==> ShareText(ms + [m]) == Line(m)
    ensures ms != [] ==> ShareText(ms + [m]) == ShareText(ms) + BlankLine + Line(m)
  {
    assert Lines(ms + [m]) == Lines(ms) + [Line(m)];
    if ms != [] {
      JoinSnoc(Lines(ms), Line(m), BlankLine);
    }
  }

  /** The sidebar's state: the list it shows and the chat whose transcript was just copied. */
  class Sidebar {
    var history: seq<HistoryItem>
    var copiedId: Option<string>
    const storage: BrowserStorage

    constructor (storage: BrowserStorage)
      ensures this.storage == storage && history == [] && copiedId.None?
    {
      this.storage := storage;
      history, copiedId := [], None;
    }

    /** The reload on opening: a saved list is shown newest first; a missing or unparsable list
        leaves what is shown. */
    method Reload()
      modifies this
      ensures storage.history.Saved? ==> history == SortNewestFirst(storage.history.items)
      ensures !storage.history.Saved? ==> history == old(history)
      ensures copiedId == old(copiedId)
      ensures storage.history.Saved? ==> NewestFirst(history)
    {
      match storage.history
      case Saved(items) =>
        history := SortNewestFirst(items);
      case Absent =>
      case Unreadable =>
    }

    /** `handleDeleteHistory`: drops the chat from the list and the storage; deleting the open
        chat starts a new one on the page. */
    method HandleDeleteHistory(id: string, page: AskMePage)
      requires page.storage == storage && page.Valid()
      modifies this, storage, page
      ensures history == DeleteById(old(history), id)
      ensures storage.history == Saved(history) && storage.chats == old(storage.chats) - {id}
      ensures copiedId == old(copiedId)
      ensures page.Valid()
      ensures old(page.chatId) == Some(id) ==>
        && page.chatId.None? && page.messages == [] && page.selectedImage.None? && page.input == []
      ensures old(page.chatId) != Some(id) ==>
        && page.chatId == old(page.chatId) && page.messages == old(page.messages)
        && page.selectedImage == old(page.selectedImage) && page.input == old(page.input)
      ensures page.selectedMode == old(page.selectedMode) && page.isLoading == old(page.isLoading)
      ensures page.usage == old(page.usage) && page.showPrompts == old(page.showPrompts)
    {
      var newHistory := DeleteById(history, id);
      history := newHistory;
      storage.history := Saved(newHistory);
      storage.chats := storage.chats - {id};
      if page.chatId == Some(id) {
        page.LoadChat(None);
      }
    }

    /** `handleShareChat`: copies the chat's transcript and marks it copied; a chat with nothing
        saved copies nothing. */
    method HandleShareChat(id: string) returns (copied: Option<string>)
      modifies this
      ensures id in storage.chats ==>
        copied == Some(ShareText(storage.chats[id])) && copiedId == Some(id)
      ensures id !in storage.chats ==> copied.None? && copiedId == old(copiedId)
      ensures history == old(history)
    {
      if id in storage.chats {
        copied := Some(ShareText(storage.chats[id]));
        copiedId := Some(id);
      } else {
        copied := None;
      }
    }
  }
}
