/** The markdown editor page: the toolbar's wrap-the-selection splice, the draft title, and the
    draft list with save, load, new and delete. The browser's storage is the field `stored`;
    the clock is a parameter. */
module MarkdownEditor {

  import opened Wrappers
  import opened Text
  import Seqs

  /** `defaultMarkdown` */
  const DefaultMarkdown: string :=
    "# Welcome to Markdown Editor! \U{1F4DD}\n\nStart writing your markdown here...\n\n"
    + "## Features\n- **Live Preview** - See changes instantly\n- *Italic text* and **bold text**\n"
    + "- Lists and checkboxes\n- Code blocks\n- And much more!\n\n"
    + "### Code Example\n```javascript\nfunction hello() {\n    console.log(\"Hello, World!\");\n}\n```\n\n"
    + "### Task List\n- [x] Create markdown editor\n- [x] Add live preview\n- [ ] Export to HTML\n- [ ] Save drafts\n\n"
    + "---\n\n> Happy writing! \U{1F680}\n"

  /** The text of `insertMarkdown`: the selection `[start, end)` wrapped in `before` and `after`. */
  function Splice(md: string, start: nat, end: nat, before: string, after: string): (r: string)
    requires start <= end <= |md|
    ensures |r| == |md| + |before| + |after|
  {
    md[..start] + before + md[start..end] + after + md[end..]
  }

  /** What the splice leaves in place: the text before the selection, the inserted markers, the
      selected text (which the new selection range covers) and the text after it. */
  lemma SpliceParts(md: string, start: nat, end: nat, before: string, after: string)
    requires start <= end <= |md|
    ensures var r := Splice(md, start, end, before, after);
      var selStart := start + |before|;
      var selEnd := selStart + (end - start);
      && r[..start] == md[..start]
      && r[start..selStart] == before
      && r[selStart..selEnd] == md[start..end]
      && r[selEnd..selEnd + |after|] == after
      && r[selEnd + |after|..] == md[end..]
  {
    var r := Splice(md, start, end, before, after);
    var selStart := start + |before|;
    var selEnd := selStart + (end - start);
    assert r == md[..start] + before + md[start..end] + after + md[end..];
    assert r[..start] == md[..start];
    assert r[start..selStart] == before;
    assert r[selStart..selEnd] == md[start..end];
    assert r[selEnd..selEnd + |after|] == after;
    assert r[selEnd + |after|..] == md[end..];
  }

  /** Removing the inserted markers gives back the original text. */
  lemma SpliceUnwraps(md: string, start: nat, end: nat, before: string, after: string)
    requires start <= end <= |md|
    ensures var r := Splice(md, start, end, before, after);
      var selEnd := start + |before| + (end - start);
      r[..start] + r[start + |before|..selEnd] + r[selEnd + |after|..] == md
  {
    SpliceParts(md, start, end, before, after);
    assert md[..start] + md[start..end] + md[end..] == md;
  }

  /** The leading run of `#` removed. */
  function DropHashes(s: string): (r: string)
    ensures |r| <= |s| && r == s[|s| - |r|..]
    ensures r == [] || r[0] != '#'
    ensures forall i :: 0 <= i < |s| - |r| ==> s[i] == '#'
  {
    if s != [] && s[0] == '#' then DropHashes(s[1..]) else s
  }

  /** The `replace` of a leading `#+` and the `\s*` after it: a heading's `#` marks and the white space after them go; a line
      that does not start with `#` is unchanged. */
  function StripHeading(line: string): (r: string)
    ensures line == [] || line[0] != '#' ==> r == line
    ensures line != [] && line[0] == '#' ==> r == TrimStart(DropHashes(line))
  {
    if line != [] && line[0] == '#' then TrimStart(DropHashes(line)) else line
  }

  /** The title of a saved draft: the first line without heading marks, at most 50 characters,
      or "Untitled" when nothing is left. */
  function DraftTitle(md: string): (r: string)
    ensures r != []
    ensures r == "Untitled" || |r| <= 50
  {
    var t := Seqs.Take(StripHeading(Split(md, '\n')[0]), 50);
    if t != [] then t else "Untitled"
  }

  /** A document that opens with a heading is saved under the heading's text, whatever white
      space separates the `#` marks from it; a heading with no text is "Untitled". */
  lemma HeadingBecomesTitle(hashes: string, spaces: string, text: string, rest: string)
    requires hashes != [] && forall i :: 0 <= i < |hashes| ==> hashes[i] == '#'
    requires forall i :: 0 <= i < |spaces| ==> IsSpace(spaces[i]) && spaces[i] != '\n'
    requires text == [] || !IsSpace(text[0])
    requires spaces != [] || text == [] || text[0] != '#'
    requires '\n' !in text
    ensures DraftTitle(hashes + spaces + text + "\n" + rest) ==
      if text == [] then "Untitled" else Seqs.Take(text, 50)
  {
    var line := hashes + spaces + text;
    assert '\n' !in line by {
      forall i | 0 <= i < |line| ensures line[i] != '\n' {
        if |hashes| <= i < |hashes| + |spaces| {
          assert line[i] == spaces[i - |hashes|];
        } else if i >= |hashes| + |spaces| {
          assert line[i] == text[i - |hashes| - |spaces|];
        }
      }
    }
    FirstLine(line, rest);
    HeadingLine(hashes, spaces, text);
  }

  /** Only the first line of a document decides its title. */
  lemma FirstLineTitle(line: string, rest: string)
    requires '\n' !in line
    ensures DraftTitle(line + "\n" + rest) == DraftTitle(line)
  {
    FirstLine(line, rest);
    OnlyLine(line);
  }

  /** A first line that is not a heading is the title, cut to 50 characters. */
  lemma PlainLineTitle(line: string)
    requires line != [] && line[0] != '#' && '\n' !in line
    ensures DraftTitle(line) == Seqs.Take(line, 50)
  {
    OnlyLine(line);
  }

  lemma FirstLine(line: string, rest: string)
    requires '\n' !in line
    ensures Split(line + "\n" + rest, '\n')[0] == line
  {
    var tail := "\n" + rest;
    assert line + "\n" + rest == line + tail;
    SplitFreePrefix(line, tail, '\n');
    assert tail[0] == '\n' && Split(tail, '\n')[0] == [];
    assert line + [] == line;
  }

  lemma OnlyLine(line: string)
    requires '\n' !in line
    ensures Split(line, '\n')[0] == line
  {
    SplitFreePrefix(line, [], '\n');
    assert line + [] == line;
  }

  /** A heading line reduces to its text: the `#` marks and the white space after them go. */
  lemma {:induction false} HeadingLine(hashes: string, spaces: string, text: string)
    requires hashes != [] && forall i :: 0 <= i < |hashes| ==> hashes[i] == '#'
    requires forall i :: 0 <= i < |spaces| ==> IsSpace(spaces[i])
    requires text == [] || !IsSpace(text[0])
    requires spaces != [] || text == [] || text[0] != '#'
    ensures StripHeading(hashes + spaces + text) == text
  {
    var u := spaces + text;
    assert hashes + spaces + text == hashes + u;
    assert (hashes + u)[0] == '#';
    assert u == [] || u[0] != '#' by {
      if spaces != [] {
        assert u[0] == spaces[0] && IsSpace(spaces[0]);
      }
    }
    DropHashesOf(hashes, u);
    TrimSpaces(spaces, text);
  }

  /** White space before a text that starts with a non-space is exactly what `TrimStart` removes. */
  lemma {:induction false} TrimSpaces(spaces: string, text: string)
    requires forall i :: 0 <= i < |spaces| ==> IsSpace(spaces[i])
    requires text == [] || !IsSpace(text[0])
    ensures TrimStart(spaces + text) == text
  {
    if spaces != [] {
      assert (spaces + text)[1..] == spaces[1..] + text;
      TrimSpaces(spaces[1..], text);
    } else {
      assert spaces + text == text;
    }
  }

  lemma {:induction false} DropHashesOf(hashes: string, s: string)
    requires forall i :: 0 <= i < |hashes| ==> hashes[i] == '#'
    requires s == [] || s[0] != '#'
    ensures DropHashes(hashes + s) == s
  {
    if hashes != [] {
      assert (hashes + s)[1..] == hashes[1..] + s;
      DropHashesOf(hashes[1..], s);
    } else {
      assert hashes + s == s;
    }
  }

  datatype Draft = Draft(id: string, title: string, content: string, updatedAt: int)

  /** `drafts.map(d => d.id === id ? newDraft : d)` */
  function ReplaceDraft(drafts: seq<Draft>, id: string, newDraft: Draft): (r: seq<Draft>)
    ensures |r| == |drafts|
    ensures forall i :: 0 <= i < |r| ==> r[i] == if drafts[i].id == id then newDraft else drafts[i]
  {
    if drafts == [] then []
    else [if drafts[0].id == id then newDraft else drafts[0]] + ReplaceDraft(drafts[1..], id, newDraft)
  }

  /** Saving over a draft keeps every draft's id and position, and changes only the drafts with that id. */
  lemma ReplaceKeepsOthers(drafts: seq<Draft>, id: string, newDraft: Draft)
    requires newDraft.id == id
    ensures forall i :: 0 <= i < |drafts| ==> ReplaceDraft(drafts, id, newDraft)[i].id == drafts[i].id
    ensures forall d :: d in drafts && d.id != id ==> d in ReplaceDraft(drafts, id, newDraft)
    ensures (forall i :: 0 <= i < |drafts| ==> drafts[i].id != id) ==> ReplaceDraft(drafts, id, newDraft) == drafts
  {
    var r := ReplaceDraft(drafts, id, newDraft);
    forall d | d in drafts && d.id != id ensures d in r {
      var k :| 0 <= k < |drafts| && drafts[k] == d;
      assert r[k] == d;
    }
  }

  /** `drafts.filter(d => d.id !== id)` */
  function DeleteDrafts(drafts: seq<Draft>, id: string): (r: seq<Draft>)
    ensures |r| <= |drafts|
    ensures forall i :: 0 <= i < |r| ==> r[i].id != id
  {
    Seqs.Filter(drafts, (d: Draft) => d.id != id)
  }

  /** Deletion keeps exactly the drafts with another id, in order. */
  lemma DeleteDraftsExact(drafts: seq<Draft>, id: string, d: Draft)
    ensures d in DeleteDrafts(drafts, id) <==> d in drafts && d.id != id
    ensures Seqs.IsSubsequence(DeleteDrafts(drafts, id), drafts)
  {
    Seqs.FilterMembership(drafts, (x: Draft) => x.id != id, d);
    Seqs.FilterIsSubsequence(drafts, (x: Draft) => x.id != id);
  }

  /** The id of a draft first saved at `now`: `draft-` followed by the time in decimal, so the
      id gives back the time, and drafts first saved at different times get different ids. */
  function DraftId(now: nat): (r: string)
    ensures |r| > 6 && r[..6] == "draft-"
    ensures forall i :: 6 <= i < |r| ==> IsDigit(r[i])
    ensures DecimalValue(r[6..]) == now
  {
    DecimalRoundTrip(now);
    var r := "draft-" + NatToString(now);
    assert r[6..] == NatToString(now);
    r
  }

  /** JavaScript truthiness of `currentDraftId`: set, and not the empty string. */
  predicate HasCurrent(id: Option<string>) {
    id.Some? && id.value != []
  }

  /** The page's state; `stored` is the value under the drafts key in storage. */
  class MarkdownEditorPage {
    var markdown: string
    var drafts: seq<Draft>
    var currentDraftId: Option<string>
    var stored: seq<Draft>

    /** The page after the saved drafts were read. */
    constructor (saved: seq<Draft>)
      ensures markdown == DefaultMarkdown && drafts == saved && currentDraftId == None && stored == saved
    {
      markdown, drafts, currentDraftId, stored := DefaultMarkdown, saved, None, saved;
    }

    /** The editor textarea: the typed text replaces the document. */
    method SetMarkdown(text: string)
      modifies this
      ensures markdown == text
      ensures drafts == old(drafts) && currentDraftId == old(currentDraftId) && stored == old(stored)
    {
      markdown := text;
    }

    /** `insertMarkdown` with the textarea's selection `[start, end)`; returns the new selection. */
    method InsertMarkdown(before: string, after: string, start: nat, end: nat) returns (selStart: nat, selEnd: nat)
      requires start <= end <= |markdown|
      modifies this
      ensures markdown == Splice(old(markdown), start, end, before, after)
      ensures selStart == start + |before| && selEnd == selStart + (end - start)
      ensures markdown[selStart..selEnd] == old(markdown)[start..end]
      ensures drafts == old(drafts) && currentDraftId == old(currentDraftId) && stored == old(stored)
    {
      var md := markdown;
      var selectedText := md[start..end];
      SpliceParts(md, start, end, before, after);
      markdown := md[..start] + before + selectedText + after + md[end..];
      selStart := start + |before|;
      selEnd := start + |before| + |selectedText|;
    }

    /** `handleSaveDraft` at time `now`. */
    method HandleSaveDraft(now: nat)
      modifies this
      ensures HasCurrent(old(currentDraftId)) ==>
        && drafts == ReplaceDraft(old(drafts), old(currentDraftId).value,
                                  Draft(old(currentDraftId).value, DraftTitle(old(markdown)), old(markdown), now))
        && currentDraftId == old(currentDraftId)
      ensures !HasCurrent(old(currentDraftId)) ==>
        && drafts == [Draft(DraftId(now), DraftTitle(old(markdown)), old(markdown), now)] + old(drafts)
        && currentDraftId == Some(DraftId(now))
      ensures stored == drafts && markdown == old(markdown)
    {
      var md, list, current := markdown, drafts, currentDraftId;
      var title := DraftTitle(md);
      if current.Some? && current.value != [] {
        var newDraft := Draft(current.value, title, md, now);
        drafts := ReplaceDraft(list, current.value, newDraft);
      } else {
        var newDraft := Draft(DraftId(now), title, md, now);
        drafts := [newDraft] + list;
        currentDraftId := Some(newDraft.id);
      }
      stored := drafts;
    }

    /** `handleLoadDraft` */
    method HandleLoadDraft(draft: Draft)
      modifies this
      ensures markdown == draft.content && currentDraftId == Some(draft.id)
      ensures drafts == old(drafts) && stored == old(stored)
    {
      markdown := draft.content;
      currentDraftId := Some(draft.id);
    }

    /** `handleNewDraft` */
    method HandleNewDraft()
      modifies this
      ensures markdown == DefaultMarkdown && currentDraftId == None
      ensures drafts == old(drafts) && stored == old(stored)
    {
      markdown := DefaultMarkdown;
      currentDraftId := None;
    }

    /** `handleDeleteDraft`: deleting the open draft starts a new one. */
    method HandleDeleteDraft(id: string)
      modifies this
      ensures drafts == DeleteDrafts(old(drafts), id) && stored == drafts
      ensures old(currentDraftId) == Some(id) ==> markdown == DefaultMarkdown && currentDraftId == None
      ensures old(currentDraftId) != Some(id) ==>
        markdown == old(markdown) && currentDraftId == old(currentDraftId)
    {
      var updated := DeleteDrafts(drafts, id);
      drafts := updated;
      stored := updated;
      if currentDraftId == Some(id) {
        HandleNewDraft();
      }
    }
  }
}
