/** The terminal-command notes index: a case-insensitive search over title, description and tags,
    and the tag preview on each card. */
module CommandList {

  import opened Wrappers
  import opened Text
  import Seqs

  /** The fields of a command note the index reads; `tags` may be absent. */
  datatype Command = Command(slug: string, title: string, description: string, tags: Option<seq<string>>)

  /** `tags.some(tag => tag.toLowerCase().includes(query.toLowerCase()))` */
  function SomeTagMatches(tags: seq<string>, query: string): (b: bool)
    ensures b <==> exists i :: 0 <= i < |tags| && Contains(Lower(tags[i]), Lower(query))
  {
    if tags == [] then false
    else Contains(Lower(tags[0]), Lower(query)) || SomeTagMatches(tags[1..], query)
  }

  /** The predicate of `filteredCommands`; `tags?.some(...)` is `undefined`, hence false, without tags. */
  predicate Matches(cmd: Command, query: string) {
    || Contains(Lower(cmd.title), Lower(query))
    || Contains(Lower(cmd.description), Lower(query))
    || (cmd.tags.Some? && SomeTagMatches(cmd.tags.value, query))
  }

  /** `filteredCommands` */
  function FilterCommands(commands: seq<Command>, query: string): (r: seq<Command>)
    ensures |r| <= |commands|
    ensures forall i :: 0 <= i < |r| ==> Matches(r[i], query)
  {
    Seqs.Filter(commands, c => Matches(c, query))
  }

  /** A command is listed iff its title, its description or one of its tags contains the query,
      ignoring case; the listing keeps the original order. */
  lemma FilterCommandsExact(commands: seq<Command>, query: string, c: Command)
    ensures c in FilterCommands(commands, query) <==>
      && c in commands
      && (|| Contains(Lower(c.title), Lower(query))
          || Contains(Lower(c.description), Lower(query))
          || (c.tags.Some? && exists i :: 0 <= i < |c.tags.value| && Contains(Lower(c.tags.value[i]), Lower(query))))
    ensures Seqs.IsSubsequence(FilterCommands(commands, query), commands)
  {
    Seqs.FilterMembership(commands, x => Matches(x, query), c);
    Seqs.FilterIsSubsequence(commands, x => Matches(x, query));
  }

  /** An empty search lists every command. */
  lemma EmptyQueryKeepsAll(commands: seq<Command>)
    ensures FilterCommands(commands, "") == commands
  {
    forall i | 0 <= i < |commands| ensures Matches(commands[i], "") {
      assert Lower("") == "";
    }
    Seqs.FilterKeepsAll(commands, x => Matches(x, ""));
  }

  /** A command without tags is found through its title or description only. */
  lemma AbsentTagsNeverMatch(c: Command, query: string)
    requires c.tags.None?
    ensures Matches(c, query) <==>
      Contains(Lower(c.title), Lower(query)) || Contains(Lower(c.description), Lower(query))
  {
  }

  /** `cmd.tags?.slice(0, 3)`: the first three tags, when there are tags. */
  function TagPreview(tags: Option<seq<string>>): (r: Option<seq<string>>)
    ensures r.Some? <==> tags.Some?
    ensures r.Some? ==> |r.value| <= 3 && r.value <= tags.value
    ensures r.Some? && |tags.value| <= 3 ==> r.value == tags.value
    ensures r.Some? && |tags.value| >= 3 ==> |r.value| == 3
  {
    match tags
    case None => None
    case Some(ts) => Some(Seqs.Take(ts, 3))
  }
}
