/** The recursive repeating-group parser, as a function from the remaining fields to a tree of entries. */
module GroupParser {
  import opened Optional
  import opened Bytes
  import opened Dictionary
  import opened TokenStream
  import opened ParsedTree
  import opened Validation

  const MAX_GROUP_ENTRIES: nat := 10000
  const MAX_NESTING_DEPTH: nat := 16
  const MAX_DEFERRED_SLOTS: nat := 128

  datatype GroupEnd = GroupEnd(entries: seq<Entry>, rest: Stream, issue: Issue)

  /** State of the loop over one entry's fields. */
  datatype Cursor = Cursor(
    rest: Stream, deferred: seq<Slot>, groups: seq<Group>, scope: Scope, issue: Issue, any: bool)

  function StartEntry(st: Stream, issue: Issue): Cursor {
    Cursor(st, [], [], EMPTY_SCOPE, issue, false)
  }

  /** Slots beyond the fixed capacity are dropped. */
  function Defer(slots: seq<Slot>, s: Slot): seq<Slot> {
    if |slots| < MAX_DEFERRED_SLOTS then slots + [s] else slots
  }

  function FinishEntry(c: Cursor): Entry {
    Entry(UpsertAll([], c.deferred, 0), c.groups)
  }

  function ParseGroup(d: Dict, g: GroupDef, depth: nat, countText: Text, st: Stream, issue: Issue)
    : (r: Outcome<GroupEnd>)
    ensures r.Done? ==> Size(r.value.rest) <= Size(st)
    decreases Size(st), 2, 0
  {
    match ParseUnsigned(countText)
    case None => Failed(InvalidNumber)
    case Some(n) =>
      if n > MAX_GROUP_ENTRIES then Failed(EntryCountExceeded)
      else if depth >= MAX_NESTING_DEPTH then Failed(NestingExceeded)
      else ParseEntries(d, g, depth, n, st, issue)
  }

  function ParseEntries(d: Dict, g: GroupDef, depth: nat, n: nat, st: Stream, issue: Issue): (r: Outcome<GroupEnd>)
    ensures r.Done? ==> Size(r.value.rest) <= Size(st)
    decreases Size(st), 1, n
  {
    if n == 0 then Done(GroupEnd([], st, issue))
    else
      match st
      case End(None) => Done(GroupEnd([], st, Note(issue, IncorrectNumInGroup, g.countTag)))
      case End(Some(e)) => Failed(Malformed(e))
      case Next(tok, _) =>
        if tok.tag != g.delimiter then Done(GroupEnd([], st, MissingDelimiterIssue(g, tok.tag, issue)))
        else
          var c :- ParseFields(d, g, depth, StartEntry(st, issue));
          var more :- ParseEntries(d, g, depth, n - 1, c.rest, c.issue);
          Done(more.(entries := [FinishEntry(c)] + more.entries))
  }

  function MissingDelimiterIssue(g: GroupDef, tag: nat, issue: Issue): Issue {
    if tag in g.rules then Note(issue, GroupOutOfOrder, tag)
    else Note(issue, IncorrectNumInGroup, g.countTag)
  }

  /** The field loop stops at a delimiter after the first field and at a tag outside the group. */
  predicate Stops(g: GroupDef, any: bool, tag: nat) {
    (any && tag == g.delimiter) || tag !in g.rules
  }

  function ParseFields(d: Dict, g: GroupDef, depth: nat, c: Cursor): (r: Outcome<Cursor>)
    ensures r.Done? ==> Size(r.value.rest) <= Size(c.rest)
    decreases Size(c.rest), 0, 0
  {
    match c.rest
    case End(None) => Done(c)
    case End(Some(e)) => Failed(Malformed(e))
    case Next(tok, rest) =>
      if Stops(g, c.any, tok.tag) then Done(c)
      else
        var c1 := TakeField(d, g, c, tok, rest);
        if tok.tag in d.groups then
          var nested := d.groups[tok.tag];
          var e :- ParseGroup(d, nested, depth + 1, tok.text, rest, c1.issue);
          ParseFields(d, g, depth, TakeGroup(c1, nested, depth + 1, e))
        else ParseFields(d, g, depth, c1)
  }

  /** One field of an entry: validated, then deferred. */
  function TakeField(d: Dict, g: GroupDef, c: Cursor, tok: Tok, rest: Stream): Cursor {
    var ftype := TypeOf(d, tok.tag);
    var checked := ValidateConsumedField(
      d, tok.tag, g.rules, RuleIndex(g.rules, tok.tag), c.scope, c.issue, false, true, EntryOrder);
    var issue := ValidateScalarValue(tok.tag, tok.text, ftype, checked.issue);
    Cursor(rest, Defer(c.deferred, Slot(tok.tag, ViewText(tok.text), ftype)), c.groups, checked.scope, issue, true)
  }

  function TakeGroup(c: Cursor, g: GroupDef, depth: nat, e: GroupEnd): Cursor {
    c.(rest := e.rest, groups := AddEntries(c.groups, g.countTag, depth, e.entries), issue := e.issue)
  }
}
