/** What the encoders print of any message: its lines in insertion order without rules, the same lines with them. */
module PlainContent {
  import opened Bytes
  import opened FixTags
  import opened Dictionary
  import opened TokenStream
  import opened OwnedMessage
  import opened Encoder

  /** A line of a message on the wire. */
  datatype Line = Line(tag: nat, text: Text)

  function Printed(lines: seq<Line>, k: Stream): Stream {
    if lines == [] then k else Next(MakeTok(lines[0].tag, lines[0].text), Printed(lines[1..], k))
  }

  lemma {:induction false} PrintedBoth(a: seq<Line>, b: seq<Line>, k: Stream)
    ensures Printed(a + b, k) == Printed(a, Printed(b, k))
    decreases |a|
  {
    if a == [] {
      assert a + b == b;
    } else {
      assert (a + b)[1..] == a[1..] + b;
      PrintedBoth(a[1..], b, k);
    }
  }

  /** Framing fields are never printed from a message, header fields not at its root, counts only with their group. */
  predicate Unprinted(m: Message, skipHeader: bool, tag: nat) {
    tag == 8 || tag == 9 || tag == 10 || (skipHeader && IsHeaderTag(tag))
    || exists g :: g in m.groups && g.countTag == tag
  }

  function FieldLines(m: Message, skipHeader: bool, fields: seq<Field>): seq<Line> {
    if fields == [] then []
    else
      (if Unprinted(m, skipHeader, fields[0].tag) then [] else [Line(fields[0].tag, ValueText(fields[0].value))])
      + FieldLines(m, skipHeader, fields[1..])
  }

  /** All lines of a message: its own fields, then each group's count and entries. */
  function Lines(m: Message, skipHeader: bool): seq<Line>
    decreases m, 0
  {
    FieldLines(m, skipHeader, m.fields) + GroupLines(m.groups)
  }

  function GroupLines(groups: seq<GroupData>): seq<Line>
    decreases groups, 0
  {
    if groups == [] then []
    else
      [Line(groups[0].countTag, Digits(|groups[0].entries|))] + EntryLines(groups[0].entries) + GroupLines(groups[1..])
  }

  function EntryLines(entries: seq<Message>): seq<Line>
    decreases entries, 0
  {
    if entries == [] then [] else Lines(entries[0], false) + EntryLines(entries[1..])
  }

  // ---------------------------------------------------------------- without rules

  lemma {:induction false} NoGroup(groups: seq<GroupData>, i: nat, tag: nat)
    requires i <= |groups|
    ensures GroupFrom(groups, i, tag) >= 0 <==> exists g :: g in groups[i..] && g.countTag == tag
    decreases |groups| - i
  {
    if i < |groups| {
      NoGroup(groups, i + 1, tag);
      assert groups[i..] == [groups[i]] + groups[i + 1..];
    }
  }

  lemma UnprintedExactly(m: Message, skipHeader: bool, tag: nat)
    ensures Unprinted(m, skipHeader, tag) <==> Skipped(tag, skipHeader) || HasGroup(m, tag)
  {
    NoGroup(m.groups, 0, tag);
    assert m.groups[0..] == m.groups;
  }

  lemma {:induction false} FieldsPrinted(m: Message, i: nat, skipHeader: bool, k: Stream)
    requires i <= |m.fields|
    ensures PlainFields(m, i, skipHeader, k) == Printed(FieldLines(m, skipHeader, m.fields[i..]), k)
    decreases |m.fields| - i
  {
    if i < |m.fields| {
      var f, more := m.fields[i], FieldLines(m, skipHeader, m.fields[i + 1..]);
      assert m.fields[i..][1..] == m.fields[i + 1..];
      FieldsPrinted(m, i + 1, skipHeader, k);
      UnprintedExactly(m, skipHeader, f.tag);
      assert [] + more == more;
      PrintedBoth([Line(f.tag, ValueText(f.value))], more, k);
    }
  }

  /** Without rules a message prints its lines in insertion order. */
  lemma {:induction false} PlainPrints(m: Message, skipHeader: bool, k: Stream)
    ensures PlainBody(m, skipHeader, k) == Printed(Lines(m, skipHeader), k)
    decreases m, 0, 0
  {
    GroupsPrinted(m.groups, 0, k);
    assert m.groups[0..] == m.groups && m.fields[0..] == m.fields;
    FieldsPrinted(m, 0, skipHeader, PlainGroups(m.groups, 0, k));
    PrintedBoth(FieldLines(m, skipHeader, m.fields), GroupLines(m.groups), k);
  }

  lemma {:induction false} GroupsPrinted(groups: seq<GroupData>, i: nat, k: Stream)
    requires i <= |groups|
    ensures PlainGroups(groups, i, k) == Printed(GroupLines(groups[i..]), k)
    decreases groups, 0, |groups| - i
  {
    if i < |groups| {
      var g, more := groups[i], GroupLines(groups[i + 1..]);
      assert groups[i..][1..] == groups[i + 1..] && g.entries[0..] == g.entries;
      GroupsPrinted(groups, i + 1, k);
      EntriesPrinted(g.entries, 0, PlainGroups(groups, i + 1, k));
      PrintedBoth([Line(g.countTag, Digits(|g.entries|))], EntryLines(g.entries), PlainGroups(groups, i + 1, k));
      PrintedBoth([Line(g.countTag, Digits(|g.entries|))] + EntryLines(g.entries), more, k);
    }
  }

  lemma {:induction false} EntriesPrinted(entries: seq<Message>, i: nat, k: Stream)
    requires i <= |entries|
    ensures PlainEntries(entries, i, k) == Printed(EntryLines(entries[i..]), k)
    decreases entries, 0, |entries| - i
  {
    if i < |entries| {
      assert entries[i..][1..] == entries[i + 1..];
      EntriesPrinted(entries, i + 1, k);
      PlainPrints(entries[i], false, PlainEntries(entries, i + 1, k));
      PrintedBoth(Lines(entries[i], false), EntryLines(entries[i + 1..]), k);
    }
  }

  // ---------------------------------------------------------------- no rules at all

  const NO_DICT: Dict := Dict(map[], map[], map[])

  lemma {:induction false} ExtraFieldsPlain(m: Message, i: nat, skipHeader: bool, k: Stream)
    requires i <= |m.fields|
    ensures ExtraFields([], m, i, skipHeader, k) == PlainFields(m, i, skipHeader, k)
    decreases |m.fields| - i
  {
    if i < |m.fields| {
      ExtraFieldsPlain(m, i + 1, skipHeader, k);
    }
  }

  lemma {:induction false} ExtraGroupsPlain(groups: seq<GroupData>, i: nat, k: Stream)
    requires i <= |groups|
    ensures ExtraGroups(NO_DICT, [], groups, i, k) == PlainGroups(groups, i, k)
    decreases |groups| - i
  {
    if i < |groups| {
      ExtraGroupsPlain(groups, i + 1, k);
    }
  }

  /** The encoder without rules is the one with rules, given an empty dictionary. */
  lemma PlainIsEmit(m: Message, skipHeader: bool, k: Stream)
    ensures PlainBody(m, skipHeader, k) == EmitBody(NO_DICT, [], m, skipHeader, k)
  {
    ExtraGroupsPlain(m.groups, 0, k);
    ExtraFieldsPlain(m, 0, skipHeader, PlainGroups(m.groups, 0, k));
  }
}
