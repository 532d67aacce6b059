/** Parsing repeating groups from bytes into the flat message, and why that yields the parser's tree. */
module FlatParser {
  import opened Optional
  import opened Bytes
  import opened Dictionary
  import opened Scanner
  import opened TokenStream
  import opened ParsedTree
  import opened Validation
  import opened GroupParser
  import opened FlatTree
  import opened FlatUpdates
  import opened FlatMessage

  /** Where parsing goes on, and the first issue so far. */
  datatype Position = Position(pos: nat, issue: Issue)

  /** Local state of the loop over one entry's fields. */
  datatype Progress = Progress(pos: nat, deferred: seq<FieldSlot>, scope: Scope, issue: Issue, any: bool)

  /** The state of the field loop in terms of the tree. */
  ghost function CursorOf(raw: Text, delim: Byte, p: Progress, groups: seq<Group>): Cursor {
    Cursor(Tokenize(raw, p.pos, delim), SlotViews(raw, p.deferred), groups, p.scope, p.issue, p.any)
  }

  /** A slot as it is stored: offsets have 32 bits, lengths 16. */
  function MakeSlot(tag: nat, offset: nat, length: nat, ftype: FieldType): FieldSlot {
    FieldSlot(tag, offset % 0x1_0000_0000, length % 0x1_0000, ftype)
  }

  lemma SlotShowsValue(raw: Text, f: Scan, ftype: FieldType)
    requires f.Field? && f.offset + f.length <= |raw| < 0x1_0000_0000
    ensures SlotView(raw, MakeSlot(f.tag, f.offset, f.length, ftype))
         == Slot(f.tag, ViewText(raw[f.offset..f.offset + f.length]), ftype)
  {
    var v := raw[f.offset..f.offset + f.length];
    assert v[..|v| % 0x1_0000] == raw[f.offset..f.offset + |v| % 0x1_0000];
  }

  /** Deferring a stored slot is deferring the slot it shows. */
  lemma DeferShows(raw: Text, slots: seq<FieldSlot>, s: FieldSlot)
    ensures SlotViews(raw, if |slots| < MAX_DEFERRED_SLOTS then slots + [s] else slots)
         == Defer(SlotViews(raw, slots), SlotView(raw, s))
  {
    SlotViewsAppend(raw, slots, s);
  }

  /** One more field in the entry: validated and deferred. */
  function Take(d: Dict, g: GroupDef, p: Progress, f: Scan, value: Text): Progress
    requires f.Field?
  {
    var ftype := TypeOf(d, f.tag);
    var checked := ValidateConsumedField(
      d, f.tag, g.rules, RuleIndex(g.rules, f.tag), p.scope, p.issue, false, true, EntryOrder);
    var issue := ValidateScalarValue(f.tag, value, ftype, checked.issue);
    var s := MakeSlot(f.tag, f.offset, f.length, ftype);
    Progress(f.next, if |p.deferred| < MAX_DEFERRED_SLOTS then p.deferred + [s] else p.deferred,
             checked.scope, issue, true)
  }

  lemma TakeShows(d: Dict, g: GroupDef, raw: Text, delim: Byte, p: Progress, f: Scan, groups: seq<Group>)
    requires |raw| < 0x1_0000_0000 && p.pos < |raw| && f == ScanField(raw, p.pos, delim) && f.Field?
    ensures
      var c := CursorOf(raw, delim, p, groups);
      && c.rest.Next? && c.rest.tok.tag == f.tag && c.rest.tok.text == raw[f.offset..f.offset + f.length]
      && CursorOf(raw, delim, Take(d, g, p, f, raw[f.offset..f.offset + f.length]), groups)
         == TakeField(d, g, c, c.rest.tok, c.rest.rest)
  {
    SlotShowsValue(raw, f, TypeOf(d, f.tag));
    DeferShows(raw, p.deferred, MakeSlot(f.tag, f.offset, f.length, TypeOf(d, f.tag)));
  }

  /** Where the field loop stops, and how. */
  lemma FieldsStop(d: Dict, g: GroupDef, depth: nat, c: Cursor)
    ensures c.rest.End? && c.rest.error.Some? ==> ParseFields(d, g, depth, c) == Failed(Malformed(c.rest.error.value))
    ensures c.rest == End(None) || (c.rest.Next? && Stops(g, c.any, c.rest.tok.tag)) ==>
      ParseFields(d, g, depth, c) == Done(c)
  {
  }

  /** The field loop after a field without a group. */
  lemma ScalarStep(d: Dict, g: GroupDef, depth: nat, c: Cursor)
    requires c.rest.Next? && !Stops(g, c.any, c.rest.tok.tag) && c.rest.tok.tag !in d.groups
    ensures ParseFields(d, g, depth, c) == ParseFields(d, g, depth, TakeField(d, g, c, c.rest.tok, c.rest.rest))
  {
  }

  /** The field loop after a count field, once its group has been parsed. */
  lemma GroupStep(d: Dict, g: GroupDef, depth: nat, c: Cursor)
    requires c.rest.Next? && !Stops(g, c.any, c.rest.tok.tag) && c.rest.tok.tag in d.groups
    ensures
      var c1 := TakeField(d, g, c, c.rest.tok, c.rest.rest);
      var e := ParseGroup(d, d.groups[c.rest.tok.tag], depth + 1, c.rest.tok.text, c.rest.rest, c1.issue);
      ParseFields(d, g, depth, c)
        == if e.Failed? then Failed(e.error)
           else ParseFields(d, g, depth, TakeGroup(c1, d.groups[c.rest.tok.tag], depth + 1, e.value))
  {
  }

  /** No more slots have been added than fields consumed. */
  predicate FewerLeft(before: nat, after: nat, raw: Text, delim: Byte, pos: nat, next: nat) {
    after + Size(Tokenize(raw, next, delim)) <= before + Size(Tokenize(raw, pos, delim))
  }

  lemma FewerThen(a: nat, b: nat, c: nat, raw: Text, delim: Byte, p: nat, q: nat, r: nat)
    ensures FewerLeft(a, a, raw, delim, p, p)
    ensures FewerLeft(a, b, raw, delim, p, q) && FewerLeft(b, c, raw, delim, q, r) ==> FewerLeft(a, c, raw, delim, p, r)
  {
  }

  lemma TokenizeHead(raw: Text, pos: nat, delim: Byte)
    ensures
      var st, f := Tokenize(raw, pos, delim), ScanField(raw, pos, delim);
      if pos >= |raw| then st == End(None)
      else if f.Fail? then st == End(Some(f.error))
      else
        && f.offset + f.length <= |raw|
        && st == Next(Tok(f.tag, raw[f.offset..f.offset + f.length], f.next - pos), Tokenize(raw, f.next, delim))
  {
  }

  /** What parsing a group below `c` leaves behind, if the parser's function yields `e`. */
  ghost predicate GroupLeft(
      m: Flat, n: Flat, raw: Text, delim: Byte, c: int, g: GroupDef, depth: nat, e: Outcome<GroupEnd>,
          r: Outcome<Position>)
  {
    if e.Failed? then r == Failed(e.error)
    else
      && r.Done? && r.value.pos <= |raw| && Tokenize(raw, r.value.pos, delim) == e.value.rest
      && r.value.issue == e.value.issue && Grown(m, n, c)
      && ViewGroups(n, raw, c, 0) == AddEntries(ViewGroups(m, raw, c, 0), g.countTag, depth, e.value.entries)
  }

  /** What one step of the field loop leaves behind. */
  ghost predicate FieldLeft(
      m: Flat, n: Flat, d: Dict, g: GroupDef, depth: nat, raw: Text, delim: Byte, i: nat, p: Progress,
          r: Outcome<Progress>)
  {
    && WellFormed(m) && i < |m.entries|
    && var before := ParseFields(d, g, depth, CursorOf(raw, delim, p, ViewGroups(m, raw, i, 0)));
       if r.Failed? then before == Failed(r.error)
       else
         && Grown(m, n, i) && p.pos < r.value.pos <= |raw| && |r.value.deferred| <= MAX_DEFERRED_SLOTS
         && before == ParseFields(d, g, depth, CursorOf(raw, delim, r.value, ViewGroups(n, raw, i, 0)))
  }

  method ConsumeField(msg: ParsedMessage, d: Dict, g: GroupDef, depth: nat, delim: Byte, i: nat, p: Progress, f: Scan)
    returns (r: Outcome<Progress>)
    requires WellFormed(msg.State()) && i < |msg.entries| && |msg.raw| < 0x1_0000_0000
    requires p.pos < |msg.raw| && f == ScanField(msg.raw, p.pos, delim) && f.Field? && !Stops(g, p.any, f.tag)
    requires |p.deferred| <= MAX_DEFERRED_SLOTS
    modifies msg
    ensures msg.raw == old(msg.raw)
    ensures FieldLeft(old(msg.State()), msg.State(), d, g, depth, msg.raw, delim, i, p, r)
    ensures r.Done? ==>
      FewerLeft(|old(msg.slots)| + |p.deferred|, |msg.slots| + |r.value.deferred|, msg.raw, delim, p.pos, r.value.pos)
    decreases |msg.raw| - p.pos, 0
  {
    hide SlotViews, ParseFields, ParseGroup;
    ghost var m, groups := msg.State(), msg.GroupsOf(i);
    var value := msg.raw[f.offset..f.offset + f.length];
    TakeShows(d, g, msg.raw, delim, p, f, groups);
    var q := Take(d, g, p, f, value);
    ghost var c := CursorOf(msg.raw, delim, p, groups);
    if f.tag !in d.groups {
      ScalarStep(d, g, depth, c);
      return Done(q);
    }
    GroupStep(d, g, depth, c);
    var next := ParseGroupEntries(msg, d, d.groups[f.tag], depth + 1, delim, f.next, value, i, q.issue);
    if next.Failed? {
      return Failed(next.error);
    }
    r := Done(q.(pos := next.value.pos, issue := next.value.issue));
  }

  // ---------------------------------------------------------------- one entry

  /** What parsing the fields of the new entry `i` leaves behind. */
  ghost predicate EntryLeft(
      m: Flat, n: Flat, raw: Text, delim: Byte, i: nat, c: Outcome<Cursor>, r: Outcome<Position>)
  {
    if c.Failed? then r == Failed(c.error)
    else
      && r.Done? && r.value.pos <= |raw| && Tokenize(raw, r.value.pos, delim) == c.value.rest
      && r.value.issue == c.value.issue
      && WellFormed(m) && WellFormed(n) && Same(m, n, i) && m.slots <= n.slots && NewSlotsFrom(m, n, i)
      && i < |m.entries| && ViewEntry(n, raw, i) == FinishEntry(c.value)
  }

  lemma NewSlotsLower(m: Flat, n: Flat, c: int, b: int)
    requires Sizes(n) && NewSlotsFrom(m, n, c) && b <= c
    ensures NewSlotsFrom(m, n, b)
  {
    forall s | |m.slots| <= s < |n.slots| ensures OwnedFrom(n, s, b) {
      assert OwnedFrom(n, s, c);
    }
  }

  /** The finished entry: its groups, and the deferred slots. */
  lemma EntryFinished(m: Flat, k: Flat, n: Flat, raw: Text, i: nat, slots: seq<Slot>)
    requires Grown(m, k, i) && i >= 0 && SlotsBecome(k, n, raw, i, slots)
    requires m.entries[i].fieldCount == 0
    ensures Same(m, n, i) && m.slots <= n.slots && NewSlotsFrom(m, n, i)
    ensures ViewEntry(n, raw, i) == Entry(slots, ViewGroups(k, raw, i, 0))
  {
    SameThen(m, k, n, i, i);
    NewSlotsLower(m, k, i + 1, i);
    NewSlotsThen(m, k, n, i, i, i);
    OwnGroupsSame(k, n, raw, i);
    assert RangeOk(m, i);
    forall s | 0 <= s < |m.slots| ensures n.slots[s] == m.slots[s] {
      assert SameSlot(m, n, s);
    }
  }

  lemma StartsEmpty(m: Flat, raw: Text, delim: Byte, pos: nat, i: nat, issue: Issue)
    requires WellFormed(m) && i < |m.entries| && m.chains[i + 1] == []
    ensures CursorOf(raw, delim, Progress(pos, [], EMPTY_SCOPE, issue, false), ViewGroups(m, raw, i, 0))
         == StartEntry(Tokenize(raw, pos, delim), issue)
  {
  }

  method ParseEntry(msg: ParsedMessage, d: Dict, g: GroupDef, depth: nat, delim: Byte, pos: nat, i: nat, issue: Issue)
    returns (r: Outcome<Position>)
    requires WellFormed(msg.State()) && i < |msg.entries| && |msg.raw| < 0x1_0000_0000 && pos <= |msg.raw|
    requires msg.entries[i].fieldCount == 0 && msg.chains[i + 1] == []
    modifies msg
    ensures msg.raw == old(msg.raw) && (r.Done? ==> pos <= r.value.pos)
    ensures EntryLeft(old(msg.State()), msg.State(), msg.raw, delim, i,
                      ParseFields(d, g, depth, StartEntry(Tokenize(msg.raw, pos, delim), issue)), r)
    ensures r.Done? ==> FewerLeft(|old(msg.slots)|, |msg.slots|, msg.raw, delim, pos, r.value.pos)
    decreases |msg.raw| - pos, 1
  {
    hide RangeViews, UpsertAll, ParseFields, WellFormed, Same;
    ghost var m, raw := msg.State(), msg.raw;
    ghost var spec := ParseFields(d, g, depth, StartEntry(Tokenize(raw, pos, delim), issue));
    var p := Progress(pos, [], EMPTY_SCOPE, issue, false);
    GrownSelf(m, i);
    StartsEmpty(m, raw, delim, pos, i, issue);
    while p.pos < |msg.raw|
      invariant msg.raw == raw && pos <= p.pos <= |raw| && |p.deferred| <= MAX_DEFERRED_SLOTS
      invariant Grown(m, msg.State(), i)
      invariant FewerLeft(|m.slots|, |msg.slots| + |p.deferred|, raw, delim, pos, p.pos)
      invariant spec == ParseFields(d, g, depth, CursorOf(raw, delim, p, msg.GroupsOf(i)))
      decreases |raw| - p.pos
    {
      var f := ScanNextField(msg.raw, p.pos, delim);
      FieldsStop(d, g, depth, CursorOf(raw, delim, p, msg.GroupsOf(i)));
      if f.Fail? {
        return Failed(Malformed(f.error));
      }
      RuleIndexMember(g.rules, f.tag);
      if (p.any && f.tag == g.delimiter) || RuleIndex(g.rules, f.tag) < 0 {
        break;
      }
      ghost var k := msg.State();
      var next := ConsumeField(msg, d, g, depth, delim, i, p, f);
      if next.Failed? {
        return Failed(next.error);
      }
      GrownThen(m, k, msg.State(), i);
      p := next.value;
    }
    ghost var k := msg.State();
    FieldsStop(d, g, depth, CursorOf(raw, delim, p, msg.GroupsOf(i)));
    EmptyRange(k, raw, i);
    msg.AppendDeferred(i, p.deferred, []);
    UpsertAllLength([], SlotViews(raw, p.deferred), 0);
    EntryFinished(m, k, msg.State(), raw, i, UpsertAll([], SlotViews(raw, p.deferred), 0));
    r := Done(Position(p.pos, p.issue));
  }

  // ---------------------------------------------------------------- all entries of a group

  lemma {:induction false} SameTagsSameIndex(a: seq<Group>, b: seq<Group>, i: nat, tag: nat)
    requires |a| == |b| && i <= |a| && forall k :: 0 <= k < |a| ==> a[k].countTag == b[k].countTag
    ensures GroupFrom(a, i, tag) == GroupFrom(b, i, tag)
    decreases |a| - i
  {
    if i < |a| {
      SameTagsSameIndex(a, b, i + 1, tag);
    }
  }

  /** One more entry in the group at `p` is one more entry added. */
  lemma AddOneMore(view0: seq<Group>, view: seq<Group>, tag: nat, depth: nat, done: seq<Entry>, e: Entry, p: nat)
    requires view == AddEntries(view0, tag, depth, done) && GroupIndex(view, tag) == p
    ensures view[p := Joined(view[p], e)] == AddEntries(view0, tag, depth, done + [e])
    ensures GroupIndex(view[p := Joined(view[p], e)], tag) == p
  {
    SameTagsSameIndex(view, view[p := Joined(view[p], e)], 0, tag);
    var i := GroupIndex(view0, tag);
    if i < 0 {
      assert view[|view0|].countTag == tag;
      if p < |view0| {
        NoGroupBefore(view0, 0, tag, p);
      }
    } else {
      SameTagsSameIndex(view0, view, 0, tag);
      Assoc(view0[i].entries, done, [e]);
    }
  }

  lemma {:induction false} NoGroupBefore(groups: seq<Group>, i: nat, tag: nat, p: nat)
    requires i <= p < |groups| && GroupFrom(groups, i, tag) < 0
    ensures groups[p].countTag != tag
    decreases p - i
  {
    if i < p {
      NoGroupBefore(groups, i + 1, tag, p);
    }
  }

  /** A new entry of the group `frame`, the `p`-th of the container, has been parsed. */
  ghost predicate EntryParsed(m: Flat, n: Flat, c: int, p: nat, frame: nat) {
    && WellFormed(m) && WellFormed(n) && Container(m, c)
    && p < |m.chains[c + 1]| && m.chains[c + 1][p] == frame && frame < |m.groups| && Last(m.kids[frame]) < |m.entries|
    && Sizes(PushEntry(m, frame)) && Same(PushEntry(m, frame), n, |m.entries|) && m.slots <= n.slots
    && NewSlotsFrom(m, n, |m.entries|)
  }

  lemma EntryJoins(m: Flat, n: Flat, c: int, p: nat, frame: nat)
    requires EntryParsed(m, n, c, p, frame)
    ensures Grown(m, n, c) && n.chains[c + 1] == m.chains[c + 1] && |m.entries| < |n.entries|
    ensures n.kids[frame] == m.kids[frame] + [|m.entries|]
    ensures n.groups[frame].countTag == m.groups[frame].countTag && n.groups[frame].depth == m.groups[frame].depth
  {
    var k := PushEntry(m, frame);
    PushEntryOk(m, frame);
    assert ChainOk(m, c) && GroupLink(m, c, p);
    SameThen(m, k, n, c, |m.entries|);
    if c >= 0 {
      assert SameEntry(k, n, c);
    }
    assert SameGroup(k, n, frame);
    NewSlotsLower(m, n, |m.entries|, c + 1);
  }

  lemma OthersStay(m: Flat, n: Flat, c: int, p: nat, frame: nat, j: nat)
    requires EntryParsed(m, n, c, p, frame) && |m.groups| <= |n.groups| && j < |m.chains[c + 1]| && j != p
    ensures OwnSame(m, n, c, j)
  {
    assert ChainOk(m, c) && GroupLink(m, c, j);
    assert SameGroup(PushEntry(m, frame), n, m.chains[c + 1][j]);
  }

  /** The container after that, as a reader sees it. */
  lemma EntryShows(m: Flat, n: Flat, raw: Text, c: int, p: nat, frame: nat)
    requires EntryParsed(m, n, c, p, frame) && Grown(m, n, c) && n.chains[c + 1] == m.chains[c + 1]
    requires |m.entries| < |n.entries| && n.kids[frame] == m.kids[frame] + [|m.entries|]
    requires n.groups[frame].countTag == m.groups[frame].countTag && n.groups[frame].depth == m.groups[frame].depth
    ensures |ViewGroups(m, raw, c, 0)| == |m.chains[c + 1]|
    ensures ViewGroups(n, raw, c, 0)
         == ViewGroups(m, raw, c, 0)[p := Joined(ViewGroups(m, raw, c, 0)[p], ViewEntry(n, raw, |m.entries|))]
  {
    forall j | 0 <= j < |m.chains[c + 1]| && j != p ensures OwnSame(m, n, c, j) {
      OthersStay(m, n, c, p, frame, j);
    }
    FilledEntryGroups(m, n, raw, c, p);
  }

  /** Since `m0`, the container's groups have become those after adding `done`; the `p`-th of them is `frame`. */
  ghost predicate Filling(
      m0: Flat, m: Flat, raw: Text, c: int, p: nat, frame: nat, tag: nat, depth: nat, view0: seq<Group>,
          done: seq<Entry>)
  {
    && Grown(m0, m, c) && Container(m, c)
    && p < |m.chains[c + 1]| && m.chains[c + 1][p] == frame && frame < |m.groups|
    && ViewGroups(m, raw, c, 0) == AddEntries(view0, tag, depth, done)
    && GroupIndex(ViewGroups(m, raw, c, 0), tag) == p
  }

  method ParseNextEntry(
      msg: ParsedMessage, d: Dict, g: GroupDef, depth: nat, delim: Byte, pos: nat, c: int, frame: nat, issue: Issue,
      ghost m0: Flat, ghost p: nat, ghost view0: seq<Group>, ghost done: seq<Entry>)
    returns (r: Outcome<Position>)
    requires Filling(m0, msg.State(), msg.raw, c, p, frame, g.countTag, depth, view0, done)
    requires |msg.raw| < 0x1_0000_0000 && pos <= |msg.raw|
    modifies msg
    ensures msg.raw == old(msg.raw) && (r.Done? ==> pos <= r.value.pos <= |msg.raw|)
    ensures
      var spec := ParseFields(d, g, depth, StartEntry(Tokenize(msg.raw, pos, delim), issue));
      if spec.Failed? then r == Failed(spec.error)
      else
        && r.Done? && Tokenize(msg.raw, r.value.pos, delim) == spec.value.rest && r.value.issue == spec.value.issue
        && Filling(m0, msg.State(), msg.raw, c, p, frame, g.countTag, depth, view0, done + [FinishEntry(spec.value)])
    ensures r.Done? ==> FewerLeft(|old(msg.slots)|, |msg.slots|, msg.raw, delim, pos, r.value.pos)
    decreases |msg.raw| - pos, 2
  {
    ghost var m, raw := msg.State(), msg.raw;
    ghost var spec := ParseFields(d, g, depth, StartEntry(Tokenize(raw, pos, delim), issue));
    var i := msg.AppendParsedEntry(frame);
    PushEntryOk(m, frame);
    r := ParseEntry(msg, d, g, depth, delim, pos, i, issue);
    if r.Done? {
      ghost var n := msg.State();
      EntryJoins(m, n, c, p, frame);
      GrownThen(m0, m, n, c);
      EntryShows(m, n, raw, c, p, frame);
      AddOneMore(view0, ViewGroups(m, raw, c, 0), g.countTag, depth, done, FinishEntry(spec.value), p);
    }
  }

  /** Entries parsed before, then the rest. */
  ghost function Resume(done: seq<Entry>, more: Outcome<GroupEnd>): Outcome<GroupEnd> {
    if more.Failed? then more else Done(more.value.(entries := done + more.value.entries))
  }

  lemma NextEntryStep(d: Dict, g: GroupDef, depth: nat, n: nat, st: Stream, issue: Issue, done: seq<Entry>)
    requires n > 0 && st.Next? && st.tok.tag == g.delimiter
    ensures
      var c := ParseFields(d, g, depth, StartEntry(st, issue));
      Resume(done, ParseEntries(d, g, depth, n, st, issue))
        == if c.Failed? then Failed(c.error)
           else Resume(done + [FinishEntry(c.value)], ParseEntries(d, g, depth, n - 1, c.value.rest, c.value.issue))
  {
    var c := ParseFields(d, g, depth, StartEntry(st, issue));
    if c.Done? {
      var more := ParseEntries(d, g, depth, n - 1, c.value.rest, c.value.issue);
      if more.Done? {
        Assoc(done, [FinishEntry(c.value)], more.value.entries);
      }
    }
  }

  lemma ResumeNothing(more: Outcome<GroupEnd>)
    ensures Resume([], more) == more
  {
    if more.Done? {
      assert [] + more.value.entries == more.value.entries;
    }
  }

  /** How the parser ends short of an entry. */
  lemma EntriesEnd(d: Dict, g: GroupDef, depth: nat, n: nat, st: Stream, issue: Issue, done: seq<Entry>)
    requires n == 0 || !(st.Next? && st.tok.tag == g.delimiter)
    ensures Resume(done, ParseEntries(d, g, depth, n, st, issue))
         == if n == 0 then Done(GroupEnd(done, st, issue))
            else if st == End(None) then Done(GroupEnd(done, st, Note(issue, IncorrectNumInGroup, g.countTag)))
            else if st.End? then Failed(Malformed(st.error.value))
            else Done(GroupEnd(done, st, MissingDelimiterIssue(g, st.tok.tag, issue)))
  {
    assert done + [] == done;
  }

  /** The loop over the declared number of entries. */
  method ParseEntriesOf(
      msg: ParsedMessage, d: Dict, g: GroupDef, depth: nat, delim: Byte, pos: nat, n: nat, c: int, frame: nat,
      issue: Issue, ghost m0: Flat, ghost p: nat, ghost view0: seq<Group>)
    returns (r: Outcome<Position>, ghost done: seq<Entry>)
    requires Filling(m0, msg.State(), msg.raw, c, p, frame, g.countTag, depth, view0, [])
    requires |msg.raw| < 0x1_0000_0000 && pos <= |msg.raw|
    modifies msg
    ensures msg.raw == old(msg.raw) && (r.Done? ==> pos <= r.value.pos <= |msg.raw|)
    ensures
      var spec := ParseEntries(d, g, depth, n, Tokenize(msg.raw, pos, delim), issue);
      if spec.Failed? then r == Failed(spec.error)
      else
        && r.Done? && spec.value == GroupEnd(done, Tokenize(msg.raw, r.value.pos, delim), r.value.issue)
        && Filling(m0, msg.State(), msg.raw, c, p, frame, g.countTag, depth, view0, done)
    ensures r.Done? ==> FewerLeft(|old(msg.slots)|, |msg.slots|, msg.raw, delim, pos, r.value.pos)
    decreases |msg.raw| - pos, 3
  {
    hide *;
    ghost var raw := msg.raw;
    ghost var spec := ParseEntries(d, g, depth, n, Tokenize(raw, pos, delim), issue);
    var at := Position(pos, issue);
    done := [];
    ResumeNothing(spec);
    FewerThen(|msg.slots|, |msg.slots|, |msg.slots|, raw, delim, pos, pos, pos);
    for k := 0 to n
      invariant msg.raw == raw && pos <= at.pos <= |raw|
      invariant Filling(m0, msg.State(), raw, c, p, frame, g.countTag, depth, view0, done)
      invariant FewerLeft(|old(msg.slots)|, |msg.slots|, raw, delim, pos, at.pos)
      invariant spec == Resume(done, ParseEntries(d, g, depth, n - k, Tokenize(raw, at.pos, delim), at.issue))
    {
      ghost var st, had := Tokenize(raw, at.pos, delim), |msg.slots|;
      TokenizeHead(raw, at.pos, delim);
      if !(st.Next? && st.tok.tag == g.delimiter) {
        EntriesEnd(d, g, depth, n - k, st, at.issue, done);
      }
      if at.pos >= |msg.raw| {
        return Done(at.(issue := Note(at.issue, IncorrectNumInGroup, g.countTag))), done;
      }
      var peek := ScanNextField(msg.raw, at.pos, delim);
      if peek.Fail? {
        return Failed(Malformed(peek.error)), done;
      }
      if peek.tag != g.delimiter {
        return Done(at.(issue := MissingDelimiterIssue(g, peek.tag, at.issue))), done;
      }
      ghost var entry := ParseFields(d, g, depth, StartEntry(st, at.issue));
      NextEntryStep(d, g, depth, n - k, st, at.issue, done);
      var next := ParseNextEntry(msg, d, g, depth, delim, at.pos, c, frame, at.issue, m0, p, view0, done);
      if next.Failed? {
        return next, done;
      }
      done := done + [FinishEntry(entry.value)];
      FewerThen(|old(msg.slots)|, had, |msg.slots|, raw, delim, pos, at.pos, next.value.pos);
      at := next.value;
    }
    EntriesEnd(d, g, depth, 0, Tokenize(raw, at.pos, delim), at.issue, done);
    r := Done(at);
  }

  /** A whole repeating group parsed from bytes: the flat message gains exactly the entries of the parser's tree. */
  method ParseGroupEntries(
      msg: ParsedMessage, d: Dict, g: GroupDef, depth: nat, delim: Byte, pos: nat, count: Text, c: int, issue: Issue)
    returns (r: Outcome<Position>)
    requires WellFormed(msg.State()) && Container(msg.State(), c) && |msg.raw| < 0x1_0000_0000 && pos <= |msg.raw|
    modifies msg
    ensures msg.raw == old(msg.raw)
    ensures GroupLeft(old(msg.State()), msg.State(), msg.raw, delim, c, g, depth,
                      ParseGroup(d, g, depth, count, Tokenize(msg.raw, pos, delim), issue), r)
    ensures r.Done? ==> pos <= r.value.pos && FewerLeft(|old(msg.slots)|, |msg.slots|, msg.raw, delim, pos, r.value.pos)
    decreases |msg.raw| - pos, 4
  {
    var n := ParseUnsigned(count);
    if n.None? {
      return Failed(InvalidNumber);
    }
    if n.value > MAX_GROUP_ENTRIES {
      return Failed(EntryCountExceeded);
    }
    if depth >= MAX_NESTING_DEPTH {
      return Failed(NestingExceeded);
    }
    ghost var m, view0 := msg.State(), msg.GroupsOf(c);
    var frame, p := msg.EnsureParsedGroup(c, g.countTag, depth);
    ghost var done;
    r, done := ParseEntriesOf(msg, d, g, depth, delim, pos, n.value, c, frame, issue, m, p, view0);
  }
}
