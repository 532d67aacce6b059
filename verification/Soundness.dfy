/**
 * What "decoded without an issue" means: there is a tree that spells out exactly the fields that were read,
 * in which every group has as many entries as declared and each entry starts with the delimiter and follows
 * rule order. What was stored is that tree with every entry cut to its first 128 fields.
 */
module Soundness {
  import opened Optional
  import opened Bytes
  import opened Dictionary
  import opened TokenStream
  import opened ParsedTree
  import opened Validation
  import opened GroupParser

  /** Groups are found under their own count tag. */
  predicate Keyed(d: Dict) {
    forall t :: t in d.groups ==> d.groups[t].countTag == t
  }

  predicate OwnDelimiters(d: Dict) {
    forall t :: t in d.groups ==> d.groups[t].delimiter in d.groups[t].rules
  }

  /** Every delimiter is a rule of its own group, or one of the loose tags, which are rules of no group. */
  predicate Covered(d: Dict, loose: set<nat>) {
    && Keyed(d)
    && forall t :: t in d.groups ==>
         && (d.groups[t].delimiter in d.groups[t].rules || d.groups[t].delimiter in loose)
         && forall x :: x in loose ==> x !in d.groups[t].rules
  }

  predicate IsDef(d: Dict, g: GroupDef) {
    g.countTag in d.groups && d.groups[g.countTag] == g
  }

  /** The next field has a loose tag. */
  predicate AtLoose(loose: set<nat>, st: Stream) {
    st.Next? && st.tok.tag in loose
  }

  // ---------------------------------------------------------------- what an entry keeps

  function CutSlots(slots: seq<Slot>): seq<Slot> {
    if |slots| <= MAX_DEFERRED_SLOTS then slots else slots[..MAX_DEFERRED_SLOTS]
  }

  function CutEntry(e: Entry): Entry
    decreases e, 1
  {
    Entry(CutSlots(e.slots), CutGroups(e.groups))
  }

  function CutGroups(gs: seq<Group>): seq<Group>
    decreases gs, 0
  {
    if gs == [] then [] else [gs[0].(entries := CutEntries(gs[0].entries))] + CutGroups(gs[1..])
  }

  function CutEntries(es: seq<Entry>): (r: seq<Entry>)
    ensures |r| == |es|
    decreases es, 0
  {
    if es == [] then [] else [CutEntry(es[0])] + CutEntries(es[1..])
  }

  lemma CutDeferred(full: seq<Slot>, s: Slot)
    ensures Defer(CutSlots(full), s) == CutSlots(full + [s])
  {
  }

  // ---------------------------------------------------------------- trees that spell out a stream

  /** A field that a slot stands for: same tag, same visible text, a proper value. */
  predicate Reads(tok: Tok, s: Slot) {
    tok.tag == s.tag && ViewText(tok.text) == s.text && tok.text != [] && WellTyped(tok.text, s.ftype)
  }

  /** The stream behind the fields of an entry: its slots in order, each group behind its count. */
  function Spell(d: Dict, slots: seq<Slot>, groups: seq<Group>, st: Stream): Option<Stream>
    decreases groups, 1, |slots|
  {
    if slots == [] then (if groups == [] then Some(st) else None)
    else if st.End? || !Reads(st.tok, slots[0]) then None
    else if slots[0].tag !in d.groups then Spell(d, slots[1..], groups, st.rest)
    else if groups == [] || groups[0].countTag != slots[0].tag
        || ParseUnsigned(st.tok.text) != Some(|groups[0].entries|)
    then None
    else
      match SpellEntries(d, groups[0].entries, st.rest)
      case None => None
      case Some(rest) => Spell(d, slots[1..], groups[1..], rest)
  }

  function SpellEntries(d: Dict, es: seq<Entry>, st: Stream): Option<Stream>
    decreases es, 0, 0
  {
    if es == [] then Some(st)
    else
      match Spell(d, es[0].slots, es[0].groups, st)
      case None => None
      case Some(rest) => SpellEntries(d, es[1..], rest)
  }

  // ---------------------------------------------------------------- entries in rule order

  /** Slots go strictly up the rules, above `last`, and have their dictionary types. */
  predicate Ordered(d: Dict, rules: seq<nat>, last: int, slots: seq<Slot>)
    decreases |slots|
  {
    slots == []
    || (var s := slots[0];
        && s.tag in d.fields && s.ftype == d.fields[s.tag]
        && last < RuleIndex(rules, s.tag)
        && Ordered(d, rules, RuleIndex(rules, s.tag), slots[1..]))
  }

  predicate SoundEntry(d: Dict, g: GroupDef, depth: nat, e: Entry)
    decreases e, 1
  {
    && e.slots != [] && e.slots[0].tag == g.delimiter
    && Ordered(d, g.rules, -1, e.slots)
    && SoundGroups(d, depth + 1, e.groups)
  }

  predicate SoundGroups(d: Dict, depth: nat, gs: seq<Group>)
    decreases gs, 0
  {
    gs == []
    || (&& gs[0].depth == depth && depth < MAX_NESTING_DEPTH && gs[0].countTag in d.groups
        && SoundEntries(d, d.groups[gs[0].countTag], depth, gs[0].entries)
        && SoundGroups(d, depth, gs[1..]))
  }

  predicate SoundEntries(d: Dict, g: GroupDef, depth: nat, es: seq<Entry>)
    decreases es, 0
  {
    es == [] || (SoundEntry(d, g, depth, es[0]) && SoundEntries(d, g, depth, es[1..]))
  }

  // ---------------------------------------------------------------- one field

  /** The scope's tags lie at or below its last rule, which has been seen itself. */
  ghost predicate ScopeOk(rules: seq<nat>, sc: Scope) {
    && -1 <= sc.last < |rules| && (sc.last >= 0 ==> rules[sc.last] in sc.seen)
  }

  /** A field of an entry taken without an issue stands above everything before it. */
  lemma TakenCleanly(d: Dict, g: GroupDef, c: Cursor, tok: Tok, rest: Stream)
    requires tok.tag in g.rules && ScopeOk(g.rules, c.scope)
    requires TakeField(d, g, c, tok, rest).issue.NoIssue?
    ensures
      var c1 := TakeField(d, g, c, tok, rest);
      && c.issue.NoIssue? && tok.tag in d.fields && tok.text != [] && WellTyped(tok.text, d.fields[tok.tag])
      && c.scope.last < RuleIndex(g.rules, tok.tag) == c1.scope.last && ScopeOk(g.rules, c1.scope)
  {
    RuleIndexMember(g.rules, tok.tag);
  }

  // ---------------------------------------------------------------- the first issue stays

  lemma TakeKeeps(d: Dict, g: GroupDef, c: Cursor, tok: Tok, rest: Stream)
    requires !c.issue.NoIssue?
    ensures TakeField(d, g, c, tok, rest).issue == c.issue
  {
  }

  lemma {:induction false} FieldsKeep(d: Dict, g: GroupDef, depth: nat, c: Cursor)
    requires !c.issue.NoIssue? && ParseFields(d, g, depth, c).Done?
    ensures ParseFields(d, g, depth, c).value.issue == c.issue
    decreases Size(c.rest), 0, 0
  {
    if c.rest.Next? && !Stops(g, c.any, c.rest.tok.tag) {
      var tok, rest := c.rest.tok, c.rest.rest;
      TakeKeeps(d, g, c, tok, rest);
      var c1 := TakeField(d, g, c, tok, rest);
      if tok.tag in d.groups {
        GroupKeeps(d, d.groups[tok.tag], depth + 1, tok.text, rest, c.issue);
        var e := ParseGroup(d, d.groups[tok.tag], depth + 1, tok.text, rest, c.issue).value;
        FieldsKeep(d, g, depth, TakeGroup(c1, d.groups[tok.tag], depth + 1, e));
      } else {
        FieldsKeep(d, g, depth, c1);
      }
    }
  }

  lemma {:induction false} GroupKeeps(d: Dict, g: GroupDef, depth: nat, count: Text, st: Stream, issue: Issue)
    requires !issue.NoIssue? && ParseGroup(d, g, depth, count, st, issue).Done?
    ensures ParseGroup(d, g, depth, count, st, issue).value.issue == issue
    decreases Size(st), 2, 0
  {
    EntriesKeep(d, g, depth, ParseUnsigned(count).value, st, issue);
  }

  lemma {:induction false} EntriesKeep(d: Dict, g: GroupDef, depth: nat, n: nat, st: Stream, issue: Issue)
    requires !issue.NoIssue? && ParseEntries(d, g, depth, n, st, issue).Done?
    ensures ParseEntries(d, g, depth, n, st, issue).value.issue == issue
    decreases Size(st), 1, n
  {
    if n > 0 && st.Next? && st.tok.tag == g.delimiter {
      var c := StartEntry(st, issue);
      FieldsKeep(d, g, depth, c);
      var c1 := ParseFields(d, g, depth, c).value;
      EntriesKeep(d, g, depth, n - 1, c1.rest, c1.issue);
    }
  }

  // ---------------------------------------------------------------- parsing without an issue

  /** What a clean run of the field loop from `c` to `c1` adds to the fields `full` read before. */
  ghost predicate CleanRun(
      d: Dict, g: GroupDef, depth: nat, c: Cursor, c1: Cursor, full: seq<Slot>, slots: seq<Slot>, groups: seq<Group>)
  {
    && c.issue.NoIssue?
    && c1.deferred == CutSlots(full + slots) && c1.groups == c.groups + CutGroups(groups)
    && Spell(d, slots, groups, c.rest) == Some(c1.rest)
    && Ordered(d, g.rules, c.scope.last, slots) && SoundGroups(d, depth + 1, groups)
  }

  /** The fields read so far are `full`, and no group has a tag above the last rule. */
  ghost predicate Holding(g: GroupDef, c: Cursor, full: seq<Slot>) {
    && c.deferred == CutSlots(full) && ScopeOk(g.rules, c.scope)
    && forall j :: 0 <= j < |c.groups| ==> RuleIndex(g.rules, c.groups[j].countTag) <= c.scope.last
  }

  lemma {:induction false} FieldsSound(d: Dict, loose: set<nat>, g: GroupDef, depth: nat, c: Cursor, full: seq<Slot>)
    returns (slots: seq<Slot>, groups: seq<Group>)
    requires Covered(d, loose) && IsDef(d, g) && Holding(g, c, full)
    requires ParseFields(d, g, depth, c).Done? && ParseFields(d, g, depth, c).value.issue.NoIssue?
    requires !AtLoose(loose, ParseFields(d, g, depth, c).value.rest)
    ensures CleanRun(d, g, depth, c, ParseFields(d, g, depth, c).value, full, slots, groups)
    ensures c.rest.Next? && !Stops(g, c.any, c.rest.tok.tag) ==> slots != [] && slots[0].tag == c.rest.tok.tag
    decreases Size(c.rest), 0, 0
  {
    if c.rest.End? || Stops(g, c.any, c.rest.tok.tag) {
      slots, groups := [], [];
      assert full + slots == full && c.groups + CutGroups(groups) == c.groups;
    } else if c.rest.tok.tag in d.groups {
      slots, groups := GroupFieldSound(d, loose, g, depth, c, full);
    } else {
      var tok, rest := c.rest.tok, c.rest.rest;
      var c1 := TakeField(d, g, c, tok, rest);
      if !c1.issue.NoIssue? {
        FieldsKeep(d, g, depth, c1);
      }
      TakenCleanly(d, g, c, tok, rest);
      var s := Slot(tok.tag, ViewText(tok.text), TypeOf(d, tok.tag));
      CutDeferred(full, s);
      slots, groups := FieldsSound(d, loose, g, depth, c1, full + [s]);
      Assoc(full, [s], slots);
      assert ([s] + slots)[1..] == slots;
      slots := [s] + slots;
    }
  }

  lemma {:induction false} GroupFieldSound(
      d: Dict, loose: set<nat>, g: GroupDef, depth: nat, c: Cursor, full: seq<Slot>)
    returns (slots: seq<Slot>, groups: seq<Group>)
    requires Covered(d, loose) && IsDef(d, g) && Holding(g, c, full)
    requires ParseFields(d, g, depth, c).Done? && ParseFields(d, g, depth, c).value.issue.NoIssue?
    requires !AtLoose(loose, ParseFields(d, g, depth, c).value.rest)
    requires c.rest.Next? && !Stops(g, c.any, c.rest.tok.tag) && c.rest.tok.tag in d.groups
    ensures CleanRun(d, g, depth, c, ParseFields(d, g, depth, c).value, full, slots, groups)
    ensures slots != [] && slots[0].tag == c.rest.tok.tag
    decreases Size(c.rest) - 1, 3, 0
  {
    var tok, rest := c.rest.tok, c.rest.rest;
    var def, c1 := d.groups[tok.tag], TakeField(d, g, c, tok, rest);
    var e := ParseGroup(d, def, depth + 1, tok.text, rest, c1.issue).value;
    var c2 := TakeGroup(c1, def, depth + 1, e);
    if !c2.issue.NoIssue? {
      FieldsKeep(d, g, depth, c2);
    }
    if !c1.issue.NoIssue? {
      GroupKeeps(d, def, depth + 1, tok.text, rest, c1.issue);
    }
    TakenCleanly(d, g, c, tok, rest);
    var entries := GroupSound(d, loose, def, depth + 1, tok.text, rest);
    NewGroup(g, c, full, tok.tag);
    var s := Slot(tok.tag, ViewText(tok.text), TypeOf(d, tok.tag));
    CutDeferred(full, s);
    var slots1, groups1 := FieldsSound(d, loose, g, depth, c2, full + [s]);
    PrependGroup(d, g, depth, c, c2, ParseFields(d, g, depth, c).value, tok, e, entries, full, slots1, groups1);
    slots := [s] + slots1;
    groups := [Group(tok.tag, depth + 1, entries)] + groups1;
  }

  lemma NewGroup(g: GroupDef, c: Cursor, full: seq<Slot>, tag: nat)
    requires Holding(g, c, full) && c.scope.last < RuleIndex(g.rules, tag)
    ensures ParsedTree.GroupIndex(c.groups, tag) < 0
  {
    NoSuchGroup(c.groups, 0, tag);
  }

  /** A clean run after a count field and its group, seen from before the count field. */
  lemma PrependGroup(d: Dict, g: GroupDef, depth: nat, c: Cursor, c2: Cursor, c3: Cursor, tok: Tok, e: GroupEnd,
                     entries: seq<Entry>, full: seq<Slot>, slots: seq<Slot>, groups: seq<Group>)
    requires c.issue.NoIssue? && c.rest.Next? && c.rest.tok == tok && tok.tag in d.groups && tok.tag in d.fields
    requires tok.text != [] && WellTyped(tok.text, d.fields[tok.tag])
    requires c.scope.last < RuleIndex(g.rules, tok.tag) == c2.scope.last
    requires CleanGroup(d, d.groups[tok.tag], depth + 1, tok.text, c.rest.rest, e, entries)
    requires c2.groups == c.groups + [Group(tok.tag, depth + 1, e.entries)] && c2.rest == e.rest
    requires CleanRun(d, g, depth, c2, c3, full + [Slot(tok.tag, ViewText(tok.text), TypeOf(d, tok.tag))], slots,
      groups)
    ensures CleanRun(d, g, depth, c, c3, full, [Slot(tok.tag, ViewText(tok.text), TypeOf(d, tok.tag))] + slots,
                     [Group(tok.tag, depth + 1, entries)] + groups)
  {
    var s, x := Slot(tok.tag, ViewText(tok.text), TypeOf(d, tok.tag)), Group(tok.tag, depth + 1, entries);
    Assoc(full, [s], slots);
    Assoc(c.groups, [Group(tok.tag, depth + 1, e.entries)], CutGroups(groups));
    assert ([s] + slots)[1..] == slots && ([x] + groups)[1..] == groups;
  }

  /**
   * A group parsed without an issue: as many entries as its count says, all sound, of which each stored entry
   * is the beginning.
   */
  ghost predicate CleanGroup(
      d: Dict, g: GroupDef, depth: nat, count: Text, st: Stream, e: GroupEnd, entries: seq<Entry>)
  {
    && depth < MAX_NESTING_DEPTH && ParseUnsigned(count) == Some(|entries|)
    && SpellEntries(d, entries, st) == Some(e.rest)
    && SoundEntries(d, g, depth, entries) && e.entries == CutEntries(entries)
  }

  /** Every group parsed without an issue is sound, at every nesting depth. */
  lemma {:induction false} GroupSound(d: Dict, loose: set<nat>, g: GroupDef, depth: nat, count: Text, st: Stream)
    returns (entries: seq<Entry>)
    requires Covered(d, loose) && IsDef(d, g)
    requires ParseGroup(d, g, depth, count, st, NoIssue).Done?
    requires ParseGroup(d, g, depth, count, st, NoIssue).value.issue.NoIssue?
    requires !AtLoose(loose, ParseGroup(d, g, depth, count, st, NoIssue).value.rest)
    ensures CleanGroup(d, g, depth, count, st, ParseGroup(d, g, depth, count, st, NoIssue).value, entries)
    decreases Size(st), 2, 0
  {
    entries := EntriesSound(d, loose, g, depth, ParseUnsigned(count).value, st);
  }

  lemma {:induction false} EntriesSound(d: Dict, loose: set<nat>, g: GroupDef, depth: nat, n: nat, st: Stream)
    returns (entries: seq<Entry>)
    requires Covered(d, loose) && IsDef(d, g)
    requires ParseEntries(d, g, depth, n, st, NoIssue).Done?
    requires ParseEntries(d, g, depth, n, st, NoIssue).value.issue.NoIssue?
    requires !AtLoose(loose, ParseEntries(d, g, depth, n, st, NoIssue).value.rest)
    ensures
      var e := ParseEntries(d, g, depth, n, st, NoIssue).value;
      && |entries| == n && SpellEntries(d, entries, st) == Some(e.rest) && SoundEntries(d, g, depth, entries)
      && e.entries == CutEntries(entries)
    decreases Size(st), 1, n
  {
    hide ParseFields, ParseEntries, AtLoose, Covered, SoundEntry, FinishEntry, Spell, CutEntry;
    entries := [];
    if n == 0 {
      NoEntries(d, g, depth, st);
    } else {
      EntryRead(d, loose, g, depth, n, st);
      var c1 := ParseFields(d, g, depth, StartEntry(st, NoIssue)).value;
      var first := FirstEntrySound(d, loose, g, depth, st);
      var more := EntriesSound(d, loose, g, depth, n - 1, c1.rest);
      PrependEntry(d, g, depth, st, c1.rest, first, more,
          ParseEntries(d, g, depth, n - 1, c1.rest, NoIssue).value.rest);
      entries := [first] + more;
    }
  }

  lemma NoEntries(d: Dict, g: GroupDef, depth: nat, st: Stream)
    ensures ParseEntries(d, g, depth, 0, st, NoIssue) == Done(GroupEnd([], st, NoIssue))
  {
  }

  /** Entries read without an issue: the first of them, and the others. */
  lemma EntryRead(d: Dict, loose: set<nat>, g: GroupDef, depth: nat, n: nat, st: Stream)
    requires Covered(d, loose) && IsDef(d, g) && n > 0
    requires ParseEntries(d, g, depth, n, st, NoIssue).Done?
    requires ParseEntries(d, g, depth, n, st, NoIssue).value.issue.NoIssue?
    requires !AtLoose(loose, ParseEntries(d, g, depth, n, st, NoIssue).value.rest)
    ensures st.Next? && st.tok.tag == g.delimiter && g.delimiter in g.rules
    ensures
      var c := ParseFields(d, g, depth, StartEntry(st, NoIssue));
      && c.Done? && c.value.issue.NoIssue? && Size(c.value.rest) <= Size(st) && !AtLoose(loose, c.value.rest)
      && var more := ParseEntries(d, g, depth, n - 1, c.value.rest, NoIssue);
      && more.Done? && more.value.issue.NoIssue?
      && ParseEntries(d, g, depth, n, st, NoIssue).value
         == more.value.(entries := [FinishEntry(c.value)] + more.value.entries)
  {
    hide FinishEntry;
    var c1 := ParseFields(d, g, depth, StartEntry(st, NoIssue)).value;
    if !c1.issue.NoIssue? {
      EntriesKeep(d, g, depth, n - 1, c1.rest, c1.issue);
    }
    LooseStays(d, loose, g, depth, n, st);
    LooseStays(d, loose, g, depth, n - 1, c1.rest);
  }

  /** Entries read from a loose tag on, without an issue, leave it where it is. */
  lemma {:induction false} LooseStays(d: Dict, loose: set<nat>, g: GroupDef, depth: nat, n: nat, st: Stream)
    requires Covered(d, loose) && IsDef(d, g)
    requires ParseEntries(d, g, depth, n, st, NoIssue).Done?
    requires ParseEntries(d, g, depth, n, st, NoIssue).value.issue.NoIssue?
    ensures AtLoose(loose, st) ==> ParseEntries(d, g, depth, n, st, NoIssue).value.rest == st
    decreases n
  {
    if n > 0 && AtLoose(loose, st) {
      assert ParseFields(d, g, depth, StartEntry(st, NoIssue)) == Done(StartEntry(st, NoIssue));
      LooseStays(d, loose, g, depth, n - 1, st);
    }
  }

  lemma {:induction false} FirstEntrySound(d: Dict, loose: set<nat>, g: GroupDef, depth: nat, st: Stream)
    returns (e: Entry)
    requires Covered(d, loose) && IsDef(d, g) && st.Next? && st.tok.tag == g.delimiter && g.delimiter in g.rules
    requires ParseFields(d, g, depth, StartEntry(st, NoIssue)).Done?
    requires ParseFields(d, g, depth, StartEntry(st, NoIssue)).value.issue.NoIssue?
    requires !AtLoose(loose, ParseFields(d, g, depth, StartEntry(st, NoIssue)).value.rest)
    ensures
      var c := ParseFields(d, g, depth, StartEntry(st, NoIssue)).value;
      && Spell(d, e.slots, e.groups, st) == Some(c.rest) && SoundEntry(d, g, depth, e) && FinishEntry(c) == CutEntry(e)
    decreases Size(st), 0, 1
  {
    var c := ParseFields(d, g, depth, StartEntry(st, NoIssue)).value;
    var slots, groups := FieldsSound(d, loose, g, depth, StartEntry(st, NoIssue), []);
    StoredInOrder(d, g.rules, slots);
    assert [] + slots == slots && c.deferred == CutSlots(slots) && c.groups == CutGroups(groups);
    e := Entry(slots, groups);
  }

  lemma PrependEntry(d: Dict, g: GroupDef, depth: nat, st: Stream, mid: Stream, x: Entry, more: seq<Entry>, end: Stream)
    requires Spell(d, x.slots, x.groups, st) == Some(mid) && SoundEntry(d, g, depth, x)
    requires SpellEntries(d, more, mid) == Some(end) && SoundEntries(d, g, depth, more)
    ensures SpellEntries(d, [x] + more, st) == Some(end) && SoundEntries(d, g, depth, [x] + more)
    ensures CutEntries([x] + more) == [CutEntry(x)] + CutEntries(more)
  {
    assert ([x] + more)[1..] == more;
  }

  /** Slots in rule order have distinct tags, so none overwrites another, cut or not. */
  lemma StoredInOrder(d: Dict, rules: seq<nat>, slots: seq<Slot>)
    requires Ordered(d, rules, -1, slots)
    ensures UpsertAll([], CutSlots(slots), 0) == CutSlots(slots)
  {
    forall i, j | 0 <= i < j < |slots| ensures slots[i].tag != slots[j].tag {
      OrderedTags(d, rules, -1, slots, i, j);
    }
    assert CutSlots(slots)[..0] == [];
    UpsertDistinct(CutSlots(slots), 0);
  }

  lemma {:induction false} OrderedTags(d: Dict, rules: seq<nat>, last: int, slots: seq<Slot>, i: nat, j: nat)
    requires Ordered(d, rules, last, slots) && i <= j < |slots|
    ensures last < RuleIndex(rules, slots[j].tag)
    ensures i < j ==> RuleIndex(rules, slots[i].tag) < RuleIndex(rules, slots[j].tag)
    decreases |slots|
  {
    if j > 0 {
      var next := RuleIndex(rules, slots[0].tag);
      if i > 0 {
        OrderedTags(d, rules, next, slots[1..], i - 1, j - 1);
      } else {
        OrderedTags(d, rules, next, slots[1..], j - 1, j - 1);
      }
    }
  }

  // ---------------------------------------------------------------- when nothing is cut

  /** Groups with at most 128 rules. */
  predicate SmallGroups(d: Dict) {
    forall t :: t in d.groups ==> |d.groups[t].rules| <= MAX_DEFERRED_SLOTS
  }

  lemma {:induction false} OrderedFits(d: Dict, rules: seq<nat>, last: int, slots: seq<Slot>)
    requires Ordered(d, rules, last, slots) && -1 <= last < |rules|
    ensures |slots| <= |rules| - 1 - last
    decreases |slots|
  {
    if slots != [] {
      OrderedFits(d, rules, RuleIndex(rules, slots[0].tag), slots[1..]);
    }
  }

  lemma {:induction false} EntriesUncut(d: Dict, g: GroupDef, depth: nat, es: seq<Entry>)
    requires SmallGroups(d) && |g.rules| <= MAX_DEFERRED_SLOTS && SoundEntries(d, g, depth, es)
    ensures CutEntries(es) == es
    decreases es, 0
  {
    if es != [] {
      OrderedFits(d, g.rules, -1, es[0].slots);
      GroupsUncut(d, depth + 1, es[0].groups);
      EntriesUncut(d, g, depth, es[1..]);
    }
  }

  /** Sound groups of a dictionary with at most 128 rules for each are stored whole. */
  lemma {:induction false} GroupsUncut(d: Dict, depth: nat, gs: seq<Group>)
    requires SmallGroups(d) && SoundGroups(d, depth, gs)
    ensures CutGroups(gs) == gs
    decreases gs, 0
  {
    if gs != [] {
      EntriesUncut(d, d.groups[gs[0].countTag], depth, gs[0].entries);
      GroupsUncut(d, depth, gs[1..]);
    }
  }

  // ---------------------------------------------------------------- delimiters outside the rules

  /** Every group that the parser reads without an issue has a sound reading. */
  ghost predicate AlwaysSound(d: Dict, g: GroupDef, depth: nat) {
    forall count, st ::
      var e := ParseGroup(d, g, depth, count, st, NoIssue);
      e.Done? && e.value.issue.NoIssue? ==> exists entries :: CleanGroup(d, g, depth, count, st, e.value, entries)
  }

  /** A delimiter that is no rule is never read, and the entry it should start stays empty without an issue. */
  lemma DelimiterIsNotRead(d: Dict, g: GroupDef, depth: nat, st: Stream)
    requires g.delimiter !in g.rules && depth < MAX_NESTING_DEPTH && st.Next? && st.tok.tag == g.delimiter
    ensures ParseGroup(d, g, depth, [49], st, NoIssue) == Done(GroupEnd([Entry([], [])], st, NoIssue))
    ensures forall entries: seq<Entry> ::
      !CleanGroup(d, g, depth, [49], st, GroupEnd([Entry([], [])], st, NoIssue), entries)
  {
    var c := StartEntry(st, NoIssue);
    ParseUnsignedOfDigits(1);
    assert Digits(1) == [49];
    assert ParseFields(d, g, depth, c) == Done(c) && FinishEntry(c) == Entry([], []);
    assert ParseEntries(d, g, depth, 0, st, NoIssue) == Done(GroupEnd([], st, NoIssue));
    assert [Entry([], [])] + [] == [Entry([], [])];
    assert ParseEntries(d, g, depth, 1, st, NoIssue) == Done(GroupEnd([Entry([], [])], st, NoIssue));
    forall entries: seq<Entry>
      ensures !CleanGroup(d, g, depth, [49], st, GroupEnd([Entry([], [])], st, NoIssue), entries)
    {
      if |entries| == 1 && SoundEntries(d, g, depth, entries) {
        FirstKept(d, g, depth, entries);
      }
    }
  }

  lemma FirstKept(d: Dict, g: GroupDef, depth: nat, entries: seq<Entry>)
    requires |entries| == 1 && SoundEntries(d, g, depth, entries)
    ensures CutEntries(entries) != [Entry([], [])]
  {
    assert CutEntries(entries)[0] == CutEntry(entries[0]);
    assert SoundEntry(d, g, depth, entries[0]);
  }

  /**
   * Groups are sound whenever they are read without an issue, at any depth, exactly when each delimiter is one of
   * its group's rules.
   */
  lemma SoundExactly(d: Dict, depth: nat)
    requires Keyed(d) && depth < MAX_NESTING_DEPTH
    ensures (forall t :: t in d.groups ==> AlwaysSound(d, d.groups[t], depth)) <==> OwnDelimiters(d)
  {
    if OwnDelimiters(d) {
      forall t | t in d.groups ensures AlwaysSound(d, d.groups[t], depth) {
        OwnDelimiterSound(d, d.groups[t], depth);
      }
    } else {
      var t :| t in d.groups && d.groups[t].delimiter !in d.groups[t].rules;
      var st := Next(MakeTok(d.groups[t].delimiter, [49]), End(None));
      DelimiterIsNotRead(d, d.groups[t], depth, st);
      assert ParseGroup(d, d.groups[t], depth, [49], st, NoIssue).Done?;
    }
  }

  lemma OwnDelimiterSound(d: Dict, g: GroupDef, depth: nat)
    requires Keyed(d) && OwnDelimiters(d) && IsDef(d, g)
    ensures AlwaysSound(d, g, depth)
  {
    forall count, st
      ensures
        var e := ParseGroup(d, g, depth, count, st, NoIssue);
        e.Done? && e.value.issue.NoIssue? ==> exists entries :: CleanGroup(d, g, depth, count, st, e.value, entries)
    {
      var e := ParseGroup(d, g, depth, count, st, NoIssue);
      if e.Done? && e.value.issue.NoIssue? {
        var entries := GroupSound(d, {}, g, depth, count, st);
      }
    }
  }
}
