/**
 * Parsing inverts emitting: the fields of a conforming group, nested to any depth, are parsed back
 * to the same tree of entries without a validation issue.
 */
module RoundTrip {
  import opened Optional
  import opened Bytes
  import opened FixTags
  import opened Dictionary
  import opened Scanner
  import opened TokenStream
  import opened ParsedTree
  import opened Validation
  import opened GroupParser
  import opened Encoder
  import O = OwnedMessage

  // ---------------------------------------------------------------- the expected tree

  /** Slots for the rules from `i` on: counts of groups and texts of fields, in rule order. */
  function ExpectSlots(d: Dict, rules: seq<nat>, i: nat, m: O.Message): seq<Slot>
    requires i <= |rules|
    decreases |rules| - i
  {
    if i == |rules| then []
    else
      var tag := rules[i];
      var gi, fi := O.GroupIndex(m.groups, tag), O.FieldIndex(m.fields, tag);
      var more := ExpectSlots(d, rules, i + 1, m);
      if gi >= 0 then [Slot(tag, Digits(|m.groups[gi].entries|), TypeOf(d, tag))] + more
      else if fi >= 0 then [Slot(tag, O.ValueText(m.fields[fi].value), TypeOf(d, tag))] + more
      else more
  }

  function ExpectGroups(d: Dict, rules: seq<nat>, i: nat, depth: nat, m: O.Message): seq<Group>
    requires i <= |rules|
    decreases m, 1, |rules| - i
  {
    if i == |rules| then []
    else
      var gi := O.GroupIndex(m.groups, rules[i]);
      var more := ExpectGroups(d, rules, i + 1, depth, m);
      if gi >= 0 then [ExpectGroup(d, depth + 1, m.groups[gi])] + more else more
  }

  function ExpectGroup(d: Dict, depth: nat, g: O.GroupData): Group
    decreases g, 1, 0
  {
    Group(g.countTag, depth,
          if g.countTag in d.groups then ExpectEntries(d, d.groups[g.countTag].rules, depth, g.entries, 0) else [])
  }

  function ExpectEntries(d: Dict, rules: seq<nat>, depth: nat, es: seq<O.Message>, i: nat): seq<Entry>
    requires i <= |es|
    decreases es, 0, |es| - i
  {
    if i == |es| then [] else [Expect(d, rules, depth, es[i])] + ExpectEntries(d, rules, depth, es, i + 1)
  }

  /** Fields, counts and groups of a message, in rule order. */
  function Expect(d: Dict, rules: seq<nat>, depth: nat, m: O.Message): Entry
    decreases m, 2, 0
  {
    Entry(ExpectSlots(d, rules, 0, m), ExpectGroups(d, rules, 0, depth, m))
  }

  // ---------------------------------------------------------------- conforming messages

  predicate TagOk(d: Dict, rules: seq<nat>, tag: nat) {
    tag in rules && 1 <= tag < 100000 && !IsFrameTag(tag) && tag in d.fields
  }

  predicate ValueOk(text: Text, ftype: FieldType, delim: Byte) {
    text != [] && delim !in text && |text| < 0x1_0000 && WellTyped(text, ftype)
  }

  predicate FieldOk(d: Dict, rules: seq<nat>, f: O.Field, delim: Byte) {
    TagOk(d, rules, f.tag) && f.tag !in d.groups && ValueOk(O.ValueText(f.value), d.fields[f.tag], delim)
  }

  /** The group definition lists its delimiter first and shares no tag with the enclosing scopes. */
  predicate DefOk(g: GroupDef, outer: set<nat>) {
    && g.rules != [] && g.rules[0] == g.delimiter && Distinct(g.rules)
    && forall t :: t in g.rules ==> t !in outer
  }

  /** An entry has its delimiter field and no more slots than an entry can hold. */
  predicate EntryShape(d: Dict, g: GroupDef, e: O.Message) {
    O.FieldIndex(e.fields, g.delimiter) >= 0 && |ExpectSlots(d, g.rules, 0, e)| <= MAX_DEFERRED_SLOTS
  }

  predicate GroupOk(d: Dict, rules: seq<nat>, outer: set<nat>, depth: nat, g: O.GroupData, delim: Byte)
    decreases g
  {
    && TagOk(d, rules, g.countTag) && g.countTag in d.groups
    && WellTyped(Digits(|g.entries|), d.fields[g.countTag])
    && |g.entries| <= MAX_GROUP_ENTRIES && depth + 1 < MAX_NESTING_DEPTH
    && var def := d.groups[g.countTag];
    && def.countTag == g.countTag && DefOk(def, outer + TagSet(rules))
    && forall e :: e in g.entries ==>
         Conforms(d, def.rules, outer + TagSet(rules), depth + 1, e, delim) && EntryShape(d, def, e)
  }

  /** `outer` holds the tags of the enclosing scopes, `depth` the nesting depth of the message's scope. */
  predicate Conforms(d: Dict, rules: seq<nat>, outer: set<nat>, depth: nat, m: O.Message, delim: Byte)
    decreases m
  {
    && (forall f :: f in m.fields ==> FieldOk(d, rules, f, delim))
    && (forall g :: g in m.groups ==> GroupOk(d, rules, outer, depth, g, delim))
  }

  // ---------------------------------------------------------------- emitting a conforming message

  /** No field or group of a conforming message falls outside the rules. */
  lemma NoExtras(d: Dict, rules: seq<nat>, outer: set<nat>, depth: nat, m: O.Message, delim: Byte, skip: bool,
      k: Stream)
    requires Conforms(d, rules, outer, depth, m, delim)
    ensures EmitBody(d, rules, m, skip, k) == RulePass(d, rules, 0, m, skip, k)
  {
    NoExtraGroups(d, rules, outer, depth, m.groups, 0, delim, k);
    NoExtraFields(d, rules, m, 0, delim, skip, k);
  }

  lemma {:induction false} NoExtraFields(
      d: Dict, rules: seq<nat>, m: O.Message, i: nat, delim: Byte, skip: bool, k: Stream)
    requires i <= |m.fields| && forall f :: f in m.fields ==> FieldOk(d, rules, f, delim)
    ensures ExtraFields(rules, m, i, skip, k) == k
    decreases |m.fields| - i
  {
    if i < |m.fields| {
      assert FieldOk(d, rules, m.fields[i], delim);
      NoExtraFields(d, rules, m, i + 1, delim, skip, k);
    }
  }

  lemma {:induction false} NoExtraGroups(
      d: Dict, rules: seq<nat>, outer: set<nat>, depth: nat, groups: seq<O.GroupData>, i: nat, delim: Byte, k: Stream)
    requires i <= |groups| && forall g :: g in groups ==> GroupOk(d, rules, outer, depth, g, delim)
    ensures ExtraGroups(d, rules, groups, i, k) == k
    decreases |groups| - i
  {
    if i < |groups| {
      assert GroupOk(d, rules, outer, depth, groups[i], delim);
      NoExtraGroups(d, rules, outer, depth, groups, i + 1, delim, k);
    }
  }

  /** What a rule emits in front of `k`. */
  lemma RuleStep(d: Dict, rules: seq<nat>, i: nat, m: O.Message, skip: bool, k: Stream)
    requires i < |rules| && !Skipped(rules[i], skip)
    ensures
      var gi, fi := O.GroupIndex(m.groups, rules[i]), O.FieldIndex(m.fields, rules[i]);
      var more := RulePass(d, rules, i + 1, m, skip, k);
      RulePass(d, rules, i, m, skip, k)
        == if gi >= 0 then EmitGroup(d, m.groups[gi], more)
           else if fi >= 0 then EmitField(m.fields[fi], more)
           else more
  {
  }

  lemma AbsentRule(d: Dict, rules: seq<nat>, i: nat, depth: nat, m: O.Message, skip: bool, k: Stream)
    requires i < |rules| && O.GroupIndex(m.groups, rules[i]) < 0 && O.FieldIndex(m.fields, rules[i]) < 0
    ensures RulePass(d, rules, i, m, skip, k) == RulePass(d, rules, i + 1, m, skip, k)
    ensures ExpectSlots(d, rules, i, m) == ExpectSlots(d, rules, i + 1, m)
    ensures ExpectGroups(d, rules, i, depth, m) == ExpectGroups(d, rules, i + 1, depth, m)
  {
  }

  /** A rule with a group contributes its count and its entries to the expected tree. */
  lemma ExpectGroupStep(
      d: Dict, rules: seq<nat>, i: nat, depth: nat, m: O.Message, slots: seq<Slot>, groups: seq<Group>)
    requires i < |rules| && O.GroupIndex(m.groups, rules[i]) >= 0
    ensures
      var data := m.groups[O.GroupIndex(m.groups, rules[i])];
      && slots + [Slot(rules[i], Digits(|data.entries|), TypeOf(d, rules[i]))] + ExpectSlots(d, rules, i + 1, m)
         == slots + ExpectSlots(d, rules, i, m)
      && groups + [ExpectGroup(d, depth + 1, data)] + ExpectGroups(d, rules, i + 1, depth, m)
         == groups + ExpectGroups(d, rules, i, depth, m)
  {
    var data := m.groups[O.GroupIndex(m.groups, rules[i])];
    Assoc(slots, [Slot(rules[i], Digits(|data.entries|), TypeOf(d, rules[i]))], ExpectSlots(d, rules, i + 1, m));
    Assoc(groups, [ExpectGroup(d, depth + 1, data)], ExpectGroups(d, rules, i + 1, depth, m));
  }

  /** A rule with a scalar field contributes its text to the expected tree. */
  lemma ExpectScalarStep(
      d: Dict, rules: seq<nat>, i: nat, depth: nat, m: O.Message, slots: seq<Slot>, groups: seq<Group>)
    requires i < |rules| && O.GroupIndex(m.groups, rules[i]) < 0 && O.FieldIndex(m.fields, rules[i]) >= 0
    ensures
      var f := m.fields[O.FieldIndex(m.fields, rules[i])];
      slots + [Slot(rules[i], O.ValueText(f.value), TypeOf(d, rules[i]))] + ExpectSlots(d, rules, i + 1, m)
        == slots + ExpectSlots(d, rules, i, m)
    ensures ExpectGroups(d, rules, i, depth, m) == ExpectGroups(d, rules, i + 1, depth, m)
  {
    var f := m.fields[O.FieldIndex(m.fields, rules[i])];
    Assoc(slots, [Slot(rules[i], O.ValueText(f.value), TypeOf(d, rules[i]))], ExpectSlots(d, rules, i + 1, m));
  }

  /** The stream is over, or goes on with a tag in `tags`. */
  predicate StartsIn(st: Stream, tags: set<nat>) {
    match st
    case End(error) => error.None?
    case Next(tok, _) => tok.tag in tags
  }

  /** What the rules emit starts with a tag of the rules or with what follows. */
  lemma {:induction false} PassStart(
      d: Dict, rules: seq<nat>, i: nat, outer: set<nat>, depth: nat, m: O.Message, delim: Byte, skip: bool, k: Stream,
      tags: set<nat>)
    requires i <= |rules| && Conforms(d, rules, outer, depth, m, delim) && StartsIn(k, tags)
    ensures StartsIn(RulePass(d, rules, i, m, skip, k), tags + TagSet(rules))
    decreases |rules| - i
  {
    if i < |rules| {
      var gi, fi := O.GroupIndex(m.groups, rules[i]), O.FieldIndex(m.fields, rules[i]);
      if Skipped(rules[i], skip) {
        PassStart(d, rules, i + 1, outer, depth, m, delim, skip, k, tags);
      } else if gi >= 0 {
        assert GroupOk(d, rules, outer, depth, m.groups[gi], delim);
        RuleStep(d, rules, i, m, skip, k);
      } else if fi >= 0 {
        assert FieldOk(d, rules, m.fields[fi], delim);
        RuleStep(d, rules, i, m, skip, k);
      } else {
        AbsentRule(d, rules, i, depth, m, skip, k);
        PassStart(d, rules, i + 1, outer, depth, m, delim, skip, k, tags);
      }
    }
  }

  // ---------------------------------------------------------------- one field

  /** The scope has met no rule from `i` on. */
  ghost predicate Unmet(rules: seq<nat>, i: nat, sc: Scope) {
    sc.last < i && forall k :: i <= k < |rules| ==> rules[k] !in sc.seen
  }

  /** A tag met in rule order for the first time passes validation. */
  lemma ConsumeInOrder(d: Dict, rules: seq<nat>, i: nat, sc: Scope, allowEnvelope: bool, order: Order)
    requires i < |rules| && Distinct(rules) && rules[i] in d.fields && Unmet(rules, i, sc)
    ensures
      var r := ValidateConsumedField(
        d, rules[i], rules, RuleIndex(rules, rules[i]), sc, NoIssue, allowEnvelope, true, order);
      r.issue.NoIssue? && Unmet(rules, i + 1, r.scope)
  {
    RuleIndexOf(rules, i);
  }

  /** Below 64 KiB the 16-bit length loses nothing. */
  lemma ViewKeepsText(text: Text)
    ensures ViewText(text) == text <==> |text| < 0x1_0000
  {
    if |text| < 0x1_0000 {
      assert text[..|text|] == text;
    }
  }

  /** The cursor stands before rule `i` of an entry and nothing has gone wrong so far. */
  ghost predicate Before(g: GroupDef, i: nat, c: Cursor) {
    && c.issue.NoIssue? && Unmet(g.rules, i, c.scope) && (i > 0 ==> c.any)
    && forall k, j :: i <= k < |g.rules| && 0 <= j < |c.groups| ==> c.groups[j].countTag != g.rules[k]
  }

  /** A validated field of a conforming entry raises no issue and moves the scope on. */
  lemma TakeConforming(d: Dict, g: GroupDef, i: nat, c: Cursor, text: Text, rest: Stream, delim: Byte)
    requires i < |g.rules| && Distinct(g.rules) && g.rules[i] in d.fields
    requires ValueOk(text, d.fields[g.rules[i]], delim)
    requires Before(g, i, c) && |c.deferred| < MAX_DEFERRED_SLOTS
    ensures
      var c1 := TakeField(d, g, c, MakeTok(g.rules[i], text), rest);
      && Before(g, i + 1, c1) && c1.rest == rest && c1.groups == c.groups
      && c1.deferred == c.deferred + [Slot(g.rules[i], text, TypeOf(d, g.rules[i]))]
  {
    ConsumeInOrder(d, g.rules, i, c.scope, false, EntryOrder);
    ViewKeepsText(text);
  }

  // ---------------------------------------------------------------- parsing what was emitted

  ghost predicate Parsed(
      d: Dict, rules: seq<nat>, i: nat, depth: nat, m: O.Message, c: Cursor, k: Stream, r: Outcome<Cursor>)
    requires i <= |rules|
  {
    && r.Done? && r.value.rest == k && r.value.issue.NoIssue?
    && r.value.deferred == c.deferred + ExpectSlots(d, rules, i, m)
    && r.value.groups == c.groups + ExpectGroups(d, rules, i, depth, m)
  }

  /** An entry to be parsed from rule `i` on: emitted at the cursor in front of `k`. */
  ghost predicate Pending(
      d: Dict, g: GroupDef, outer: set<nat>, depth: nat, m: O.Message, delim: Byte, i: nat, c: Cursor, k: Stream)
  {
    && SafeDelimiter(delim) && DefOk(g, outer) && Conforms(d, g.rules, outer, depth, m, delim)
    && O.FieldIndex(m.fields, g.delimiter) >= 0
    && i <= |g.rules| && Before(g, i, c) && (i == 0 ==> !c.any)
    && |c.deferred| + |ExpectSlots(d, g.rules, i, m)| <= MAX_DEFERRED_SLOTS
    && c.rest == RulePass(d, g.rules, i, m, false, k)
    && StartsIn(k, outer + {g.delimiter})
  }

  /** One rule's field or group has been parsed: the cursor `c1` stands before the next rule. */
  ghost predicate Moved(d: Dict, g: GroupDef, i: nat, depth: nat, m: O.Message, c: Cursor, c1: Cursor, k: Stream)
    requires i < |g.rules|
  {
    && ParseFields(d, g, depth, c) == ParseFields(d, g, depth, c1)
    && Before(g, i + 1, c1) && c1.rest == RulePass(d, g.rules, i + 1, m, false, k)
    && c1.deferred + ExpectSlots(d, g.rules, i + 1, m) == c.deferred + ExpectSlots(d, g.rules, i, m)
    && c1.groups + ExpectGroups(d, g.rules, i + 1, depth, m) == c.groups + ExpectGroups(d, g.rules, i, depth, m)
  }

  lemma {:induction false} FieldsOfEncoding(
      d: Dict, g: GroupDef, outer: set<nat>, depth: nat, m: O.Message, delim: Byte, i: nat, c: Cursor, k: Stream)
    requires Pending(d, g, outer, depth, m, delim, i, c, k)
    ensures Parsed(d, g.rules, i, depth, m, c, k, ParseFields(d, g, depth, c))
    decreases m, |g.rules| - i, 2
  {
    hide ParseFields, Conforms, O.FieldFrom, O.GroupFrom, ExpectGroup;
    if i == |g.rules| {
      EntryEnds(d, g, outer, depth, c);
    } else if O.GroupIndex(m.groups, g.rules[i]) >= 0 {
      var c1 := GroupFieldOfEncoding(d, g, outer, depth, m, delim, i, c, k);
      FieldsOfEncoding(d, g, outer, depth, m, delim, i + 1, c1, k);
    } else if O.FieldIndex(m.fields, g.rules[i]) >= 0 {
      var c1 := ScalarFieldOfEncoding(d, g, outer, depth, m, delim, i, c, k);
      FieldsOfEncoding(d, g, outer, depth, m, delim, i + 1, c1, k);
    } else {
      AbsentRule(d, g.rules, i, depth, m, false, k);
      FieldsOfEncoding(d, g, outer, depth, m, delim, i + 1, c, k);
    }
  }

  /** The field loop stops at what follows the entry. */
  lemma EntryEnds(d: Dict, g: GroupDef, outer: set<nat>, depth: nat, c: Cursor)
    requires DefOk(g, outer) && c.any && StartsIn(c.rest, outer + {g.delimiter})
    ensures ParseFields(d, g, depth, c) == Done(c)
  {
  }

  lemma ScalarFieldOfEncoding(
      d: Dict, g: GroupDef, outer: set<nat>, depth: nat, m: O.Message, delim: Byte, i: nat, c: Cursor, k: Stream)
    returns (c1: Cursor)
    requires Pending(d, g, outer, depth, m, delim, i, c, k)
    requires i < |g.rules| && O.GroupIndex(m.groups, g.rules[i]) < 0 && O.FieldIndex(m.fields, g.rules[i]) >= 0
    ensures Moved(d, g, i, depth, m, c, c1, k)
  {
    var f := m.fields[O.FieldIndex(m.fields, g.rules[i])];
    assert FieldOk(d, g.rules, f, delim);
    RuleStep(d, g.rules, i, m, false, k);
    var more := RulePass(d, g.rules, i + 1, m, false, k);
    TakeConforming(d, g, i, c, O.ValueText(f.value), more, delim);
    c1 := TakeField(d, g, c, MakeTok(f.tag, O.ValueText(f.value)), more);
    ExpectScalarStep(d, g.rules, i, depth, m, c.deferred, c.groups);
  }

  /** The pending rule's group as it was emitted, and its entries as they are parsed. */
  lemma {:induction false} GroupParsed(
      d: Dict, g: GroupDef, outer: set<nat>, depth: nat, m: O.Message, delim: Byte, i: nat, c: Cursor, k: Stream)
    returns (st: Stream, e: GroupEnd)
    requires Pending(d, g, outer, depth, m, delim, i, c, k)
    requires i < |g.rules| && O.GroupIndex(m.groups, g.rules[i]) >= 0
    ensures
      var data := m.groups[O.GroupIndex(m.groups, g.rules[i])];
      var text := Digits(|data.entries|);
      && g.rules[i] in d.fields && g.rules[i] in d.groups && d.groups[g.rules[i]].countTag == g.rules[i]
      && ValueOk(text, d.fields[g.rules[i]], delim)
      && c.rest == Next(MakeTok(g.rules[i], text), st)
      && ParseGroup(d, d.groups[g.rules[i]], depth + 1, text, st, NoIssue) == Done(e)
      && e.rest == RulePass(d, g.rules, i + 1, m, false, k) && e.issue.NoIssue?
      && Group(g.rules[i], depth + 1, e.entries) == ExpectGroup(d, depth + 1, data)
    decreases m, |g.rules| - i, 0
  {
    var data := m.groups[O.GroupIndex(m.groups, g.rules[i])];
    assert GroupOk(d, g.rules, outer, depth, data, delim);
    RuleStep(d, g.rules, i, m, false, k);
    CountFits(|data.entries|, delim);
    PassStart(d, g.rules, i + 1, outer, depth, m, delim, false, k, outer + {g.delimiter});
    assert (outer + {g.delimiter}) + TagSet(g.rules) == outer + TagSet(g.rules);
    var more := RulePass(d, g.rules, i + 1, m, false, k);
    var def := d.groups[g.rules[i]];
    st := EmitEntries(d, def.rules, data.entries, 0, more);
    e := GroupEnd(ExpectEntries(d, def.rules, depth + 1, data.entries, 0), more, NoIssue);
    GroupOfEncoding(d, g.rules, outer, depth, data, delim, more);
  }

  lemma ParseNested(d: Dict, g: GroupDef, depth: nat, c: Cursor, tok: Tok, st: Stream, e: GroupEnd)
    requires c.rest == Next(tok, st) && !Stops(g, c.any, tok.tag) && tok.tag in d.groups
    requires ParseGroup(d, d.groups[tok.tag], depth + 1, tok.text, st, TakeField(d, g, c, tok, st).issue) == Done(e)
    ensures ParseFields(d, g, depth, c)
         == ParseFields(d, g, depth, TakeGroup(TakeField(d, g, c, tok, st), d.groups[tok.tag], depth + 1, e))
  {
  }

  lemma {:induction false} GroupFieldOfEncoding(
      d: Dict, g: GroupDef, outer: set<nat>, depth: nat, m: O.Message, delim: Byte, i: nat, c: Cursor, k: Stream)
    returns (c2: Cursor)
    requires Pending(d, g, outer, depth, m, delim, i, c, k)
    requires i < |g.rules| && O.GroupIndex(m.groups, g.rules[i]) >= 0
    ensures Moved(d, g, i, depth, m, c, c2, k)
    decreases m, |g.rules| - i, 1
  {
    var st, e := GroupParsed(d, g, outer, depth, m, delim, i, c, k);
    c2 := GroupTaken(d, g, i, depth, c, c.rest.tok.text, st, e, delim);
    ExpectGroupStep(d, g.rules, i, depth, m, c.deferred, c.groups);
  }

  /** A parsed group becomes a new group of the entry. */
  lemma GroupTaken(
      d: Dict, g: GroupDef, i: nat, depth: nat, c: Cursor, text: Text, st: Stream, e: GroupEnd, delim: Byte)
    returns (c2: Cursor)
    requires i < |g.rules| && Distinct(g.rules) && g.rules[0] == g.delimiter && (i == 0 ==> !c.any)
    requires g.rules[i] in d.groups && d.groups[g.rules[i]].countTag == g.rules[i] && g.rules[i] in d.fields
    requires Before(g, i, c) && c.rest == Next(MakeTok(g.rules[i], text), st) && |c.deferred| < MAX_DEFERRED_SLOTS
    requires ValueOk(text, d.fields[g.rules[i]], delim) && e.issue.NoIssue?
    requires ParseGroup(d, d.groups[g.rules[i]], depth + 1, text, st, NoIssue) == Done(e)
    ensures ParseFields(d, g, depth, c) == ParseFields(d, g, depth, c2)
    ensures Before(g, i + 1, c2) && c2.rest == e.rest
    ensures c2.deferred == c.deferred + [Slot(g.rules[i], text, TypeOf(d, g.rules[i]))]
    ensures c2.groups == c.groups + [Group(g.rules[i], depth + 1, e.entries)]
  {
    TakeConforming(d, g, i, c, text, st, delim);
    NoSuchGroup(c.groups, 0, g.rules[i]);
    ParseNested(d, g, depth, c, MakeTok(g.rules[i], text), st, e);
    c2 := TakeGroup(TakeField(d, g, c, MakeTok(g.rules[i], text), st), d.groups[g.rules[i]], depth + 1, e);
  }

  lemma CountFits(n: nat, delim: Byte)
    requires SafeDelimiter(delim) && n <= MAX_GROUP_ENTRIES
    ensures delim !in Digits(n) && |Digits(n)| < 0x1_0000
  {
    DigitsWidth(n, 5);
    assert Pow10(5) == 100000;
  }

  /** A whole repeating group is parsed back: same entries, no issue, and what follows is left. */
  lemma {:induction false} GroupOfEncoding(
      d: Dict, rules: seq<nat>, outer: set<nat>, depth: nat, data: O.GroupData, delim: Byte, k: Stream)
    requires SafeDelimiter(delim) && GroupOk(d, rules, outer, depth, data, delim)
    requires StartsIn(k, outer + TagSet(rules))
    ensures
      var g := d.groups[data.countTag];
      ParseGroup(d, g, depth + 1, Digits(|data.entries|), EmitEntries(d, g.rules, data.entries, 0, k), NoIssue)
        == Done(GroupEnd(ExpectEntries(d, g.rules, depth + 1, data.entries, 0), k, NoIssue))
    decreases data, 0, 0
  {
    ParseUnsignedOfDigits(|data.entries|);
    EntriesOfEncoding(d, d.groups[data.countTag], outer + TagSet(rules), depth + 1, data.entries, 0, delim, k);
  }

  lemma {:induction false} EntriesOfEncoding(
      d: Dict, g: GroupDef, outer: set<nat>, depth: nat, es: seq<O.Message>, i: nat, delim: Byte, k: Stream)
    requires SafeDelimiter(delim) && DefOk(g, outer) && i <= |es| && StartsIn(k, outer)
    requires forall e :: e in es ==> Conforms(d, g.rules, outer, depth, e, delim) && EntryShape(d, g, e)
    ensures ParseEntries(d, g, depth, |es| - i, EmitEntries(d, g.rules, es, i, k), NoIssue)
         == Done(GroupEnd(ExpectEntries(d, g.rules, depth, es, i), k, NoIssue))
    decreases es, 0, |es| - i
  {
    hide Conforms, EmitBody, RulePass, ExpectSlots, ExpectGroups, ParseFields;
    if i < |es| {
      var e := es[i];
      assert e in es;
      var more := EmitEntries(d, g.rules, es, i + 1, k);
      NoExtras(d, g.rules, outer, depth, e, delim, false, more);
      EntryStart(d, g, outer, depth, e, delim, more);
      if i + 1 < |es| {
        assert es[i + 1] in es;
        NoExtras(d, g.rules, outer, depth, es[i + 1], delim, false, EmitEntries(d, g.rules, es, i + 2, k));
        EntryStart(d, g, outer, depth, es[i + 1], delim, EmitEntries(d, g.rules, es, i + 2, k));
      }
      var c := StartEntry(RulePass(d, g.rules, 0, e, false, more), NoIssue);
      FieldsOfEncoding(d, g, outer, depth, e, delim, 0, c, more);
      var c1 := ParseFields(d, g, depth, c).value;
      FinishedEntry(d, g.rules, e);
      assert c1.deferred == ExpectSlots(d, g.rules, 0, e);
      assert c1.groups == ExpectGroups(d, g.rules, 0, depth, e);
      EntriesOfEncoding(d, g, outer, depth, es, i + 1, delim, k);
    }
  }

  /** An emitted entry starts with its delimiter field. */
  lemma EntryStart(d: Dict, g: GroupDef, outer: set<nat>, depth: nat, e: O.Message, delim: Byte, k: Stream)
    requires DefOk(g, outer) && Conforms(d, g.rules, outer, depth, e, delim) && EntryShape(d, g, e)
    ensures
      var st := RulePass(d, g.rules, 0, e, false, k);
      st.Next? && st.tok.tag == g.delimiter
  {
    var f := e.fields[O.FieldIndex(e.fields, g.delimiter)];
    assert FieldOk(d, g.rules, f, delim);
    var gi := O.GroupIndex(e.groups, g.delimiter);
    assert gi >= 0 ==> GroupOk(d, g.rules, outer, depth, e.groups[gi], delim);
    RuleStep(d, g.rules, 0, e, false, k);
  }

  /** Slots with distinct tags are stored as they were deferred. */
  lemma FinishedEntry(d: Dict, rules: seq<nat>, e: O.Message)
    requires Distinct(rules)
    ensures UpsertAll([], ExpectSlots(d, rules, 0, e), 0) == ExpectSlots(d, rules, 0, e)
  {
    var x := ExpectSlots(d, rules, 0, e);
    forall i, j | 0 <= i < j < |x| ensures x[i].tag != x[j].tag {
      ExpectIncreasing(d, rules, 0, e, i, j);
    }
    assert x[..0] == [];
    UpsertDistinct(x, 0);
  }

  /** The expected slots follow the rules from `i` on. */
  lemma {:induction false} ExpectIncreasing(d: Dict, rules: seq<nat>, i: nat, e: O.Message, j: nat, k: nat)
    requires Distinct(rules) && i <= |rules| && j <= k < |ExpectSlots(d, rules, i, e)|
    ensures
      var x := ExpectSlots(d, rules, i, e);
      && i <= RuleIndex(rules, x[j].tag)
      && (j < k ==> RuleIndex(rules, x[j].tag) < RuleIndex(rules, x[k].tag))
    decreases |rules| - i
  {
    RuleIndexOf(rules, i);
    var x, y := ExpectSlots(d, rules, i, e), ExpectSlots(d, rules, i + 1, e);
    if x == y {
      ExpectIncreasing(d, rules, i + 1, e, j, k);
    } else if k > 0 {
      assert x[k] == y[k - 1];
      if j > 0 {
        assert x[j] == y[j - 1];
        ExpectIncreasing(d, rules, i + 1, e, j - 1, k - 1);
      } else {
        ExpectIncreasing(d, rules, i + 1, e, k - 1, k - 1);
      }
    }
  }
}
