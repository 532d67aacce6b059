/** Rules only reorder: with them or without, a tidy message prints the same fields, none lost and none doubled. */
module RulesReorder {
  import opened Dictionary
  import opened TokenStream
  import opened OwnedMessage
  import opened Encoder
  import opened EncoderSplit

  /** How often a field stands in a stream. */
  function Times(st: Stream, t: Tok): nat {
    match st
    case End(_) => 0
    case Next(tok, rest) => One(tok, t) + Times(rest, t)
  }

  function One(tok: Tok, t: Tok): nat {
    if tok == t then 1 else 0
  }

  lemma {:induction false} TimesAppend(t: Tok, a: Stream, b: Stream)
    ensures Times(Append(a, b), t) == Times(a, t) + Times(b, t)
  {
    if a.Next? {
      TimesAppend(t, a.rest, b);
    }
  }

  /** No two fields and no two groups share a tag, at any depth, and no group hides under a skipped tag. */
  predicate Tidy(m: Message, skip: bool)
    decreases m
  {
    && (forall i, j :: 0 <= i < j < |m.fields| ==> m.fields[i].tag != m.fields[j].tag)
    && (forall i, j :: 0 <= i < j < |m.groups| ==> m.groups[i].countTag != m.groups[j].countTag)
    && forall g :: g in m.groups ==> !Skipped(g.countTag, skip) && forall e :: e in g.entries ==> Tidy(e, false)
  }

  predicate DistinctRules(d: Dict) {
    forall t :: t in d.groups ==> Distinct(d.groups[t].rules)
  }

  // ---------------------------------------------------------------- fields and groups by tag

  /** Fields from the `i`th on that print, with a tag in the selection or outside it. */
  function FieldTimes(t: Tok, m: Message, i: nat, skip: bool, sel: seq<nat>, inside: bool): nat
    requires i <= |m.fields|
    decreases |m.fields| - i
  {
    if i == |m.fields| then 0
    else
      var f, more := m.fields[i], FieldTimes(t, m, i + 1, skip, sel, inside);
      if Skipped(f.tag, skip) || HasGroup(m, f.tag) || (f.tag in sel) != inside then more
      else One(MakeTok(f.tag, ValueText(f.value)), t) + more
  }

  function GroupTimes(t: Tok, d: Dict, groups: seq<GroupData>, i: nat, sel: seq<nat>, inside: bool): nat
    requires i <= |groups|
    decreases |groups| - i
  {
    if i == |groups| then 0
    else
      var more := GroupTimes(t, d, groups, i + 1, sel, inside);
      if (groups[i].countTag in sel) != inside then more else Times(EmitGroup(d, groups[i], E), t) + more
  }

  lemma {:induction false} ExtraFieldsTimes(t: Tok, rules: seq<nat>, m: Message, i: nat, skip: bool, k: Stream)
    requires i <= |m.fields|
    ensures Times(ExtraFields(rules, m, i, skip, k), t) == FieldTimes(t, m, i, skip, rules, false) + Times(k, t)
    decreases |m.fields| - i
  {
    hide MakeTok, ValueText, Skipped, HasGroup;
    if i < |m.fields| {
      ExtraFieldsTimes(t, rules, m, i + 1, skip, k);
    }
  }

  lemma {:induction false} ExtraGroupsTimes(t: Tok, d: Dict, rules: seq<nat>, groups: seq<GroupData>, i: nat, k: Stream)
    requires i <= |groups|
    ensures Times(ExtraGroups(d, rules, groups, i, k), t) == GroupTimes(t, d, groups, i, rules, false) + Times(k, t)
    decreases |groups| - i
  {
    hide EmitGroup;
    if i < |groups| {
      ExtraGroupsTimes(t, d, rules, groups, i + 1, k);
      SplitGroup(d, groups[i], ExtraGroups(d, rules, groups, i + 1, k));
      TimesAppend(t, EmitGroup(d, groups[i], E), ExtraGroups(d, rules, groups, i + 1, k));
    }
  }

  /** A selection is its first tag and the others. */
  lemma {:induction false} FieldTimesFirst(t: Tok, m: Message, i: nat, skip: bool, x: nat, more: seq<nat>)
    requires i <= |m.fields| && x !in more
    ensures FieldTimes(t, m, i, skip, [x] + more, true)
         == FieldTimes(t, m, i, skip, [x], true) + FieldTimes(t, m, i, skip, more, true)
    decreases |m.fields| - i
  {
    if i < |m.fields| {
      FieldTimesFirst(t, m, i + 1, skip, x, more);
    }
  }

  lemma {:induction false} GroupTimesFirst(t: Tok, d: Dict, groups: seq<GroupData>, i: nat, x: nat, more: seq<nat>)
    requires i <= |groups| && x !in more
    ensures GroupTimes(t, d, groups, i, [x] + more, true)
         == GroupTimes(t, d, groups, i, [x], true) + GroupTimes(t, d, groups, i, more, true)
    decreases |groups| - i
  {
    hide EmitGroup;
    if i < |groups| {
      GroupTimesFirst(t, d, groups, i + 1, x, more);
    }
  }

  /** Inside and outside a selection together are everything. */
  lemma {:induction false} FieldTimesWhole(t: Tok, m: Message, i: nat, skip: bool, sel: seq<nat>)
    requires i <= |m.fields|
    ensures FieldTimes(t, m, i, skip, sel, true) + FieldTimes(t, m, i, skip, sel, false)
         == FieldTimes(t, m, i, skip, [], false)
    ensures FieldTimes(t, m, i, skip, [], true) == 0
    decreases |m.fields| - i
  {
    if i < |m.fields| {
      FieldTimesWhole(t, m, i + 1, skip, sel);
    }
  }

  lemma {:induction false} GroupTimesWhole(t: Tok, d: Dict, groups: seq<GroupData>, i: nat, sel: seq<nat>)
    requires i <= |groups|
    ensures GroupTimes(t, d, groups, i, sel, true) + GroupTimes(t, d, groups, i, sel, false)
         == GroupTimes(t, d, groups, i, [], false)
    ensures GroupTimes(t, d, groups, i, [], true) == 0
    decreases |groups| - i
  {
    hide EmitGroup;
    if i < |groups| {
      GroupTimesWhole(t, d, groups, i + 1, sel);
    }
  }

  // ---------------------------------------------------------------- one rule

  /** With distinct tags, a rule selects the field that it finds. */
  lemma {:induction false} OneField(t: Tok, m: Message, i: nat, skip: bool, x: nat)
    requires i <= |m.fields| && forall a, b :: 0 <= a < b < |m.fields| ==> m.fields[a].tag != m.fields[b].tag
    ensures
      var k := FieldFrom(m.fields, i, x);
      FieldTimes(t, m, i, skip, [x], true)
        == if k < 0 || Skipped(x, skip) || HasGroup(m, x) then 0
           else One(MakeTok(x, ValueText(m.fields[k].value)), t)
    decreases |m.fields| - i
  {
    if i < |m.fields| {
      OneField(t, m, i + 1, skip, x);
      if m.fields[i].tag == x {
        assert FieldFrom(m.fields, i + 1, x) < 0;
      }
    }
  }

  lemma {:induction false} OneGroup(t: Tok, d: Dict, groups: seq<GroupData>, i: nat, x: nat)
    requires i <= |groups| && forall a, b :: 0 <= a < b < |groups| ==> groups[a].countTag != groups[b].countTag
    ensures
      var k := GroupFrom(groups, i, x);
      GroupTimes(t, d, groups, i, [x], true) == if k < 0 then 0 else Times(EmitGroup(d, groups[k], E), t)
    decreases |groups| - i
  {
    hide EmitGroup;
    if i < |groups| {
      OneGroup(t, d, groups, i + 1, x);
      if groups[i].countTag == x {
        assert GroupFrom(groups, i + 1, x) < 0;
      }
    }
  }

  lemma OneRule(t: Tok, d: Dict, m: Message, x: nat, skip: bool, k: Stream)
    requires Tidy(m, skip)
    ensures Times(EmitRule(d, m, x, skip, k), t)
         == FieldTimes(t, m, 0, skip, [x], true) + GroupTimes(t, d, m.groups, 0, [x], true) + Times(k, t)
  {
    hide EmitGroup, FieldTimes, GroupTimes, MakeTok, ValueText, Append;
    OneField(t, m, 0, skip, x);
    OneGroup(t, d, m.groups, 0, x);
    var gi := GroupIndex(m.groups, x);
    if gi >= 0 {
      assert m.groups[gi] in m.groups;
      SplitGroup(d, m.groups[gi], k);
      TimesAppend(t, EmitGroup(d, m.groups[gi], E), k);
    }
  }

  lemma {:induction false} RulePassTimes(t: Tok, d: Dict, rules: seq<nat>, i: nat, m: Message, skip: bool, k: Stream)
    requires i <= |rules| && Distinct(rules) && Tidy(m, skip)
    ensures Times(RulePass(d, rules, i, m, skip, k), t)
         == FieldTimes(t, m, 0, skip, rules[i..], true) + GroupTimes(t, d, m.groups, 0, rules[i..], true) + Times(k, t)
    decreases |rules| - i
  {
    hide FieldTimes, GroupTimes, EmitRule, Tidy;
    if i == |rules| {
      assert rules[i..] == [];
      FieldTimesWhole(t, m, 0, skip, []);
      GroupTimesWhole(t, d, m.groups, 0, []);
    } else {
      var x, more := rules[i], rules[i + 1..];
      assert rules[i..] == [x] + more && x !in more;
      RulePassTimes(t, d, rules, i + 1, m, skip, k);
      OneRule(t, d, m, x, skip, RulePass(d, rules, i + 1, m, skip, k));
      FieldTimesFirst(t, m, 0, skip, x, more);
      GroupTimesFirst(t, d, m.groups, 0, x, more);
    }
  }

  // ---------------------------------------------------------------- whole messages

  lemma BodyTimes(t: Tok, d: Dict, rules: seq<nat>, m: Message, skip: bool, k: Stream)
    requires Distinct(rules) && Tidy(m, skip)
    ensures Times(EmitBody(d, rules, m, skip, k), t)
         == FieldTimes(t, m, 0, skip, [], false) + GroupTimes(t, d, m.groups, 0, [], false) + Times(k, t)
  {
    hide FieldTimes, GroupTimes, Tidy;
    var gs := ExtraGroups(d, rules, m.groups, 0, k);
    ExtraGroupsTimes(t, d, rules, m.groups, 0, k);
    ExtraFieldsTimes(t, rules, m, 0, skip, gs);
    RulePassTimes(t, d, rules, 0, m, skip, ExtraFields(rules, m, 0, skip, gs));
    assert rules[0..] == rules;
    FieldTimesWhole(t, m, 0, skip, rules);
    GroupTimesWhole(t, d, m.groups, 0, rules);
  }

  lemma {:induction false} PlainFieldsTimes(t: Tok, m: Message, i: nat, skip: bool, k: Stream)
    requires i <= |m.fields|
    ensures Times(PlainFields(m, i, skip, k), t) == FieldTimes(t, m, i, skip, [], false) + Times(k, t)
    decreases |m.fields| - i
  {
    hide MakeTok, ValueText, Skipped, HasGroup;
    if i < |m.fields| {
      PlainFieldsTimes(t, m, i + 1, skip, k);
    }
  }

  /** The rules of a message and of its groups change the order of its fields and nothing else. */
  lemma {:induction false} RulesOnlyReorder(t: Tok, d: Dict, rules: seq<nat>, m: Message, skip: bool, k: Stream)
    requires Distinct(rules) && DistinctRules(d) && Tidy(m, skip)
    ensures Times(EmitBody(d, rules, m, skip, k), t) == Times(PlainBody(m, skip, k), t)
    decreases m, 1, 0
  {
    BodyTimes(t, d, rules, m, skip, k);
    GroupsReorder(t, d, m, skip, 0, k);
    PlainFieldsTimes(t, m, 0, skip, PlainGroups(m.groups, 0, k));
  }

  lemma {:induction false} GroupsReorder(t: Tok, d: Dict, m: Message, skip: bool, i: nat, k: Stream)
    requires DistinctRules(d) && Tidy(m, skip) && i <= |m.groups|
    ensures Times(PlainGroups(m.groups, i, k), t) == GroupTimes(t, d, m.groups, i, [], false) + Times(k, t)
    decreases m, 0, |m.groups| - i
  {
    hide EmitGroup, PlainGroup;
    if i < |m.groups| {
      var g, more := m.groups[i], PlainGroups(m.groups, i + 1, k);
      assert g in m.groups;
      GroupsReorder(t, d, m, skip, i + 1, k);
      GroupReorders(t, d, g, more);
      SplitGroup(d, g, more);
      TimesAppend(t, EmitGroup(d, g, E), more);
    }
  }

  lemma {:induction false} GroupReorders(t: Tok, d: Dict, g: GroupData, k: Stream)
    requires DistinctRules(d) && forall e :: e in g.entries ==> Tidy(e, false)
    ensures Times(EmitGroup(d, g, k), t) == Times(PlainGroup(g, k), t)
    decreases g, 2, 0
  {
    hide Tidy;
    if g.countTag in d.groups {
      EntriesReorder(t, d, d.groups[g.countTag].rules, g.entries, 0, k);
    }
  }

  lemma {:induction false} EntriesReorder(t: Tok, d: Dict, rules: seq<nat>, entries: seq<Message>, i: nat, k: Stream)
    requires i <= |entries| && Distinct(rules) && DistinctRules(d) && forall e :: e in entries ==> Tidy(e, false)
    ensures Times(EmitEntries(d, rules, entries, i, k), t) == Times(PlainEntries(entries, i, k), t)
    decreases entries, 1, |entries| - i
  {
    hide Tidy, EmitBody, PlainBody;
    if i < |entries| {
      assert entries[i] in entries;
      var a, b := EmitEntries(d, rules, entries, i + 1, k), PlainEntries(entries, i + 1, k);
      EntriesReorder(t, d, rules, entries, i + 1, k);
      RulesOnlyReorder(t, d, rules, entries[i], false, a);
      SplitPlainBody(entries[i], false, a);
      SplitPlainBody(entries[i], false, b);
      TimesAppend(t, PlainBody(entries[i], false, E), a);
      TimesAppend(t, PlainBody(entries[i], false, E), b);
    }
  }
}
