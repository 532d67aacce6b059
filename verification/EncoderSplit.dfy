/** What an encoder emits does not depend on what follows: emission onto `k` is emission, then `k`. */
module EncoderSplit {
  import opened Optional
  import opened Dictionary
  import opened TokenStream
  import opened OwnedMessage
  import opened Encoder
  import opened TemplateEncoder

  const E: Stream := End(None)

  lemma {:induction false} SplitPlainFields(m: Message, i: nat, skip: bool, k: Stream)
    requires i <= |m.fields|
    ensures PlainFields(m, i, skip, k) == Append(PlainFields(m, i, skip, E), k)
    decreases |m.fields| - i
  {
    if i < |m.fields| {
      SplitPlainFields(m, i + 1, skip, k);
    }
  }

  lemma {:induction false} SplitPlainBody(m: Message, skip: bool, k: Stream)
    ensures PlainBody(m, skip, k) == Append(PlainBody(m, skip, E), k)
    decreases m, 0, 0
  {
    SplitPlainGroups(m.groups, 0, k);
    var gs := PlainGroups(m.groups, 0, E);
    SplitPlainFields(m, 0, skip, PlainGroups(m.groups, 0, k));
    SplitPlainFields(m, 0, skip, gs);
    AppendAssoc(PlainFields(m, 0, skip, E), gs, k);
  }

  lemma {:induction false} SplitPlainGroups(groups: seq<GroupData>, i: nat, k: Stream)
    requires i <= |groups|
    ensures PlainGroups(groups, i, k) == Append(PlainGroups(groups, i, E), k)
    decreases groups, 0, |groups| - i
  {
    if i < |groups| {
      SplitPlainGroups(groups, i + 1, k);
      var gs := PlainGroups(groups, i + 1, E);
      SplitPlainGroup(groups[i], PlainGroups(groups, i + 1, k));
      SplitPlainGroup(groups[i], gs);
      AppendAssoc(PlainGroup(groups[i], E), gs, k);
    }
  }

  lemma {:induction false} SplitPlainGroup(g: GroupData, k: Stream)
    ensures PlainGroup(g, k) == Append(PlainGroup(g, E), k)
    decreases g, 1, 0
  {
    SplitPlainEntries(g.entries, 0, k);
  }

  lemma {:induction false} SplitPlainEntries(entries: seq<Message>, i: nat, k: Stream)
    requires i <= |entries|
    ensures PlainEntries(entries, i, k) == Append(PlainEntries(entries, i, E), k)
    decreases entries, 0, |entries| - i
  {
    if i < |entries| {
      SplitPlainEntries(entries, i + 1, k);
      var es := PlainEntries(entries, i + 1, E);
      SplitPlainBody(entries[i], false, PlainEntries(entries, i + 1, k));
      SplitPlainBody(entries[i], false, es);
      AppendAssoc(PlainBody(entries[i], false, E), es, k);
    }
  }

  lemma {:induction false} SplitRule(d: Dict, m: Message, tag: nat, skip: bool, k: Stream)
    ensures EmitRule(d, m, tag, skip, k) == Append(EmitRule(d, m, tag, skip, E), k)
    decreases m, 1, 0
  {
    var gi := GroupIndex(m.groups, tag);
    if !Skipped(tag, skip) && gi >= 0 {
      SplitGroup(d, m.groups[gi], k);
    }
  }

  lemma {:induction false} SplitRulePass(d: Dict, rules: seq<nat>, i: nat, m: Message, skip: bool, k: Stream)
    requires i <= |rules|
    ensures RulePass(d, rules, i, m, skip, k) == Append(RulePass(d, rules, i, m, skip, E), k)
    decreases m, 2, |rules| - i
  {
    if i < |rules| {
      SplitRulePass(d, rules, i + 1, m, skip, k);
      var rest := RulePass(d, rules, i + 1, m, skip, E);
      SplitRule(d, m, rules[i], skip, RulePass(d, rules, i + 1, m, skip, k));
      SplitRule(d, m, rules[i], skip, rest);
      AppendAssoc(EmitRule(d, m, rules[i], skip, E), rest, k);
    }
  }

  lemma {:induction false} SplitExtraFields(rules: seq<nat>, m: Message, i: nat, skip: bool, k: Stream)
    requires i <= |m.fields|
    ensures ExtraFields(rules, m, i, skip, k) == Append(ExtraFields(rules, m, i, skip, E), k)
    decreases |m.fields| - i
  {
    if i < |m.fields| {
      SplitExtraFields(rules, m, i + 1, skip, k);
    }
  }

  lemma {:induction false} SplitExtraGroups(d: Dict, rules: seq<nat>, groups: seq<GroupData>, i: nat, k: Stream)
    requires i <= |groups|
    ensures ExtraGroups(d, rules, groups, i, k) == Append(ExtraGroups(d, rules, groups, i, E), k)
    decreases groups, 0, |groups| - i
  {
    if i < |groups| {
      SplitExtraGroups(d, rules, groups, i + 1, k);
      if groups[i].countTag !in rules {
        var gs := ExtraGroups(d, rules, groups, i + 1, E);
        SplitGroup(d, groups[i], ExtraGroups(d, rules, groups, i + 1, k));
        SplitGroup(d, groups[i], gs);
        AppendAssoc(EmitGroup(d, groups[i], E), gs, k);
      }
    }
  }

  lemma {:induction false} SplitBody(d: Dict, rules: seq<nat>, m: Message, skip: bool, k: Stream)
    ensures EmitBody(d, rules, m, skip, k) == Append(EmitBody(d, rules, m, skip, E), k)
    decreases m, 3, 0
  {
    var gs := ExtraGroups(d, rules, m.groups, 0, E);
    SplitExtraGroups(d, rules, m.groups, 0, k);
    SplitExtraFields(rules, m, 0, skip, Append(gs, k));
    SplitExtraFields(rules, m, 0, skip, gs);
    var fs := ExtraFields(rules, m, 0, skip, E);
    AppendAssoc(fs, gs, k);
    SplitRulePass(d, rules, 0, m, skip, Append(Append(fs, gs), k));
    SplitRulePass(d, rules, 0, m, skip, Append(fs, gs));
    AppendAssoc(RulePass(d, rules, 0, m, skip, E), Append(fs, gs), k);
  }

  lemma {:induction false} SplitGroup(d: Dict, g: GroupData, k: Stream)
    ensures EmitGroup(d, g, k) == Append(EmitGroup(d, g, E), k)
    decreases g, 2, 0
  {
    if g.countTag in d.groups {
      SplitEntries(d, d.groups[g.countTag].rules, g.entries, 0, k);
    } else {
      SplitPlainEntries(g.entries, 0, k);
    }
  }

  lemma {:induction false} SplitEntries(d: Dict, rules: seq<nat>, entries: seq<Message>, i: nat, k: Stream)
    requires i <= |entries|
    ensures EmitEntries(d, rules, entries, i, k) == Append(EmitEntries(d, rules, entries, i, E), k)
    decreases entries, 1, |entries| - i
  {
    if i < |entries| {
      SplitEntries(d, rules, entries, i + 1, k);
      var es := EmitEntries(d, rules, entries, i + 1, E);
      SplitBody(d, rules, entries[i], false, EmitEntries(d, rules, entries, i + 1, k));
      SplitBody(d, rules, entries[i], false, es);
      AppendAssoc(EmitBody(d, rules, entries[i], false, E), es, k);
    }
  }

  // ---------------------------------------------------------------- template

  lemma {:induction false} SplitSteps(t: Template, i: nat, m: Message, k: Stream)
    requires i <= |t.steps|
    ensures EmitSteps(t, i, m, k) == Append(EmitSteps(t, i, m, E), k)
    decreases m, 2, |t.steps| - i
  {
    if i < |t.steps| {
      SplitSteps(t, i + 1, m, k);
      var rest := EmitSteps(t, i + 1, m, E);
      if t.steps[i].GroupStep? && GroupIndex(m.groups, t.steps[i].tag) >= 0 {
        var g, scope := m.groups[GroupIndex(m.groups, t.steps[i].tag)], t.steps[i].scope;
        SplitScopes(scope, g.entries, 0, EmitSteps(t, i + 1, m, k));
        SplitScopes(scope, g.entries, 0, rest);
        AppendAssoc(EmitScopes(scope, g.entries, 0, E), rest, k);
      }
    }
  }

  lemma {:induction false} SplitScopes(t: Template, entries: seq<Message>, i: nat, k: Stream)
    requires i <= |entries|
    ensures EmitScopes(t, entries, i, k) == Append(EmitScopes(t, entries, i, E), k)
    decreases entries, 4, |entries| - i
  {
    if i < |entries| {
      SplitScopes(t, entries, i + 1, k);
      var es := EmitScopes(t, entries, i + 1, E);
      SplitScope(t, entries[i], false, EmitScopes(t, entries, i + 1, k));
      SplitScope(t, entries[i], false, es);
      AppendAssoc(EmitScope(t, entries[i], false, E), es, k);
    }
  }

  lemma {:induction false} SplitSweepFields(t: Template, m: Message, i: nat, skip: bool, k: Stream)
    requires i <= |m.fields|
    ensures SweepFields(t, m, i, skip, k) == Append(SweepFields(t, m, i, skip, E), k)
    decreases |m.fields| - i
  {
    if i < |m.fields| {
      SplitSweepFields(t, m, i + 1, skip, k);
    }
  }

  lemma {:induction false} SplitSweepGroups(t: Template, groups: seq<GroupData>, i: nat, k: Stream)
    requires i <= |groups|
    ensures SweepGroups(t, groups, i, k) == Append(SweepGroups(t, groups, i, E), k)
    decreases |groups| - i
  {
    if i < |groups| {
      SplitSweepGroups(t, groups, i + 1, k);
      if groups[i].countTag !in t.groupTags {
        var gs := SweepGroups(t, groups, i + 1, E);
        SplitPlainGroup(groups[i], SweepGroups(t, groups, i + 1, k));
        SplitPlainGroup(groups[i], gs);
        AppendAssoc(PlainGroup(groups[i], E), gs, k);
      }
    }
  }

  lemma {:induction false} SplitScope(t: Template, m: Message, skip: bool, k: Stream)
    ensures EmitScope(t, m, skip, k) == Append(EmitScope(t, m, skip, E), k)
    decreases m, 3, 0
  {
    var gs := SweepGroups(t, m.groups, 0, E);
    SplitSweepGroups(t, m.groups, 0, k);
    SplitSweepFields(t, m, 0, skip, Append(gs, k));
    SplitSweepFields(t, m, 0, skip, gs);
    var fs := SweepFields(t, m, 0, skip, E);
    AppendAssoc(fs, gs, k);
    SplitSteps(t, 0, m, Append(Append(fs, gs), k));
    SplitSteps(t, 0, m, Append(fs, gs));
    AppendAssoc(EmitSteps(t, 0, m, E), Append(fs, gs), k);
  }
}
