/**
 * When exactly the template and the generic encoder differ. Each encoder drops scalars that the other
 * prints: the template those under count tags of the dictionary, the generic encoder those under framing
 * tags. Counting framing fields for and all other fields against, the template never comes out lower,
 * and it comes out equal only if neither drops anything.
 */
module TemplateExact {
  import opened FixTags
  import opened Dictionary
  import opened TokenStream
  import opened OwnedMessage
  import opened Encoder
  import opened TemplateEncoder
  import opened EncoderSplit

  /** Framing fields less all other fields. */
  function Balance(st: Stream): int {
    match st
    case End(_) => 0
    case Next(tok, rest) => (if IsFrameTag(tok.tag) then 1 else -1) + Balance(rest)
  }

  lemma {:induction false} BalanceAppend(a: Stream, b: Stream)
    ensures Balance(Append(a, b)) == Balance(a) + Balance(b)
  {
    if a.Next? {
      BalanceAppend(a.rest, b);
    }
  }

  /** What a body adds to the balance, whatever follows it. */
  lemma BodyAdds(d: Dict, rules: seq<nat>, m: Message, skip: bool, k: Stream)
    ensures Balance(EmitBody(d, rules, m, skip, k)) == Balance(EmitBody(d, rules, m, skip, E)) + Balance(k)
  {
    SplitBody(d, rules, m, skip, k);
    BalanceAppend(EmitBody(d, rules, m, skip, E), k);
  }

  lemma ScopeAdds(t: Template, m: Message, skip: bool, k: Stream)
    ensures Balance(EmitScope(t, m, skip, k)) == Balance(EmitScope(t, m, skip, E)) + Balance(k)
  {
    SplitScope(t, m, skip, k);
    BalanceAppend(EmitScope(t, m, skip, E), k);
  }

  lemma PassAdds(d: Dict, rules: seq<nat>, m: Message, skip: bool, k: Stream)
    ensures Balance(RulePass(d, rules, 0, m, skip, k)) == Balance(RulePass(d, rules, 0, m, skip, E)) + Balance(k)
  {
    SplitRulePass(d, rules, 0, m, skip, k);
    BalanceAppend(RulePass(d, rules, 0, m, skip, E), k);
  }

  lemma StepsAdd(t: Template, m: Message, k: Stream)
    ensures Balance(EmitSteps(t, 0, m, k)) == Balance(EmitSteps(t, 0, m, E)) + Balance(k)
  {
    SplitSteps(t, 0, m, k);
    BalanceAppend(EmitSteps(t, 0, m, E), k);
  }

  /** How far the template's balance `tem` is above the generic one, and what follows if it is not. */
  predicate Above(tem: int, gen: int, fits: bool) {
    tem >= gen && (tem == gen ==> fits)
  }

  lemma {:induction false} EntriesAbove(
      d: Dict, rank: map<nat, nat>, bound: nat, rules: seq<nat>, entries: seq<Message>, i: nat, k: Stream, l: Stream)
    requires Ranked(d, rank) && Below(d, rank, rules, bound) && i <= |entries|
    requires forall e :: e in entries ==> GroupsFit(d, rules, e, false)
    ensures
      Above(Balance(EmitScopes(CompileFrom(d, rank, bound, rules, 0, false), entries, i, k)) - Balance(k),
            Balance(EmitEntries(d, rules, entries, i, l)) - Balance(l),
            forall j :: i <= j < |entries| ==> ScalarsFit(d, rules, entries[j], false))
    decreases entries, 3, |entries| - i
  {
    if i < |entries| {
      var t := CompileFrom(d, rank, bound, rules, 0, false);
      EntriesAbove(d, rank, bound, rules, entries, i + 1, k, l);
      ScopeAbove(d, rank, bound, rules, entries[i], false);
      ScopeAdds(t, entries[i], false, EmitScopes(t, entries, i + 1, k));
      BodyAdds(d, rules, entries[i], false, EmitEntries(d, rules, entries, i + 1, l));
    }
  }

  /** One rule and its step. */
  lemma {:induction false} RuleAbove(
      d: Dict, rank: map<nat, nat>, bound: nat, rules: seq<nat>, i: nat, m: Message, skip: bool, k: Stream, l: Stream)
    requires Ranked(d, rank) && Below(d, rank, rules, bound) && i < |rules| && GroupsFit(d, rules, m, skip)
    requires !(skip && IsHeaderTag(rules[i]))
    ensures
      var t := CompileFrom(d, rank, bound, rules, i, skip);
      && |t.steps| > 0
      && Above(Balance(EmitSteps(t, 0, m, k)) - Balance(EmitSteps(t, 1, m, k)),
               Balance(EmitRule(d, m, rules[i], skip, l)) - Balance(l), RuleFits(d, m, rules[i]))
    decreases m, 0, 0
  {
    hide EmitScopes, EmitEntries, ScalarsFit, GroupFrom, FieldFrom, CompileFrom;
    FirstStep(d, rank, bound, rules, i, skip);
    var tag := rules[i];
    var t := CompileFrom(d, rank, bound, rules, i, skip);
    var gi := GroupIndex(m.groups, tag);
    if gi >= 0 {
      var g := m.groups[gi];
      assert g in m.groups;
      EntriesAbove(d, rank, rank[tag], d.groups[tag].rules, g.entries, 0, EmitSteps(t, 1, m, k), l);
    }
  }

  lemma {:induction false} StepsAbove(
      d: Dict, rank: map<nat, nat>, bound: nat, rules: seq<nat>, i: nat, m: Message, skip: bool)
    requires Ranked(d, rank) && Below(d, rank, rules, bound) && i <= |rules| && GroupsFit(d, rules, m, skip)
    ensures
      Above(Balance(EmitSteps(CompileFrom(d, rank, bound, rules, i, skip), 0, m, E)),
            Balance(RulePass(d, rules, i, m, skip, E)),
            forall j :: i <= j < |rules| && !(skip && IsHeaderTag(rules[j])) ==> RuleFits(d, m, rules[j]))
    decreases m, 1, |rules| - i
  {
    hide GroupsFit, RuleFits, EmitRule, IsHeaderTag, CompileFrom, EmitSteps;
    if i == |rules| {
      NoSteps(d, rank, bound, rules, m, skip, E);
    } else {
      FirstStep(d, rank, bound, rules, i, skip);
    }
    if i < |rules| {
      StepsAbove(d, rank, bound, rules, i + 1, m, skip);
      if !(skip && IsHeaderTag(rules[i])) {
        var t := CompileFrom(d, rank, bound, rules, i, skip);
        var u := CompileFrom(d, rank, bound, rules, i + 1, skip);
        EmitStepsTail(t, u, 0, m, E);
        RuleAbove(d, rank, bound, rules, i, m, skip, E, RulePass(d, rules, i + 1, m, skip, E));
      } else {
        SkippedRule(d, m, rules[i], skip, RulePass(d, rules, i + 1, m, skip, E));
      }
    }
  }

  lemma {:induction false} ScopeAbove(
      d: Dict, rank: map<nat, nat>, bound: nat, rules: seq<nat>, m: Message, skip: bool)
    requires Ranked(d, rank) && Below(d, rank, rules, bound) && GroupsFit(d, rules, m, skip)
    ensures
      Above(Balance(EmitScope(CompileFrom(d, rank, bound, rules, 0, skip), m, skip, E)),
            Balance(EmitBody(d, rules, m, skip, E)), ScalarsFit(d, rules, m, skip))
    decreases m, 2, 0
  {
    var t := CompileFrom(d, rank, bound, rules, 0, skip);
    SweepGroupsAgree(d, rank, bound, rules, m, 0, skip, E);
    var groups := ExtraGroups(d, rules, m.groups, 0, E);
    SweepFieldsAgree(d, rank, bound, rules, m, 0, skip, groups);
    var extras := ExtraFields(rules, m, 0, skip, groups);
    StepsAbove(d, rank, bound, rules, 0, m, skip);
    StepsAdd(t, m, extras);
    PassAdds(d, rules, m, skip, extras);
  }

  /** The two encoders emit the same fields exactly when every scalar fits. */
  lemma AgreesExactly(
      d: Dict, rank: map<nat, nat>, bound: nat, rules: seq<nat>, m: Message, skip: bool, k: Stream)
    requires Ranked(d, rank) && Below(d, rank, rules, bound) && GroupsFit(d, rules, m, skip)
    ensures EmitScope(CompileFrom(d, rank, bound, rules, 0, skip), m, skip, k) == EmitBody(d, rules, m, skip, k)
       <==> ScalarsFit(d, rules, m, skip)
  {
    var t := CompileFrom(d, rank, bound, rules, 0, skip);
    if ScalarsFit(d, rules, m, skip) {
      ScopeAgrees(d, rank, bound, rules, m, skip, k);
    } else {
      ScopeAbove(d, rank, bound, rules, m, skip);
      ScopeAdds(t, m, skip, k);
      BodyAdds(d, rules, m, skip, k);
    }
  }
}
