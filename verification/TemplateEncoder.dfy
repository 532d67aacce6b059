/**
 * The precompiled body template and its agreement with the generic encoder:
 * for every message that fits the template both emit the same fields. TemplateExact has the converse.
 */
module TemplateEncoder {
  import opened FixTags
  import opened Dictionary
  import opened TokenStream
  import opened OwnedMessage
  import opened Encoder

  datatype Step = ScalarStep(tag: nat) | GroupStep(tag: nat, scope: Template)

  /** Steps in rule order; the tag lists tell which extras the steps already cover. */
  datatype Template = Template(steps: seq<Step>, scalarTags: seq<nat>, groupTags: seq<nat>)

  // ---------------------------------------------------------------- compilation

  /** A rank that falls along group nesting, so that compilation ends. */
  ghost predicate Ranked(d: Dict, rank: map<nat, nat>) {
    forall g, t :: g in d.groups && t in d.groups[g].rules && t in d.groups ==>
      g in rank && t in rank && rank[t] < rank[g]
  }

  ghost predicate Below(d: Dict, rank: map<nat, nat>, rules: seq<nat>, bound: nat) {
    forall t :: t in rules && t in d.groups ==> t in rank && rank[t] < bound
  }

  /** The template of the rules from position `i` on. */
  ghost function CompileFrom(d: Dict, rank: map<nat, nat>, bound: nat, rules: seq<nat>, i: nat,
      skipHeader: bool): Template
    requires Ranked(d, rank) && Below(d, rank, rules, bound) && i <= |rules|
    decreases bound, |rules| - i
  {
    if i == |rules| then Template([], [], [])
    else
      var more := CompileFrom(d, rank, bound, rules, i + 1, skipHeader);
      var tag := rules[i];
      if skipHeader && IsHeaderTag(tag) then more
      else if tag in d.groups then
        var scope := CompileFrom(d, rank, rank[tag], d.groups[tag].rules, 0, false);
        Template([GroupStep(tag, scope)] + more.steps, more.scalarTags, [tag] + more.groupTags)
      else Template([ScalarStep(tag)] + more.steps, [tag] + more.scalarTags, more.groupTags)
  }

  // ---------------------------------------------------------------- emission

  function EmitSteps(t: Template, i: nat, m: Message, k: Stream): Stream
    requires i <= |t.steps|
    decreases m, 2, |t.steps| - i
  {
    if i == |t.steps| then k
    else
      var more := EmitSteps(t, i + 1, m, k);
      match t.steps[i]
      case ScalarStep(tag) =>
        var fi := FieldIndex(m.fields, tag);
        if fi >= 0 && !HasGroup(m, tag) then EmitField(m.fields[fi], more) else more
      case GroupStep(tag, scope) =>
        var gi := GroupIndex(m.groups, tag);
        if gi >= 0 then EmitCount(m.groups[gi], EmitScopes(scope, m.groups[gi].entries, 0, more)) else more
  }

  function EmitScopes(t: Template, entries: seq<Message>, i: nat, k: Stream): Stream
    requires i <= |entries|
    decreases entries, 4, |entries| - i
  {
    if i == |entries| then k else EmitScope(t, entries[i], false, EmitScopes(t, entries, i + 1, k))
  }

  function SweepFields(t: Template, m: Message, i: nat, skipHeader: bool, k: Stream): Stream
    requires i <= |m.fields|
    decreases |m.fields| - i
  {
    if i == |m.fields| then k
    else
      var more := SweepFields(t, m, i + 1, skipHeader, k);
      var tag := m.fields[i].tag;
      if IsFrameTag(tag) || HasGroup(m, tag) || tag in t.scalarTags || tag in t.groupTags
         || (skipHeader && IsHeaderTag(tag)) then more
      else EmitField(m.fields[i], more)
  }

  /** Groups outside the template are emitted without the dictionary. */
  function SweepGroups(t: Template, groups: seq<GroupData>, i: nat, k: Stream): Stream
    requires i <= |groups|
    decreases |groups| - i
  {
    if i == |groups| then k
    else
      var more := SweepGroups(t, groups, i + 1, k);
      if groups[i].countTag in t.groupTags then more else PlainGroup(groups[i], more)
  }

  function EmitScope(t: Template, m: Message, skipHeader: bool, k: Stream): Stream
    decreases m, 3, 0
  {
    EmitSteps(t, 0, m, SweepFields(t, m, 0, skipHeader, SweepGroups(t, m.groups, 0, k)))
  }

  // ---------------------------------------------------------------- messages that fit

  /**
   * Every group of the message is a rule of its scope and known to the dictionary, or neither, and no
   * group stands under a rule the encoders skip. The same holds inside the entries of known groups.
   */
  predicate GroupsFit(d: Dict, rules: seq<nat>, m: Message, skipHeader: bool)
    decreases m
  {
    forall g :: g in m.groups ==>
      && (g.countTag in rules <==> g.countTag in d.groups)
      && (g.countTag in rules ==>
            && !Skipped(g.countTag, skipHeader)
            && forall e :: e in g.entries ==> GroupsFit(d, d.groups[g.countTag].rules, e, false))
  }

  /** In every printed scope, each rule that is not skipped finds scalars that both encoders treat alike. */
  predicate ScalarsFit(d: Dict, rules: seq<nat>, m: Message, skipHeader: bool)
    decreases m, 1
  {
    forall tag :: tag in rules && !(skipHeader && IsHeaderTag(tag)) ==> RuleFits(d, m, tag)
  }

  /**
   * A field without a group of its tag is under neither a framing tag nor a count tag of the dictionary.
   * (Under a tag that is both, neither encoder prints it.)
   */
  predicate RuleFits(d: Dict, m: Message, tag: nat)
    decreases m, 0
  {
    var gi := GroupIndex(m.groups, tag);
    if gi >= 0 then
      tag in d.groups ==> forall e :: e in m.groups[gi].entries ==> ScalarsFit(d, d.groups[tag].rules, e, false)
    else FieldIndex(m.fields, tag) >= 0 ==> (IsFrameTag(tag) <==> tag in d.groups)
  }

  lemma {:induction false} CompiledTags(
      d: Dict, rank: map<nat, nat>, bound: nat, rules: seq<nat>, i: nat, skipHeader: bool, tag: nat)
    requires Ranked(d, rank) && Below(d, rank, rules, bound) && i <= |rules|
    ensures
      var t := CompileFrom(d, rank, bound, rules, i, skipHeader);
      var kept := !(skipHeader && IsHeaderTag(tag)) && exists k :: i <= k < |rules| && rules[k] == tag;
      && (tag in t.scalarTags <==> tag !in d.groups && kept)
      && (tag in t.groupTags <==> tag in d.groups && kept)
    decreases |rules| - i
  {
    if i < |rules| {
      CompiledTags(d, rank, bound, rules, i + 1, skipHeader, tag);
    }
  }

  lemma {:induction false} SweepFieldsAgree(
      d: Dict, rank: map<nat, nat>, bound: nat, rules: seq<nat>, m: Message, i: nat, skipHeader: bool, k: Stream)
    requires Ranked(d, rank) && Below(d, rank, rules, bound) && i <= |m.fields|
    ensures SweepFields(CompileFrom(d, rank, bound, rules, 0, skipHeader), m, i, skipHeader, k)
         == ExtraFields(rules, m, i, skipHeader, k)
    decreases |m.fields| - i
  {
    if i < |m.fields| {
      SweepFieldsAgree(d, rank, bound, rules, m, i + 1, skipHeader, k);
      CompiledTags(d, rank, bound, rules, 0, skipHeader, m.fields[i].tag);
    }
  }

  /** Groups that neither rules nor dictionary know are swept up alike. */
  lemma {:induction false} SweepGroupsAgree(
      d: Dict, rank: map<nat, nat>, bound: nat, rules: seq<nat>, m: Message, i: nat, skipHeader: bool, k: Stream)
    requires Ranked(d, rank) && Below(d, rank, rules, bound) && i <= |m.groups| && GroupsFit(d, rules, m, skipHeader)
    ensures SweepGroups(CompileFrom(d, rank, bound, rules, 0, skipHeader), m.groups, i, k)
         == ExtraGroups(d, rules, m.groups, i, k)
    decreases |m.groups| - i
  {
    if i < |m.groups| {
      assert m.groups[i] in m.groups;
      SweepGroupsAgree(d, rank, bound, rules, m, i + 1, skipHeader, k);
      CompiledTags(d, rank, bound, rules, 0, skipHeader, m.groups[i].countTag);
    }
  }

  /** Shifting the step index past a leading step. */
  lemma {:induction false} EmitStepsTail(t: Template, u: Template, i: nat, m: Message, k: Stream)
    requires i <= |u.steps| && |t.steps| == |u.steps| + 1 && t.steps[1..] == u.steps
    ensures EmitSteps(t, i + 1, m, k) == EmitSteps(u, i, m, k)
    decreases |u.steps| - i
  {
    if i < |u.steps| {
      assert t.steps[i + 1] == t.steps[1..][i];
      EmitStepsTail(t, u, i + 1, m, k);
    }
  }

  /** One rule compiles to one step in front of the others, or to none. */
  lemma FirstStep(d: Dict, rank: map<nat, nat>, bound: nat, rules: seq<nat>, i: nat, skipHeader: bool)
    requires Ranked(d, rank) && Below(d, rank, rules, bound) && i < |rules|
    ensures
      var t := CompileFrom(d, rank, bound, rules, i, skipHeader);
      var u := CompileFrom(d, rank, bound, rules, i + 1, skipHeader);
      var tag := rules[i];
      if skipHeader && IsHeaderTag(tag) then t == u
      else
        && |t.steps| == |u.steps| + 1 && t.steps[1..] == u.steps
        && t.steps[0] == if tag !in d.groups then ScalarStep(tag)
                         else GroupStep(tag, CompileFrom(d, rank, rank[tag], d.groups[tag].rules, 0, false))
  {
  }

  lemma SkippedRule(d: Dict, m: Message, tag: nat, skipHeader: bool, k: Stream)
    requires Skipped(tag, skipHeader)
    ensures EmitRule(d, m, tag, skipHeader, k) == k
  {
  }

  lemma NoSteps(d: Dict, rank: map<nat, nat>, bound: nat, rules: seq<nat>, m: Message, skipHeader: bool, k: Stream)
    requires Ranked(d, rank) && Below(d, rank, rules, bound)
    ensures EmitSteps(CompileFrom(d, rank, bound, rules, |rules|, skipHeader), 0, m, k) == k
  {
  }

  /** The step pass emits what the rule pass emits. */
  lemma {:induction false} StepsAgree(
      d: Dict, rank: map<nat, nat>, bound: nat, rules: seq<nat>, i: nat, m: Message, skipHeader: bool, k: Stream)
    requires Ranked(d, rank) && Below(d, rank, rules, bound) && i <= |rules|
    requires GroupsFit(d, rules, m, skipHeader) && ScalarsFit(d, rules, m, skipHeader)
    ensures EmitSteps(CompileFrom(d, rank, bound, rules, i, skipHeader), 0, m, k)
         == RulePass(d, rules, i, m, skipHeader, k)
    decreases m, 1, |rules| - i
  {
    hide GroupsFit, ScalarsFit, EmitRule, CompileFrom, IsHeaderTag, EmitSteps;
    if i == |rules| {
      NoSteps(d, rank, bound, rules, m, skipHeader, k);
    } else {
      FirstStep(d, rank, bound, rules, i, skipHeader);
    }
    if i < |rules| {
      StepsAgree(d, rank, bound, rules, i + 1, m, skipHeader, k);
      var t := CompileFrom(d, rank, bound, rules, i, skipHeader);
      var u := CompileFrom(d, rank, bound, rules, i + 1, skipHeader);
      if !(skipHeader && IsHeaderTag(rules[i])) {
        EmitStepsTail(t, u, 0, m, k);
        FirstStepAgrees(d, rank, bound, rules, i, m, skipHeader, k);
      } else {
        SkippedRule(d, m, rules[i], skipHeader, RulePass(d, rules, i + 1, m, skipHeader, k));
      }
    }
  }

  lemma {:induction false} FirstStepAgrees(
      d: Dict, rank: map<nat, nat>, bound: nat, rules: seq<nat>, i: nat, m: Message, skipHeader: bool, k: Stream)
    requires Ranked(d, rank) && Below(d, rank, rules, bound) && i < |rules|
    requires GroupsFit(d, rules, m, skipHeader) && ScalarsFit(d, rules, m, skipHeader)
    requires !(skipHeader && IsHeaderTag(rules[i]))
    ensures
      var t := CompileFrom(d, rank, bound, rules, i, skipHeader);
      && |t.steps| > 0
      && EmitSteps(t, 0, m, k) == EmitRule(d, m, rules[i], skipHeader, EmitSteps(t, 1, m, k))
    decreases m, 0, 0
  {
    var tag := rules[i];
    var t := CompileFrom(d, rank, bound, rules, i, skipHeader);
    var more := EmitSteps(t, 1, m, k);
    var gi := GroupIndex(m.groups, tag);
    if gi >= 0 {
      assert m.groups[gi] in m.groups && RuleFits(d, m, tag);
      ScopesAgree(d, rank, rank[tag], d.groups[tag].rules, m.groups[gi].entries, 0, more);
    } else {
      assert RuleFits(d, m, tag);
    }
  }

  lemma {:induction false} ScopesAgree(
      d: Dict, rank: map<nat, nat>, bound: nat, rules: seq<nat>, entries: seq<Message>, i: nat, k: Stream)
    requires Ranked(d, rank) && Below(d, rank, rules, bound) && i <= |entries|
    requires forall e :: e in entries ==> GroupsFit(d, rules, e, false) && ScalarsFit(d, rules, e, false)
    ensures EmitScopes(CompileFrom(d, rank, bound, rules, 0, false), entries, i, k)
         == EmitEntries(d, rules, entries, i, k)
    decreases entries, 3, |entries| - i
  {
    if i < |entries| {
      ScopesAgree(d, rank, bound, rules, entries, i + 1, k);
      ScopeAgrees(d, rank, bound, rules, entries[i], false, EmitEntries(d, rules, entries, i + 1, k));
    }
  }

  /** Template and generic encoder emit the same fields, at every level of nesting. */
  lemma {:induction false} ScopeAgrees(
      d: Dict, rank: map<nat, nat>, bound: nat, rules: seq<nat>, m: Message, skipHeader: bool, k: Stream)
    requires Ranked(d, rank) && Below(d, rank, rules, bound)
    requires GroupsFit(d, rules, m, skipHeader) && ScalarsFit(d, rules, m, skipHeader)
    ensures EmitScope(CompileFrom(d, rank, bound, rules, 0, skipHeader), m, skipHeader, k)
         == EmitBody(d, rules, m, skipHeader, k)
    decreases m, 2, 0
  {
    SweepGroupsAgree(d, rank, bound, rules, m, 0, skipHeader, k);
    var groups := ExtraGroups(d, rules, m.groups, 0, k);
    SweepFieldsAgree(d, rank, bound, rules, m, 0, skipHeader, groups);
    StepsAgree(d, rank, bound, rules, 0, m, skipHeader, ExtraFields(rules, m, 0, skipHeader, groups));
  }
}
