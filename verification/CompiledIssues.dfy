/** What the issue of a decode with compiled decoders means, and when it gives the generic verdict. */
module CompiledIssues {
  import opened Optional
  import opened Bytes
  import opened FixTags
  import opened Dictionary
  import opened Scanner
  import opened TokenStream
  import opened ParsedTree
  import opened ParserProgress
  import opened Validation
  import opened GroupParser
  import opened Decoder
  import opened Soundness
  import opened CompiledDecoder
  import opened CompiledSimulation
  import opened Reading
  import opened ReadingStored
  import opened IssueTruth

  // ---------------------------------------------------------------- slots keep the order of the rules

  lemma {:induction false} BodyOrder(rules: seq<nat>, a: nat, b: nat)
    requires a in BodyRules(rules) && b in BodyRules(rules)
    ensures RuleIndex(BodyRules(rules), a) < RuleIndex(BodyRules(rules), b)
       <==> RuleIndex(rules, a) < RuleIndex(rules, b)
    decreases |rules|
  {
    var last := |rules| - 1;
    var front, x := rules[..last], rules[last];
    assert rules == front + [x];
    var body := BodyRules(front);
    forall t | t in {a, b}
      ensures RuleIndex(rules, t) == if RuleIndex(front, t) >= 0 then RuleIndex(front, t) else if x == t then last
        else -1
      ensures !IsEnvelopeTag(x) ==>
        RuleIndex(body + [x], t) == if RuleIndex(body, t) >= 0 then RuleIndex(body, t) else if x == t then |body|
            else -1
      ensures RuleIndex(body, t) >= 0 <==> t in body
      ensures RuleIndex(front, t) >= 0 <==> t in front
      ensures t in body <==> t in front && !IsEnvelopeTag(t)
    {
      RuleFromAppend(front, 0, x, t);
      RuleFromAppend(body, 0, x, t);
      RuleIndexMember(body, t);
      RuleIndexMember(front, t);
      BodyRulesMember(front, t);
    }
    if a in body && b in body {
      BodyOrder(front, a, b);
    }
  }

  lemma {:induction false} PrefixIndex(s: seq<nat>, n: nat, i: nat, t: nat)
    requires i <= n <= |s|
    ensures t in s[i..n] ==> RuleFrom(s[..n], i, t) == RuleFrom(s, i, t)
    decreases n - i
  {
    if i < n {
      PrefixIndex(s, n, i + 1, t);
    }
  }

  lemma KeptIndex(rules: seq<nat>, t: nat)
    requires t in Kept(rules)
    ensures RuleIndex(Kept(rules), t) == RuleIndex(BodyRules(rules), t) && t in BodyRules(rules)
  {
    var body := BodyRules(rules);
    if |body| > MAX_SLOTS {
      assert body[0..MAX_SLOTS] == body[..MAX_SLOTS];
      PrefixIndex(body, MAX_SLOTS, 0, t);
    }
  }

  lemma KeptOrder(rules: seq<nat>, a: nat, b: nat)
    requires a in Kept(rules) && b in Kept(rules)
    ensures RuleIndex(Kept(rules), a) < RuleIndex(Kept(rules), b) <==> RuleIndex(rules, a) < RuleIndex(rules, b)
  {
    hide Kept, BodyRules;
    KeptIndex(rules, a);
    KeptIndex(rules, b);
    BodyOrder(rules, a, b);
  }

  lemma KeptBody(rules: seq<nat>, t: nat)
    requires t in Kept(rules)
    ensures t in rules && !IsEnvelopeTag(t) && t != MSG_TYPE && RuleIndex(rules, t) >= 0
  {
    hide BodyRules;
    BodyRulesMember(rules, t);
    RuleIndexMember(rules, t);
  }

  // ---------------------------------------------------------------- one field

  /** The slot that orders a field of the message; header fields and group counts have none. */
  function SlotRank(d: Dict, rules: seq<nat>, t: nat): int {
    if IsEnvelopeTag(t) || t in d.groups then -1 else RuleIndex(Kept(rules), t)
  }

  /** The loop's state stands for the fields before: their tags are stored, and `last` is the highest slot. */
  ghost predicate Follows(d: Dict, rules: seq<nat>, from: nat, before: seq<nat>, r: Root) {
    && from <= |before| && (forall t :: SlotIndex(r.slots, t) >= 0 <==> t in before)
    && TopSlot(d, rules, from, before, r.scope.last)
  }

  ghost predicate TopSlot(d: Dict, rules: seq<nat>, from: nat, before: seq<nat>, last: int)
    requires from <= |before|
  {
    && -1 <= last
    && (forall i :: from <= i < |before| ==>
          (IsEnvelopeTag(before[i]) || before[i] in Kept(rules)) && SlotRank(d, rules, before[i]) <= last)
    && (last >= 0 ==> exists i :: from <= i < |before| && SlotRank(d, rules, before[i]) == last)
  }

  lemma RanksAgree(d: Dict, rules: seq<nat>, p: Place, a: nat, b: nat)
    requires p.InRoot? && p.rules == Some(rules)
    requires (IsEnvelopeTag(a) || a in Kept(rules)) && b in Kept(rules)
    ensures Rank(d, p, b) >= 0 <==> b !in d.groups
    ensures b !in d.groups ==> (Rank(d, p, a) > Rank(d, p, b) <==> SlotRank(d, rules, a) > SlotRank(d, rules, b))
  {
    hide Kept, IsEnvelopeTag;
    KeptBody(rules, b);
    RuleIndexMember(Kept(rules), b);
    if a in Kept(rules) {
      KeptBody(rules, a);
      KeptOrder(rules, b, a);
    }
  }

  lemma BehindIsTop(d: Dict, rules: seq<nat>, from: nat, before: seq<nat>, last: int, tok: Tok)
    requires from <= |before| && TopSlot(d, rules, from, before, last) && tok.tag in Kept(rules)
    ensures Behind(d, Seen(tok, InRoot(Some(rules), from), before))
       <==> tok.tag !in d.groups && RuleIndex(Kept(rules), tok.tag) < last
  {
    hide Kept, IsEnvelopeTag, Rank;
    var p := InRoot(Some(rules), from);
    KeptBody(rules, tok.tag);
    RuleIndexMember(Kept(rules), tok.tag);
    RanksAgree(d, rules, p, tok.tag, tok.tag);
    forall i | from <= i < |before|
      ensures tok.tag !in d.groups ==>
        (Rank(d, p, before[i]) > Rank(d, p, tok.tag) <==> SlotRank(d, rules, before[i]) > SlotRank(d, rules, tok.tag))
    {
      RanksAgree(d, rules, p, before[i], tok.tag);
    }
  }

  lemma TopNext(d: Dict, rules: seq<nat>, from: nat, before: seq<nat>, last: int, tag: nat, last1: int)
    requires from <= |before| && TopSlot(d, rules, from, before, last) && (IsEnvelopeTag(tag) || tag in Kept(rules))
    requires last1 == if SlotRank(d, rules, tag) > last then SlotRank(d, rules, tag) else last
    ensures TopSlot(d, rules, from, before + [tag], last1)
  {
    hide SlotRank, Kept, IsEnvelopeTag;
    var more := before + [tag];
    assert forall i :: 0 <= i < |before| ==> more[i] == before[i];
    assert more[|before|] == tag;
    if last1 >= 0 && last1 == last {
      var i :| from <= i < |before| && SlotRank(d, rules, before[i]) == last;
      assert SlotRank(d, rules, more[i]) == last;
    }
  }

  lemma StoredNext(slots: seq<Slot>, before: seq<nat>, s: Slot)
    requires forall t :: SlotIndex(slots, t) >= 0 <==> t in before
    ensures forall t :: SlotIndex(Upsert(slots, s), t) >= 0 <==> t in before + [s.tag]
  {
    hide Upsert;
    forall t ensures SlotIndex(Upsert(slots, s), t) >= 0 <==> t in before + [s.tag] {
      UpsertReads(slots, s, t);
    }
  }

  /** The loop state behind the checks of one field, before the group it may count. */
  function AfterPlan(d: Dict, c: Compiled, r: Root, tok: Tok): Root
    requires Shaped(c)
  {
    var i := Lookup(c, tok.tag);
    if IsEnvelopeTag(tok.tag) then StoreOnce(r, tok, FallbackType(tok.tag))
    else if i >= |c.slots| then
      StoreSlot(r.(issue := Note(r.issue, if tok.tag in d.fields then FieldNotAllowed else UnknownField, tok.tag)), tok,
                TString)
    else
      var plan := c.slots[i];
      var r1 := r.(issue := ValidateScalarValue(tok.tag, tok.text, plan.ftype, r.issue));
      var k := TrackRuleOrder(r1.scope, i, r1.issue, tok.tag, RootOrder);
      StoreOnce(if plan.group.Some? then r1 else r1.(scope := k.scope, issue := k.issue), tok, plan.ftype)
  }

  lemma PlanThenGroup(d: Dict, c: Compiled, r: Root, tok: Tok)
    requires Shaped(c)
    ensures
      var g := CompiledGroup(Some(c), tok.tag);
      TakeCompiled(d, c, r, tok)
        == if g.Some? then StoreGroup(d, AfterPlan(d, c, r, tok), tok, g.value) else Done(AfterPlan(d, c, r, tok))
  {
    hide StoreGroup, Upsert, Lookup;
  }

  lemma DecoderFieldJudged(d: Dict, c: Compiled, r: Root, tok: Tok, rules: seq<nat>, from: nat, before: seq<nat>)
    requires Shaped(c) && Finds(c, d, Kept(rules)) && r.issue.NoIssue? && tok.tag != MSG_TYPE
    requires Follows(d, rules, from, before, r)
    ensures
      var r1 := AfterPlan(d, c, r, tok);
      && Verdict(d, ByDecoder, Seen(tok, InRoot(Some(rules), from), before), r1.issue)
      && (r1.issue.NoIssue? ==> Follows(d, rules, from, before + [tok.tag], r1))
  {
    hide Follows, Verdict, IsEnvelopeTag, Kept, Lookup, StoreOnce, Upsert;
    assert FindsTag(c, Kept(rules), tok.tag);
    RuleIndexMember(Kept(rules), tok.tag);
    if IsEnvelopeTag(tok.tag) {
      HeaderJudged(d, r, tok, rules, from, before);
    } else if tok.tag !in Kept(rules) {
      UnkeptJudged(d, tok, rules, from, before);
    } else {
      PlannedJudged(d, r, tok, rules, from, before);
    }
  }

  lemma HeaderJudged(d: Dict, r: Root, tok: Tok, rules: seq<nat>, from: nat, before: seq<nat>)
    requires r.issue.NoIssue? && tok.tag != MSG_TYPE && IsEnvelopeTag(tok.tag) && Follows(d, rules, from, before, r)
    ensures
      var r1 := StoreOnce(r, tok, FallbackType(tok.tag));
      && Verdict(d, ByDecoder, Seen(tok, InRoot(Some(rules), from), before), r1.issue)
      && (r1.issue.NoIssue? ==> Follows(d, rules, from, before + [tok.tag], r1))
  {
    hide Behind, TopSlot, IsEnvelopeTag, Kept, Upsert, SlotIndex;
    assert !Behind(d, Seen(tok, InRoot(Some(rules), from), before)) by { HeaderNotBehind(d, rules, from, before, tok); }
    StoredNext(r.slots, before, Slot(tok.tag, ViewText(tok.text), FallbackType(tok.tag)));
    NotLow(d, rules, from, before, r.scope.last);
    TopNext(d, rules, from, before, r.scope.last, tok.tag, r.scope.last);
  }

  lemma NotLow(d: Dict, rules: seq<nat>, from: nat, before: seq<nat>, last: int)
    requires from <= |before| && TopSlot(d, rules, from, before, last)
    ensures -1 <= last
  {
  }

  lemma HeaderNotBehind(d: Dict, rules: seq<nat>, from: nat, before: seq<nat>, tok: Tok)
    requires IsEnvelopeTag(tok.tag)
    ensures !Behind(d, Seen(tok, InRoot(Some(rules), from), before))
  {
  }

  lemma UnkeptJudged(d: Dict, tok: Tok, rules: seq<nat>, from: nat, before: seq<nat>)
    requires !IsEnvelopeTag(tok.tag) && tok.tag !in Kept(rules)
    ensures Verdict(d, ByDecoder, Seen(tok, InRoot(Some(rules), from), before),
                    Issue(if tok.tag in d.fields then FieldNotAllowed else UnknownField, tok.tag))
  {
    hide Behind, IsEnvelopeTag, Kept;
  }

  lemma AnyText(text: Text)
    ensures WellTyped(text, TString)
  {
  }

  /** A field with a slot: its value is checked first, then its place, then its repetition. */
  lemma PlannedJudged(d: Dict, r: Root, tok: Tok, rules: seq<nat>, from: nat, before: seq<nat>)
    requires r.issue.NoIssue? && tok.tag in Kept(rules) && Follows(d, rules, from, before, r)
    ensures
      var plan, r1 := Plan(d, tok.tag),
                      r.(issue := ValidateScalarValue(tok.tag, tok.text, Plan(d, tok.tag).ftype, r.issue));
      var k := TrackRuleOrder(r1.scope, RuleIndex(Kept(rules), tok.tag), r1.issue, tok.tag, RootOrder);
      var r2 := StoreOnce(if plan.group.Some? then r1 else r1.(scope := k.scope, issue := k.issue), tok, plan.ftype);
      && Verdict(d, ByDecoder, Seen(tok, InRoot(Some(rules), from), before), r2.issue)
      && (r2.issue.NoIssue? ==> Follows(d, rules, from, before + [tok.tag], r2))
  {
    hide Behind, TopSlot, WellTyped, IsEnvelopeTag, Kept, Upsert, SlotIndex;
    AnyText(tok.text);
    KeptBody(rules, tok.tag);
    RuleIndexMember(Kept(rules), tok.tag);
    BehindIsTop(d, rules, from, before, r.scope.last, tok);
    StoredNext(r.slots, before, Slot(tok.tag, ViewText(tok.text), Plan(d, tok.tag).ftype));
    NotLow(d, rules, from, before, r.scope.last);
    var top := if SlotRank(d, rules, tok.tag) > r.scope.last then SlotRank(d, rules, tok.tag) else r.scope.last;
    TopNext(d, rules, from, before, r.scope.last, tok.tag, top);
  }

  // ---------------------------------------------------------------- the loop

  lemma {:induction false} CompiledKeeps(d: Dict, decoders: Decoders, r: Root, compiled: Option<Compiled>)
    requires AllShaped(decoders) && (compiled.Some? ==> Shaped(compiled.value)) && !r.issue.NoIssue?
    requires CompiledLoop(d, decoders, r, compiled).Done?
    ensures CompiledLoop(d, decoders, r, compiled).value.issue == r.issue
    decreases Size(r.rest)
  {
    hide CompiledSimulation.TakeField, StoreSlot, Lookup;
    if r.checkSum.None? && r.rest.Next? && r.rest.tok.tag != CHECK_SUM {
      var tok := r.rest.tok;
      var r1 := Advance(r, tok, r.rest.rest);
      if IsFrameTag(tok.tag) {
        CompiledKeeps(d, decoders, r1, compiled);
      } else if tok.tag == MSG_TYPE {
        var r2 := r1.(header := r1.header.(texts := r1.header.texts[MSG_TYPE := tok.text]));
        SlotKeeps(r2, tok, TString);
        CompiledKeeps(d, decoders, StoreSlot(r2, tok, TString), Select(decoders, tok.text));
      } else {
        FieldKeeps(d, compiled, r1, tok);
        CompiledKeeps(d, decoders, CompiledSimulation.TakeField(d, compiled, r1, tok).value, compiled);
      }
    }
  }

  lemma SlotKeeps(r: Root, tok: Tok, t: FieldType)
    ensures StoreSlot(r, tok, t).issue == r.issue && StoreSlot(r, tok, t).rest == r.rest
  {
  }

  lemma FieldKeeps(d: Dict, compiled: Option<Compiled>, r: Root, tok: Tok)
    requires (compiled.Some? ==> Shaped(compiled.value)) && !r.issue.NoIssue?
    requires CompiledSimulation.TakeField(d, compiled, r, tok).Done?
    ensures CompiledSimulation.TakeField(d, compiled, r, tok).value.issue == r.issue
  {
    hide Lookup, Upsert, ParseGroup;
    if compiled.Some? {
      var h := ExtractHeader(r.header, tok.tag, tok.text).value;
      PlanThenGroup(d, compiled.value, r.(header := h), tok);
      var r1, g := AfterPlan(d, compiled.value, r.(header := h), tok), CompiledGroup(compiled, tok.tag);
      assert r1.issue == r.issue;
      if g.Some? {
        GroupKeeps(d, g.value, 1, tok.text, r1.rest, r1.issue);
      }
    }
  }

  /** One field behind its header value: its verdict, then that of the group it counts. */
  lemma CompiledFieldExplained(
      d: Dict, c: Compiled, r: Root, tok: Tok, rules: seq<nat>, from: nat, before: seq<nat>)
    returns (node: Node)
    requires Shaped(c) && Finds(c, d, Kept(rules)) && r.issue.NoIssue? && tok.tag != MSG_TYPE
    requires Follows(d, rules, from, before, r) && CompiledSimulation.TakeField(d, Some(c), r, tok).Done?
    requires GenericGroup(d, Some(rules), tok.tag) == CompiledGroup(Some(c), tok.tag)
    ensures
      var r1 := CompiledSimulation.TakeField(d, Some(c), r, tok).value;
      && Explains(d, ByDecoder, [Seen(tok, InRoot(Some(rules), from), before)] + CounterVisits(node), r1.issue)
      && (r1.issue.NoIssue? ==> Follows(d, rules, from, before + [tok.tag], r1))
      && r1.checkSum == r.checkSum && node.tok == tok
      && if IsGroupRule(d, Some(rules), tok.tag)
         then
           var e := ReadEntries(d, d.groups[tok.tag], Announced(tok.text), r.rest);
           node == CountNode(tok, d.groups[tok.tag], e) && r1.rest == e.rest
         else node == Scalar(tok) && r1.rest == r.rest
  {
    hide Explains, Verdict, StoreGroup, ReadEntries, ExtractHeader, GroupVisits, Kept, Lookup, TopSlot, Upsert, Finds;
    hide TakeCompiled, CompiledGroup, SlotIndex, Shaped;
    var h := ExtractHeader(r.header, tok.tag, tok.text).value;
    var r0 := r.(header := h);
    var v, r1 := Seen(tok, InRoot(Some(rules), from), before), AfterPlan(d, c, r0, tok);
    PlanThenGroup(d, c, r0, tok);
    PlanStays(d, c, r0, tok);
    DecoderFieldJudged(d, c, r0, tok, rules, from, before);
    ExplainsOne(d, ByDecoder, v, r1.issue);
    node := Scalar(tok);
    if IsGroupRule(d, Some(rules), tok.tag) {
      node := RootGroupTaken(d, ByDecoder, r1, tok, d.groups[tok.tag]);
      ExplainsBoth(d, ByDecoder, [v], CounterVisits(node), r1.issue,
          StoreGroup(d, r1, tok, d.groups[tok.tag]).value.issue);
    } else {
      assert [v] + [] == [v];
    }
  }

  lemma PlanStays(d: Dict, c: Compiled, r: Root, tok: Tok)
    requires Shaped(c)
    ensures var r1 := AfterPlan(d, c, r, tok); r1.rest == r.rest && r1.checkSum == r.checkSum
  {
    hide Lookup, Upsert;
  }

  /** No field of the message is a MsgType. */
  predicate Untyped(nodes: seq<Node>) {
    forall i :: 0 <= i < |nodes| ==> nodes[i].tok.tag != MSG_TYPE
  }

  /** Nor is any but the first. */
  predicate TypedOnce(nodes: seq<Node>) {
    forall i :: 0 < i < |nodes| ==> nodes[i].tok.tag != MSG_TYPE
  }

  lemma UntypedRest(node: Node, more: seq<Node>)
    requires TypedOnce([node] + more)
    ensures Untyped(more)
  {
    forall i | 0 <= i < |more| ensures more[i].tok.tag != MSG_TYPE {
      assert ([node] + more)[i + 1] == more[i];
    }
  }

  lemma {:induction false} DecoderLoopExplained(
      d: Dict, decoders: Decoders, r: Root, c: Compiled, rules: seq<nat>, from: nat, before: seq<nat>, delim: Byte)
    requires AllShaped(decoders) && Shaped(c) && Finds(c, d, Kept(rules)) && Matches(d, Some(rules), Some(c))
    requires CompiledLoop(d, decoders, r, Some(c)).Done? && r.checkSum.None? && Scanned(r.rest, delim)
    requires r.issue.NoIssue? && Follows(d, rules, from, before, r)
    requires Untyped(ReadRoot(d, Some(rules), r.rest).nodes)
    ensures Explains(d, ByDecoder,
                     RootVisits(d, InRoot(Some(rules), from), before, ReadRoot(d, Some(rules), r.rest).nodes),
                     CompiledLoop(d, decoders, r, Some(c)).value.issue)
    decreases Size(r.rest)
  {
    hide Explains, Verdict, Follows, ReadEntries, CompiledSimulation.TakeField, GroupVisits, Kept, Lookup, Finds;
    hide Shaped;
    hide AllShaped;
    NothingSeen(d, ByDecoder);
    if r.rest.Next? && r.rest.tok.tag != CHECK_SUM {
      var tok := r.rest.tok;
      var r1 := Advance(r, tok, r.rest.rest);
      var x := ReadRoot(d, Some(rules), r.rest);
      if IsFrameTag(tok.tag) {
        SameFollows(d, rules, from, before, r, r1);
        DecoderLoopExplained(d, decoders, r1, c, rules, from, before, delim);
      } else {
        assert x.nodes[0].tok == tok;
        SameFollows(d, rules, from, before, r, r1);
        assert GenericGroup(d, Some(rules), tok.tag) == CompiledGroup(Some(c), tok.tag);
        var p, r2 := InRoot(Some(rules), from), CompiledSimulation.TakeField(d, Some(c), r1, tok).value;
        var node := CompiledFieldExplained(d, c, r1, tok, rules, from, before);
        var more := ReadRoot(d, Some(rules), r2.rest).nodes;
        assert x.nodes == [node] + more;
        UntypedRest(node, more);
        RootVisitsFirst(d, p, before, node, more);
        var vs := [Seen(tok, p, before)] + CounterVisits(node);
        if r2.issue.NoIssue? {
          TakenScanned(d, c, r1, tok, delim, r2);
          DecoderLoopExplained(d, decoders, r2, c, rules, from, before + [tok.tag], delim);
        } else {
          CompiledKeeps(d, decoders, r2, Some(c));
        }
        ExplainsBoth(d, ByDecoder, vs, RootVisits(d, p, before + [tok.tag], more), r2.issue,
            CompiledLoop(d, decoders, r2, Some(c)).value.issue);
      }
    }
  }

  lemma SameFollows(d: Dict, rules: seq<nat>, from: nat, before: seq<nat>, r: Root, r1: Root)
    requires r1.slots == r.slots && r1.scope == r.scope && Follows(d, rules, from, before, r)
    ensures Follows(d, rules, from, before, r1)
  {
  }

  lemma TakenScanned(d: Dict, c: Compiled, r: Root, tok: Tok, delim: Byte, r1: Root)
    requires Shaped(c) && CompiledSimulation.TakeField(d, Some(c), r, tok) == Done(r1) && Scanned(r.rest, delim)
    ensures Scanned(r1.rest, delim)
  {
    hide Lookup, Upsert, ParseGroup, Scanned;
    var h := ExtractHeader(r.header, tok.tag, tok.text).value;
    PlanThenGroup(d, c, r.(header := h), tok);
    PlanStays(d, c, r.(header := h), tok);
    var r0, g := AfterPlan(d, c, r.(header := h), tok), CompiledGroup(Some(c), tok.tag);
    if g.Some? {
      GroupSuffix(d, g.value, 1, tok.text, r0.rest, r0.issue);
      ScannedSuffix(r1.rest, r.rest, delim);
    }
  }

  // ---------------------------------------------------------------- whole frames

  /** A MsgType that the dictionary knows and whose decoder is in use comes first. */
  ghost predicate Typed(d: Dict, decoders: Decoders, st: Stream)
    requires BuiltTable(d, decoders)
  {
    st.Next? && st.tok.tag == MSG_TYPE && st.tok.text in d.messages && !decoders[st.tok.text].exceeded
  }

  lemma StreamExplained(d: Dict, decoders: Decoders, st: Stream, delim: Byte)
    requires BuiltTable(d, decoders) && GroupsIndexed(d, decoders, delim) && Scanned(st, delim) && AllShaped(decoders)
    requires Typed(d, decoders, st) && CompiledLoop(d, decoders, StartRoot(st), None).Done?
    requires TypedOnce(ReadRoot(d, None, st).nodes)
    ensures Explains(d, ByDecoder, RootVisits(d, InRoot(None, 0), [], ReadRoot(d, None, st).nodes),
                     CompiledLoop(d, decoders, StartRoot(st), None).value.issue)
  {
    hide Explains, Verdict, GroupsIndexed, Finds, Shaped, Kept, CompiledSimulation.TakeField, ReadEntries, GroupVisits;
    var tok := st.tok;
    var rules, c := d.messages[tok.text], decoders[tok.text];
    MatchExactlyWhenIndexed(d, decoders, delim);
    assert Matches(d, MessageRules(d, tok.text), Select(decoders, tok.text));
    var r1 := Advance(StartRoot(st), tok, st.rest);
    var r2 := StoreSlot(r1.(header := r1.header.(texts := r1.header.texts[MSG_TYPE := tok.text])), tok, TString);
    var now, more := InRoot(Some(rules), 1), ReadRoot(d, Some(rules), st.rest).nodes;
    assert r2.slots == [Slot(MSG_TYPE, ViewText(tok.text), TString)];
    TypeFollows(d, rules, r2);
    UntypedRest(Scalar(tok), more);
    DecoderLoopExplained(d, decoders, r2, c, rules, 1, [MSG_TYPE], delim);
    RootVisitsFirst(d, InRoot(None, 0), [], Scalar(tok), more);
    assert [] + [MSG_TYPE] == [MSG_TYPE];
    TypeFaultless(d, tok, now);
    ExplainsOne(d, ByDecoder, Seen(tok, now, []), NoIssue);
    ExplainsBoth(d, ByDecoder, [Seen(tok, now, [])], RootVisits(d, now, [MSG_TYPE], more), NoIssue,
        CompiledLoop(d, decoders, r2, Some(c)).value.issue);
  }

  lemma TypeFollows(d: Dict, rules: seq<nat>, r: Root)
    requires |r.slots| == 1 && r.slots[0].tag == MSG_TYPE && r.scope == EMPTY_SCOPE
    ensures Follows(d, rules, 1, [MSG_TYPE], r)
  {
    hide Kept;
    forall t ensures SlotIndex(r.slots, t) >= 0 <==> t in [MSG_TYPE] {
      assert SlotFrom(r.slots, 1, t) == -1;
    }
  }

  lemma TypeFaultless(d: Dict, tok: Tok, p: Place)
    requires tok.tag == MSG_TYPE && p.InRoot?
    ensures Verdict(d, ByDecoder, Seen(tok, p, []), NoIssue)
  {
    hide Kept;
  }

  lemma FrameScanned(s: Text, delim: Byte, f: Frame)
    requires OpenFrame(Tokenize(s, 0, delim)) == Done(f)
    ensures f.rest.Next? ==> Scanned(f.rest, delim) && delim !in f.rest.tok.text && Scanned(f.rest.rest, delim)
    ensures Scanned(f.rest, delim)
  {
    hide Tokenize;
    var st := Tokenize(s, 0, delim);
    TokensScanned(s, 0, delim);
    assert Suffix(f.rest, st) by { assert Suffix(f.rest, st.rest) && f.rest == st.rest.rest; }
    ScannedSuffix(f.rest, st, delim);
  }

  /**
   * A frame of a known type, MsgType first and only once, decoded with its compiled decoder: the issue is the first
   * fault by the decoder's checks, or there is none.
   */
  lemma CompiledIssueExplained(d: Dict, decoders: Decoders, s: Text, delim: Byte, verify: bool)
    requires BuiltTable(d, decoders) && GroupsIndexed(d, decoders, NormalizeDelimiter(delim)) && AllShaped(decoders)
    requires DecodeCompiled(d, decoders, s, delim, verify).Done?
    requires
      var st := Tokenize(s, 0, NormalizeDelimiter(delim));
      && OpenFrame(st).Done? && Typed(d, decoders, OpenFrame(st).value.rest)
      && TypedOnce(FrameReading(d, s, NormalizeDelimiter(delim)).nodes)
    ensures Explains(d, ByDecoder, FrameVisits(d, s, NormalizeDelimiter(delim)),
                     DecodeCompiled(d, decoders, s, delim, verify).value.issue)
  {
    hide Explains, CompiledLoop, ReadRoot, RootVisits, Tokenize, Sum, BuiltTable, GroupsIndexed, AllShaped, TypedOnce;
    hide Typed;
    hide Scanned;
    var st := Tokenize(s, 0, NormalizeDelimiter(delim));
    var f := OpenFrame(st).value;
    FrameScanned(s, NormalizeDelimiter(delim), f);
    StreamExplained(d, decoders, f.rest, NormalizeDelimiter(delim));
  }

  // ---------------------------------------------------------------- against the generic verdict

  /** A body field has a slot in its decoder. */
  predicate Indexed(v: Visit) {
    v.Seen? && v.place.InRoot? && Judged(v) ==> v.tok.tag in Kept(ScopeRules(v.place))
  }

  /** What only the generic loop looks at: header values, and that the dictionary defines a body field. */
  predicate Proper(d: Dict, v: Visit) {
    v.Seen? && v.place.InRoot? && v.tok.tag != MSG_TYPE ==>
      if IsEnvelopeTag(v.tok.tag) then v.tok.text != [] && WellTyped(v.tok.text, TypeOf(d, v.tok.tag))
      else v.tok.tag in d.fields
  }

  lemma VisitsCompared(d: Dict, v: Visit)
    requires v.Seen? && v.place.InRoot? ==> v.place.rules.Some? && (v.tok.tag == MSG_TYPE ==> MSG_TYPE !in v.before)
    ensures (Faultless(d, ByRules, v) && Indexed(v)) <==> (Faultless(d, ByDecoder, v) && Proper(d, v))
  {
    hide Behind, WellTyped, Kept;
    if v.Seen? && v.place.InRoot? {
      var rules := v.place.rules.value;
      FaultlessByRules(d, v);
      FaultlessByDecoder(d, v);
      if v.tok.tag in Kept(rules) {
        KeptBody(rules, v.tok.tag);
      }
    } else {
      assert forall k :: Fault(d, ByRules, v, k) == Fault(d, ByDecoder, v, k);
    }
  }

  lemma FaultlessByRules(d: Dict, v: Visit)
    requires v.Seen? && v.place.InRoot?
    ensures Faultless(d, ByRules, v) <==>
      && v.tok.tag !in v.before && !Behind(d, v)
      && (Judged(v) ==>
            && (v.tok.tag in d.fields || (ScopeRules(v.place) == [] && IsCommonAdminTag(v.tok.tag)))
            && (ScopeRules(v.place) == [] || v.tok.tag in ScopeRules(v.place)))
      && (v.tok.tag != MSG_TYPE ==> v.tok.text != [] && WellTyped(v.tok.text, TypeOf(d, v.tok.tag)))
  {
    hide Behind, WellTyped, IsEnvelopeTag, IsCommonAdminTag;
    if !Faultless(d, ByRules, v) {
      var k :| Fault(d, ByRules, v, k);
    } else {
      assert !Fault(d, ByRules, v, DuplicateField) && !Fault(d, ByRules, v, UnknownField);
      assert !Fault(d, ByRules, v, FieldNotAllowed) && !Fault(d, ByRules, v, OutOfOrder);
      assert !Fault(d, ByRules, v, NoValue) && !Fault(d, ByRules, v, BadFormat);
    }
  }

  lemma FaultlessByDecoder(d: Dict, v: Visit)
    requires v.Seen? && v.place.InRoot?
    ensures Faultless(d, ByDecoder, v) <==>
      && (v.tok.tag !in v.before || v.tok.tag == MSG_TYPE) && !Behind(d, v)
      && (Judged(v) ==>
            && v.tok.tag in Kept(ScopeRules(v.place)) && v.tok.text != []
            && (v.tok.tag in d.fields ==> WellTyped(v.tok.text, d.fields[v.tok.tag])))
  {
    hide Behind, WellTyped, IsEnvelopeTag, Kept;
    if !Faultless(d, ByDecoder, v) {
      var k :| Fault(d, ByDecoder, v, k);
    } else {
      assert !Fault(d, ByDecoder, v, DuplicateField) && !Fault(d, ByDecoder, v, UnknownField);
      assert !Fault(d, ByDecoder, v, FieldNotAllowed) && !Fault(d, ByDecoder, v, OutOfOrder);
      assert !Fault(d, ByDecoder, v, NoValue) && !Fault(d, ByDecoder, v, BadFormat);
    }
  }
}
