/** When decoding with compiled decoders gives the generic verdict on a frame, and what its clean verdict means. */
module CompiledVerdicts {
  import opened Optional
  import opened Bytes
  import opened FixTags
  import opened Dictionary
  import opened Scanner
  import opened TokenStream
  import opened ParsedTree
  import opened Decoder
  import opened Soundness
  import opened RootSoundness
  import opened CompiledDecoder
  import opened CompiledSimulation
  import opened Reading
  import opened ReadingStored
  import opened IssueTruth
  import opened CompiledIssues

  /** Every field of the message comes under these rules, and a MsgType among them is the first. */
  ghost predicate Ruled(rules: seq<nat>, vs: seq<Visit>) {
    forall i :: 0 <= i < |vs| ==> RuledVisit(rules, vs[i])
  }

  predicate RuledVisit(rules: seq<nat>, v: Visit) {
    v.Seen? && v.place.InRoot? ==> v.place.rules == Some(rules) && (v.tok.tag == MSG_TYPE ==> MSG_TYPE !in v.before)
  }

  lemma RuledBoth(rules: seq<nat>, a: seq<Visit>, b: seq<Visit>)
    requires Ruled(rules, a) && Ruled(rules, b)
    ensures Ruled(rules, a + b)
  {
  }

  lemma {:induction false} FieldVisitsRuled(rules: seq<nat>, g: GroupDef, before: seq<nat>, nodes: seq<Node>)
    ensures Ruled(rules, FieldVisits(g, before, nodes))
    decreases nodes, 0
  {
    hide Ruled;
    NoVisit(rules);
    if nodes != [] {
      var v, more := Seen(nodes[0].tok, InEntry(g), before), FieldVisits(g, before + [nodes[0].tok.tag], nodes[1..]);
      OneVisit(rules, v);
      FieldVisitsRuled(rules, g, before + [nodes[0].tok.tag], nodes[1..]);
      if nodes[0].Counter? {
        GroupVisitsRuled(rules, nodes[0].def, nodes[0].items, nodes[0].missing, nodes[0].found);
      }
      RuledBoth(rules, [v], CounterVisits(nodes[0]));
      RuledBoth(rules, [v] + CounterVisits(nodes[0]), more);
    }
  }

  lemma NoVisit(rules: seq<nat>)
    ensures Ruled(rules, [])
  {
  }

  lemma OneVisit(rules: seq<nat>, v: Visit)
    requires RuledVisit(rules, v)
    ensures Ruled(rules, [v])
  {
  }

  lemma {:induction false} GroupVisitsRuled(
      rules: seq<nat>, g: GroupDef, items: seq<Item>, missing: nat, found: Option<nat>)
    ensures Ruled(rules, GroupVisits(g, items, missing, found))
    decreases items, 1
  {
    hide Ruled;
    NoVisit(rules);
    OneVisit(rules, Missing(g, missing, found));
    if items != [] {
      FieldVisitsRuled(rules, g, [], items[0].nodes);
      GroupVisitsRuled(rules, g, items[1..], missing, found);
      RuledBoth(rules, FieldVisits(g, [], items[0].nodes), GroupVisits(g, items[1..], missing, found));
    }
  }

  lemma {:induction false} RootVisitsRuled(d: Dict, rules: seq<nat>, from: nat, before: seq<nat>, nodes: seq<Node>)
    requires Untyped(nodes)
    ensures Ruled(rules, RootVisits(d, InRoot(Some(rules), from), before, nodes))
    decreases |nodes|
  {
    hide Ruled, GroupVisits;
    NoVisit(rules);
    if nodes != [] {
      var p := InRoot(Some(rules), from);
      var v, before1 := Seen(nodes[0].tok, p, before), before + [nodes[0].tok.tag];
      OneVisit(rules, v);
      RootVisitsRuled(d, rules, from, before1, nodes[1..]);
      if nodes[0].Counter? {
        GroupVisitsRuled(rules, nodes[0].def, nodes[0].items, nodes[0].missing, nodes[0].found);
      }
      RuledBoth(rules, [v], CounterVisits(nodes[0]));
      RuledBoth(rules, [v] + CounterVisits(nodes[0]), RootVisits(d, p, before1, nodes[1..]));
    }
  }

  /** A second MsgType is a fault for the generic loop. */
  lemma {:induction false} SecondType(d: Dict, p: Place, before: seq<nat>, nodes: seq<Node>)
    requires p.InRoot? && MSG_TYPE in before && !Untyped(nodes)
    ensures !Explains(d, ByRules, RootVisits(d, p, before, nodes), NoIssue)
    decreases |nodes|
  {
    hide GroupVisits;
    var vs := RootVisits(d, p, before, nodes);
    if nodes[0].tok.tag == MSG_TYPE {
      assert Fault(d, ByRules, vs[0], DuplicateField);
    } else {
      var before1 := before + [nodes[0].tok.tag];
      var more := RootVisits(d, p, before1, nodes[1..]);
      var k := |vs| - |more|;
      assert vs[k..] == more;
      var i :| 0 <= i < |nodes| && nodes[i].tok.tag == MSG_TYPE;
      assert nodes[1..][i - 1] == nodes[i];
      SecondType(d, p, before1, nodes[1..]);
      var j :| 0 <= j < |more| && !Faultless(d, ByRules, more[j]);
      assert vs[k + j] == more[j];
    }
  }

  /** Noting nothing is having no faults. */
  lemma CleanExactly(d: Dict, how: Checks, vs: seq<Visit>, issue: Issue)
    requires Explains(d, how, vs, issue)
    ensures issue.NoIssue? <==> forall i :: 0 <= i < |vs| ==> Faultless(d, how, vs[i])
  {
    hide Fault;
    if issue.Issue? {
      var i :| FirstFault(d, how, vs, i, issue);
      assert !Faultless(d, how, vs[i]);
    }
  }

  ghost predicate AllIndexed(vs: seq<Visit>) {
    forall i :: 0 <= i < |vs| ==> Indexed(vs[i])
  }

  ghost predicate AllProper(d: Dict, vs: seq<Visit>) {
    forall i :: 0 <= i < |vs| ==> Proper(d, vs[i])
  }

  lemma CleanAlike(d: Dict, rules: seq<nat>, vs: seq<Visit>)
    requires Ruled(rules, vs)
    ensures (Explains(d, ByRules, vs, NoIssue) && AllIndexed(vs))
       <==> (Explains(d, ByDecoder, vs, NoIssue) && AllProper(d, vs))
  {
    hide Faultless, Indexed, Proper;
    forall i | 0 <= i < |vs|
      ensures (Faultless(d, ByRules, vs[i]) && Indexed(vs[i])) <==> (Faultless(d, ByDecoder, vs[i]) && Proper(d, vs[i]))
    {
      assert RuledVisit(rules, vs[i]);
      VisitsCompared(d, vs[i]);
    }
  }

  // ---------------------------------------------------------------- whole frames

  /** The frame opens, and a MsgType that the dictionary knows and whose decoder is in use comes first. */
  ghost predicate TypedFrame(d: Dict, decoders: Decoders, s: Text, delim: Byte)
    requires BuiltTable(d, decoders)
  {
    var st := Tokenize(s, 0, delim);
    OpenFrame(st).Done? && Typed(d, decoders, OpenFrame(st).value.rest)
  }

  /** No other MsgType follows. */
  ghost predicate OneType(d: Dict, s: Text, delim: Byte)
    requires OpenFrame(Tokenize(s, 0, delim)).Done?
  {
    TypedOnce(FrameReading(d, s, delim).nodes)
  }

  lemma TypeVisited(d: Dict, st: Stream) returns (now: Place, more: seq<Node>)
    requires st.Next? && st.tok.tag == MSG_TYPE && st.tok.text in d.messages
    ensures now == InRoot(Some(d.messages[st.tok.text]), 1) && TypedOnce(ReadRoot(d, None, st).nodes) == Untyped(more)
    ensures RootVisits(d, InRoot(None, 0), [], ReadRoot(d, None, st).nodes)
         == [Seen(st.tok, now, [])] + RootVisits(d, now, [MSG_TYPE], more)
  {
    hide ReadEntries, GroupVisits;
    now, more := InRoot(Some(d.messages[st.tok.text]), 1), ReadRoot(d, Some(d.messages[st.tok.text]), st.rest).nodes;
    var nodes := [Scalar(st.tok)] + more;
    assert forall i :: 0 < i < |nodes| ==> nodes[i] == more[i - 1];
    if TypedOnce(nodes) {
      UntypedRest(Scalar(st.tok), more);
    }
    RootVisitsFirst(d, InRoot(None, 0), [], Scalar(st.tok), more);
    assert [] + [MSG_TYPE] == [MSG_TYPE];
  }

  lemma StreamRuled(d: Dict, st: Stream)
    requires st.Next? && st.tok.tag == MSG_TYPE && st.tok.text in d.messages
    ensures
      var nodes := ReadRoot(d, None, st).nodes;
      var vs := RootVisits(d, InRoot(None, 0), [], nodes);
      if TypedOnce(nodes) then Ruled(d.messages[st.tok.text], vs)
      else !Explains(d, ByRules, vs, NoIssue)
  {
    hide Ruled, Explains, RootVisits, Untyped, TypedOnce;
    var rules := d.messages[st.tok.text];
    var now, more := TypeVisited(d, st);
    if Untyped(more) {
      OneVisit(rules, Seen(st.tok, now, []));
      RootVisitsRuled(d, rules, 1, [MSG_TYPE], more);
      RuledBoth(rules, [Seen(st.tok, now, [])], RootVisits(d, now, [MSG_TYPE], more));
    } else {
      SecondType(d, now, [MSG_TYPE], more);
      LaterFault(d, [Seen(st.tok, now, [])], RootVisits(d, now, [MSG_TYPE], more));
    }
  }

  lemma LaterFault(d: Dict, a: seq<Visit>, b: seq<Visit>)
    requires !Explains(d, ByRules, b, NoIssue)
    ensures !Explains(d, ByRules, a + b, NoIssue)
  {
    hide Faultless;
    var j :| 0 <= j < |b| && !Faultless(d, ByRules, b[j]);
    assert (a + b)[|a| + j] == b[j];
  }

  /**
   * A frame of a known type, MsgType first, with its compiled decoder: the two verdicts agree but for the named
   * differences. The generic loop alone looks at header values, at rules that the dictionary does not define and at
   * a second MsgType; the compiled loop alone refuses body rules behind the first 128.
   */
  lemma VerdictsCompared(d: Dict, decoders: Decoders, s: Text, delim: Byte, verify: bool)
    requires BuiltTable(d, decoders) && GroupsIndexed(d, decoders, NormalizeDelimiter(delim)) && AllShaped(decoders)
    requires TypedFrame(d, decoders, s, NormalizeDelimiter(delim)) && Decode(d, s, delim, verify).Done?
    ensures DecodeCompiled(d, decoders, s, delim, verify).Done?
    ensures
      var vs := FrameVisits(d, s, NormalizeDelimiter(delim));
      (Decode(d, s, delim, verify).value.issue.NoIssue? && AllIndexed(vs))
        <==> (&& DecodeCompiled(d, decoders, s, delim, verify).value.issue.NoIssue?
              && OneType(d, s, NormalizeDelimiter(delim)) && AllProper(d, vs))
  {
    hide GroupsIndexed, Tokenize, GenericLoop, CompiledLoop, ReadRoot, RootVisits, Explains, Ruled, TypedOnce;
    hide AllIndexed;
    hide AllProper, Decode, DecodeCompiled, Finds, Shaped, AlikeDecoded;
    var dl := NormalizeDelimiter(delim);
    var vs := FrameVisits(d, s, dl);
    CompiledDecodeAgrees(d, decoders, s, delim, verify);
    IssueExplained(d, s, delim, verify);
    ExplainedClean(d, ByRules, vs, Decode(d, s, delim, verify).value.issue);
    var st := OpenFrame(Tokenize(s, 0, dl)).value.rest;
    StreamRuled(d, st);
    if OneType(d, s, dl) {
      CompiledIssueExplained(d, decoders, s, delim, verify);
      ExplainedClean(d, ByDecoder, vs, DecodeCompiled(d, decoders, s, delim, verify).value.issue);
      CleanAlike(d, d.messages[st.tok.text], vs);
    }
  }

  lemma ExplainedClean(d: Dict, how: Checks, vs: seq<Visit>, issue: Issue)
    requires Explains(d, how, vs, issue)
    ensures issue.NoIssue? <==> Explains(d, how, vs, NoIssue)
  {
    hide Faultless, Verdict;
    CleanExactly(d, how, vs, issue);
  }

  /**
   * What a clean verdict of the compiled loop says of every body field: it has a slot, is not repeated, stands in rule
   * order and has a proper value.
   */
  lemma CleanBody(d: Dict, decoders: Decoders, s: Text, delim: Byte, verify: bool, v: Visit)
    requires BuiltTable(d, decoders) && GroupsIndexed(d, decoders, NormalizeDelimiter(delim)) && AllShaped(decoders)
    requires TypedFrame(d, decoders, s, NormalizeDelimiter(delim)) && OneType(d, s, NormalizeDelimiter(delim))
    requires DecodeCompiled(d, decoders, s, delim, verify).Done?
    requires DecodeCompiled(d, decoders, s, delim, verify).value.issue.NoIssue?
    requires v in FrameVisits(d, s, NormalizeDelimiter(delim)) && v.Seen? && v.place.InRoot? && Judged(v)
    ensures v.tok.tag in Kept(ScopeRules(v.place)) && v.tok.tag !in v.before && !Behind(d, v) && v.tok.text != []
    ensures v.tok.tag in d.fields ==> WellTyped(v.tok.text, d.fields[v.tok.tag])
  {
    hide GroupsIndexed, Tokenize, CompiledLoop, ReadRoot, RootVisits, Faultless, TypedOnce, DecodeCompiled, Finds;
    hide Shaped;
    hide Kept, Behind, WellTyped;
    CompiledIssueExplained(d, decoders, s, delim, verify);
    FaultlessByDecoder(d, v);
  }

  /** A body field without a slot is an issue; if no fault comes before it, that issue, by what the dictionary knows. */
  lemma UnkeptIsNoted(d: Dict, decoders: Decoders, s: Text, delim: Byte, verify: bool, i: nat)
    requires BuiltTable(d, decoders) && GroupsIndexed(d, decoders, NormalizeDelimiter(delim)) && AllShaped(decoders)
    requires TypedFrame(d, decoders, s, NormalizeDelimiter(delim)) && OneType(d, s, NormalizeDelimiter(delim))
    requires DecodeCompiled(d, decoders, s, delim, verify).Done?
    requires
      var vs := FrameVisits(d, s, NormalizeDelimiter(delim));
      i < |vs| && vs[i].Seen? && vs[i].place.InRoot? && Judged(vs[i]) && vs[i].tok.tag !in Kept(ScopeRules(vs[i].place))
    ensures
      var vs, issue := FrameVisits(d, s, NormalizeDelimiter(delim)),
                       DecodeCompiled(d, decoders, s, delim, verify).value.issue;
      && issue.Issue?
      && ((forall j :: 0 <= j < i ==> Faultless(d, ByDecoder, vs[j])) ==>
            issue == Issue(if vs[i].tok.tag in d.fields then FieldNotAllowed else UnknownField, vs[i].tok.tag))
  {
    hide GroupsIndexed, Tokenize, CompiledLoop, ReadRoot, RootVisits, TypedOnce, DecodeCompiled, Finds, Shaped, Kept;
    hide Behind, Faultless, Explains;
    var vs, issue := FrameVisits(d, s, NormalizeDelimiter(delim)),
                     DecodeCompiled(d, decoders, s, delim, verify).value.issue;
    CompiledIssueExplained(d, decoders, s, delim, verify);
    UnkeptFirst(d, vs, issue, i);
  }

  lemma UnkeptFirst(d: Dict, vs: seq<Visit>, issue: Issue, i: nat)
    requires Explains(d, ByDecoder, vs, issue) && i < |vs| && vs[i].Seen? && vs[i].place.InRoot? && Judged(vs[i])
    requires vs[i].tok.tag !in Kept(ScopeRules(vs[i].place))
    ensures issue.Issue?
    ensures (forall j :: 0 <= j < i ==> Faultless(d, ByDecoder, vs[j])) ==>
      issue == Issue(if vs[i].tok.tag in d.fields then FieldNotAllowed else UnknownField, vs[i].tok.tag)
  {
    hide Behind, Kept;
    var kind := if vs[i].tok.tag in d.fields then FieldNotAllowed else UnknownField;
    assert Fault(d, ByDecoder, vs[i], kind);
    if issue.Issue? {
      var k :| FirstFault(d, ByDecoder, vs, k, issue);
      assert Fault(d, ByDecoder, vs[k], issue.kind);
      if forall j :: 0 <= j < i ==> Faultless(d, ByDecoder, vs[j]) {
        assert k == i;
        assert Priority(ByDecoder, vs[i], issue.kind) == 0;
      }
    }
  }

  // ---------------------------------------------------------------- types of the stored fields

  /** The type that a decoder stores for a tag of its message. */
  function DecoderType(d: Dict, rules: seq<nat>, tag: nat): FieldType {
    if tag == MSG_TYPE then TString
    else if IsEnvelopeTag(tag) then FallbackType(tag)
    else if tag in Kept(rules) && tag in d.fields then d.fields[tag]
    else TString
  }

  ghost predicate WellStored(d: Dict, rules: seq<nat>, slots: seq<Slot>) {
    forall i :: 0 <= i < |slots| ==> slots[i].ftype == DecoderType(d, rules, slots[i].tag)
  }

  lemma PlanStores(d: Dict, c: Compiled, r: Root, tok: Tok, rules: seq<nat>)
    requires Shaped(c) && Finds(c, d, Kept(rules)) && tok.tag != MSG_TYPE && WellStored(d, rules, r.slots)
    ensures WellStored(d, rules, AfterPlan(d, c, r, tok).slots)
  {
    hide Kept, Lookup, IsEnvelopeTag, SlotIndex, FallbackType;
    assert FindsTag(c, Kept(rules), tok.tag);
    RuleIndexMember(Kept(rules), tok.tag);
  }

  lemma CompiledRest(d: Dict, c: Compiled, r: Root, tok: Tok, rules: seq<nat>)
    requires Shaped(c) && Finds(c, d, Kept(rules)) && tok.tag != MSG_TYPE && WellStored(d, rules, r.slots)
    requires GenericGroup(d, Some(rules), tok.tag) == CompiledGroup(Some(c), tok.tag)
    requires CompiledSimulation.TakeField(d, Some(c), r, tok).Done?
    ensures
      var r1 := CompiledSimulation.TakeField(d, Some(c), r, tok).value;
      && WellStored(d, rules, r1.slots) && r1.checkSum == r.checkSum
      && r1.rest == if IsGroupRule(d, Some(rules), tok.tag)
                    then ReadEntries(d, d.groups[tok.tag], Announced(tok.text), r.rest).rest else r.rest
  {
    hide StoreGroup, ReadEntries, ExtractHeader, Kept, Lookup, Upsert, Finds, TakeCompiled, CompiledGroup, Shaped;
    hide WellStored, Explains;
    var h := ExtractHeader(r.header, tok.tag, tok.text).value;
    var r0 := r.(header := h);
    PlanThenGroup(d, c, r0, tok);
    PlanStays(d, c, r0, tok);
    PlanStores(d, c, r0, tok, rules);
    if IsGroupRule(d, Some(rules), tok.tag) {
      var node := RootGroupTaken(d, ByDecoder, AfterPlan(d, c, r0, tok), tok, d.groups[tok.tag]);
    }
  }

  lemma {:induction false} LoopTypes(
      d: Dict, decoders: Decoders, r: Root, c: Compiled, rules: seq<nat>, delim: Byte)
    requires AllShaped(decoders) && Shaped(c) && Finds(c, d, Kept(rules)) && Matches(d, Some(rules), Some(c))
    requires CompiledLoop(d, decoders, r, Some(c)).Done? && r.checkSum.None? && Scanned(r.rest, delim)
    requires WellStored(d, rules, r.slots) && Untyped(ReadRoot(d, Some(rules), r.rest).nodes)
    ensures WellStored(d, rules, CompiledLoop(d, decoders, r, Some(c)).value.slots)
    decreases Size(r.rest)
  {
    hide WellStored, ReadEntries, CompiledSimulation.TakeField, Kept, Lookup, Finds, Shaped, AllShaped;
    if r.rest.Next? && r.rest.tok.tag != CHECK_SUM {
      var tok := r.rest.tok;
      var r1, x := Advance(r, tok, r.rest.rest), ReadRoot(d, Some(rules), r.rest);
      if IsFrameTag(tok.tag) {
        LoopTypes(d, decoders, r1, c, rules, delim);
      } else {
        assert x.nodes[0].tok == tok;
        assert GenericGroup(d, Some(rules), tok.tag) == CompiledGroup(Some(c), tok.tag);
        var r2 := CompiledSimulation.TakeField(d, Some(c), r1, tok).value;
        CompiledRest(d, c, r1, tok, rules);
        TakenScanned(d, c, r1, tok, delim, r2);
        UntypedRest(x.nodes[0], ReadRoot(d, Some(rules), r2.rest).nodes);
        LoopTypes(d, decoders, r2, c, rules, delim);
      }
    }
  }

  /** A frame of a known type, MsgType first and only once: each field is stored with its type in the decoder. */
  lemma CompiledTypes(d: Dict, decoders: Decoders, s: Text, delim: Byte, verify: bool)
    requires BuiltTable(d, decoders) && GroupsIndexed(d, decoders, NormalizeDelimiter(delim)) && AllShaped(decoders)
    requires TypedFrame(d, decoders, s, NormalizeDelimiter(delim)) && OneType(d, s, NormalizeDelimiter(delim))
    requires DecodeCompiled(d, decoders, s, delim, verify).Done?
    ensures
      var f := OpenFrame(Tokenize(s, 0, NormalizeDelimiter(delim))).value;
      WellStored(d, d.messages[f.rest.tok.text], DecodeCompiled(d, decoders, s, delim, verify).value.root.slots)
  {
    hide GroupsIndexed, Tokenize, ReadRoot, Finds, Shaped, Kept, CompiledSimulation.TakeField, Scanned, Sum, Matches;
    hide TypedOnce, Untyped;
    var dl := NormalizeDelimiter(delim);
    var st := Tokenize(s, 0, dl);
    var f := OpenFrame(st).value;
    var tok, rest := f.rest.tok, f.rest.rest;
    var rules, c := d.messages[tok.text], decoders[tok.text];
    FrameScanned(s, dl, f);
    MatchExactlyWhenIndexed(d, decoders, dl);
    assert Matches(d, MessageRules(d, tok.text), Select(decoders, tok.text));
    var r1 := Advance(StartRoot(f.rest), tok, rest);
    var r2 := StoreSlot(r1.(header := r1.header.(texts := r1.header.texts[MSG_TYPE := tok.text])), tok, TString);
    TypeUntyped(d, f.rest);
    LoopTypes(d, decoders, r2, c, rules, dl);
  }

  lemma TypeUntyped(d: Dict, st: Stream)
    requires st.Next? && st.tok.tag == MSG_TYPE && st.tok.text in d.messages && TypedOnce(ReadRoot(d, None, st).nodes)
    ensures Untyped(ReadRoot(d, Some(d.messages[st.tok.text]), st.rest).nodes)
  {
    UntypedRest(Scalar(st.tok), ReadRoot(d, Some(d.messages[st.tok.text]), st.rest).nodes);
  }

  /** No MsgType up to the CheckSum. */
  predicate NoType(st: Stream) {
    st.Next? && st.tok.tag != CHECK_SUM ==> st.tok.tag != MSG_TYPE && NoType(st.rest)
  }

  /** Without a decoder in use, fields are stored as strings and nothing is noted. */
  lemma {:induction false} UncheckedWithoutDecoder(d: Dict, decoders: Decoders, r: Root)
    requires AllShaped(decoders) && NoType(r.rest) && CompiledLoop(d, decoders, r, None).Done?
    requires forall i :: 0 <= i < |r.slots| ==> r.slots[i].ftype == TString
    ensures
      var r1 := CompiledLoop(d, decoders, r, None).value;
      && r1.issue == r.issue && r1.groups == r.groups
      && forall i :: 0 <= i < |r1.slots| ==> r1.slots[i].ftype == TString
    decreases Size(r.rest)
  {
    hide AllShaped, SlotIndex, ExtractHeader, ViewText;
    if r.checkSum.None? && r.rest.Next? && r.rest.tok.tag != CHECK_SUM {
      var tok := r.rest.tok;
      var r1 := Advance(r, tok, r.rest.rest);
      if IsFrameTag(tok.tag) {
        UncheckedWithoutDecoder(d, decoders, r1);
      } else {
        UncheckedWithoutDecoder(d, decoders, CompiledSimulation.TakeField(d, None, r1, tok).value);
      }
    }
  }

  /**
   * A frame that decodes without an issue by its compiled decoder, with proper header values and defined body fields,
   * is sound throughout, just as one that the generic decoder finds clean.
   */
  lemma CompiledSound(d: Dict, decoders: Decoders, s: Text, delim: Byte, verify: bool)
    returns (f: Frame, groups: seq<Group>, checkSum: Tok)
    requires BuiltTable(d, decoders) && GroupsIndexed(d, decoders, NormalizeDelimiter(delim)) && AllShaped(decoders)
    requires Readable(d) && TypedFrame(d, decoders, s, NormalizeDelimiter(delim))
    requires DecodeCompiled(d, decoders, s, delim, verify).Done?
    requires DecodeCompiled(d, decoders, s, delim, verify).value.issue.NoIssue?
    requires OneType(d, s, NormalizeDelimiter(delim)) && AllProper(d, FrameVisits(d, s, NormalizeDelimiter(delim)))
    ensures OpenFrame(Tokenize(s, 0, NormalizeDelimiter(delim))) == Done(f)
    ensures f.rest.Next? && f.rest.tok.text in d.messages && Decode(d, s, delim, verify).Done?
    ensures
      var root, compiled := Decode(d, s, delim, verify).value.root,
                            DecodeCompiled(d, decoders, s, delim, verify).value;
      && SoundMessage(d, d.messages[f.rest.tok.text], f.rest, Entry(root.slots, groups), checkSum)
      && SameFields(root.slots, compiled.root.slots) && compiled.root.groups == CutGroups(groups)
      && SoundFrame(s, f, checkSum, compiled, verify)
  {
    hide GroupsIndexed, Tokenize, ReadRoot, RootVisits, TypedOnce, Decode, DecodeCompiled, Finds, Shaped, SoundMessage;
    hide AllProper, AllIndexed, SameFields, Sum, ParseUnsigned, Readable;
    CompiledDecodeAgrees(d, decoders, s, delim, verify);
    VerdictsCompared(d, decoders, s, delim, verify);
    f, groups, checkSum := DecodeSound(d, s, delim, verify);
  }
}
