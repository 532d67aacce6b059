/** The decode loop with compiled decoders, and when it agrees with the generic one. */
module CompiledSimulation {
  import opened Optional
  import opened Bytes
  import opened FixTags
  import opened Dictionary
  import opened Scanner
  import opened TokenStream
  import opened ParsedTree
  import opened Validation
  import opened GroupParser
  import opened ParserProgress
  import opened Decoder
  import opened CompiledDecoder

  type Decoders = map<Text, Compiled>

  /** The decoder in use behind a MsgType: none if the type is unknown or its overflow list ran out. */
  function Select(decoders: Decoders, msgType: Text): Option<Compiled> {
    if msgType in decoders && !decoders[msgType].exceeded then Some(decoders[msgType]) else None
  }

  /** Stores a field and notes a repetition. */
  function StoreOnce(r: Root, tok: Tok, ftype: FieldType): Root {
    var repeated := SlotIndex(r.slots, tok.tag) >= 0;
    StoreSlot(r.(issue := if repeated then Note(r.issue, DuplicateField, tok.tag) else r.issue), tok, ftype)
  }

  /** A field behind a known MsgType. */
  function TakeCompiled(d: Dict, c: Compiled, r: Root, tok: Tok): (o: Outcome<Root>)
    requires Shaped(c)
    ensures o.Done? ==> Size(o.value.rest) <= Size(r.rest)
  {
    if IsEnvelopeTag(tok.tag) then Done(StoreOnce(r, tok, FallbackType(tok.tag)))
    else
      var i := Lookup(c, tok.tag);
      if i >= |c.slots| then
        var kind := if tok.tag in d.fields then FieldNotAllowed else UnknownField;
        Done(StoreSlot(r.(issue := Note(r.issue, kind, tok.tag)), tok, TString))
      else
        var plan := c.slots[i];
        var r1 := r.(issue := ValidateScalarValue(tok.tag, tok.text, plan.ftype, r.issue));
        if plan.group.Some? then StoreGroup(d, StoreOnce(r1, tok, plan.ftype), tok, plan.group.value)
        else
          var k := TrackRuleOrder(r1.scope, i, r1.issue, tok.tag, RootOrder);
          Done(StoreOnce(r1.(scope := k.scope, issue := k.issue), tok, plan.ftype))
  }

  /** One field other than framing and MsgType. */
  function TakeField(d: Dict, compiled: Option<Compiled>, r: Root, tok: Tok): (o: Outcome<Root>)
    requires compiled.Some? ==> Shaped(compiled.value)
    ensures o.Done? ==> Size(o.value.rest) <= Size(r.rest)
  {
    var h :- ExtractHeader(r.header, tok.tag, tok.text);
    var r1 := r.(header := h);
    if compiled.Some? then TakeCompiled(d, compiled.value, r1, tok) else Done(StoreSlot(r1, tok, TString))
  }

  ghost predicate AllShaped(decoders: Decoders) {
    forall t :: t in decoders ==> Shaped(decoders[t])
  }

  ghost function CompiledLoop(d: Dict, decoders: Decoders, r: Root, compiled: Option<Compiled>): Outcome<Root>
    requires AllShaped(decoders) && (compiled.Some? ==> Shaped(compiled.value))
    decreases Size(r.rest)
  {
    if r.checkSum.Some? then Done(r)
    else
      match r.rest
      case End(None) => Done(r)
      case End(Some(e)) => Failed(Malformed(e))
      case Next(tok, rest) =>
        var r1 := Advance(r, tok, rest);
        if tok.tag == CHECK_SUM then ReadCheckSum(r1, tok)
        else if IsFrameTag(tok.tag) then CompiledLoop(d, decoders, r1, compiled)
        else if tok.tag == MSG_TYPE then
          var r2 := r1.(header := r1.header.(texts := r1.header.texts[MSG_TYPE := tok.text]));
          CompiledLoop(d, decoders, StoreSlot(r2, tok, TString), Select(decoders, tok.text))
        else
          var r2 :- TakeField(d, compiled, r1, tok);
          CompiledLoop(d, decoders, r2, compiled)
  }

  // ---------------------------------------------------------------- what is compared

  /**
   * The same tags and texts in the same slots. Types may differ: a field without a slot in the decoder is stored as
   * a string, and so is one with a slot that the dictionary does not define.
   */
  ghost predicate SameFields(a: seq<Slot>, b: seq<Slot>) {
    |a| == |b| && forall i :: 0 <= i < |a| ==> a[i].tag == b[i].tag && a[i].text == b[i].text
  }

  /** Two loops at the same place, with the same fields, groups and header. */
  ghost predicate Alike(a: Root, b: Root) {
    && a.rest == b.rest && a.fields == b.fields && a.header == b.header && a.checkSum == b.checkSum
    && a.groups == b.groups && SameFields(a.slots, b.slots)
  }

  ghost predicate AlikeOutcome(a: Outcome<Root>, b: Outcome<Root>) {
    if a.Failed? then b == Failed(a.error) else b.Done? && Alike(a.value, b.value)
  }

  lemma {:induction false} SameFieldsIndex(a: seq<Slot>, b: seq<Slot>, i: nat, tag: nat)
    requires SameFields(a, b) && i <= |a|
    ensures SlotFrom(a, i, tag) == SlotFrom(b, i, tag)
    decreases |a| - i
  {
    if i < |a| {
      SameFieldsIndex(a, b, i + 1, tag);
    }
  }

  lemma SameFieldsUpsert(a: seq<Slot>, b: seq<Slot>, s: Slot, t: Slot)
    requires SameFields(a, b) && s.tag == t.tag && s.text == t.text
    ensures SameFields(Upsert(a, s), Upsert(b, t))
  {
    SameFieldsIndex(a, b, 0, s.tag);
  }

  // ---------------------------------------------------------------- issues do not steer the parser

  ghost predicate SameGroupEnd(a: Outcome<GroupEnd>, b: Outcome<GroupEnd>) {
    if a.Failed? then b == Failed(a.error)
    else b.Done? && a.value.entries == b.value.entries && a.value.rest == b.value.rest
  }

  ghost predicate SameCursor(a: Cursor, b: Cursor) {
    && a.rest == b.rest && a.deferred == b.deferred && a.groups == b.groups && a.any == b.any && a.scope == b.scope
  }

  ghost predicate SameCursorEnd(a: Outcome<Cursor>, b: Outcome<Cursor>) {
    if a.Failed? then b == Failed(a.error) else b.Done? && SameCursor(a.value, b.value)
  }

  lemma TakeFieldAlike(d: Dict, g: GroupDef, a: Cursor, b: Cursor, tok: Tok, rest: Stream)
    requires SameCursor(a, b)
    ensures SameCursor(GroupParser.TakeField(d, g, a, tok, rest), GroupParser.TakeField(d, g, b, tok, rest))
  {
  }

  lemma {:induction false} FieldsIgnoreIssue(d: Dict, g: GroupDef, depth: nat, a: Cursor, b: Cursor)
    requires SameCursor(a, b)
    ensures SameCursorEnd(ParseFields(d, g, depth, a), ParseFields(d, g, depth, b))
    decreases Size(a.rest), 0, 0
  {
    if a.rest.Next? && !Stops(g, a.any, a.rest.tok.tag) {
      var tok, rest := a.rest.tok, a.rest.rest;
      TakeFieldAlike(d, g, a, b, tok, rest);
      var a1, b1 := GroupParser.TakeField(d, g, a, tok, rest), GroupParser.TakeField(d, g, b, tok, rest);
      if tok.tag in d.groups {
        var def := d.groups[tok.tag];
        GroupIgnoresIssue(d, def, depth + 1, tok.text, rest, a1.issue, b1.issue);
        var ea := ParseGroup(d, def, depth + 1, tok.text, rest, a1.issue);
        var eb := ParseGroup(d, def, depth + 1, tok.text, rest, b1.issue);
        if ea.Done? {
          FieldsIgnoreIssue(d, g, depth, TakeGroup(a1, def, depth + 1, ea.value),
              TakeGroup(b1, def, depth + 1, eb.value));
        }
      } else {
        FieldsIgnoreIssue(d, g, depth, a1, b1);
      }
    }
  }

  lemma {:induction false} GroupIgnoresIssue(
      d: Dict, g: GroupDef, depth: nat, count: Text, st: Stream, a: Issue, b: Issue)
    ensures SameGroupEnd(ParseGroup(d, g, depth, count, st, a), ParseGroup(d, g, depth, count, st, b))
    decreases Size(st), 2, 0
  {
    if ParseUnsigned(count).Some? {
      EntriesIgnoreIssue(d, g, depth, ParseUnsigned(count).value, st, a, b);
    }
  }

  lemma {:induction false} EntriesIgnoreIssue(
      d: Dict, g: GroupDef, depth: nat, n: nat, st: Stream, a: Issue, b: Issue)
    ensures SameGroupEnd(ParseEntries(d, g, depth, n, st, a), ParseEntries(d, g, depth, n, st, b))
    decreases Size(st), 1, n
  {
    if n > 0 && st.Next? && st.tok.tag == g.delimiter {
      var ca, cb := ParseFields(d, g, depth, StartEntry(st, a)), ParseFields(d, g, depth, StartEntry(st, b));
      FieldsIgnoreIssue(d, g, depth, StartEntry(st, a), StartEntry(st, b));
      if ca.Done? {
        EntriesIgnoreIssue(d, g, depth, n - 1, ca.value.rest, ca.value.issue, cb.value.issue);
      }
    }
  }

  // ---------------------------------------------------------------- which groups each loop parses

  /** Tags that a frame can carry to the rules; framing and MsgType fields never get there. */
  predicate IsBodyTag(tag: nat) {
    1 <= tag < 100000 && !IsFrameTag(tag) && tag != CHECK_SUM && tag != MSG_TYPE
  }

  /** Fields as a scanner yields them. */
  predicate Scanned(st: Stream, delim: Byte) {
    st.Next? ==> 1 <= st.tok.tag < 100000 && delim !in st.tok.text && Scanned(st.rest, delim)
  }

  lemma {:induction false} TokensScanned(s: Text, pos: nat, delim: Byte)
    ensures Scanned(Tokenize(s, pos, delim), delim)
    decreases |s| - pos
  {
    hide TagStop, TagValue, FindByte;
    if pos < |s| && ScanField(s, pos, delim).Field? {
      ScanSound(s, pos, delim);
      TokensScanned(s, ScanField(s, pos, delim).next, delim);
    }
  }

  lemma {:induction false} ScannedSuffix(a: Stream, b: Stream, delim: Byte)
    requires Suffix(a, b) && Scanned(b, delim)
    ensures Scanned(a, delim)
  {
    if a != b {
      ScannedSuffix(a, b.rest, delim);
    }
  }

  lemma RootFieldSuffix(d: Dict, r: Root, tok: Tok, rules: Option<seq<nat>>)
    requires TakeRootField(d, r, tok, rules).Done?
    ensures Suffix(TakeRootField(d, r, tok, rules).value.rest, r.rest)
  {
    hide ParseGroup, Upsert;
    if IsGroupRule(d, rules, tok.tag) {
      var h := ExtractHeader(r.header, tok.tag, tok.text).value;
      var r1 := CheckRoot(d, r.(header := h), rules, tok.tag, Unordered);
      GroupSuffix(d, d.groups[tok.tag], 1, tok.text, r.rest,
                  ValidateScalarValue(tok.tag, tok.text, TypeOf(d, tok.tag), r1.issue));
    }
  }

  function GenericGroup(d: Dict, rules: Option<seq<nat>>, tag: nat): Option<GroupDef> {
    if IsGroupRule(d, rules, tag) then Some(d.groups[tag]) else None
  }

  function CompiledGroup(compiled: Option<Compiled>, tag: nat): Option<GroupDef>
    requires compiled.Some? ==> Shaped(compiled.value)
  {
    if compiled.None? || IsEnvelopeTag(tag) || Lookup(compiled.value, tag) >= |compiled.value.slots| then None
    else compiled.value.slots[Lookup(compiled.value, tag)].group
  }

  ghost predicate Matches(d: Dict, rules: Option<seq<nat>>, compiled: Option<Compiled>) {
    && (compiled.Some? ==> Shaped(compiled.value))
    && forall tag :: IsBodyTag(tag) ==> GenericGroup(d, rules, tag) == CompiledGroup(compiled, tag)
  }

  /** The same groups for every message type that a frame can name. */
  ghost predicate AllMatch(d: Dict, decoders: Decoders, delim: Byte) {
    && AllShaped(decoders) && Matches(d, None, None)
    && forall t: Text :: delim !in t ==> Matches(d, MessageRules(d, t), Select(decoders, t))
  }

  // ---------------------------------------------------------------- step by step

  /** A group stored by both loops, whatever issues they have noted. */
  lemma StoreGroupAlike(d: Dict, a: Root, b: Root, tok: Tok, g: GroupDef)
    requires Alike(a, b)
    ensures AlikeOutcome(StoreGroup(d, a, tok, g), StoreGroup(d, b, tok, g))
  {
    GroupIgnoresIssue(d, g, 1, tok.text, a.rest, a.issue, b.issue);
  }

  lemma StoreSlotAlike(a: Root, b: Root, tok: Tok, s: FieldType, t: FieldType)
    requires Alike(a, b)
    ensures Alike(StoreSlot(a, tok, s), StoreSlot(b, tok, t))
  {
    SameFieldsUpsert(a.slots, b.slots, Slot(tok.tag, ViewText(tok.text), s), Slot(tok.tag, ViewText(tok.text), t));
  }

  lemma FieldAlike(d: Dict, rules: Option<seq<nat>>, compiled: Option<Compiled>, a: Root, b: Root, tok: Tok)
    requires Alike(a, b) && Matches(d, rules, compiled) && IsBodyTag(tok.tag)
    ensures AlikeOutcome(TakeRootField(d, a, tok, rules), TakeField(d, compiled, b, tok))
  {
    hide Upsert, ParseGroup, AddEntries, SameFields, ViewText, Lookup;
    assert GenericGroup(d, rules, tok.tag) == CompiledGroup(compiled, tok.tag);
    var h := ExtractHeader(a.header, tok.tag, tok.text);
    if h.Done? {
      var group := IsGroupRule(d, rules, tok.tag);
      var a1 := CheckRoot(d, a.(header := h.value), rules, tok.tag, if group then Unordered else RootOrder);
      var a2 := a1.(issue := ValidateScalarValue(tok.tag, tok.text, TypeOf(d, tok.tag), a1.issue));
      CompiledAlike(d, compiled, a2, b.(header := h.value), tok, TypeOf(d, tok.tag));
    }
  }

  /** The compiled loop's treatment of a field against storing it, with or without the group it counts. */
  lemma CompiledAlike(d: Dict, compiled: Option<Compiled>, a: Root, b: Root, tok: Tok, ftype: FieldType)
    requires Alike(a, b) && (compiled.Some? ==> Shaped(compiled.value))
    ensures
      var g, a1 := CompiledGroup(compiled, tok.tag), StoreSlot(a, tok, ftype);
      var o := if compiled.Some? then TakeCompiled(d, compiled.value, b, tok) else Done(StoreSlot(b, tok, TString));
      AlikeOutcome(if g.Some? then StoreGroup(d, a1, tok, g.value) else Done(a1), o)
  {
    hide Upsert, ParseGroup, AddEntries, SameFields, ViewText, Lookup, StoreGroup;
    if compiled.None? {
      StoreSlotAlike(a, b, tok, ftype, TString);
      return;
    }
    var c := compiled.value;
    var b0 := b.(issue := if SlotIndex(b.slots, tok.tag) >= 0 then Note(b.issue, DuplicateField, tok.tag) else b.issue);
    if IsEnvelopeTag(tok.tag) {
      StoreSlotAlike(a, b0, tok, ftype, FallbackType(tok.tag));
      return;
    }
    var i := Lookup(c, tok.tag);
    if i >= |c.slots| {
      var kind := if tok.tag in d.fields then FieldNotAllowed else UnknownField;
      StoreSlotAlike(a, b.(issue := Note(b.issue, kind, tok.tag)), tok, ftype, TString);
      return;
    }
    PlannedAlike(d, c.slots[i], i, a, b, tok, ftype);
  }

  lemma PlannedAlike(d: Dict, plan: FieldPlan, i: nat, a: Root, b: Root, tok: Tok, ftype: FieldType)
    requires Alike(a, b)
    ensures
      var a1 := StoreSlot(a, tok, ftype);
      var r1 := b.(issue := ValidateScalarValue(tok.tag, tok.text, plan.ftype, b.issue));
      var k := TrackRuleOrder(r1.scope, i, r1.issue, tok.tag, RootOrder);
      if plan.group.Some?
      then AlikeOutcome(StoreGroup(d, a1, tok, plan.group.value),
                        StoreGroup(d, StoreOnce(r1, tok, plan.ftype), tok, plan.group.value))
      else Alike(a1, StoreOnce(r1.(scope := k.scope, issue := k.issue), tok, plan.ftype))
  {
    hide Upsert, ParseGroup, AddEntries, SameFields, ViewText, StoreGroup;
    var r1 := b.(issue := ValidateScalarValue(tok.tag, tok.text, plan.ftype, b.issue));
    var k := TrackRuleOrder(r1.scope, i, r1.issue, tok.tag, RootOrder);
    var r2 := if plan.group.Some? then r1 else r1.(scope := k.scope, issue := k.issue);
    var r3 := r2.(issue := if SlotIndex(r2.slots, tok.tag) >= 0 then Note(r2.issue, DuplicateField, tok.tag)
        else r2.issue);
    StoreSlotAlike(a, r3, tok, ftype, plan.ftype);
    if plan.group.Some? {
      StoreGroupAlike(d, StoreSlot(a, tok, ftype), StoreSlot(r3, tok, plan.ftype), tok, plan.group.value);
    }
  }

  lemma {:induction false} LoopAlike(
      d: Dict, decoders: Decoders, a: Root, b: Root, rules: Option<seq<nat>>, compiled: Option<Compiled>, delim: Byte)
    requires Alike(a, b) && AllMatch(d, decoders, delim) && Matches(d, rules, compiled) && Scanned(a.rest, delim)
    ensures AlikeOutcome(GenericLoop(d, a, rules), CompiledLoop(d, decoders, b, compiled))
    decreases Size(a.rest)
  {
    hide StoreSlot, TakeRootField, TakeField, CheckRoot, SameFields;
    if a.checkSum.None? && a.rest.Next? && a.rest.tok.tag != CHECK_SUM {
      var tok := a.rest.tok;
      var a1, b1 := Advance(a, tok, a.rest.rest), Advance(b, tok, b.rest.rest);
      if IsFrameTag(tok.tag) {
        LoopAlike(d, decoders, a1, b1, rules, compiled, delim);
      } else if tok.tag == MSG_TYPE {
        var found := MessageRules(d, tok.text);
        assert Matches(d, found, Select(decoders, tok.text));
        var b2 := StoreSlot(b1.(header := b1.header.(texts := b1.header.texts[MSG_TYPE := tok.text])), tok, TString);
        MsgTypeAlike(d, a1, b1, tok, found);
        LoopAlike(d, decoders, TakeMsgType(d, a1, tok, found), b2, found, Select(decoders, tok.text), delim);
      } else {
        FieldAlike(d, rules, compiled, a1, b1, tok);
        var ra, rb := TakeRootField(d, a1, tok, rules), TakeField(d, compiled, b1, tok);
        if ra.Done? {
          RootFieldSuffix(d, a1, tok, rules);
          ScannedSuffix(ra.value.rest, a1.rest, delim);
          LoopAlike(d, decoders, ra.value, rb.value, rules, compiled, delim);
        }
      }
    }
  }

  lemma MsgTypeAlike(d: Dict, a: Root, b: Root, tok: Tok, found: Option<seq<nat>>)
    requires Alike(a, b)
    ensures Alike(TakeMsgType(d, a, tok, found),
                  StoreSlot(b.(header := b.header.(texts := b.header.texts[MSG_TYPE := tok.text])), tok, TString))
    ensures TakeMsgType(d, a, tok, found).rest == a.rest
  {
    var a1 := CheckRoot(d, a, found, MSG_TYPE, Unordered);
    StoreSlotAlike(a1.(header := a1.header.(texts := a1.header.texts[MSG_TYPE := tok.text])),
                   b.(header := b.header.(texts := b.header.texts[MSG_TYPE := tok.text])), tok, TypeOf(d, MSG_TYPE),
                       TString);
  }

  // ---------------------------------------------------------------- tables built from the dictionary

  /** One decoder per message type, as the builder leaves it. */
  ghost predicate BuiltTable(d: Dict, decoders: Decoders) {
    forall t ::
      && (t in decoders <==> t in d.messages)
      && (t in decoders ==>
            Shaped(decoders[t]) && (!decoders[t].exceeded ==> Finds(decoders[t], d, Kept(d.messages[t]))))
  }

  /** A group the message type counts with `t` has a slot in its decoder. */
  predicate IndexedGroup(rules: seq<nat>, c: Compiled, t: nat) {
    !c.exceeded && !IsEnvelopeTag(t) && t in Kept(rules)
  }

  /** Every group rule that a frame can use has its slot. */
  ghost predicate GroupsIndexed(d: Dict, decoders: Decoders, delim: Byte)
    requires BuiltTable(d, decoders)
  {
    forall m, t :: m in d.messages && delim !in m && t in d.messages[m] && t in d.groups && IsBodyTag(t) ==>
      IndexedGroup(d.messages[m], decoders[m], t)
  }

  lemma {:induction false} BodyRulesMember(rules: seq<nat>, t: nat)
    ensures t in BodyRules(rules) <==> t in rules && !IsEnvelopeTag(t)
    decreases |rules|
  {
    if rules != [] {
      var last := |rules| - 1;
      BodyRulesMember(rules[..last], t);
      assert rules == rules[..last] + [rules[last]];
    }
  }

  /** The groups a built decoder parses. */
  lemma BuiltGroup(d: Dict, rules: seq<nat>, c: Compiled, t: nat)
    requires Shaped(c) && (!c.exceeded ==> Finds(c, d, Kept(rules)))
    ensures
      CompiledGroup(if c.exceeded then None else Some(c), t)
        == if IndexedGroup(rules, c, t) && t in d.groups then Some(d.groups[t]) else None
    ensures t in Kept(rules) ==> t in rules
  {
    hide Kept, BodyRules, Lookup;
    if !c.exceeded {
      assert FindsTag(c, Kept(rules), t);
      RuleIndexMember(Kept(rules), t);
    }
    if t in Kept(rules) {
      KeptMember(rules, t);
    }
  }

  lemma KeptMember(rules: seq<nat>, t: nat)
    requires t in Kept(rules)
    ensures t in rules
  {
    BodyRulesMember(rules, t);
  }

  /** Both loops parse the same groups exactly when every group rule is indexed. */
  lemma MatchExactlyWhenIndexed(d: Dict, decoders: Decoders, delim: Byte)
    requires BuiltTable(d, decoders)
    ensures AllMatch(d, decoders, delim) <==> GroupsIndexed(d, decoders, delim)
  {
    hide Kept, Lookup, Finds, IsBodyTag;
    if GroupsIndexed(d, decoders, delim) {
      forall m: Text | delim !in m ensures Matches(d, MessageRules(d, m), Select(decoders, m)) {
        if m in d.messages {
          forall t | IsBodyTag(t)
            ensures GenericGroup(d, MessageRules(d, m), t) == CompiledGroup(Select(decoders, m), t)
          {
            BuiltGroup(d, d.messages[m], decoders[m], t);
          }
        }
      }
    }
    if AllMatch(d, decoders, delim) {
      forall m, t | m in d.messages && delim !in m && t in d.messages[m] && t in d.groups && IsBodyTag(t)
        ensures IndexedGroup(d.messages[m], decoders[m], t)
      {
        assert Matches(d, MessageRules(d, m), Select(decoders, m));
        assert GenericGroup(d, MessageRules(d, m), t) == CompiledGroup(Select(decoders, m), t);
        BuiltGroup(d, d.messages[m], decoders[m], t);
      }
    }
  }

  /** The compiled loop ends like the generic one on every scanned stream if every group rule is indexed. */
  lemma CompiledAgrees(d: Dict, decoders: Decoders, st: Stream, delim: Byte)
    requires BuiltTable(d, decoders) && GroupsIndexed(d, decoders, delim) && Scanned(st, delim)
    ensures AllShaped(decoders)
    ensures AlikeOutcome(GenericLoop(d, StartRoot(st), None), CompiledLoop(d, decoders, StartRoot(st), None))
  {
    MatchExactlyWhenIndexed(d, decoders, delim);
    LoopAlike(d, decoders, StartRoot(st), StartRoot(st), None, None, delim);
  }

  // ---------------------------------------------------------------- whole frames

  ghost function DecodeCompiled(d: Dict, decoders: Decoders, s: Text, delim: Byte, verify: bool): Outcome<Decoded>
    requires AllShaped(decoders)
  {
    var f :- OpenFrame(Tokenize(s, 0, NormalizeDelimiter(delim)));
    var r :- CompiledLoop(d, decoders, StartRoot(f.rest), None);
    CloseFrame(s, f, r, verify)
  }

  ghost predicate AlikeDecoded(a: Decoded, b: Decoded) {
    && a.beginString == b.beginString && a.bodyLength == b.bodyLength && a.checkSum == b.checkSum
    && a.header == b.header && SameFields(a.root.slots, b.root.slots) && a.root.groups == b.root.groups
  }

  /** The same status, header, fields and groups either way. */
  ghost predicate DecodesAlike(d: Dict, decoders: Decoders, s: Text, delim: Byte, verify: bool)
    requires AllShaped(decoders)
  {
    var a, b := Decode(d, s, delim, verify), DecodeCompiled(d, decoders, s, delim, verify);
    if a.Failed? then b == Failed(a.error) else b.Done? && AlikeDecoded(a.value, b.value)
  }

  /** Every frame decodes alike if every group rule is indexed. */
  lemma CompiledDecodeAgrees(d: Dict, decoders: Decoders, s: Text, delim: Byte, verify: bool)
    requires BuiltTable(d, decoders) && GroupsIndexed(d, decoders, NormalizeDelimiter(delim))
    ensures AllShaped(decoders) && DecodesAlike(d, decoders, s, delim, verify)
  {
    hide GenericLoop, CompiledLoop, Tokenize, Sum, Width, Scanned;
    assert AllShaped(decoders);
    var st := Tokenize(s, 0, NormalizeDelimiter(delim));
    var f := OpenFrame(st);
    if f.Done? {
      TokensScanned(s, 0, NormalizeDelimiter(delim));
      assert Suffix(f.value.rest, st) by { assert Suffix(f.value.rest, st.rest) && f.value.rest == st.rest.rest; }
      ScannedSuffix(f.value.rest, st, NormalizeDelimiter(delim));
      CompiledAgrees(d, decoders, f.value.rest, NormalizeDelimiter(delim));
    }
  }
}
