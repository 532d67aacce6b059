/** Compiled and generic decoding of whole frames agree exactly when every group rule a frame can use is indexed. */
module CompiledFrames {
  import opened Optional
  import opened Bytes
  import opened FixTags
  import opened Dictionary
  import opened Scanner
  import opened TokenStream
  import opened ParsedTree
  import opened Validation
  import opened GroupParser
  import opened Decoder
  import opened EncoderSplit
  import opened FrameRoundTrip
  import opened CompiledDecoder
  import opened CompiledSimulation

  predicate IsFlagTag(t: nat) {
    t == POSS_DUP_FLAG || t == POSS_RESEND
  }

  /** A group rule of the message type that has no slot. */
  ghost predicate Unindexed(d: Dict, decoders: Decoders, m: Text, t: nat)
    requires BuiltTable(d, decoders)
  {
    && m in d.messages && t in d.messages[m] && t in d.groups && IsBodyTag(t)
    && !IndexedGroup(d.messages[m], decoders[m], t)
  }

  // ---------------------------------------------------------------- one count field

  /** Behind the MsgType in both loops. */
  lemma TypeRead(d: Dict, decoders: Decoders, m: Text, rest: Stream) returns (a: Root, b: Root)
    requires AllShaped(decoders) && m in d.messages
    ensures
      var r := StartRoot(Next(MakeTok(MSG_TYPE, m), rest));
      && GenericLoop(d, r, None) == GenericLoop(d, a, Some(d.messages[m]))
      && CompiledLoop(d, decoders, r, None) == CompiledLoop(d, decoders, b, Select(decoders, m))
    ensures Behind(a, rest, 3) && Behind(b, rest, 3)
  {
    hide Upsert, TakeRootField, CompiledSimulation.TakeField;
    var tok := MakeTok(MSG_TYPE, m);
    var r1 := Advance(StartRoot(Next(tok, rest)), tok, rest);
    a := TakeMsgType(d, r1, tok, Some(d.messages[m]));
    b := StoreSlot(r1.(header := r1.header.(texts := r1.header.texts[MSG_TYPE := m])), tok, TString);
  }

  /** A loop that has read some fields and no group. */
  predicate Behind(r: Root, rest: Stream, fields: nat) {
    r.rest == rest && r.fields == fields && r.checkSum.None? && r.groups == []
  }

  lemma CompiledPasses(d: Dict, decoders: Decoders, r: Root, c: Option<Compiled>, tok: Tok, st: Stream)
    returns (b: Root)
    requires AllShaped(decoders) && (c.Some? ==> Shaped(c.value)) && CompiledGroup(c, tok.tag) == None
    requires IsBodyTag(tok.tag) && ExtractHeader(r.header, tok.tag, tok.text).Done? && Behind(r, Next(tok, st), 3)
    ensures CompiledLoop(d, decoders, r, c) == CompiledLoop(d, decoders, b, c) && Behind(b, st, 4)
  {
    hide Upsert, ValidateScalarValue, Lookup, TrackRuleOrder, ExtractHeader;
    b := CompiledSimulation.TakeField(d, c, Advance(r, tok, st), tok).value;
  }

  lemma HeaderTakes(h: Header, t: nat, text: Text)
    requires if t == MSG_SEQ_NUM then ParseUnsigned(text).Some? else IsFlagTag(t) ==> ParseBoolean(text).Some?
    ensures ExtractHeader(h, t, text).Done?
  {
  }

  lemma GenericOpens(d: Dict, r: Root, m: Text, t: nat, st: Stream) returns (a: Root)
    requires m in d.messages && t in d.messages[m] && t in d.groups && IsBodyTag(t) && !IsFlagTag(t)
    requires Behind(r, Next(MakeTok(t, [48]), st), 3)
    ensures GenericLoop(d, r, Some(d.messages[m])) == GenericLoop(d, a, Some(d.messages[m]))
    ensures a.rest == st && a.fields == 4 && a.checkSum.None? && a.groups == [Group(d.groups[t].countTag, 1, [])]
  {
    ZeroParses();
    HeaderTakes(r.header, t, [48]);
    hide Upsert, ValidateConsumedField, ValidateScalarValue, ExtractHeader, ParseUnsigned, ParseGroup;
    var tok, rules := MakeTok(t, [48]), Some(d.messages[m]);
    var r1 := Advance(r, tok, st);
    var h := ExtractHeader(r1.header, t, [48]).value;
    var r2 := CheckRoot(d, r1.(header := h), rules, t, Unordered);
    var issue := ValidateScalarValue(t, [48], TypeOf(d, t), r2.issue);
    ZeroGroup(d, d.groups[t], st, issue);
    a := TakeRootField(d, r1, tok, rules).value;
    assert [] + [Group(d.groups[t].countTag, 1, [])] == [Group(d.groups[t].countTag, 1, [])];
  }

  lemma ZeroGroup(d: Dict, g: GroupDef, st: Stream, issue: Issue)
    ensures ParseGroup(d, g, 1, [48], st, issue) == Done(GroupEnd([], st, issue))
  {
    ZeroParses();
  }

  lemma ZeroParses()
    ensures ParseUnsigned([48]) == Some(0)
  {
    ParseUnsignedOfDigits(0);
    assert Digits(0) == [48];
  }

  /** A count that no group has. */
  predicate BadCount(text: Text) {
    match ParseUnsigned(text) case None => true case Some(n) => n > MAX_GROUP_ENTRIES
  }

  lemma GenericRefuses(d: Dict, r: Root, m: Text, t: nat, text: Text, st: Stream)
    requires m in d.messages && t in d.messages[m] && t in d.groups && IsBodyTag(t)
    requires ExtractHeader(r.header, t, text).Done? && BadCount(text) && Behind(r, Next(MakeTok(t, text), st), 3)
    ensures GenericLoop(d, r, Some(d.messages[m])).Failed?
    ensures GenericLoop(d, r, Some(d.messages[m])).error in {InvalidNumber, EntryCountExceeded}
  {
    hide Upsert, ValidateConsumedField, ValidateScalarValue, ExtractHeader, ParseUnsigned;
    var tok := MakeTok(t, text);
    assert TakeRootField(d, Advance(r, tok, st), tok, Some(d.messages[m])).Failed?;
  }

  lemma GenericSums(d: Dict, r: Root, rules: Option<seq<nat>>, sum: Text, n: nat) returns (a: Root)
    requires r.rest == Next(MakeTok(CHECK_SUM, sum), E) && r.checkSum.None? && ParseUnsigned(sum) == Some(n)
    ensures GenericLoop(d, r, rules) == Done(a) && a.rest == E && a.fields == r.fields + 1 && a.groups == r.groups
    ensures a.checkSum == Some(CheckSumField(MakeTok(CHECK_SUM, sum).width, n))
  {
    hide TakeRootField, ParseUnsigned;
    a := ReadCheckSum(Advance(r, MakeTok(CHECK_SUM, sum), E), MakeTok(CHECK_SUM, sum)).value;
  }

  lemma CompiledSums(d: Dict, decoders: Decoders, r: Root, c: Option<Compiled>, sum: Text, n: nat) returns (b: Root)
    requires AllShaped(decoders) && (c.Some? ==> Shaped(c.value))
    requires r.rest == Next(MakeTok(CHECK_SUM, sum), E) && r.checkSum.None? && ParseUnsigned(sum) == Some(n)
    ensures CompiledLoop(d, decoders, r, c) == Done(b)
    ensures b.rest == E && b.fields == r.fields + 1 && b.groups == r.groups
    ensures b.checkSum == Some(CheckSumField(MakeTok(CHECK_SUM, sum).width, n))
  {
    hide CompiledSimulation.TakeField, ParseUnsigned;
    b := ReadCheckSum(Advance(r, MakeTok(CHECK_SUM, sum), E), MakeTok(CHECK_SUM, sum)).value;
  }

  lemma NoSlotNoGroup(d: Dict, decoders: Decoders, m: Text, t: nat)
    requires BuiltTable(d, decoders) && Unindexed(d, decoders, m, t)
    ensures AllShaped(decoders) && (Select(decoders, m).Some? ==> Shaped(Select(decoders, m).value))
    ensures CompiledGroup(Select(decoders, m), t) == None
  {
    hide Kept, Lookup, Finds;
    BuiltGroup(d, d.messages[m], decoders[m], t);
  }

  // ---------------------------------------------------------------- a frame that both accept

  function ZeroFields(m: Text, t: nat): Stream {
    Next(MakeTok(MSG_TYPE, m), Next(MakeTok(t, [48]), E))
  }

  lemma ZeroFieldsFit(m: Text, t: nat, delim: Byte)
    requires SafeDelimiter(delim) && delim !in m && |m| < 0x1_0000 && 1 <= t < 100000
    ensures Printable(ZeroFields(m, t), delim) && |Wire(ZeroFields(m, t), delim)| < 0x1_0000_0000
    ensures forall k :: Append(ZeroFields(m, t), k) == Next(MakeTok(MSG_TYPE, m), Next(MakeTok(t, [48]), k))
  {
    DigitsWidth(t, 5);
    DigitsWidth(MSG_TYPE, 5);
    assert Pow10(5) == 100000;
    hide Digits, Pow10;
    var last := Next(MakeTok(t, [48]), E);
    assert delim !in [48] && Printable(last, delim);
    assert Width(last) <= 8;
    WidthOfWire(ZeroFields(m, t), delim);
    forall k ensures Append(ZeroFields(m, t), k) == Next(MakeTok(MSG_TYPE, m), Next(MakeTok(t, [48]), k)) {
      assert Append(last, k) == Next(MakeTok(t, [48]), k);
    }
  }

  /** A group rule without a slot: both decoders accept the frame, and only the generic one has the group. */
  lemma UnindexedGroupIsLost(d: Dict, decoders: Decoders, m: Text, t: nat, delim: Byte, verify: bool)
    requires BuiltTable(d, decoders) && Unindexed(d, decoders, m, t) && !IsFlagTag(t)
    requires SafeDelimiter(delim) && NormalizeDelimiter(delim) == delim && delim !in m && |m| < 0x1_0000
    ensures AllShaped(decoders)
    ensures
      var s := FrameBytes([], ZeroFields(m, t), delim);
      var a, b := Decode(d, s, delim, verify), DecodeCompiled(d, decoders, s, delim, verify);
      && a.Done? && a.value.root.groups == [Group(d.groups[t].countTag, 1, [])]
      && b.Done? && b.value.root.groups == []
  {
    var inner := ZeroFields(m, t);
    ZeroFieldsFit(m, t, delim);
    NoSlotNoGroup(d, decoders, m, t);
    ZeroParses();
    hide ZeroFields, Tokenize, OpenFrame, CloseFrame, GenericLoop, CompiledLoop, Wire, Append, FrameBytes, Finds;
    hide BuiltTable, Printable, ParseUnsigned, Lookup, Select, ThreeDigits, Digits;
    var f := FieldsFramed([], inner, delim);
    var n := FrameSum([], inner, delim);
    var last := Next(SumTok(n), E);
    ThreeDigitsParse(n);
    var a0, b0 := TypeRead(d, decoders, m, Next(MakeTok(t, [48]), last));
    var a1 := GenericOpens(d, a0, m, t, last);
    HeaderTakes(b0.header, t, [48]);
    var b1 := CompiledPasses(d, decoders, b0, Select(decoders, m), MakeTok(t, [48]), last);
    var a2 := GenericSums(d, a1, Some(d.messages[m]), ThreeDigits(n), n);
    var b2 := CompiledSums(d, decoders, b1, Select(decoders, m), ThreeDigits(n), n);
    assert ReadAll(a2, n) && ReadAll(b2, n);
    DecodeSteps(d, FrameBytes([], inner, delim), delim, verify, f, a2);
  }

  // ---------------------------------------------------------------- a frame for every rule

  /** A value that the header takes and no group does. */
  function NoCount(t: nat, delim: Byte): Text {
    if t == MSG_SEQ_NUM then Digits(MAX_GROUP_ENTRIES + 1)
    else if !IsFlagTag(t) then []
    else if delim == YES then [NO] else [YES]
  }

  lemma NoCountBad(t: nat, delim: Byte, h: Header)
    requires SafeDelimiter(delim)
    ensures BadCount(NoCount(t, delim)) && delim !in NoCount(t, delim) && ExtractHeader(h, t, NoCount(t, delim)).Done?
  {
    if t == MSG_SEQ_NUM {
      ParseUnsignedOfDigits(MAX_GROUP_ENTRIES + 1);
      DigitsAvoid(MAX_GROUP_ENTRIES + 1, delim);
    } else if IsFlagTag(t) {
      assert !IsDigit(YES) && !IsDigit(NO);
    }
    HeaderTakes(h, t, NoCount(t, delim));
  }

  /** A frame with BodyLength 0 and CheckSum 000 around a count that no group has. */
  function BadFields(m: Text, t: nat, delim: Byte): Stream {
    Next(MakeTok(BEGIN_STRING, []), Next(MakeTok(BODY_LENGTH, [48]), BadBody(m, t, delim)))
  }

  function BadBody(m: Text, t: nat, delim: Byte): Stream {
    Next(MakeTok(MSG_TYPE, m), Next(MakeTok(t, NoCount(t, delim)), Next(MakeTok(CHECK_SUM, [48, 48, 48]), E)))
  }

  lemma BadFieldsScan(m: Text, t: nat, delim: Byte)
    requires SafeDelimiter(delim) && delim !in m && 1 <= t < 100000
    ensures
      var st := BadFields(m, t, delim);
      Tokenize(Wire(st, delim), 0, delim) == st && OpenFrame(st).Done? && OpenFrame(st).value.bodyLength == 0
      && OpenFrame(st).value.rest == BadBody(m, t, delim)
  {
    NoCountBad(t, delim, EMPTY_HEADER);
    ZeroParses();
    hide NoCount, Digits, Wire, BadCount, ExtractHeader, ParseUnsigned;
    var last := Next(MakeTok(CHECK_SUM, [48, 48, 48]), E);
    assert delim !in [48] && delim !in [48, 48, 48] && Printable(last, delim);
    assert Printable(Next(MakeTok(t, NoCount(t, delim)), last), delim);
    assert Printable(BadBody(m, t, delim), delim);
    assert Printable(Next(MakeTok(BODY_LENGTH, [48]), BadBody(m, t, delim)), delim);
    var st := BadFields(m, t, delim);
    var s := Wire(st, delim);
    assert s[0..|s|] == s;
    TokenizeWire(s, 0, st, delim);
  }

  /** A group rule without a slot gives the two decoders different ends on some frame, whatever the message type. */
  lemma UnindexedGroupShows(d: Dict, decoders: Decoders, m: Text, t: nat, delim: Byte, verify: bool)
    requires BuiltTable(d, decoders) && Unindexed(d, decoders, m, t)
    requires SafeDelimiter(NormalizeDelimiter(delim)) && NormalizeDelimiter(delim) !in m
    ensures AllShaped(decoders)
    ensures !DecodesAlike(d, decoders, Wire(BadFields(m, t, NormalizeDelimiter(delim)), NormalizeDelimiter(delim)),
                          delim, verify)
  {
    var dl := NormalizeDelimiter(delim);
    BadFieldsScan(m, t, dl);
    NoSlotNoGroup(d, decoders, m, t);
    hide Tokenize, OpenFrame, GenericLoop, CompiledLoop, Wire, Finds, BuiltTable, BadFields, BadBody, Unindexed;
    var b := LoopsDiffer(d, decoders, m, t, dl);
    var s := Wire(BadFields(m, t, dl), dl);
    var f := OpenFrame(Tokenize(s, 0, dl)).value;
    assert CloseFrame(s, f, b, verify) == Failed(BodyLengthMismatch) by { hide Sum; }
  }

  /** The generic loop fails on the count, and the compiled loop reads on to the CheckSum. */
  lemma LoopsDiffer(d: Dict, decoders: Decoders, m: Text, t: nat, delim: Byte) returns (b: Root)
    requires BuiltTable(d, decoders) && Unindexed(d, decoders, m, t) && SafeDelimiter(delim) && AllShaped(decoders)
    ensures
      var st := BadBody(m, t, delim);
      && GenericLoop(d, StartRoot(st), None).Failed?
      && GenericLoop(d, StartRoot(st), None).error in {InvalidNumber, EntryCountExceeded}
      && CompiledLoop(d, decoders, StartRoot(st), None) == Done(b)
      && b.rest == E && b.fields >= 4 && b.checkSum.Some? && b.checkSum.value.tail < Width(st)
  {
    hide GenericLoop, CompiledLoop, Finds, BuiltTable, ParseUnsigned, Lookup, Select, Digits, NoCount, BadCount;
    hide ExtractHeader, Unindexed, CompiledGroup, IsBodyTag, Width, Value, AllDigits;
    var text, last := NoCount(t, delim), Next(MakeTok(CHECK_SUM, [48, 48, 48]), E);
    BadBodyWidth(m, t, delim);
    NoSlotNoGroup(d, decoders, m, t);
    UnindexedFacts(d, decoders, m, t);
    var a0, b0 := TypeRead(d, decoders, m, Next(MakeTok(t, text), last));
    NoCountBad(t, delim, a0.header);
    NoCountBad(t, delim, b0.header);
    GenericRefuses(d, a0, m, t, text, last);
    var b1 := CompiledPasses(d, decoders, b0, Select(decoders, m), MakeTok(t, text), last);
    ZeroSum();
    b := CompiledSums(d, decoders, b1, Select(decoders, m), [48, 48, 48], 0);
  }

  lemma BadBodyWidth(m: Text, t: nat, delim: Byte)
    ensures MakeTok(CHECK_SUM, [48, 48, 48]).width < Width(BadBody(m, t, delim))
  {
    hide Digits, NoCount;
    var st := BadBody(m, t, delim);
    assert Width(st) == st.tok.width + Width(st.rest) && Width(st.rest) == st.rest.tok.width + Width(st.rest.rest);
    assert Width(st.rest.rest) == MakeTok(CHECK_SUM, [48, 48, 48]).width + Width(E);
  }

  lemma ZeroSum()
    ensures ParseUnsigned([48, 48, 48]) == Some(0)
  {
    ThreeDigitsParse(0);
    assert ThreeDigits(0) == [48, 48, 48];
  }

  lemma UnindexedFacts(d: Dict, decoders: Decoders, m: Text, t: nat)
    requires BuiltTable(d, decoders) && Unindexed(d, decoders, m, t)
    ensures m in d.messages && t in d.messages[m] && t in d.groups && IsBodyTag(t)
  {
  }

  /** All frames decode alike exactly when every group rule that a frame can use has a slot. */
  lemma FramesAlikeExactly(d: Dict, decoders: Decoders, delim: Byte)
    requires BuiltTable(d, decoders) && SafeDelimiter(NormalizeDelimiter(delim))
    ensures AllShaped(decoders)
    ensures (forall s, verify :: DecodesAlike(d, decoders, s, delim, verify))
       <==> GroupsIndexed(d, decoders, NormalizeDelimiter(delim))
  {
    hide DecodesAlike, Finds, Shaped, IndexedGroup, IsBodyTag;
    var dl := NormalizeDelimiter(delim);
    assert AllShaped(decoders);
    if GroupsIndexed(d, decoders, dl) {
      forall s, verify ensures DecodesAlike(d, decoders, s, delim, verify) {
        CompiledDecodeAgrees(d, decoders, s, delim, verify);
      }
    } else {
      var m, t :| m in d.messages && dl !in m && t in d.messages[m] && t in d.groups && IsBodyTag(t)
                  && !IndexedGroup(d.messages[m], decoders[m], t);
      UnindexedGroupShows(d, decoders, m, t, delim, false);
    }
  }
}
