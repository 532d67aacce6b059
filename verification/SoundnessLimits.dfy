/**
 * Frames that decode without an issue and are not sound, where a delimiter is read by the message and not by its
 * group.
 */
module SoundnessLimits {
  import opened Optional
  import opened Bytes
  import opened FixTags
  import opened Dictionary
  import opened Scanner
  import opened TokenStream
  import opened ParsedTree
  import opened Validation
  import opened GroupParser
  import opened Decoder
  import opened EncoderSplit
  import opened RoundTrip
  import opened FrameRoundTrip
  import opened Soundness
  import opened RootSoundness

  /** A message with both a group and the group's delimiter among its rules, where the group itself lacks it. */
  predicate Misplaced(d: Dict, msgType: Text, t: nat) {
    && msgType in d.messages && t in d.groups && d.groups[t].countTag == t && BodyRule(d, d.messages[msgType], t)
    && WellTyped([49], d.fields[t])
    && var x := d.groups[t].delimiter;
       x !in d.groups[t].rules && x !in d.groups && BodyRule(d, d.messages[msgType], x)
  }

  predicate BodyRule(d: Dict, rules: seq<nat>, tag: nat) {
    tag in rules && tag in d.fields && 1 <= tag < 100000 && !IsEnvelopeTag(tag)
  }

  /** MsgType, a count of one, and the delimiter with a value. */
  function LooseFields(d: Dict, msgType: Text, t: nat, value: Text): Stream
    requires t in d.groups
  {
    Next(MakeTok(MSG_TYPE, msgType), Next(MakeTok(t, [49]), Next(MakeTok(d.groups[t].delimiter, value), E)))
  }

  /** The count field is stored, its group has one empty entry, and the delimiter is still to be read. */
  lemma CountTaken(d: Dict, r: Root, msgType: Text, t: nat, st: Stream) returns (r1: Root)
    requires Misplaced(d, msgType, t) && r.rest == Next(MakeTok(t, [49]), st) && r.checkSum.None?
    requires st.Next? && st.tok.tag == d.groups[t].delimiter
    requires r.issue.NoIssue? && r.groups == [] && r.scope == Scope({MSG_TYPE}, -1)
    ensures GenericLoop(d, r, Some(d.messages[msgType])) == GenericLoop(d, r1, Some(d.messages[msgType]))
    ensures r1.rest == st && r1.checkSum.None? && r1.issue.NoIssue? && r1.fields == r.fields + 1
    ensures r1.groups == [Group(t, 1, [Entry([], [])])] && r1.scope == Scope({MSG_TYPE, t}, -1)
  {
    hide Upsert, ParseGroup;
    var rules, tok := d.messages[msgType], MakeTok(t, [49]);
    RuleIndexMember(rules, t);
    DelimiterIsNotRead(d, d.groups[t], 1, st);
    r1 := TakeRootField(d, Advance(r, tok, st), tok, Some(rules)).value;
    assert [] + [Group(t, 1, [Entry([], [])])] == [Group(t, 1, [Entry([], [])])];
  }

  /** The delimiter is stored as a field of the message. */
  lemma DelimiterTaken(d: Dict, r: Root, msgType: Text, t: nat, value: Text, st: Stream, delim: Byte) returns (r1: Root)
    requires Misplaced(d, msgType, t) && ValueOk(value, d.fields[d.groups[t].delimiter], delim)
    requires r.rest == Next(MakeTok(d.groups[t].delimiter, value), st) && r.checkSum.None?
    requires r.issue.NoIssue? && r.scope == Scope({MSG_TYPE, t}, -1)
    ensures GenericLoop(d, r, Some(d.messages[msgType])) == GenericLoop(d, r1, Some(d.messages[msgType]))
    ensures r1.rest == st && r1.checkSum.None? && r1.issue.NoIssue? && r1.fields == r.fields + 1
    ensures r1.groups == r.groups
  {
    hide Upsert;
    var rules, tok := d.messages[msgType], MakeTok(d.groups[t].delimiter, value);
    RuleIndexMember(rules, tok.tag);
    r1 := TakeRootField(d, Advance(r, tok, st), tok, Some(rules)).value;
  }

  lemma LooseFieldsAppend(d: Dict, msgType: Text, t: nat, value: Text, k: Stream)
    requires t in d.groups
    ensures Append(LooseFields(d, msgType, t, value), k)
         == Next(MakeTok(MSG_TYPE, msgType), Next(MakeTok(t, [49]), Next(MakeTok(d.groups[t].delimiter, value), k)))
  {
    var last := Next(MakeTok(d.groups[t].delimiter, value), E);
    assert Append(last, k) == Next(last.tok, k);
    assert Append(Next(MakeTok(t, [49]), last), k) == Next(MakeTok(t, [49]), Append(last, k));
  }

  lemma LooseFieldsRead(d: Dict, msgType: Text, t: nat, value: Text, n: nat, delim: Byte) returns (r: Root)
    requires Misplaced(d, msgType, t) && ValueOk(value, d.fields[d.groups[t].delimiter], delim) && n < 256
    ensures GenericLoop(d, StartRoot(Append(LooseFields(d, msgType, t, value), Next(SumTok(n), E))), None) == Done(r)
    ensures ReadAll(r, n) && r.issue.NoIssue? && r.groups == [Group(t, 1, [Entry([], [])])]
  {
    var rules, last := Some(d.messages[msgType]), Next(SumTok(n), E);
    var st := Append(LooseFields(d, msgType, t, value), last);
    var behind := Next(MakeTok(d.groups[t].delimiter, value), last);
    LooseFieldsAppend(d, msgType, t, value, last);
    ThreeDigitsParse(n);
    hide Upsert, ThreeDigits, Append, Misplaced, ValueOk, LooseFields, Digits;
    hide TakeRootField, ReadAll;
    var r0 := MsgTypeRead(d, msgType, st.rest);
    var r1 := CountTaken(d, r0, msgType, t, behind);
    var r2 := DelimiterTaken(d, r1, msgType, t, value, last, delim);
    r := CheckSumTaken(d, r2, rules, n);
  }

  lemma MsgTypeRead(d: Dict, msgType: Text, rest: Stream) returns (r: Root)
    requires msgType in d.messages
    ensures GenericLoop(d, StartRoot(Next(MakeTok(MSG_TYPE, msgType), rest)), None)
         == GenericLoop(d, r, Some(d.messages[msgType]))
    ensures r.rest == rest && r.checkSum.None? && r.issue.NoIssue? && r.fields == 3 && r.groups == []
    ensures r.scope == Scope({MSG_TYPE}, -1)
  {
    hide Upsert;
    var st := Next(MakeTok(MSG_TYPE, msgType), rest);
    r := TakeMsgType(d, Advance(StartRoot(st), st.tok, rest), st.tok, Some(d.messages[msgType]));
    assert {} + {MSG_TYPE} == {MSG_TYPE};
  }

  lemma CheckSumTaken(d: Dict, r: Root, rules: Option<seq<nat>>, n: nat) returns (r1: Root)
    requires r.rest == Next(SumTok(n), E) && r.checkSum.None? && r.fields >= 3 && n < 256
    ensures GenericLoop(d, r, rules) == Done(r1) && ReadAll(r1, n)
    ensures r1.issue == r.issue && r1.groups == r.groups && r1.slots == r.slots && r1.header == r.header
  {
    ThreeDigitsParse(n);
    hide ThreeDigits, Digits, TakeRootField;
    r1 := ReadCheckSum(Advance(r, SumTok(n), E), SumTok(n)).value;
  }

  lemma EmptyEntryIsUnsound(d: Dict, depth: nat, t: nat, groups: seq<Group>)
    requires SoundGroups(d, depth, groups)
    ensures CutGroups(groups) != [Group(t, depth, [Entry([], [])])]
  {
    if |groups| == 1 && |groups[0].entries| == 1 {
      assert SoundEntry(d, d.groups[groups[0].countTag], depth, groups[0].entries[0]);
      assert CutGroups(groups)[0].entries == CutEntries(groups[0].entries);
      assert CutEntries(groups[0].entries)[0] == CutEntry(groups[0].entries[0]);
    } else if groups != [] {
      assert CutGroups(groups)[0].entries == CutEntries(groups[0].entries);
      CutGroupsLength(groups);
    }
  }

  lemma {:induction false} CutGroupsLength(gs: seq<Group>)
    ensures |CutGroups(gs)| == |gs|
  {
    if gs != [] {
      CutGroupsLength(gs[1..]);
    }
  }

  /**
   * A group whose delimiter is a rule of the message and not of the group: there is a frame that decodes without an
   * issue, in which the group has an empty entry, and which has no sound reading.
   */
  lemma MisplacedDelimiterShows(d: Dict, msgType: Text, t: nat, value: Text, delim: Byte, verify: bool)
    requires Misplaced(d, msgType, t) && ValueOk(value, d.fields[d.groups[t].delimiter], delim)
    requires SafeDelimiter(delim) && NormalizeDelimiter(delim) == delim && delim !in msgType && |msgType| < 0x1_0000
    ensures !Readable(d)
    ensures
      var s := FrameBytes([], LooseFields(d, msgType, t, value), delim);
      var r := Decode(d, s, delim, verify);
      && r.Done? && r.value.issue.NoIssue? && r.value.root.groups == [Group(t, 1, [Entry([], [])])]
      && OpenFrame(Tokenize(s, 0, delim)).Done?
      && forall groups, checkSum ::
           !(&& r.value.root.groups == CutGroups(groups)
             && SoundMessage(d, d.messages[msgType], OpenFrame(Tokenize(s, 0, delim)).value.rest,
                             Entry(r.value.root.slots, groups), checkSum))
  {
    var inner := LooseFields(d, msgType, t, value);
    LooseFieldsFit(d, msgType, t, value, delim);
    hide LooseFields, Tokenize, OpenFrame, CloseFrame, GenericLoop, Wire, Append, ValueOk, FrameBytes, ReadAll;
    var f := FieldsFramed([], inner, delim);
    var n := FrameSum([], inner, delim);
    var r := LooseFieldsRead(d, msgType, t, value, n, delim);
    DecodeSteps(d, FrameBytes([], inner, delim), delim, verify, f, r);
    forall groups | SoundGroups(d, 1, groups) ensures CutGroups(groups) != [Group(t, 1, [Entry([], [])])] {
      EmptyEntryIsUnsound(d, 1, t, groups);
    }
  }

  lemma LooseFieldsFit(d: Dict, msgType: Text, t: nat, value: Text, delim: Byte)
    requires Misplaced(d, msgType, t) && ValueOk(value, d.fields[d.groups[t].delimiter], delim)
    requires SafeDelimiter(delim) && delim !in msgType && |msgType| < 0x1_0000
    ensures Printable(LooseFields(d, msgType, t, value), delim)
    ensures |Wire(LooseFields(d, msgType, t, value), delim)| < 0x1_0000_0000
  {
    var x := d.groups[t].delimiter;
    DigitsWidth(t, 5);
    DigitsWidth(x, 5);
    DigitsWidth(MSG_TYPE, 5);
    assert Pow10(5) == 100000;
    hide Digits, WellTyped, Pow10;
    var last := Next(MakeTok(x, value), E);
    var inner := Next(MakeTok(t, [49]), last);
    assert Printable(last, delim) && delim !in [49] && Printable(inner, delim);
    WidthOfWire(LooseFields(d, msgType, t, value), delim);
    assert Width(last) <= 5 + |value| + 2 && Width(inner) <= Width(last) + 8;
  }

  const PARTIES: Dict :=
    Dict(map[453 := TInt, 448 := TString], map[[68] := [453, 448]], map[453 := GroupDef(453, 448, [447])])

  /** The frame 35=D, 453=1, 448=A where the group 453 has the delimiter 448 and only the rule 447. */
  lemma DelimiterOutsideItsGroup(verify: bool)
    ensures
      var r := Decode(PARTIES, FrameBytes([], LooseFields(PARTIES, [68], 453, [65]), SOH), SOH, verify);
      r.Done? && r.value.issue.NoIssue? && r.value.root.groups == [Group(453, 1, [Entry([], [])])]
  {
    ParseSignedOfDigits(1);
    assert Digits(1) == [49] && SignedDigits(1) == [49];
    assert PARTIES.messages[[68]] == [453, 448] && PARTIES.groups[453].rules == [447];
    MisplacedDelimiterShows(PARTIES, [68], 453, [65], SOH, verify);
  }
}
