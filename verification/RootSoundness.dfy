/** What a whole frame decoded without an issue looks like, for a message type the dictionary knows. */
module RootSoundness {
  import opened Optional
  import opened Bytes
  import opened FixTags
  import opened Dictionary
  import opened Scanner
  import opened TokenStream
  import opened ParsedTree
  import opened Validation
  import opened GroupParser
  import opened Decoder
  import opened Soundness

  /** A tag that is no header field and no rule of any message or group. */
  predicate Foreign(d: Dict, tag: nat) {
    && !IsEnvelopeTag(tag) && (forall m :: m in d.messages ==> tag !in d.messages[m])
    && forall t :: t in d.groups ==> tag !in d.groups[t].rules
  }

  /** Each delimiter is a rule of its own group, or no frame can carry it without an issue. */
  predicate Readable(d: Dict) {
    && Keyed(d)
    && forall t :: t in d.groups ==>
         d.groups[t].delimiter in d.groups[t].rules || Foreign(d, d.groups[t].delimiter)
  }

  /** The delimiters outside their groups' rules. */
  function Loose(d: Dict): set<nat> {
    set t | t in d.groups && d.groups[t].delimiter !in d.groups[t].rules :: d.groups[t].delimiter
  }

  predicate Apart(d: Dict, rules: seq<nat>) {
    forall x :: x in Loose(d) ==> x !in rules && !IsEnvelopeTag(x)
  }

  lemma ReadableFacts(d: Dict)
    requires Readable(d)
    ensures Covered(d, Loose(d)) && forall m :: m in d.messages ==> Apart(d, d.messages[m])
  {
  }

  /** A field the message type allows; a type without rules allows every field there is. */
  predicate Allowed(d: Dict, rules: seq<nat>, tag: nat) {
    if rules == [] then tag in d.fields || IsCommonAdminTag(tag) else tag in d.fields && tag in rules
  }

  /** Header fields stand anywhere, other fields are allowed ones, and those outside groups follow rule order. */
  predicate RootOrdered(d: Dict, rules: seq<nat>, last: int, slots: seq<Slot>)
    decreases |slots|
  {
    slots == []
    || (var s := slots[0];
        && s.ftype == TypeOf(d, s.tag)
        && if IsEnvelopeTag(s.tag) then RootOrdered(d, rules, last, slots[1..])
           else
             && Allowed(d, rules, s.tag)
             && if s.tag !in rules || s.tag in d.groups then RootOrdered(d, rules, last, slots[1..])
                else last < RuleIndex(rules, s.tag) && RootOrdered(d, rules, RuleIndex(rules, s.tag), slots[1..]))
  }

  predicate Unrepeated(seen: set<nat>, slots: seq<Slot>)
    decreases |slots|
  {
    slots == [] || (slots[0].tag !in seen && Unrepeated(seen + {slots[0].tag}, slots[1..]))
  }

  /**
   * The stream behind the fields that the root spells out, at its CheckSum or its end. Each group of the
   * message type stands behind its count; stray framing fields are passed over.
   */
  function SpellRoot(d: Dict, rules: seq<nat>, slots: seq<Slot>, groups: seq<Group>, st: Stream): Option<Stream>
    decreases |groups|, Size(st)
  {
    if st.End? || st.tok.tag == CHECK_SUM then (if slots == [] && groups == [] then Some(st) else None)
    else if IsFrameTag(st.tok.tag) then SpellRoot(d, rules, slots, groups, st.rest)
    else if slots == [] || !Reads(st.tok, slots[0]) then None
    else if !IsGroupRule(d, Some(rules), st.tok.tag) then SpellRoot(d, rules, slots[1..], groups, st.rest)
    else if groups == [] || groups[0].countTag != slots[0].tag
        || ParseUnsigned(st.tok.text) != Some(|groups[0].entries|)
    then None
    else
      match SpellEntries(d, groups[0].entries, st.rest)
      case None => None
      case Some(rest) => SpellRoot(d, rules, slots[1..], groups[1..], rest)
  }

  // ---------------------------------------------------------------- the first issue stays

  lemma RootFieldKeeps(d: Dict, r: Root, tok: Tok, rules: Option<seq<nat>>)
    requires !r.issue.NoIssue? && TakeRootField(d, r, tok, rules).Done?
    ensures TakeRootField(d, r, tok, rules).value.issue == r.issue
  {
    if IsGroupRule(d, rules, tok.tag) {
      GroupKeeps(d, d.groups[tok.tag], 1, tok.text, r.rest, r.issue);
    }
  }

  lemma {:induction false} LoopKeeps(d: Dict, r: Root, rules: Option<seq<nat>>)
    requires !r.issue.NoIssue? && GenericLoop(d, r, rules).Done?
    ensures GenericLoop(d, r, rules).value.issue == r.issue
    decreases Size(r.rest)
  {
    if r.checkSum.None? && r.rest.Next? && r.rest.tok.tag != CHECK_SUM {
      var tok := r.rest.tok;
      var r1 := Advance(r, tok, r.rest.rest);
      if IsFrameTag(tok.tag) {
        LoopKeeps(d, r1, rules);
      } else if tok.tag == MSG_TYPE {
        var found := MessageRules(d, tok.text);
        LoopKeeps(d, TakeMsgType(d, r1, tok, found), found);
      } else {
        RootFieldKeeps(d, r1, tok, rules);
        LoopKeeps(d, TakeRootField(d, r1, tok, rules).value, rules);
      }
    }
  }

  // ---------------------------------------------------------------- loop invariant

  /** Everything stored has been seen, and so has the last rule; MsgType is behind. */
  ghost predicate RootOk(rules: seq<nat>, r: Root) {
    && MSG_TYPE in r.scope.seen && ScopeOk(rules, r.scope)
    && (forall i :: 0 <= i < |r.slots| ==> r.slots[i].tag in r.scope.seen)
    && (forall i :: 0 <= i < |r.groups| ==> r.groups[i].countTag in r.scope.seen)
  }

  ghost predicate RootRun(d: Dict, rules: seq<nat>, r: Root, r1: Root, slots: seq<Slot>, groups: seq<Group>,
                          end: Stream)
  {
    && r.issue.NoIssue?
    && r1.slots == r.slots + slots && r1.groups == r.groups + CutGroups(groups)
    && SpellRoot(d, rules, slots, groups, r.rest) == Some(end)
    && RootOrdered(d, rules, r.scope.last, slots) && Unrepeated(r.scope.seen, slots) && SoundGroups(d, 1, groups)
    && StopsAt(r1, end)
  }

  /** The loop has stopped behind the CheckSum field, or at the end of the frame without one. */
  ghost predicate StopsAt(r: Root, end: Stream) {
    if end.End? then r.rest == end && r.checkSum.None?
    else
      && end.tok.tag == CHECK_SUM && r.rest == end.rest && ParseUnsigned(end.tok.text).Some?
      && r.checkSum == Some(CheckSumField(Width(end), ParseUnsigned(end.tok.text).value))
  }

  lemma {:induction false} LoopSound(d: Dict, r: Root, rules: seq<nat>)
    returns (slots: seq<Slot>, groups: seq<Group>, end: Stream)
    requires Readable(d) && Apart(d, rules) && RootOk(rules, r) && r.checkSum.None?
    requires GenericLoop(d, r, Some(rules)).Done? && GenericLoop(d, r, Some(rules)).value.issue.NoIssue?
    ensures RootRun(d, rules, r, GenericLoop(d, r, Some(rules)).value, slots, groups, end)
    decreases Size(r.rest), 1
  {
    if r.rest.End? || r.rest.tok.tag == CHECK_SUM {
      slots, groups, end := [], [], r.rest;
      assert r.slots + slots == r.slots && r.groups + CutGroups(groups) == r.groups;
    } else {
      var tok := r.rest.tok;
      var r1 := Advance(r, tok, r.rest.rest);
      if IsFrameTag(tok.tag) {
        slots, groups, end := LoopSound(d, r1, rules);
      } else if tok.tag == MSG_TYPE {
        LoopKeeps(d, TakeMsgType(d, r1, tok, MessageRules(d, tok.text)), MessageRules(d, tok.text));
        assert false;
      } else {
        slots, groups, end := RootFieldSound(d, r, rules);
      }
    }
  }

  lemma {:induction false} RootFieldSound(d: Dict, r: Root, rules: seq<nat>)
    returns (slots: seq<Slot>, groups: seq<Group>, end: Stream)
    requires Readable(d) && Apart(d, rules) && RootOk(rules, r) && r.checkSum.None?
    requires GenericLoop(d, r, Some(rules)).Done? && GenericLoop(d, r, Some(rules)).value.issue.NoIssue?
    requires r.rest.Next? && r.rest.tok.tag != CHECK_SUM && !IsFrameTag(r.rest.tok.tag) && r.rest.tok.tag != MSG_TYPE
    ensures RootRun(d, rules, r, GenericLoop(d, r, Some(rules)).value, slots, groups, end)
    decreases Size(r.rest), 0
  {
    var tok := r.rest.tok;
    var r1 := Advance(r, tok, r.rest.rest);
    var r2 := TakeRootField(d, r1, tok, Some(rules)).value;
    if !r2.issue.NoIssue? {
      LoopKeeps(d, r2, Some(rules));
    }
    if tok.tag in rules && AtLoose(Loose(d), r2.rest) {
      LooseRecorded(d, r2, rules);
    }
    ReadableFacts(d);
    var entries := FieldSound(d, r1, tok, rules);
    slots, groups, end := LoopSound(d, r2, rules);
    slots, groups := PrependRootField(d, rules, r, r2, GenericLoop(d, r, Some(rules)).value, entries, slots, groups,
        end);
  }

  /** What one clean field adds: its slot, and the entries of its group if it counts one. */
  ghost predicate FieldTaken(d: Dict, rules: seq<nat>, r: Root, r2: Root, tok: Tok, entries: seq<Entry>) {
    && r.issue.NoIssue? && tok.text != [] && WellTyped(tok.text, TypeOf(d, tok.tag))
    && tok.tag !in r.scope.seen && r2.scope.seen == r.scope.seen + {tok.tag}
    && r2.slots == r.slots + [Slot(tok.tag, ViewText(tok.text), TypeOf(d, tok.tag))]
    && (IsEnvelopeTag(tok.tag) || Allowed(d, rules, tok.tag))
    && (if IsEnvelopeTag(tok.tag) || tok.tag !in rules || tok.tag in d.groups then r2.scope.last == r.scope.last
        else r.scope.last < RuleIndex(rules, tok.tag) == r2.scope.last)
    && (if IsGroupRule(d, Some(rules), tok.tag)
        then
          && r2.groups == r.groups + [Group(tok.tag, 1, CutEntries(entries))]
          && CleanGroup(d, d.groups[tok.tag], 1, tok.text, r.rest, GroupEnd(CutEntries(entries), r2.rest, NoIssue),
              entries)
        else r2.groups == r.groups && r2.rest == r.rest)
  }

  /** A loose delimiter that a group leaves behind is an issue for the message. */
  lemma LooseRecorded(d: Dict, r: Root, rules: seq<nat>)
    requires Apart(d, rules) && rules != [] && AtLoose(Loose(d), r.rest) && r.checkSum.None?
    requires GenericLoop(d, r, Some(rules)).Done?
    ensures !GenericLoop(d, r, Some(rules)).value.issue.NoIssue?
  {
    hide Loose;
    var tok := r.rest.tok;
    RuleIndexMember(rules, tok.tag);
    var r1 := Advance(r, tok, r.rest.rest);
    var r2 := TakeRootField(d, r1, tok, Some(rules)).value;
    if r.issue.NoIssue? {
      assert !CheckRoot(d, r1, Some(rules), tok.tag, RootOrder).issue.NoIssue?;
    }
    LoopKeeps(d, r2, Some(rules));
  }

  lemma FieldSound(d: Dict, r: Root, tok: Tok, rules: seq<nat>) returns (entries: seq<Entry>)
    requires Covered(d, Loose(d)) && RootOk(rules, r)
    requires TakeRootField(d, r, tok, Some(rules)).Done? && TakeRootField(d, r, tok, Some(rules)).value.issue.NoIssue?
    requires tok.tag in rules ==> !AtLoose(Loose(d), TakeRootField(d, r, tok, Some(rules)).value.rest)
    requires !IsFrameTag(tok.tag) && tok.tag != MSG_TYPE && tok.tag != CHECK_SUM
    ensures FieldTaken(d, rules, r, TakeRootField(d, r, tok, Some(rules)).value, tok, entries)
    ensures RootOk(rules, TakeRootField(d, r, tok, Some(rules)).value)
  {
    entries := [];
    RuleIndexMember(rules, tok.tag);
    var group := IsGroupRule(d, Some(rules), tok.tag);
    var h := ExtractHeader(r.header, tok.tag, tok.text).value;
    var r1 := CheckRoot(d, r.(header := h), Some(rules), tok.tag, if group then Unordered else RootOrder);
    var issue := ValidateScalarValue(tok.tag, tok.text, TypeOf(d, tok.tag), r1.issue);
    if group {
      if !issue.NoIssue? {
        GroupKeeps(d, d.groups[tok.tag], 1, tok.text, r.rest, issue);
      }
      entries := GroupSound(d, Loose(d), d.groups[tok.tag], 1, tok.text, r.rest);
    }
    if tok.tag !in r.scope.seen {
      NoSuchSlot(r.slots, 0, tok.tag);
      NoSuchGroup(r.groups, 0, tok.tag);
    }
  }

  lemma PrependRootField(d: Dict, rules: seq<nat>, r: Root, r2: Root, r3: Root, entries: seq<Entry>,
                         slots0: seq<Slot>, groups0: seq<Group>, end: Stream)
    returns (slots: seq<Slot>, groups: seq<Group>)
    requires r.rest.Next? && r.rest.tok.tag != CHECK_SUM && !IsFrameTag(r.rest.tok.tag)
    requires FieldTaken(d, rules, Advance(r, r.rest.tok, r.rest.rest), r2, r.rest.tok, entries)
    requires RootRun(d, rules, r2, r3, slots0, groups0, end)
    ensures RootRun(d, rules, r, r3, slots, groups, end)
  {
    var tok := r.rest.tok;
    var s := Slot(tok.tag, ViewText(tok.text), TypeOf(d, tok.tag));
    slots, groups := [s] + slots0, groups0;
    Assoc(r.slots, [s], slots0);
    assert slots[1..] == slots0;
    if IsGroupRule(d, Some(rules), tok.tag) {
      var g := Group(tok.tag, 1, entries);
      groups := [g] + groups0;
      Assoc(r.groups, [g.(entries := CutEntries(entries))], CutGroups(groups0));
      assert groups[1..] == groups0;
    }
  }

  // ---------------------------------------------------------------- bytes

  lemma {:induction false} SpellTail(d: Dict, slots: seq<Slot>, groups: seq<Group>, st: Stream)
    requires Spell(d, slots, groups, st).Some?
    ensures Tail(st) == Tail(Spell(d, slots, groups, st).value)
    decreases groups, 1, |slots|
  {
    if slots != [] {
      if slots[0].tag !in d.groups {
        SpellTail(d, slots[1..], groups, st.rest);
      } else {
        SpellEntriesTail(d, groups[0].entries, st.rest);
        SpellTail(d, slots[1..], groups[1..], SpellEntries(d, groups[0].entries, st.rest).value);
      }
    }
  }

  lemma {:induction false} SpellEntriesTail(d: Dict, es: seq<Entry>, st: Stream)
    requires SpellEntries(d, es, st).Some?
    ensures Tail(st) == Tail(SpellEntries(d, es, st).value)
    decreases es, 0, 0
  {
    if es != [] {
      SpellTail(d, es[0].slots, es[0].groups, st);
      SpellEntriesTail(d, es[1..], Spell(d, es[0].slots, es[0].groups, st).value);
    }
  }

  lemma {:induction false} SpellRootTail(d: Dict, rules: seq<nat>, slots: seq<Slot>, groups: seq<Group>, st: Stream)
    requires SpellRoot(d, rules, slots, groups, st).Some?
    ensures Tail(st) == Tail(SpellRoot(d, rules, slots, groups, st).value)
    decreases |groups|, Size(st)
  {
    if st.Next? && st.tok.tag != CHECK_SUM {
      if IsFrameTag(st.tok.tag) {
        SpellRootTail(d, rules, slots, groups, st.rest);
      } else if !IsGroupRule(d, Some(rules), st.tok.tag) {
        SpellRootTail(d, rules, slots[1..], groups, st.rest);
      } else {
        SpellEntriesTail(d, groups[0].entries, st.rest);
        SpellRootTail(d, rules, slots[1..], groups[1..], SpellEntries(d, groups[0].entries, st.rest).value);
      }
    }
  }

  // ---------------------------------------------------------------- main theorem

  /** The decoded root is the MsgType and what the fields behind it spell out, up to a final CheckSum. */
  ghost predicate SoundMessage(d: Dict, rules: seq<nat>, st: Stream, root: Entry, checkSum: Tok) {
    && st.Next? && root.slots != [] && root.slots[0].tag == MSG_TYPE && root.slots[0].text == ViewText(st.tok.text)
    && SpellRoot(d, rules, root.slots[1..], root.groups, st.rest) == Some(Next(checkSum, End(None)))
    && RootOrdered(d, rules, -1, root.slots[1..]) && Unrepeated({MSG_TYPE}, root.slots[1..])
    && SoundGroups(d, 1, root.groups)
  }

  /** BodyLength counts the bytes up to the CheckSum field, which is the sum of all bytes before it. */
  predicate SoundFrame(s: Text, f: Frame, checkSum: Tok, m: Decoded, verify: bool) {
    && checkSum.tag == CHECK_SUM && ParseUnsigned(checkSum.text) == Some(m.checkSum)
    && f.bodyStart + m.bodyLength + checkSum.width == |s|
    && (verify ==> Sum(s[..f.bodyStart + m.bodyLength]) % 256 == m.checkSum)
  }

  /** The loop over a frame whose first body field is a known MsgType. */
  lemma MessageSound(d: Dict, st: Stream, r: Root) returns (groups: seq<Group>, end: Stream)
    requires Readable(d) && GenericLoop(d, StartRoot(st), None) == Done(r) && r.issue.NoIssue?
    requires st.Next? && st.tok.tag == MSG_TYPE && st.tok.text in d.messages
    requires r.rest == End(None) && r.checkSum.Some?
    ensures StopsAt(r, end) && end.Next? && Tail(st) == None
    ensures SoundMessage(d, d.messages[st.tok.text], st, Entry(r.slots, groups), end.tok)
      && r.groups == CutGroups(groups)
  {
    var rules := d.messages[st.tok.text];
    ReadableFacts(d);
    var r1 := TakeMsgType(d, Advance(StartRoot(st), st.tok, st.rest), st.tok, Some(rules));
    assert r1.scope.seen == {MSG_TYPE};
    var slots;
    slots, groups, end := LoopSound(d, r1, rules);
    SpellRootTail(d, rules, slots, groups, st.rest);
    assert r.slots[1..] == slots && r.groups == CutGroups(groups);
  }

  lemma FrameSound(s: Text, delim: Byte, f: Frame, r: Root, end: Stream, verify: bool)
    requires OpenFrame(Tokenize(s, 0, delim)) == Done(f) && Tail(f.rest) == None
    requires StopsAt(r, end) && end.Next? && CloseFrame(s, f, r, verify).Done?
    ensures SoundFrame(s, f, end.tok, CloseFrame(s, f, r, verify).value, verify)
  {
    hide Tokenize, OpenFrame, Sum, ParseUnsigned;
    BodyWidth(s, Tokenize(s, 0, delim), delim, f);
    assert Width(end) == end.tok.width;
  }

  lemma BodyWidth(s: Text, st: Stream, delim: Byte, f: Frame)
    requires st == Tokenize(s, 0, delim) && OpenFrame(st) == Done(f) && Tail(f.rest) == None
    ensures f.bodyStart + Width(f.rest) == |s|
  {
    hide Tokenize, ParseUnsigned;
    assert Tail(st.rest) == None;
    TokenizeWidth(s, 0, delim);
    assert Width(st.rest) == st.rest.tok.width + Width(f.rest);
  }

  /**
   * A frame of a known type, MsgType first, that decodes with no issue recorded is sound throughout; the decoded
   * groups are the sound ones, with entries cut to what they can hold.
   */
  lemma DecodeSound(d: Dict, s: Text, delim: Byte, verify: bool) returns (f: Frame, groups: seq<Group>, checkSum: Tok)
    requires Readable(d) && Decode(d, s, delim, verify).Done? && Decode(d, s, delim, verify).value.issue.NoIssue?
    requires
      var st := OpenFrame(Tokenize(s, 0, NormalizeDelimiter(delim))).value.rest;
      st.Next? && st.tok.tag == MSG_TYPE && st.tok.text in d.messages
    ensures OpenFrame(Tokenize(s, 0, NormalizeDelimiter(delim))) == Done(f)
    ensures f.rest.Next? && f.rest.tok.text in d.messages
    ensures
      var root := Decode(d, s, delim, verify).value.root;
      && SoundMessage(d, d.messages[f.rest.tok.text], f.rest, Entry(root.slots, groups), checkSum)
      && root.groups == CutGroups(groups)
    ensures SoundFrame(s, f, checkSum, Decode(d, s, delim, verify).value, verify)
  {
    f := OpenFrame(Tokenize(s, 0, NormalizeDelimiter(delim))).value;
    var r := GenericLoop(d, StartRoot(f.rest), None).value;
    var end;
    groups, end := MessageSound(d, f.rest, r);
    FrameSound(s, NormalizeDelimiter(delim), f, r, end, verify);
    checkSum := end.tok;
  }
}
