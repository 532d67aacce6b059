/**
 * Decoding inverts encoding for whole frames: a conforming message decodes without a
 * validation issue to its header, its fields in rule order, its counts and its tree of groups.
 * TemplateRoundTrip carries this to frames encoded from a template.
 */
module FrameRoundTrip {
  import opened Optional
  import opened Bytes
  import opened FixTags
  import opened Dictionary
  import opened Scanner
  import opened TokenStream
  import opened ParsedTree
  import opened Validation
  import opened GroupParser
  import opened Decoder
  import opened Encoder
  import opened EncoderSplit
  import opened RoundTrip
  import F = Framing
  import O = OwnedMessage

  // ---------------------------------------------------------------- slots of the root

  lemma {:induction false} SlotFromAppend(slots: seq<Slot>, s: Slot, i: nat, tag: nat)
    requires i <= |slots| && SlotFrom(slots, i, tag) < 0 && s.tag != tag
    ensures SlotFrom(slots + [s], i, tag) < 0
    decreases |slots| - i
  {
    if i < |slots| {
      SlotFromAppend(slots, s, i + 1, tag);
    }
  }

  /** A new tag is appended; other tags stay absent. */
  lemma UpsertNew(slots: seq<Slot>, s: Slot)
    requires SlotIndex(slots, s.tag) < 0
    ensures Upsert(slots, s) == slots + [s]
    ensures forall t :: t != s.tag && SlotIndex(slots, t) < 0 ==> SlotIndex(slots + [s], t) < 0
  {
    forall t | t != s.tag && SlotIndex(slots, t) < 0 ensures SlotIndex(slots + [s], t) < 0 {
      SlotFromAppend(slots, s, 0, t);
    }
  }

  lemma {:induction false} GroupFromAppend(groups: seq<Group>, g: Group, i: nat, tag: nat)
    requires i <= |groups| && GroupFrom(groups, i, tag) < 0 && g.countTag != tag
    ensures GroupFrom(groups + [g], i, tag) < 0
    decreases |groups| - i
  {
    if i < |groups| {
      GroupFromAppend(groups, g, i + 1, tag);
    }
  }

  // ---------------------------------------------------------------- the session header

  predicate HeaderParses(tag: nat, text: Text) {
    && (tag == MSG_SEQ_NUM ==> ParseUnsigned(text).Some?)
    && (tag == POSS_DUP_FLAG || tag == POSS_RESEND ==> ParseBoolean(text).Some?)
  }

  predicate HeaderTok(d: Dict, tag: nat, text: Text, delim: Byte) {
    && IsHeaderTag(tag) && tag != MSG_TYPE && tag !in d.groups
    && ValueOk(text, TypeOf(d, tag), delim) && HeaderParses(tag, text)
  }

  /** Place of a header field in the order the encoders write it. */
  function HeaderRank(tag: nat): nat {
    if tag == MSG_TYPE then 0
    else if tag == MSG_SEQ_NUM then 1
    else if tag == SENDER_COMP_ID then 2
    else if tag == SENDER_SUB_ID then 3
    else if tag == TARGET_COMP_ID then 4
    else if tag == TARGET_SUB_ID then 5
    else if tag == SENDING_TIME then 6
    else if tag == DEFAULT_APPL_VER_ID then 7
    else if tag == APPL_VER_ID then 8
    else if tag == POSS_DUP_FLAG then 9
    else if tag == POSS_RESEND then 10
    else if tag == ORIG_SENDING_TIME then 11
    else if tag == ON_BEHALF_OF_COMP_ID then 12
    else 13
  }

  /** Header fields other than MsgType in writing order, from rank `lo` on. */
  predicate HeaderOk(d: Dict, st: Stream, lo: nat, delim: Byte) {
    match st
    case End(error) => error.None?
    case Next(tok, rest) =>
      && HeaderTok(d, tok.tag, tok.text, delim) && tok == MakeTok(tok.tag, tok.text) && lo <= HeaderRank(tok.tag)
      && HeaderOk(d, rest, HeaderRank(tok.tag) + 1, delim)
  }

  function HeaderSlots(d: Dict, st: Stream): seq<Slot> {
    match st
    case End(_) => []
    case Next(tok, rest) => [Slot(tok.tag, tok.text, TypeOf(d, tok.tag))] + HeaderSlots(d, rest)
  }

  function HeaderValues(h: Header, st: Stream): Header
    decreases st
  {
    match st
    case End(_) => h
    case Next(tok, rest) =>
      var o := ExtractHeader(h, tok.tag, tok.text);
      HeaderValues(if o.Done? then o.value else h, rest)
  }

  /** A decode in the header without issues: only header fields below rank `lo` have been seen. */
  ghost predicate Clean(r: Root, lo: nat) {
    && r.issue.NoIssue? && r.checkSum.None? && r.scope.last == -1 && r.groups == []
    && (forall t :: t in r.scope.seen ==> IsHeaderTag(t) && HeaderRank(t) < lo)
    && forall t :: t !in r.scope.seen ==> SlotIndex(r.slots, t) < 0
  }

  /** One header field passes through the decode loop. */
  lemma HeaderField(d: Dict, r: Root, lo: nat, rules: seq<nat>, tok: Tok, rest: Stream, delim: Byte) returns (r1: Root)
    requires Clean(r, lo) && r.rest == Next(tok, rest)
    requires HeaderTok(d, tok.tag, tok.text, delim) && lo <= HeaderRank(tok.tag)
    ensures GenericLoop(d, r, Some(rules)) == GenericLoop(d, r1, Some(rules))
    ensures Clean(r1, HeaderRank(tok.tag) + 1) && r1.rest == rest && r1.fields == r.fields + 1
    ensures r1.slots == r.slots + [Slot(tok.tag, tok.text, TypeOf(d, tok.tag))]
    ensures r1.header == ExtractHeader(r.header, tok.tag, tok.text).value
  {
    ViewKeepsText(tok.text);
    UpsertNew(r.slots, Slot(tok.tag, tok.text, TypeOf(d, tok.tag)));
    r1 := TakeRootField(d, Advance(r, tok, rest), tok, Some(rules)).value;
  }

  lemma {:induction false} HeaderFields(d: Dict, r: Root, lo: nat, rules: seq<nat>, h: Stream, k: Stream, delim: Byte)
    returns (r1: Root)
    requires Clean(r, lo) && lo <= 14 && r.rest == Append(h, k) && HeaderOk(d, h, lo, delim)
    ensures GenericLoop(d, r, Some(rules)) == GenericLoop(d, r1, Some(rules))
    ensures Clean(r1, 14) && r1.rest == k && r1.fields >= r.fields
    ensures r1.slots == r.slots + HeaderSlots(d, h)
    ensures r1.header == HeaderValues(r.header, h)
    decreases h
  {
    if h.End? {
      r1 := r;
    } else {
      var r0 := HeaderField(d, r, lo, rules, h.tok, Append(h.rest, k), delim);
      r1 := HeaderFields(d, r0, HeaderRank(h.tok.tag) + 1, rules, h.rest, k, delim);
      Assoc(r.slots, [Slot(h.tok.tag, h.tok.text, TypeOf(d, h.tok.tag))], HeaderSlots(d, h.rest));
    }
  }

  // ---------------------------------------------------------------- the body at the root

  /** The decode stands before rule `i` of the message and nothing has gone wrong so far. */
  ghost predicate RootBefore(rules: seq<nat>, i: nat, r: Root) {
    && r.issue.NoIssue? && r.checkSum.None? && r.scope.last < i
    && forall k :: i <= k < |rules| && !IsHeaderTag(rules[k]) ==>
         && rules[k] !in r.scope.seen && SlotIndex(r.slots, rules[k]) < 0
         && ParsedTree.GroupIndex(r.groups, rules[k]) < 0
  }

  /** A message to be decoded from rule `i` on, in front of `k`. */
  ghost predicate RootPending(d: Dict, rules: seq<nat>, m: O.Message, delim: Byte, i: nat, r: Root, k: Stream) {
    && SafeDelimiter(delim) && Distinct(rules) && Conforms(d, rules, {CHECK_SUM}, 0, m, delim)
    && (forall f :: f in m.fields ==> !IsHeaderTag(f.tag)) && (forall g :: g in m.groups ==> !IsHeaderTag(g.countTag))
    && i <= |rules| && RootBefore(rules, i, r)
    && r.rest == RulePass(d, rules, i, m, true, k) && StartsIn(k, {CHECK_SUM})
  }

  ghost predicate RootMoved(d: Dict, rules: seq<nat>, m: O.Message, i: nat, r: Root, r1: Root, k: Stream)
    requires i < |rules|
  {
    && GenericLoop(d, r, Some(rules)) == GenericLoop(d, r1, Some(rules))
    && RootBefore(rules, i + 1, r1) && r1.rest == RulePass(d, rules, i + 1, m, true, k)
    && r1.slots + ExpectSlots(d, rules, i + 1, m) == r.slots + ExpectSlots(d, rules, i, m)
    && r1.groups + ExpectGroups(d, rules, i + 1, 0, m) == r.groups + ExpectGroups(d, rules, i, 0, m)
    && r1.header == r.header && r1.fields >= r.fields
  }

  lemma {:induction false} BodyOfEncoding(
      d: Dict, rules: seq<nat>, m: O.Message, delim: Byte, i: nat, r: Root, k: Stream) returns (r1: Root)
    requires RootPending(d, rules, m, delim, i, r, k)
    ensures GenericLoop(d, r, Some(rules)) == GenericLoop(d, r1, Some(rules))
    ensures r1.rest == k && r1.issue.NoIssue? && r1.checkSum.None? && r1.header == r.header && r1.fields >= r.fields
    ensures r1.slots == r.slots + ExpectSlots(d, rules, i, m)
    ensures r1.groups == r.groups + ExpectGroups(d, rules, i, 0, m)
    decreases |rules| - i
  {
    if i == |rules| {
      r1 := r;
    } else {
      var gi, fi := O.GroupIndex(m.groups, rules[i]), O.FieldIndex(m.fields, rules[i]);
      if gi >= 0 {
        var r0 := RootGroup(d, rules, m, delim, i, r, k);
        r1 := BodyOfEncoding(d, rules, m, delim, i + 1, r0, k);
      } else if fi >= 0 {
        var r0 := RootScalar(d, rules, m, delim, i, r, k);
        r1 := BodyOfEncoding(d, rules, m, delim, i + 1, r0, k);
      } else {
        AbsentRule(d, rules, i, 0, m, true, k);
        r1 := BodyOfEncoding(d, rules, m, delim, i + 1, r, k);
      }
    }
  }

  /** The effect of one body field on the root, before any group behind it is parsed. */
  lemma RootFieldTaken(d: Dict, rules: seq<nat>, i: nat, r: Root, text: Text, order: Order, delim: Byte)
    requires i < |rules| && Distinct(rules) && RootBefore(rules, i, r) && rules[i] in d.fields
    requires !IsEnvelopeTag(rules[i]) && ValueOk(text, d.fields[rules[i]], delim)
    ensures
      var tag := rules[i];
      var r1 := CheckRoot(d, r, Some(rules), tag, order);
      var r2 := StoreSlot(r1, MakeTok(tag, text), TypeOf(d, tag));
      && ExtractHeader(r.header, tag, text) == Done(r.header)
      && ValidateScalarValue(tag, text, TypeOf(d, tag), r1.issue).NoIssue?
      && RootBefore(rules, i + 1, r2)
      && r2 == r.(scope := r2.scope, slots := r.slots + [Slot(tag, text, TypeOf(d, tag))])
  {
    var tag := rules[i];
    RuleIndexOf(rules, i);
    ViewKeepsText(text);
    UpsertNew(r.slots, Slot(tag, text, TypeOf(d, tag)));
  }

  lemma RootScalar(d: Dict, rules: seq<nat>, m: O.Message, delim: Byte, i: nat, r: Root, k: Stream) returns (r1: Root)
    requires RootPending(d, rules, m, delim, i, r, k)
    requires i < |rules| && O.GroupIndex(m.groups, rules[i]) < 0 && O.FieldIndex(m.fields, rules[i]) >= 0
    ensures RootMoved(d, rules, m, i, r, r1, k)
  {
    var f := m.fields[O.FieldIndex(m.fields, rules[i])];
    assert FieldOk(d, rules, f, delim);
    RuleStep(d, rules, i, m, true, k);
    var more, text := RulePass(d, rules, i + 1, m, true, k), O.ValueText(f.value);
    var tok := MakeTok(f.tag, text);
    RootFieldTaken(d, rules, i, Advance(r, tok, more), text, RootOrder, delim);
    r1 := TakeRootField(d, Advance(r, tok, more), tok, Some(rules)).value;
    ExpectScalarStep(d, rules, i, 0, m, r.slots, r.groups);
  }

  /** The pending rule's group as it was emitted, and its entries as they are parsed. */
  lemma RootGroupParsed(d: Dict, rules: seq<nat>, m: O.Message, delim: Byte, i: nat, r: Root, k: Stream)
    returns (st: Stream, e: GroupEnd)
    requires RootPending(d, rules, m, delim, i, r, k)
    requires i < |rules| && O.GroupIndex(m.groups, rules[i]) >= 0
    ensures
      var data := m.groups[O.GroupIndex(m.groups, rules[i])];
      var text := Digits(|data.entries|);
      && rules[i] in d.fields && rules[i] in d.groups && d.groups[rules[i]].countTag == rules[i]
      && !IsEnvelopeTag(rules[i]) && ValueOk(text, d.fields[rules[i]], delim)
      && r.rest == Next(MakeTok(rules[i], text), st)
      && ParseGroup(d, d.groups[rules[i]], 1, text, st, NoIssue) == Done(e)
      && e.rest == RulePass(d, rules, i + 1, m, true, k) && e.issue.NoIssue?
      && Group(rules[i], 1, e.entries) == ExpectGroup(d, 1, data)
  {
    var data := m.groups[O.GroupIndex(m.groups, rules[i])];
    assert GroupOk(d, rules, {CHECK_SUM}, 0, data, delim);
    hide Conforms, EmitEntries, ExpectEntries, ParseGroup, Digits, EntryShape, RulePass;
    RuleStep(d, rules, i, m, true, k);
    CountFits(|data.entries|, delim);
    PassStart(d, rules, i + 1, {CHECK_SUM}, 0, m, delim, true, k, {CHECK_SUM});
    var more := RulePass(d, rules, i + 1, m, true, k);
    var g := d.groups[rules[i]];
    st := EmitEntries(d, g.rules, data.entries, 0, more);
    e := GroupEnd(ExpectEntries(d, g.rules, 1, data.entries, 0), more, NoIssue);
    GroupOfEncoding(d, rules, {CHECK_SUM}, 0, data, delim, more);
  }

  lemma RootGroup(d: Dict, rules: seq<nat>, m: O.Message, delim: Byte, i: nat, r: Root, k: Stream) returns (r1: Root)
    requires RootPending(d, rules, m, delim, i, r, k)
    requires i < |rules| && O.GroupIndex(m.groups, rules[i]) >= 0
    ensures RootMoved(d, rules, m, i, r, r1, k)
  {
    var st, e := RootGroupParsed(d, rules, m, delim, i, r, k);
    r1 := RootGroupMoved(d, rules, m, delim, i, r, k, r.rest.tok.text, st, e);
  }

  lemma RootGroupMoved(d: Dict, rules: seq<nat>, m: O.Message, delim: Byte, i: nat, r: Root, k: Stream,
                       text: Text, st: Stream, e: GroupEnd) returns (r1: Root)
    requires i < |rules| && Distinct(rules) && RootBefore(rules, i, r) && rules[i] in d.fields
    requires !IsEnvelopeTag(rules[i]) && ValueOk(text, d.fields[rules[i]], delim)
    requires rules[i] in d.groups && d.groups[rules[i]].countTag == rules[i] && e.issue.NoIssue?
    requires r.rest == Next(MakeTok(rules[i], text), st)
    requires ParseGroup(d, d.groups[rules[i]], 1, text, st, NoIssue) == Done(e)
    requires e.rest == RulePass(d, rules, i + 1, m, true, k)
    requires
      var gi := O.GroupIndex(m.groups, rules[i]);
      gi >= 0 && text == Digits(|m.groups[gi].entries|)
          && Group(rules[i], 1, e.entries) == ExpectGroup(d, 1, m.groups[gi])
    ensures RootMoved(d, rules, m, i, r, r1, k)
  {
    hide ParseGroup, RulePass, ValueOk, IsEnvelopeTag, ExpectGroup, GenericLoop;
    ExpectGroupStep(d, rules, i, 0, m, r.slots, r.groups);
    r1 := RootGroupTaken(d, rules, i, r, text, st, e, delim);
  }

  lemma RootGroupTaken(
      d: Dict, rules: seq<nat>, i: nat, r: Root, text: Text, st: Stream, e: GroupEnd, delim: Byte) returns (r1: Root)
    requires i < |rules| && Distinct(rules) && RootBefore(rules, i, r) && rules[i] in d.fields
    requires !IsEnvelopeTag(rules[i]) && ValueOk(text, d.fields[rules[i]], delim)
    requires rules[i] in d.groups && d.groups[rules[i]].countTag == rules[i] && e.issue.NoIssue?
    requires r.rest == Next(MakeTok(rules[i], text), st)
    requires ParseGroup(d, d.groups[rules[i]], 1, text, st, NoIssue) == Done(e)
    ensures GenericLoop(d, r, Some(rules)) == GenericLoop(d, r1, Some(rules))
    ensures RootBefore(rules, i + 1, r1) && r1.rest == e.rest && r1.header == r.header && r1.fields == r.fields + 1
    ensures r1.slots == r.slots + [Slot(rules[i], text, TypeOf(d, rules[i]))]
    ensures r1.groups == r.groups + [Group(rules[i], 1, e.entries)]
  {
    var tok := MakeTok(rules[i], text);
    RootFieldTaken(d, rules, i, Advance(r, tok, st), text, Unordered, delim);
    r1 := TakeRootField(d, Advance(r, tok, st), tok, Some(rules)).value;
    forall k | i < k < |rules| && !IsHeaderTag(rules[k]) ensures ParsedTree.GroupIndex(r1.groups, rules[k]) < 0 {
      GroupFromAppend(r.groups, Group(rules[i], 1, e.entries), 0, rules[k]);
    }
  }

  // ---------------------------------------------------------------- everything emitted is printable

  lemma {:induction false} PrintableEntries(
      d: Dict, g: GroupDef, outer: set<nat>, depth: nat, es: seq<O.Message>, i: nat, delim: Byte, k: Stream)
    requires SafeDelimiter(delim) && i <= |es| && Printable(k, delim)
    requires forall e :: e in es ==> Conforms(d, g.rules, outer, depth, e, delim)
    ensures Printable(EmitEntries(d, g.rules, es, i, k), delim)
    decreases es, 1, |es| - i
  {
    if i < |es| {
      assert es[i] in es;
      var more := EmitEntries(d, g.rules, es, i + 1, k);
      PrintableEntries(d, g, outer, depth, es, i + 1, delim, k);
      NoExtras(d, g.rules, outer, depth, es[i], delim, false, more);
      PrintablePass(d, g.rules, 0, outer, depth, es[i], delim, false, more);
    }
  }

  lemma {:induction false} PrintablePass(
      d: Dict, rules: seq<nat>, i: nat, outer: set<nat>, depth: nat, m: O.Message, delim: Byte, skip: bool, k: Stream)
    requires SafeDelimiter(delim) && i <= |rules| && Conforms(d, rules, outer, depth, m, delim) && Printable(k, delim)
    ensures Printable(RulePass(d, rules, i, m, skip, k), delim)
    decreases m, 0, |rules| - i
  {
    if i < |rules| {
      var more := RulePass(d, rules, i + 1, m, skip, k);
      PrintablePass(d, rules, i + 1, outer, depth, m, delim, skip, k);
      var gi, fi := O.GroupIndex(m.groups, rules[i]), O.FieldIndex(m.fields, rules[i]);
      if !Skipped(rules[i], skip) {
        RuleStep(d, rules, i, m, skip, k);
        if gi >= 0 {
          var data := m.groups[gi];
          assert GroupOk(d, rules, outer, depth, data, delim);
          CountFits(|data.entries|, delim);
          PrintableEntries(d, d.groups[data.countTag], outer + TagSet(rules), depth + 1, data.entries, 0, delim, more);
        } else if fi >= 0 {
          assert FieldOk(d, rules, m.fields[fi], delim);
        }
      }
    }
  }

  lemma {:induction false} PrintableHeader(d: Dict, h: Stream, lo: nat, k: Stream, delim: Byte)
    requires HeaderOk(d, h, lo, delim) && Printable(k, delim)
    ensures Printable(Append(h, k), delim)
    decreases h
  {
    if h.Next? {
      PrintableHeader(d, h.rest, HeaderRank(h.tok.tag) + 1, k, delim);
    }
  }

  lemma {:induction false} WidthOfWire(st: Stream, delim: Byte)
    requires Printable(st, delim)
    ensures Width(st) == |Wire(st, delim)|
  {
    if st.Next? {
      WidthOfWire(st.rest, delim);
    }
  }

  // ---------------------------------------------------------------- options

  /** An optional header text is absent or fit for its field. */
  predicate TextOk(d: Dict, tag: nat, text: Text, delim: Byte) {
    text == [] || HeaderTok(d, tag, text, delim)
  }

  predicate OptionsOk(d: Dict, msgType: Text, o: F.Options, now: Text, delim: Byte) {
    && TextOk(d, SENDER_COMP_ID, o.senderCompId, delim) && TextOk(d, SENDER_SUB_ID, o.senderSubId, delim)
    && TextOk(d, TARGET_COMP_ID, o.targetCompId, delim) && TextOk(d, TARGET_SUB_ID, o.targetSubId, delim)
    && TextOk(d, ON_BEHALF_OF_COMP_ID, o.onBehalfOf, delim) && TextOk(d, DELIVER_TO_COMP_ID, o.deliverTo, delim)
    && TextOk(d, APPL_VER_ID, o.applVerId, delim) && TextOk(d, ORIG_SENDING_TIME, o.origSendingTime, delim)
    && (msgType == F.LOGON ==> TextOk(d, DEFAULT_APPL_VER_ID, o.defaultApplVerId, delim))
    && HeaderTok(d, SENDING_TIME, F.TimeText(o, now), delim) && HeaderTok(d, MSG_SEQ_NUM, F.SeqText(o), delim)
    && (o.possDup ==> HeaderTok(d, POSS_DUP_FLAG, [YES], delim))
    && (o.possResend ==> HeaderTok(d, POSS_RESEND, [YES], delim))
  }

  lemma HeaderTextOk(d: Dict, tag: nat, text: Text, k: Stream, delim: Byte)
    requires TextOk(d, tag, text, delim) && HeaderOk(d, k, HeaderRank(tag) + 1, delim)
    ensures HeaderOk(d, F.EmitText(tag, text, k), HeaderRank(tag), delim)
  {
  }

  lemma HeaderFlag(d: Dict, tag: nat, on: bool, k: Stream, delim: Byte)
    requires (on ==> HeaderTok(d, tag, [YES], delim)) && HeaderOk(d, k, HeaderRank(tag) + 1, delim)
    ensures HeaderOk(d, F.EmitFlag(tag, on, k), HeaderRank(tag), delim)
  {
  }

  /** Header fields behind MsgType. */
  function HeaderRest(msgType: Text, o: F.Options, now: Text): Stream {
    F.EmitHeader(msgType, o, now, E).rest
  }

  lemma RoutingOk(d: Dict, msgType: Text, o: F.Options, now: Text, delim: Byte)
    requires OptionsOk(d, msgType, o, now, delim)
    ensures HeaderOk(d, F.EmitRouting(o, E), 9, delim)
  {
    hide HeaderTok;
    var k5 := F.EmitText(DELIVER_TO_COMP_ID, o.deliverTo, E);
    HeaderTextOk(d, DELIVER_TO_COMP_ID, o.deliverTo, E, delim);
    var k4 := F.EmitText(ON_BEHALF_OF_COMP_ID, o.onBehalfOf, k5);
    HeaderTextOk(d, ON_BEHALF_OF_COMP_ID, o.onBehalfOf, k5, delim);
    var k3 := F.EmitText(ORIG_SENDING_TIME, o.origSendingTime, k4);
    HeaderTextOk(d, ORIG_SENDING_TIME, o.origSendingTime, k4, delim);
    HeaderFlag(d, POSS_RESEND, o.possResend, k3, delim);
    HeaderFlag(d, POSS_DUP_FLAG, o.possDup, F.EmitFlag(POSS_RESEND, o.possResend, k3), delim);
  }

  lemma TailOk(d: Dict, msgType: Text, o: F.Options, now: Text, delim: Byte)
    requires OptionsOk(d, msgType, o, now, delim)
    ensures HeaderOk(d, F.EmitTail(o, now, if msgType == F.LOGON then o.defaultApplVerId else [], E), 6, delim)
  {
    hide F.EmitRouting, HeaderTok;
    var k := F.EmitRouting(o, E);
    RoutingOk(d, msgType, o, now, delim);
    HeaderTextOk(d, APPL_VER_ID, o.applVerId, k, delim);
    HeaderTextOk(d, DEFAULT_APPL_VER_ID, if msgType == F.LOGON then o.defaultApplVerId else [],
               F.EmitText(APPL_VER_ID, o.applVerId, k), delim);
  }

  lemma HeaderRestOk(d: Dict, msgType: Text, o: F.Options, now: Text, delim: Byte)
    requires OptionsOk(d, msgType, o, now, delim)
    ensures HeaderOk(d, HeaderRest(msgType, o, now), 1, delim)
  {
    hide F.EmitTail, HeaderTok;
    var tail := F.EmitTail(o, now, if msgType == F.LOGON then o.defaultApplVerId else [], E);
    TailOk(d, msgType, o, now, delim);
    var k4 := F.EmitText(TARGET_SUB_ID, o.targetSubId, tail);
    HeaderTextOk(d, TARGET_SUB_ID, o.targetSubId, tail, delim);
    var k3 := F.EmitText(TARGET_COMP_ID, o.targetCompId, k4);
    HeaderTextOk(d, TARGET_COMP_ID, o.targetCompId, k4, delim);
    var k2 := F.EmitText(SENDER_SUB_ID, o.senderSubId, k3);
    HeaderTextOk(d, SENDER_SUB_ID, o.senderSubId, k3, delim);
    HeaderTextOk(d, SENDER_COMP_ID, o.senderCompId, k2, delim);
  }

  lemma SplitRouting(o: F.Options, k: Stream)
    ensures F.EmitRouting(o, k) == Append(F.EmitRouting(o, E), k)
  {
    var k5 := F.EmitText(DELIVER_TO_COMP_ID, o.deliverTo, E);
    var k4 := F.EmitText(ON_BEHALF_OF_COMP_ID, o.onBehalfOf, k5);
    var k3 := F.EmitText(ORIG_SENDING_TIME, o.origSendingTime, k4);
    var k2 := F.EmitFlag(POSS_RESEND, o.possResend, k3);
    assert F.EmitText(DELIVER_TO_COMP_ID, o.deliverTo, k) == Append(k5, k);
    assert F.EmitText(ON_BEHALF_OF_COMP_ID, o.onBehalfOf, Append(k5, k)) == Append(k4, k);
    assert F.EmitText(ORIG_SENDING_TIME, o.origSendingTime, Append(k4, k)) == Append(k3, k);
    assert F.EmitFlag(POSS_RESEND, o.possResend, Append(k3, k)) == Append(k2, k);
  }

  lemma SplitTail(o: F.Options, now: Text, ver: Text, k: Stream)
    ensures F.EmitTail(o, now, ver, k) == Append(F.EmitTail(o, now, ver, E), k)
  {
    SplitRouting(o, k);
    var k2 := F.EmitText(APPL_VER_ID, o.applVerId, F.EmitRouting(o, E));
    assert F.EmitText(APPL_VER_ID, o.applVerId, F.EmitRouting(o, k)) == Append(k2, k);
    assert F.EmitText(DEFAULT_APPL_VER_ID, ver, Append(k2, k)) == Append(F.EmitText(DEFAULT_APPL_VER_ID, ver, k2), k);
  }

  /** The header does not depend on what follows it. */
  lemma SplitHeader(msgType: Text, o: F.Options, now: Text, k: Stream)
    ensures F.EmitHeader(msgType, o, now, k) == Append(F.EmitHeader(msgType, o, now, E), k)
  {
    var ver := if msgType == F.LOGON then o.defaultApplVerId else [];
    var tail := F.EmitTail(o, now, ver, E);
    SplitTail(o, now, ver, k);
    var k4 := F.EmitText(TARGET_SUB_ID, o.targetSubId, tail);
    var k3 := F.EmitText(TARGET_COMP_ID, o.targetCompId, k4);
    var k2 := F.EmitText(SENDER_SUB_ID, o.senderSubId, k3);
    assert F.EmitText(TARGET_SUB_ID, o.targetSubId, Append(tail, k)) == Append(k4, k);
    assert F.EmitText(TARGET_COMP_ID, o.targetCompId, Append(k4, k)) == Append(k3, k);
    assert F.EmitText(SENDER_SUB_ID, o.senderSubId, Append(k3, k)) == Append(k2, k);
    assert F.EmitText(SENDER_COMP_ID, o.senderCompId, Append(k2, k))
        == Append(F.EmitText(SENDER_COMP_ID, o.senderCompId, k2), k);
  }

  // ---------------------------------------------------------------- what the header says

  /** The text of the first field with the tag. */
  function StreamText(st: Stream, tag: nat): Option<Text> {
    match st
    case End(_) => None
    case Next(tok, rest) => if tok.tag == tag then Some(tok.text) else StreamText(rest, tag)
  }

  function NonEmpty(text: Text): Option<Text> {
    if text == [] then None else Some(text)
  }

  /** The header text that the options stand for; an empty option stands for no field. */
  function SentText(msgType: Text, o: F.Options, now: Text, tag: nat): Option<Text> {
    if tag == MSG_TYPE then Some(msgType)
    else if tag == MSG_SEQ_NUM then Some(F.SeqText(o))
    else if tag == SENDER_COMP_ID then NonEmpty(o.senderCompId)
    else if tag == SENDER_SUB_ID then NonEmpty(o.senderSubId)
    else if tag == TARGET_COMP_ID then NonEmpty(o.targetCompId)
    else if tag == TARGET_SUB_ID then NonEmpty(o.targetSubId)
    else if tag == SENDING_TIME then Some(F.TimeText(o, now))
    else if tag == DEFAULT_APPL_VER_ID then if msgType == F.LOGON then NonEmpty(o.defaultApplVerId) else None
    else if tag == APPL_VER_ID then NonEmpty(o.applVerId)
    else if tag == POSS_DUP_FLAG then if o.possDup then Some([YES]) else None
    else if tag == POSS_RESEND then if o.possResend then Some([YES]) else None
    else if tag == ORIG_SENDING_TIME then NonEmpty(o.origSendingTime)
    else if tag == ON_BEHALF_OF_COMP_ID then NonEmpty(o.onBehalfOf)
    else if tag == DELIVER_TO_COMP_ID then NonEmpty(o.deliverTo)
    else None
  }

  lemma RoutingSays(o: F.Options, tag: nat)
    ensures StreamText(F.EmitRouting(o, E), tag)
         == if HeaderRank(tag) >= 9 then SentText([], o, [], tag) else None
  {
    var k5 := F.EmitText(DELIVER_TO_COMP_ID, o.deliverTo, E);
    var k4 := F.EmitText(ON_BEHALF_OF_COMP_ID, o.onBehalfOf, k5);
    var k3 := F.EmitText(ORIG_SENDING_TIME, o.origSendingTime, k4);
    var k2 := F.EmitFlag(POSS_RESEND, o.possResend, k3);
    assert StreamText(k5, tag) == if tag == DELIVER_TO_COMP_ID then NonEmpty(o.deliverTo) else None;
    assert StreamText(k4, tag) == if tag == ON_BEHALF_OF_COMP_ID then NonEmpty(o.onBehalfOf) else StreamText(k5, tag);
    assert StreamText(k3, tag) == if tag == ORIG_SENDING_TIME then NonEmpty(o.origSendingTime) else StreamText(k4, tag);
    assert StreamText(k2, tag)
        == if tag == POSS_RESEND then (if o.possResend then Some([YES]) else None) else StreamText(k3, tag);
  }

  /** A header field of the frame carries its option's text, and is there only if the option is. */
  lemma HeaderSays(msgType: Text, o: F.Options, now: Text, tag: nat)
    requires msgType != []
    ensures StreamText(F.EmitHeader(msgType, o, now, E), tag) == SentText(msgType, o, now, tag)
  {
    RoutingSays(o, tag);
    hide F.EmitRouting;
    var k := F.EmitRouting(o, E);
    var ver := if msgType == F.LOGON then o.defaultApplVerId else [];
    var k8 := F.EmitText(APPL_VER_ID, o.applVerId, k);
    var k7 := F.EmitText(DEFAULT_APPL_VER_ID, ver, k8);
    var k6 := Next(MakeTok(SENDING_TIME, F.TimeText(o, now)), k7);
    var k5 := F.EmitText(TARGET_SUB_ID, o.targetSubId, k6);
    var k4 := F.EmitText(TARGET_COMP_ID, o.targetCompId, k5);
    var k3 := F.EmitText(SENDER_SUB_ID, o.senderSubId, k4);
    assert StreamText(k8, tag) == if tag == APPL_VER_ID then NonEmpty(o.applVerId) else StreamText(k, tag);
    assert StreamText(k7, tag) == if tag == DEFAULT_APPL_VER_ID then NonEmpty(ver) else StreamText(k8, tag);
    assert StreamText(k5, tag) == if tag == TARGET_SUB_ID then NonEmpty(o.targetSubId) else StreamText(k6, tag);
    assert StreamText(k4, tag) == if tag == TARGET_COMP_ID then NonEmpty(o.targetCompId) else StreamText(k5, tag);
    assert StreamText(k3, tag) == if tag == SENDER_SUB_ID then NonEmpty(o.senderSubId) else StreamText(k4, tag);
    var k2 := F.EmitText(SENDER_COMP_ID, o.senderCompId, k3);
    assert StreamText(k2, tag) == if tag == SENDER_COMP_ID then NonEmpty(o.senderCompId) else StreamText(k3, tag);
    assert F.EmitHeader(msgType, o, now, E)
        == Next(MakeTok(MSG_TYPE, msgType), Next(MakeTok(MSG_SEQ_NUM, F.SeqText(o)), k2));
  }

  /** Header fields in writing order never repeat a tag. */
  lemma {:induction false} RankPassed(d: Dict, st: Stream, lo: nat, delim: Byte, tag: nat)
    requires HeaderOk(d, st, lo, delim) && HeaderRank(tag) < lo
    ensures StreamText(st, tag) == None
    decreases st
  {
    if st.Next? {
      RankPassed(d, st.rest, HeaderRank(st.tok.tag) + 1, delim, tag);
    }
  }

  function OrElse(a: Option<Text>, b: Option<Text>): Option<Text> {
    if a.Some? then a else b
  }

  function HeaderText(h: Header, tag: nat): Option<Text> {
    if tag in h.texts then Some(h.texts[tag]) else None
  }

  lemma ExtractedText(d: Dict, h: Header, tag: nat, text: Text, delim: Byte, t: nat)
    requires HeaderTok(d, tag, text, delim)
    ensures
      var r := ExtractHeader(h, tag, text);
      r.Done? && HeaderText(r.value, t) == if t == tag && IsTextHeaderTag(t) then Some(text) else HeaderText(h, t)
  {
  }

  /** Extraction keeps the text of every textual header field. */
  lemma {:induction false} TextsExtracted(d: Dict, h: Header, st: Stream, lo: nat, delim: Byte, tag: nat)
    requires HeaderOk(d, st, lo, delim)
    ensures HeaderText(HeaderValues(h, st), tag)
         == if IsTextHeaderTag(tag) then OrElse(StreamText(st, tag), HeaderText(h, tag)) else HeaderText(h, tag)
    decreases st
  {
    if st.Next? {
      var next := HeaderRank(st.tok.tag) + 1;
      ExtractedText(d, h, st.tok.tag, st.tok.text, delim, tag);
      hide ExtractHeader, HeaderTok, HeaderText, HeaderRank;
      TextsExtracted(d, ExtractHeader(h, st.tok.tag, st.tok.text).value, st.rest, next, delim, tag);
      if st.tok.tag == tag {
        RankPassed(d, st.rest, next, delim, tag);
      }
    }
  }

  /** Extraction parses the sequence number and the two flags. */
  lemma {:induction false} NumbersExtracted(d: Dict, h: Header, st: Stream, lo: nat, delim: Byte)
    requires HeaderOk(d, st, lo, delim)
    ensures
      var r := HeaderValues(h, st);
      var seqNum, dup, resend := StreamText(st, MSG_SEQ_NUM), StreamText(st, POSS_DUP_FLAG),
          StreamText(st, POSS_RESEND);
      && (if seqNum.None? then r.seqNum == h.seqNum else ParseUnsigned(seqNum.value) == Some(r.seqNum))
      && (if dup.None? then r.possDup == h.possDup else ParseBoolean(dup.value) == Some(r.possDup))
      && (if resend.None? then r.possResend == h.possResend else ParseBoolean(resend.value) == Some(r.possResend))
    decreases st
  {
    if st.Next? {
      var tag, next := st.tok.tag, HeaderRank(st.tok.tag) + 1;
      NumbersExtracted(d, ExtractHeader(h, tag, st.tok.text).value, st.rest, next, delim);
      if tag == MSG_SEQ_NUM || tag == POSS_DUP_FLAG || tag == POSS_RESEND {
        RankPassed(d, st.rest, next, delim, tag);
      }
    }
  }

  /** A decoded header says what the options said, field by field. */
  ghost predicate HeaderSent(h: Header, msgType: Text, o: F.Options, now: Text) {
    && h.seqNum == (if o.msgSeqNum == 0 then 1 else o.msgSeqNum)
    && h.possDup == o.possDup && h.possResend == o.possResend
    && forall tag :: HeaderText(h, tag)
                  == if tag == MSG_TYPE || IsTextHeaderTag(tag) then SentText(msgType, o, now, tag) else None
  }

  lemma TextReads(d: Dict, msgType: Text, o: F.Options, now: Text, delim: Byte, tag: nat)
    requires HeaderOk(d, HeaderRest(msgType, o, now), 1, delim) && msgType != []
    ensures
      var h := HeaderValues(EMPTY_HEADER.(texts := map[MSG_TYPE := msgType]), HeaderRest(msgType, o, now));
      HeaderText(h, tag) == if tag == MSG_TYPE || IsTextHeaderTag(tag) then SentText(msgType, o, now, tag) else None
  {
    HeaderSays(msgType, o, now, tag);
    assert F.EmitHeader(msgType, o, now, E).tok.tag == MSG_TYPE;
    hide F.EmitHeader, HeaderOk, HeaderValues;
    TextsExtracted(d, EMPTY_HEADER.(texts := map[MSG_TYPE := msgType]), HeaderRest(msgType, o, now), 1, delim, tag);
  }

  lemma HeaderReads(d: Dict, msgType: Text, o: F.Options, now: Text, delim: Byte)
    requires OptionsOk(d, msgType, o, now, delim) && msgType != []
    ensures HeaderSent(HeaderValues(EMPTY_HEADER.(texts := map[MSG_TYPE := msgType]), HeaderRest(msgType, o, now)),
                       msgType, o, now)
  {
    hide F.EmitHeader, HeaderOk, HeaderValues, OptionsOk, F.SeqText, ParseUnsigned, HeaderText, HeaderRest, HeaderTok;
    HeaderRestOk(d, msgType, o, now, delim);
    NumbersRead(d, msgType, o, now, delim);
    var h0, st := EMPTY_HEADER.(texts := map[MSG_TYPE := msgType]), HeaderRest(msgType, o, now);
    forall tag
      ensures HeaderText(HeaderValues(h0, st), tag)
           == if tag == MSG_TYPE || IsTextHeaderTag(tag) then SentText(msgType, o, now, tag) else None
    {
      TextReads(d, msgType, o, now, delim, tag);
    }
  }

  lemma NumbersRead(d: Dict, msgType: Text, o: F.Options, now: Text, delim: Byte)
    requires OptionsOk(d, msgType, o, now, delim) && msgType != []
    ensures
      var h := HeaderValues(EMPTY_HEADER.(texts := map[MSG_TYPE := msgType]), HeaderRest(msgType, o, now));
      && h.seqNum == (if o.msgSeqNum == 0 then 1 else o.msgSeqNum)
      && h.possDup == o.possDup && h.possResend == o.possResend
  {
    hide F.EmitHeader, HeaderOk, HeaderValues, F.SeqText, ParseUnsigned, HeaderTok;
    HeaderRestOk(d, msgType, o, now, delim);
    SeqTextParses(d, o, delim);
    hide OptionsOk;
    HeaderStarts(msgType, o, now);
    HeaderSays(msgType, o, now, MSG_SEQ_NUM);
    HeaderSays(msgType, o, now, POSS_DUP_FLAG);
    HeaderSays(msgType, o, now, POSS_RESEND);
    NumbersExtracted(d, EMPTY_HEADER.(texts := map[MSG_TYPE := msgType]), HeaderRest(msgType, o, now), 1, delim);
  }

  lemma HeaderStarts(msgType: Text, o: F.Options, now: Text)
    ensures F.EmitHeader(msgType, o, now, E).Next? && F.EmitHeader(msgType, o, now, E).tok.tag == MSG_TYPE
  {
    hide F.EmitParties;
  }

  lemma SeqTextParses(d: Dict, o: F.Options, delim: Byte)
    requires HeaderTok(d, MSG_SEQ_NUM, F.SeqText(o), delim)
    ensures ParseUnsigned(F.SeqText(o)) == Some(if o.msgSeqNum == 0 then 1 else o.msgSeqNum)
  {
    ValueOfDigits(if o.msgSeqNum == 0 then 1 else o.msgSeqNum);
  }

  // ---------------------------------------------------------------- the frame

  /** A message type with its rules, a conforming message and fit options. */
  ghost predicate Encodable(d: Dict, msgType: Text, m: O.Message, o: F.Options, now: Text, delim: Byte) {
    && SafeDelimiter(delim) && NormalizeDelimiter(o.delimiter) == delim
    && msgType != [] && delim !in msgType && |msgType| < 0x1_0000 && msgType in d.messages
    && Distinct(d.messages[msgType]) && Conforms(d, d.messages[msgType], {CHECK_SUM}, 0, m, delim)
    && (forall f :: f in m.fields ==> !IsHeaderTag(f.tag)) && (forall g :: g in m.groups ==> !IsHeaderTag(g.countTag))
    && OptionsOk(d, msgType, o, now, delim) && delim !in F.BeginString(o)
  }

  /** The fields of the frame behind BodyLength, in front of `k`. */
  function Inner(d: Dict, msgType: Text, m: O.Message, o: F.Options, now: Text, k: Stream): Stream {
    F.EmitHeader(msgType, o, now, F.EmitMessage(d, msgType, m, k))
  }

  lemma SplitInner(d: Dict, msgType: Text, m: O.Message, o: F.Options, now: Text, k: Stream)
    requires msgType != [] && msgType in d.messages
    ensures Inner(d, msgType, m, o, now, k) == Append(Inner(d, msgType, m, o, now, E), k)
  {
    SplitBody(d, d.messages[msgType], m, true, k);
    SplitHeader(msgType, o, now, F.EmitMessage(d, msgType, m, k));
    SplitHeader(msgType, o, now, F.EmitMessage(d, msgType, m, E));
    AppendAssoc(F.EmitHeader(msgType, o, now, E), F.EmitMessage(d, msgType, m, E), k);
  }

  lemma PrintableInner(d: Dict, msgType: Text, m: O.Message, o: F.Options, now: Text, k: Stream, delim: Byte)
    requires Encodable(d, msgType, m, o, now, delim) && Printable(k, delim)
    ensures Printable(Inner(d, msgType, m, o, now, k), delim)
  {
    var rules := d.messages[msgType];
    NoExtras(d, rules, {CHECK_SUM}, 0, m, delim, true, k);
    PrintablePass(d, rules, 0, {CHECK_SUM}, 0, m, delim, true, k);
    var body := F.EmitMessage(d, msgType, m, k);
    HeaderRestOk(d, msgType, o, now, delim);
    PrintableHeader(d, HeaderRest(msgType, o, now), 1, body, delim);
    SplitHeader(msgType, o, now, body);
  }

  /** Running the decode loop over the header. */
  lemma LoopOverHeader(d: Dict, msgType: Text, o: F.Options, now: Text, body: Stream, delim: Byte) returns (r: Root)
    requires OptionsOk(d, msgType, o, now, delim) && msgType != [] && |msgType| < 0x1_0000 && msgType in d.messages
    ensures GenericLoop(d, StartRoot(F.EmitHeader(msgType, o, now, body)), None)
         == GenericLoop(d, r, Some(d.messages[msgType]))
    ensures RootBefore(d.messages[msgType], 0, r) && r.rest == body && r.fields >= 3 && r.groups == []
    ensures r.slots == [Slot(MSG_TYPE, msgType, TypeOf(d, MSG_TYPE))] + HeaderSlots(d, HeaderRest(msgType, o, now))
    ensures r.header == HeaderValues(EMPTY_HEADER.(texts := map[MSG_TYPE := msgType]), HeaderRest(msgType, o, now))
  {
    var h := HeaderRest(msgType, o, now);
    SplitHeader(msgType, o, now, body);
    HeaderRestOk(d, msgType, o, now, delim);
    var r1 := MsgTypeTaken(d, StartRoot(F.EmitHeader(msgType, o, now, body)), msgType, Append(h, body));
    r := HeaderFields(d, r1, 1, d.messages[msgType], h, body, delim);
  }

  /** Running the decode loop over header, body and CheckSum. */
  lemma LoopOverFrame(d: Dict, msgType: Text, m: O.Message, o: F.Options, now: Text, sum: Text, n: nat, delim: Byte)
    returns (r: Root)
    requires Encodable(d, msgType, m, o, now, delim) && ParseUnsigned(sum) == Some(n)
    ensures GenericLoop(d, StartRoot(Inner(d, msgType, m, o, now, Next(MakeTok(CHECK_SUM, sum), E))), None) == Done(r)
    ensures r.rest == E && r.fields >= 4 && r.issue.NoIssue?
    ensures r.checkSum == Some(CheckSumField(MakeTok(CHECK_SUM, sum).width, n))
    ensures Entry(r.slots, r.groups) == ExpectRoot(d, msgType, m, o, now)
    ensures r.header == HeaderValues(EMPTY_HEADER.(texts := map[MSG_TYPE := msgType]), HeaderRest(msgType, o, now))
  {
    var rules := d.messages[msgType];
    var k := Next(MakeTok(CHECK_SUM, sum), E);
    NoExtras(d, rules, {CHECK_SUM}, 0, m, delim, true, k);
    var r1 := LoopOverHeader(d, msgType, o, now, RulePass(d, rules, 0, m, true, k), delim);
    r := LoopOverBody(d, rules, m, r1, sum, n, delim);
  }

  lemma LoopOverBody(d: Dict, rules: seq<nat>, m: O.Message, r: Root, sum: Text, n: nat, delim: Byte) returns (r1: Root)
    requires RootPending(d, rules, m, delim, 0, r, Next(MakeTok(CHECK_SUM, sum), E)) && ParseUnsigned(sum) == Some(n)
    requires r.groups == []
    ensures GenericLoop(d, r, Some(rules)) == Done(r1)
    ensures r1.rest == E && r1.fields >= r.fields + 1 && r1.issue.NoIssue? && r1.header == r.header
    ensures r1.checkSum == Some(CheckSumField(MakeTok(CHECK_SUM, sum).width, n))
    ensures r1.slots == r.slots + ExpectSlots(d, rules, 0, m) && r1.groups == ExpectGroups(d, rules, 0, 0, m)
  {
    var k := Next(MakeTok(CHECK_SUM, sum), E);
    var r0 := BodyOfEncoding(d, rules, m, delim, 0, r, k);
    r1 := ReadCheckSum(Advance(r0, k.tok, E), k.tok).value;
    assert [] + ExpectGroups(d, rules, 0, 0, m) == ExpectGroups(d, rules, 0, 0, m);
  }

  /** MsgType, the header fields, then the message in rule order. */
  function ExpectRoot(d: Dict, msgType: Text, m: O.Message, o: F.Options, now: Text): Entry
    requires msgType in d.messages
  {
    Entry([Slot(MSG_TYPE, msgType, TypeOf(d, MSG_TYPE))] + HeaderSlots(d, HeaderRest(msgType, o, now))
          + ExpectSlots(d, d.messages[msgType], 0, m),
          ExpectGroups(d, d.messages[msgType], 0, 0, m))
  }

  lemma MsgTypeTaken(d: Dict, r: Root, msgType: Text, rest: Stream) returns (r1: Root)
    requires r == StartRoot(Next(MakeTok(MSG_TYPE, msgType), rest))
    requires |msgType| < 0x1_0000 && msgType in d.messages
    ensures GenericLoop(d, r, None) == GenericLoop(d, r1, Some(d.messages[msgType]))
    ensures Clean(r1, 1) && r1.rest == rest && r1.fields == 3
    ensures r1.slots == [Slot(MSG_TYPE, msgType, TypeOf(d, MSG_TYPE))]
    ensures r1.header == EMPTY_HEADER.(texts := map[MSG_TYPE := msgType])
  {
    ViewKeepsText(msgType);
    var tok := MakeTok(MSG_TYPE, msgType);
    r1 := TakeMsgType(d, Advance(r, tok, rest), tok, Some(d.messages[msgType]));
    UpsertNew([], Slot(MSG_TYPE, msgType, TypeOf(d, MSG_TYPE)));
    assert r1.slots == [] + [Slot(MSG_TYPE, msgType, TypeOf(d, MSG_TYPE))];
  }

  /** The bytes of a frame are the printed fields of the frame. */
  lemma FrameIsWire(begin: Text, inner: Stream, delim: Byte)
    ensures
      var body := Wire(inner, delim);
      var sum := ThreeDigits(Sum(F.Opened(begin, body, delim)) % 256);
      var k := Next(MakeTok(CHECK_SUM, sum), E);
      F.Opened(begin, body, delim) + F.CheckSumField(F.Opened(begin, body, delim), delim)
        == Wire(Next(MakeTok(BEGIN_STRING, begin),
                Next(MakeTok(BODY_LENGTH, Digits(|body| % 0x1_0000_0000)), Append(inner, k))), delim)
  {
    var body := Wire(inner, delim);
    var k := Next(MakeTok(CHECK_SUM, ThreeDigits(Sum(F.Opened(begin, body, delim)) % 256)), E);
    WireAppend(inner, k, delim);
    assert Wire(k, delim) == FieldText(k.tok.tag, k.tok.text, delim) + [];
    var a, b := FieldText(BEGIN_STRING, begin, delim), FieldText(BODY_LENGTH, Digits(|body| % 0x1_0000_0000), delim);
    Assoc(a, b, body + Wire(k, delim));
    Assoc(a + b, body, Wire(k, delim));
  }

  /** The fields of an encoded frame. */
  function FrameStream(begin: Text, inner: Stream, delim: Byte): Stream {
    var body := Wire(inner, delim);
    var sum := ThreeDigits(Sum(F.Opened(begin, body, delim)) % 256);
    Next(MakeTok(BEGIN_STRING, begin),
    Next(MakeTok(BODY_LENGTH, Digits(|body| % 0x1_0000_0000)), Append(inner, Next(MakeTok(CHECK_SUM, sum), E))))
  }

  lemma FrameTokens(d: Dict, msgType: Text, m: O.Message, o: F.Options, now: Text, delim: Byte)
    requires Encodable(d, msgType, m, o, now, delim)
    requires F.GenericFrame(d, msgType, m, o, now).Encoded?
    ensures
      var st := FrameStream(F.BeginString(o), Inner(d, msgType, m, o, now, E), delim);
      Printable(st, delim) && Tokenize(F.GenericFrame(d, msgType, m, o, now).bytes, 0, delim) == st
  {
    hide Wire, Tokenize, FieldText, Digits, ThreeDigits, Sum, Conforms, OptionsOk, F.EmitHeader, F.EmitMessage;
    var begin, inner := F.BeginString(o), Inner(d, msgType, m, o, now, E);
    var st := FrameStream(begin, inner, delim);
    FrameIsWire(begin, inner, delim);
    var k := Next(MakeTok(CHECK_SUM, ThreeDigits(Sum(F.Opened(begin, Wire(inner, delim), delim)) % 256)), E);
    SplitInner(d, msgType, m, o, now, k);
    PrintableInner(d, msgType, m, o, now, k, delim);
    TokenizeWire(F.GenericFrame(d, msgType, m, o, now).bytes, 0, st, delim);
  }

  lemma OpenedWidth(begin: Text, body: Text, n: nat, delim: Byte)
    requires n == |body| % 0x1_0000_0000
    ensures |F.Opened(begin, body, delim)| - |body|
         == MakeTok(BEGIN_STRING, begin).width + MakeTok(BODY_LENGTH, Digits(n)).width
  {
    FieldTextWidth(BEGIN_STRING, begin, delim);
    FieldTextWidth(BODY_LENGTH, Digits(n), delim);
  }

  lemma FrameOpens(begin: Text, body: Text, n: nat, rest: Stream, delim: Byte)
    requires n == |body| < 0x1_0000_0000
    ensures OpenFrame(Next(MakeTok(BEGIN_STRING, begin), Next(MakeTok(BODY_LENGTH, Digits(n)), rest)))
         == Done(Frame(begin, n, |F.Opened(begin, body, delim)| - n, rest))
  {
    hide Digits, ParseUnsigned, FieldText, F.Opened;
    ParseUnsignedOfDigits(n);
    OpenedWidth(begin, body, n, delim);
  }

  /** BodyLength and CheckSum of an encoded frame are what the decoder works out. */
  lemma FrameCloses(begin: Text, inner: Stream, s: Text, k: Stream, f: Frame, r: Root, delim: Byte, verify: bool)
    requires Printable(Append(inner, k), delim) && Printable(k, delim)
    requires s == F.Opened(begin, Wire(inner, delim), delim)
    requires f == Frame(begin, |Wire(inner, delim)|, |s| - |Wire(inner, delim)|, Append(inner, k))
    requires r.rest == E && r.fields >= 4 && r.checkSum == Some(CheckSumField(Width(k), Sum(s) % 256))
    ensures CloseFrame(s + F.CheckSumField(s, delim), f, r, verify)
         == Done(Decoded(begin, f.bodyLength, Sum(s) % 256, r.header, Entry(r.slots, r.groups), r.issue))
  {
    WidthOfWire(Append(inner, k), delim);
    WidthOfWire(k, delim);
    WireAppend(inner, k, delim);
    assert (s + F.CheckSumField(s, delim))[..|s|] == s;
  }

  /** Every encoded conforming message decodes to the message itself. */
  lemma DecodeOfEncode(d: Dict, msgType: Text, m: O.Message, o: F.Options, now: Text, delim: Byte, verify: bool)
    requires Encodable(d, msgType, m, o, now, delim)
    requires F.GenericFrame(d, msgType, m, o, now).Encoded?
    requires |Wire(Inner(d, msgType, m, o, now, E), delim)| < 0x1_0000_0000
    ensures
      var r := Decode(d, F.GenericFrame(d, msgType, m, o, now).bytes, o.delimiter, verify);
      && r.Done? && r.value.issue.NoIssue?
      && r.value.root == ExpectRoot(d, msgType, m, o, now)
      && r.value.beginString == F.BeginString(o)
      && r.value.bodyLength == |Wire(Inner(d, msgType, m, o, now, E), delim)|
      && HeaderSent(r.value.header, msgType, o, now)
  {
    HeaderReads(d, msgType, o, now, delim);
    hide HeaderSent;
    var begin, inner := F.BeginString(o), Inner(d, msgType, m, o, now, E);
    var n := Sum(F.Opened(begin, Wire(inner, delim), delim)) % 256;
    ThreeDigitsParse(n);
    FrameTokens(d, msgType, m, o, now, delim);
    var r := LoopOverFrame(d, msgType, m, o, now, ThreeDigits(n), n, delim);
    SplitInner(d, msgType, m, o, now, Next(MakeTok(CHECK_SUM, ThreeDigits(n)), E));
    PrintableTail(begin, inner, delim);
    var f := ClosePrinted(begin, inner, n, r, delim, verify);
    DecodeSteps(d, F.GenericFrame(d, msgType, m, o, now).bytes, o.delimiter, verify, f, r);
  }

  lemma PrintableTail(begin: Text, inner: Stream, delim: Byte)
    requires Printable(FrameStream(begin, inner, delim), delim)
    ensures Printable(FrameStream(begin, inner, delim).rest.rest, delim)
  {
    assert Printable(FrameStream(begin, inner, delim).rest, delim);
  }

  lemma CheckSumPrints(n: nat, delim: Byte)
    requires SafeDelimiter(delim) && n < 256
    ensures
      var k := Next(MakeTok(CHECK_SUM, ThreeDigits(n)), E);
      Printable(k, delim) && Width(k) == k.tok.width
  {
  }

  /** The framing checks on printed fields. */
  lemma ClosePrinted(begin: Text, inner: Stream, n: nat, r: Root, delim: Byte, verify: bool) returns (f: Frame)
    requires SafeDelimiter(delim) && Printable(Append(inner, Next(MakeTok(CHECK_SUM, ThreeDigits(n)), E)), delim)
    requires |Wire(inner, delim)| < 0x1_0000_0000 && n == Sum(F.Opened(begin, Wire(inner, delim), delim)) % 256
    requires r.rest == E && r.fields >= 4
    requires r.checkSum == Some(CheckSumField(MakeTok(CHECK_SUM, ThreeDigits(n)).width, n))
    ensures OpenFrame(FrameStream(begin, inner, delim)) == Done(f)
    ensures f.rest == Append(inner, Next(MakeTok(CHECK_SUM, ThreeDigits(n)), E))
    ensures
      var s := F.Opened(begin, Wire(inner, delim), delim);
      CloseFrame(s + F.CheckSumField(s, delim), f, r, verify)
        == Done(Decoded(begin, |Wire(inner, delim)|, n, r.header, Entry(r.slots, r.groups), r.issue))
  {
    var k := Next(MakeTok(CHECK_SUM, ThreeDigits(n)), E);
    f := OpenPrinted(begin, inner, Wire(inner, delim), delim, k);
    CheckSumPrints(n, delim);
    FrameCloses(begin, inner, F.Opened(begin, Wire(inner, delim), delim), k, f, r, delim, verify);
  }

  lemma OpenPrinted(begin: Text, inner: Stream, body: Text, delim: Byte, k: Stream) returns (f: Frame)
    requires body == Wire(inner, delim) && |body| < 0x1_0000_0000
    requires k == Next(MakeTok(CHECK_SUM, ThreeDigits(Sum(F.Opened(begin, body, delim)) % 256)), E)
    ensures OpenFrame(FrameStream(begin, inner, delim)) == Done(f)
    ensures |F.Opened(begin, body, delim)| >= |body|
    ensures f == Frame(begin, |body|, |F.Opened(begin, body, delim)| - |body|, Append(inner, k))
  {
    hide Wire, Sum, ThreeDigits, Digits, Append, OpenFrame, FieldText;
    OpenedWidth(begin, body, |body|, delim);
    FrameOpens(begin, body, |body|, Append(inner, k), delim);
    f := Frame(begin, |body|, |F.Opened(begin, body, delim)| - |body|, Append(inner, k));
  }

  lemma DecodeSteps(d: Dict, s: Text, delim: Byte, verify: bool, f: Frame, r: Root)
    requires OpenFrame(Tokenize(s, 0, NormalizeDelimiter(delim))) == Done(f)
    requires GenericLoop(d, StartRoot(f.rest), None) == Done(r)
    ensures Decode(d, s, delim, verify) == CloseFrame(s, f, r, verify)
  {
  }

  // ---------------------------------------------------------------- frames of given fields

  lemma {:induction false} PrintableBoth(a: Stream, b: Stream, delim: Byte)
    requires Printable(a, delim) && Printable(b, delim)
    ensures Printable(Append(a, b), delim)
  {
    if a.Next? {
      PrintableBoth(a.rest, b, delim);
    }
  }

  lemma DigitsAvoid(n: nat, delim: Byte)
    requires !IsDigit(delim)
    ensures delim !in Digits(n)
  {
  }

  lemma FramePrintable(begin: Text, inner: Stream, delim: Byte)
    requires SafeDelimiter(delim) && delim !in begin && Printable(inner, delim)
    ensures Printable(FrameStream(begin, inner, delim), delim)
  {
    var body := Wire(inner, delim);
    var n := Sum(F.Opened(begin, body, delim)) % 256;
    CheckSumPrints(n, delim);
    PrintableBoth(inner, Next(MakeTok(CHECK_SUM, ThreeDigits(n)), E), delim);
    DigitsAvoid(|body| % 0x1_0000_0000, delim);
  }

  /** The bytes of a frame around given fields. */
  function FrameBytes(begin: Text, inner: Stream, delim: Byte): Text {
    var s := F.Opened(begin, Wire(inner, delim), delim);
    s + F.CheckSumField(s, delim)
  }

  /** The CheckSum of that frame. */
  function FrameSum(begin: Text, inner: Stream, delim: Byte): nat {
    Sum(F.Opened(begin, Wire(inner, delim), delim)) % 256
  }

  function SumTok(n: nat): Tok {
    MakeTok(CHECK_SUM, ThreeDigits(n))
  }

  /** A loop that has read all fields of the frame, its CheckSum last. */
  predicate ReadAll(r: Root, n: nat) {
    r.rest == E && r.fields >= 4 && r.checkSum == Some(CheckSumField(SumTok(n).width, n))
  }

  /** Printed fields open as they were, and a loop that reads them all is accepted. */
  lemma FieldsFramed(begin: Text, inner: Stream, delim: Byte) returns (f: Frame)
    requires SafeDelimiter(delim) && delim !in begin && Printable(inner, delim)
    requires |Wire(inner, delim)| < 0x1_0000_0000
    ensures
      var s, n := FrameBytes(begin, inner, delim), FrameSum(begin, inner, delim);
      && OpenFrame(Tokenize(s, 0, delim)) == Done(f) && f.rest == Append(inner, Next(SumTok(n), E))
      && forall r, verify :: ReadAll(r, n) ==>
           CloseFrame(s, f, r, verify)
           == Done(Decoded(begin, |Wire(inner, delim)|, n, r.header, Entry(r.slots, r.groups), r.issue))
  {
    hide Wire, Sum, ThreeDigits, Digits, Append, OpenFrame, FieldText, CloseFrame, Printable, Tokenize;
    var s, n := FrameBytes(begin, inner, delim), FrameSum(begin, inner, delim);
    var st := FrameStream(begin, inner, delim);
    FrameIsWire(begin, inner, delim);
    FramePrintable(begin, inner, delim);
    assert At(s, 0, Wire(st, delim)) by { assert s == Wire(st, delim) && s[0..|s|] == s; }
    TokenizeWire(s, 0, st, delim);
    PrintableTail(begin, inner, delim);
    f := OpenPrinted(begin, inner, Wire(inner, delim), delim, Next(SumTok(n), E));
    forall r, verify | ReadAll(r, n)
      ensures CloseFrame(s, f, r, verify)
           == Done(Decoded(begin, |Wire(inner, delim)|, n, r.header, Entry(r.slots, r.groups), r.issue))
    {
      var f1 := ClosePrinted(begin, inner, n, r, delim, verify);
    }
  }
}
