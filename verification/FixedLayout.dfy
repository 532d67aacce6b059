/** Writing messages of one type through a fixed table of slots over an append-only buffer. */
module FixedLayout {
  import opened Optional
  import opened Bytes
  import opened FixTags
  import opened Dictionary
  import opened Scanner
  import opened TokenStream
  import opened EncoderSplit
  import opened EncodeBuffer
  import opened Framing

  datatype Range = Range(offset: nat, length: nat)

  /** One printed rule: a group, or the field in a slot. */
  datatype Step = Step(tag: nat, group: bool, slot: nat)

  datatype Layout = Layout(msgType: Text, fieldTags: seq<nat>, steps: seq<Step>, tagToSlot: seq<int>)

  /** Entries are kept as printed bytes. */
  datatype GroupEncode = GroupEncode(countTag: nat, entries: seq<Text>)

  // ---------------------------------------------------------------- layouts

  /** Rules whose fields are written by the caller. */
  function BodyTags(rules: seq<nat>, n: nat): seq<nat>
    requires n <= |rules|
  {
    if n == 0 then []
    else if IsEnvelopeTag(rules[n - 1]) then BodyTags(rules, n - 1)
    else BodyTags(rules, n - 1) + [rules[n - 1]]
  }

  function SlotIndex(l: Layout, tag: nat): int {
    if tag < |l.tagToSlot| then l.tagToSlot[tag] else -1
  }

  /** Slots are numbered by distinct tags, and the table and the steps agree with them. */
  ghost predicate LayoutOk(l: Layout) {
    && Distinct(l.fieldTags)
    && (forall i :: 0 <= i < |l.fieldTags| ==> SlotIndex(l, l.fieldTags[i]) == i)
    && (forall t :: 0 <= SlotIndex(l, t) ==> SlotIndex(l, t) < |l.fieldTags| && l.fieldTags[SlotIndex(l, t)] == t)
    && forall k :: 0 <= k < |l.steps| && !l.steps[k].group ==>
         l.steps[k].slot < |l.fieldTags| && l.fieldTags[l.steps[k].slot] == l.steps[k].tag
  }

  /** The steps are the body rules in order, each known as group or field. */
  ghost predicate Follows(l: Layout, d: Dict, rules: seq<nat>) {
    && |l.steps| == |BodyTags(rules, |rules|)|
    && forall k :: 0 <= k < |l.steps| ==>
         l.steps[k].tag == BodyTags(rules, |rules|)[k] && (l.steps[k].group <==> l.steps[k].tag in d.groups)
  }

  function MaxTag(tags: seq<nat>, n: nat): (m: nat)
    requires n <= |tags|
  {
    if n == 0 then 0 else if tags[n - 1] > MaxTag(tags, n - 1) then tags[n - 1] else MaxTag(tags, n - 1)
  }

  lemma {:induction false} MaxTagBounds(tags: seq<nat>, n: nat, i: nat)
    requires i < n <= |tags|
    ensures tags[i] <= MaxTag(tags, n)
  {
    if i < n - 1 {
      MaxTagBounds(tags, n - 1, i);
    }
  }

  lemma {:induction false} BodyTagsMember(rules: seq<nat>, n: nat, t: nat)
    requires n <= |rules|
    ensures t in BodyTags(rules, n) <==> t in rules[..n] && !IsEnvelopeTag(t)
  {
    if n > 0 {
      BodyTagsMember(rules, n - 1, t);
      assert rules[..n] == rules[..n - 1] + [rules[n - 1]];
    }
  }

  /** The table from tags to slots. */
  method IndexSlots(tags: seq<nat>) returns (table: seq<int>)
    requires Distinct(tags)
    ensures forall i :: 0 <= i < |tags| ==> tags[i] < |table| && table[tags[i]] == i
    ensures forall t :: 0 <= t < |table| && table[t] >= 0 ==> table[t] < |tags| && tags[table[t]] == t
    ensures forall t :: 0 <= t < |table| ==> table[t] >= -1
  {
    table := [];
    if tags == [] {
      return;
    }
    table := seq(MaxTag(tags, |tags|) + 1, i => -1);
    for i := 0 to |tags|
      invariant |table| == MaxTag(tags, |tags|) + 1
      invariant forall j :: 0 <= j < i ==> tags[j] < |table| && table[tags[j]] == j
      invariant forall t :: 0 <= t < |table| && table[t] >= 0 ==> table[t] < i && tags[table[t]] == t
      invariant forall t :: 0 <= t < |table| ==> table[t] >= -1
    {
      MaxTagBounds(tags, |tags|, i);
      table := table[tags[i] := i];
    }
  }

  /** Position of a field's slot while the layout is built. */
  method FindSlot(tags: seq<nat>, tag: nat) returns (slot: nat)
    requires tag in tags
    ensures slot < |tags| && tags[slot] == tag
  {
    slot := 0;
    while slot < |tags| && tags[slot] != tag
      invariant slot <= |tags| && tag !in tags[..slot]
    {
      assert tags[..slot + 1] == tags[..slot] + [tags[slot]];
      slot := slot + 1;
    }
    assert tags[..|tags|] == tags;
  }

  method Build(d: Dict, msgType: Text) returns (r: Option<Layout>)
    requires msgType in d.messages ==> Distinct(d.messages[msgType])
    ensures r.Some? <==> msgType in d.messages
    ensures r.Some? ==> r.value.msgType == msgType && LayoutOk(r.value) && Follows(r.value, d, d.messages[msgType])
    ensures r.Some? ==>
      forall t :: t in r.value.fieldTags <==> t in d.messages[msgType] && !IsEnvelopeTag(t) && t !in d.groups
  {
    if msgType !in d.messages {
      return None;
    }
    var rules := d.messages[msgType];
    var fieldTags: seq<nat> := [];
    for i := 0 to |rules|
      invariant Distinct(fieldTags)
      invariant forall t :: t in fieldTags <==> t in rules[..i] && !IsEnvelopeTag(t) && t !in d.groups
    {
      assert rules[..i + 1] == rules[..i] + [rules[i]];
      if !IsEnvelopeTag(rules[i]) && rules[i] !in d.groups {
        fieldTags := fieldTags + [rules[i]];
      }
    }
    assert rules[..|rules|] == rules;
    var steps := PlanSteps(d, rules, fieldTags);
    var table := IndexSlots(fieldTags);
    r := Some(Layout(msgType, fieldTags, steps, table));
  }

  method PlanSteps(d: Dict, rules: seq<nat>, fieldTags: seq<nat>) returns (steps: seq<Step>)
    requires forall t :: t in rules && !IsEnvelopeTag(t) && t !in d.groups ==> t in fieldTags
    ensures |steps| == |BodyTags(rules, |rules|)|
    ensures forall k :: 0 <= k < |steps| ==>
      && steps[k].tag == BodyTags(rules, |rules|)[k] && (steps[k].group <==> steps[k].tag in d.groups)
      && (!steps[k].group ==> steps[k].slot < |fieldTags| && fieldTags[steps[k].slot] == steps[k].tag)
  {
    steps := [];
    for i := 0 to |rules|
      invariant |steps| == |BodyTags(rules, i)|
      invariant forall k :: 0 <= k < |steps| ==>
        && steps[k].tag == BodyTags(rules, i)[k] && (steps[k].group <==> steps[k].tag in d.groups)
        && (!steps[k].group ==> steps[k].slot < |fieldTags| && fieldTags[steps[k].slot] == steps[k].tag)
    {
      if IsEnvelopeTag(rules[i]) {
        continue;
      }
      if rules[i] in d.groups {
        steps := steps + [Step(rules[i], true, 0)];
      } else {
        var slot := FindSlot(fieldTags, rules[i]);
        steps := steps + [Step(rules[i], false, slot)];
      }
    }
  }

  // ---------------------------------------------------------------- what is printed

  function Latest(latest: map<nat, Text>, tag: nat): Text {
    if tag in latest then latest[tag] else []
  }

  /** First group with the count tag at or after `i`. */
  function FindGroup(groups: seq<GroupEncode>, i: nat, tag: nat): Option<seq<Text>>
    requires i <= |groups|
    decreases |groups| - i
  {
    if i == |groups| then None
    else if groups[i].countTag == tag then Some(groups[i].entries)
    else FindGroup(groups, i + 1, tag)
  }

  /** Entry bytes end their fields in SOH; other delimiters take its place. */
  function Redelimited(t: Text, delim: Byte): (r: Text)
    ensures |r| == |t|
  {
    if t == [] then [] else Redelimited(t[..|t| - 1], delim) + [if t[|t| - 1] == SOH then delim else t[|t| - 1]]
  }

  function EntryBytes(entries: seq<Text>, i: nat, delim: Byte): Text
    requires i <= |entries|
    decreases |entries| - i
  {
    if i == |entries| then [] else Redelimited(entries[i], delim) + EntryBytes(entries, i + 1, delim)
  }

  function StepBytes(l: Layout, k: nat, latest: map<nat, Text>, groups: seq<GroupEncode>, delim: Byte): Text
    requires k < |l.steps|
  {
    var tag := l.steps[k].tag;
    if l.steps[k].group then
      match FindGroup(groups, 0, tag)
      case None => []
      case Some(entries) =>
        FieldText(tag, Digits(|entries| % 0x1_0000_0000), delim) + EntryBytes(entries, 0, delim)
    else if Latest(latest, tag) == [] then []
    else FieldText(tag, Latest(latest, tag), delim)
  }

  /** The body from step `k` on: the latest non-empty value of each tag and the groups in use, in rule order. */
  function FixedBody(l: Layout, k: nat, latest: map<nat, Text>, groups: seq<GroupEncode>, delim: Byte): Text
    requires k <= |l.steps|
    decreases |l.steps| - k
  {
    if k == |l.steps| then [] else StepBytes(l, k, latest, groups, delim) + FixedBody(l, k + 1, latest, groups, delim)
  }

  /** Session data bound in advance. */
  datatype Session = Session(beginString: Text, senderCompId: Text, targetCompId: Text)

  /** Printed pieces of a bound header, with the places of the length digits and of the body. */
  datatype Fragments = Fragments(prefix: Text, lengthOffset: nat, bodyStart: nat, sender: Text, target: Text)

  /** The pieces as printed from the session's texts. */
  ghost predicate Printed(f: Fragments, l: Layout, s: Session) {
    && f.prefix == OpenedBlank(s.beginString, [], SOH) + FieldText(MSG_TYPE, l.msgType, SOH)
    && f.lengthOffset == LengthOffset(s.beginString, SOH) && f.bodyStart == |OpenedBlank(s.beginString, [], SOH)|
    && f.sender == FieldText(SENDER_COMP_ID, s.senderCompId, SOH)
        && f.target == FieldText(TARGET_COMP_ID, s.targetCompId, SOH)
  }

  function OptionalText(tag: nat, text: Text, delim: Byte): Text {
    if text == [] then [] else FieldText(tag, text, delim)
  }

  /** MsgType to TargetSubID behind `start`; MsgType always ends in SOH. */
  function Head(start: Text, l: Layout, sender: Text, target: Text, o: Options, delim: Byte): Text {
    start + FieldText(MSG_TYPE, l.msgType, SOH) + FieldText(MSG_SEQ_NUM, SeqText(o), delim)
    + FieldText(SENDER_COMP_ID, sender, delim) + OptionalText(SENDER_SUB_ID, o.senderSubId, delim)
    + FieldText(TARGET_COMP_ID, target, delim) + OptionalText(TARGET_SUB_ID, o.targetSubId, delim)
  }

  /** The rest of the header. */
  function HeadTail(l: Layout, o: Options, now: Text, delim: Byte): Text {
    Wire(EmitTail(o, now, if l.msgType == LOGON then o.defaultApplVerId else [], E), delim)
  }

  /** The session whose texts are printed: the bound one where the delimiter is SOH. */
  function SessionFor(bound: Option<Session>, o: Options, delim: Byte): Session {
    if bound.Some? && delim == SOH then bound.value else Session(o.beginString, o.senderCompId, o.targetCompId)
  }

  function FixedFrame(l: Layout, bound: Option<Session>, latest: map<nat, Text>, groups: seq<GroupEncode>, o: Options,
      now: Text)
    : Encoded
  {
    var delim := NormalizeDelimiter(o.delimiter);
    var s := SessionFor(bound, o, delim);
    MakeFrame(s.beginString,
              Head([], l, s.senderCompId, s.targetCompId, o, delim) + HeadTail(l, o, now, delim)
              + FixedBody(l, 0, latest, groups, delim), delim)
  }

  /** Prints the pieces of a session's header. */
  method PrintFragments(l: Layout, session: Session) returns (f: Fragments)
    ensures Printed(f, l, session)
  {
    hide FieldText, Digits;
    var b := new Buffer();
    b.AppendField(BEGIN_STRING, session.beginString, SOH);
    var lengthOffset := |b.out| + |Digits(BODY_LENGTH)| + 1;
    b.AppendField(BODY_LENGTH, PLACEHOLDER, SOH);
    var bodyStart := |b.out|;
    b.AppendField(MSG_TYPE, l.msgType, SOH);
    var s := new Buffer();
    s.AppendField(SENDER_COMP_ID, session.senderCompId, SOH);
    var t := new Buffer();
    t.AppendField(TARGET_COMP_ID, session.targetCompId, SOH);
    f := Fragments(b.out, lengthOffset, bodyStart, s.out, t.out);
  }

  // ---------------------------------------------------------------- the writer

  class Writer {
    const layout: Layout
    var ranges: seq<Range>
    var buffer: Text
    var groups: seq<GroupEncode>
    var bound: Option<Fragments>
    ghost var session: Option<Session>
    /** The value last set for each tag of the layout since the last clear. */
    ghost var latest: map<nat, Text>

    ghost predicate Valid()
      reads this
    {
      && LayoutOk(layout) && |ranges| == |layout.fieldTags|
      && bound.Some? == session.Some? && (bound.Some? ==> Printed(bound.value, layout, session.value))
      && forall i :: 0 <= i < |ranges| ==> RangeShows(buffer, ranges[i], Latest(latest, layout.fieldTags[i]))
    }

    constructor (layout: Layout)
      requires LayoutOk(layout)
      ensures Valid() && this.layout == layout && latest == map[] && groups == [] && session == None
    {
      this.layout := layout;
      ranges := seq(|layout.fieldTags|, i => Range(0, 0));
      buffer, groups, bound := [], [], None;
      latest, session := map[], None;
    }

    /** A text as it is to be printed; numbers, characters and flags are formatted first. */
    method Set(tag: nat, value: Text)
      requires Valid() && |buffer| + |value| < 0x1_0000_0000
      modifies this`ranges, this`buffer, this`latest
      ensures Valid()
      ensures latest == if tag in layout.fieldTags then old(latest)[tag := value] else old(latest)
    {
      var i := SlotIndex(layout, tag);
      if i >= 0 {
        ghost var before, was := buffer, ranges;
        ranges := ranges[i := Range(|buffer|, |value|)];
        buffer := buffer + value;
        latest := latest[tag := value];
        forall j | 0 <= j < |ranges| ensures RangeShows(buffer, ranges[j], Latest(latest, layout.fieldTags[j])) {
          if j == i {
            NewRangeShows(before, value);
          } else {
            OldRangeShows(before, value, was[j], Latest(old(latest), layout.fieldTags[j]));
          }
        }
      }
    }

    /** Groups that have been used stay, without entries. */
    method Clear()
      requires Valid()
      modifies this`ranges, this`buffer, this`groups, this`latest
      ensures Valid() && latest == map[]
      ensures |groups| == |old(groups)|
      ensures forall g :: 0 <= g < |groups| ==> groups[g] == GroupEncode(old(groups)[g].countTag, [])
    {
      ranges := seq(|ranges|, i => Range(0, 0));
      buffer := [];
      latest := map[];
      for g := 0 to |groups|
        modifies this`groups
        invariant |groups| == |old(groups)|
        invariant forall j :: 0 <= j < g ==> groups[j] == GroupEncode(old(groups)[j].countTag, [])
        invariant forall j :: g <= j < |groups| ==> groups[j] == old(groups)[j]
      {
        groups := groups[g := groups[g].(entries := [])];
      }
    }

    /** An entry of a group, as printed fields. */
    method AddGroupEntry(tag: nat, bytes: Text)
      modifies this`groups
      ensures
        var before := FindGroup(old(groups), 0, tag);
        FindGroup(groups, 0, tag) == Some((if before.Some? then before.value else []) + [bytes])
      ensures forall t :: t != tag ==> FindGroup(groups, 0, t) == FindGroup(old(groups), 0, t)
    {
      for g := 0 to |groups|
        invariant FindGroup(groups, g, tag) == FindGroup(groups, 0, tag)
        invariant forall k :: 0 <= k < g ==> groups[k].countTag != tag
      {
        if groups[g].countTag == tag {
          ReplaceGroup(groups, 0, g, groups[g].entries + [bytes]);
          groups := groups[g := groups[g].(entries := groups[g].entries + [bytes])];
          return;
        }
      }
      AppendGroup(groups, 0, GroupEncode(tag, [bytes]));
      assert [] + [bytes] == [bytes];
      groups := groups + [GroupEncode(tag, [bytes])];
    }

    method BindSession(beginString: Text, sender: Text, target: Text)
      requires Valid()
      modifies this`bound, this`session
      ensures Valid() && session == Some(Session(beginString, sender, target))
    {
      hide Printed, LayoutOk, RangeShows;
      var fragments := PrintFragments(layout, Session(beginString, sender, target));
      bound := Some(fragments);
      session := Some(Session(beginString, sender, target));
    }
  }

  ghost predicate RangeShows(buffer: Text, r: Range, text: Text) {
    r.offset + r.length <= |buffer| && buffer[r.offset..r.offset + r.length] == text
  }

  lemma NewRangeShows(buffer: Text, value: Text)
    ensures RangeShows(buffer + value, Range(|buffer|, |value|), value)
  {
  }

  lemma OldRangeShows(buffer: Text, value: Text, r: Range, text: Text)
    requires RangeShows(buffer, r, text)
    ensures RangeShows(buffer + value, r, text)
  {
    assert (buffer + value)[r.offset..r.offset + r.length] == buffer[r.offset..r.offset + r.length];
  }

  lemma {:induction false} ReplaceGroup(groups: seq<GroupEncode>, i: nat, g: nat, entries: seq<Text>)
    requires i <= g < |groups| && forall k :: i <= k < g ==> groups[k].countTag != groups[g].countTag
    ensures
      var more := groups[g := groups[g].(entries := entries)];
      && FindGroup(more, i, groups[g].countTag) == Some(entries)
      && forall t :: t != groups[g].countTag ==> FindGroup(more, i, t) == FindGroup(groups, i, t)
    decreases |groups| - i
  {
    var more := groups[g := groups[g].(entries := entries)];
    if i < g {
      ReplaceGroup(groups, i + 1, g, entries);
    } else {
      SameBehind(groups, more, g + 1);
    }
  }

  lemma {:induction false} SameBehind(a: seq<GroupEncode>, b: seq<GroupEncode>, i: nat)
    requires |a| == |b| && i <= |a| && forall k :: i <= k < |a| ==> a[k] == b[k]
    ensures forall t :: FindGroup(a, i, t) == FindGroup(b, i, t)
    decreases |a| - i
  {
    if i < |a| {
      SameBehind(a, b, i + 1);
    }
  }

  lemma {:induction false} AppendGroup(groups: seq<GroupEncode>, i: nat, g: GroupEncode)
    requires i <= |groups|
    ensures forall t ::
      FindGroup(groups + [g], i, t)
        == if FindGroup(groups, i, t).Some? then FindGroup(groups, i, t) else if t == g.countTag then Some(g.entries)
            else None
    decreases |groups| - i
  {
    if i < |groups| {
      AppendGroup(groups, i + 1, g);
    }
  }

  // ---------------------------------------------------------------- printing

  lemma HeadFrom(start: Text, l: Layout, sender: Text, target: Text, o: Options, delim: Byte)
    ensures Head(start, l, sender, target, o, delim) == start + Head([], l, sender, target, o, delim)
  {
    hide FieldText;
    var a, b, c := FieldText(MSG_TYPE, l.msgType, SOH), FieldText(MSG_SEQ_NUM, SeqText(o), delim),
        FieldText(SENDER_COMP_ID, sender, delim);
    var x, y, z := OptionalText(SENDER_SUB_ID, o.senderSubId, delim), FieldText(TARGET_COMP_ID, target, delim),
        OptionalText(TARGET_SUB_ID, o.targetSubId, delim);
    assert [] + a == a;
    Assoc(start, a, b);
    Assoc(start, a + b, c);
    Assoc(start, a + b + c, x);
    Assoc(start, a + b + c + x, y);
    Assoc(start, a + b + c + x + y, z);
  }

  /** The slow path: each header field formatted from the options. */
  method StartFromOptions(b: Buffer, l: Layout, o: Options, delim: Byte)
    modifies b
    ensures b.out == Head(OpenedBlank(o.beginString, [], delim), l, o.senderCompId, o.targetCompId, o, delim)
  {
    hide FieldText, Digits;
    OpenTracked(b, o.beginString, delim);
    b.AppendField(MSG_TYPE, l.msgType, SOH);
    b.AppendField(MSG_SEQ_NUM, SeqText(o), delim);
    b.AppendField(SENDER_COMP_ID, o.senderCompId, delim);
    AppendOptional(b, SENDER_SUB_ID, o.senderSubId, delim);
    b.AppendField(TARGET_COMP_ID, o.targetCompId, delim);
    AppendOptional(b, TARGET_SUB_ID, o.targetSubId, delim);
  }

  /** The fast path: prepared fragments, with the sequence number and sub ids between them. */
  method StartFromFragments(b: Buffer, f: Fragments, l: Layout, o: Options, ghost s: Session)
    requires Printed(f, l, s)
    modifies b
    ensures b.out == Head(OpenedBlank(s.beginString, [], SOH), l, s.senderCompId, s.targetCompId, o, SOH)
  {
    hide FieldText, Digits;
    b.out := f.prefix;
    b.AppendField(MSG_SEQ_NUM, SeqText(o), SOH);
    b.Append(f.sender);
    AppendOptional(b, SENDER_SUB_ID, o.senderSubId, SOH);
    b.Append(f.target);
    AppendOptional(b, TARGET_SUB_ID, o.targetSubId, SOH);
  }

  method AppendOptional(b: Buffer, tag: nat, text: Text, delim: Byte)
    modifies b`out
    ensures b.out == old(b.out) + OptionalText(tag, text, delim)
  {
    if text != [] {
      b.AppendField(tag, text, delim);
    }
  }

  method AppendHeadTail(b: Buffer, l: Layout, o: Options, now: Text, delim: Byte)
    modifies b
    ensures b.out == old(b.out) + HeadTail(l, o, now, delim)
  {
    hide FieldText, Digits, Wire, EmitTail, Sum;
    var version := if l.msgType == LOGON then o.defaultApplVerId else [];
    b.checksum := Sum(b.out) % 0x1_0000_0000;
    Framing.AppendTail(b, o, now, version, delim, E);
    NothingLeft(b.out, delim);
  }

  lemma NothingLeft(out: Text, delim: Byte)
    ensures out + Wire(E, delim) == out
  {
  }

  /** Entry bytes with the delimiter in place of SOH. */
  method AppendRedelimited(b: Buffer, t: Text, delim: Byte)
    modifies b`out
    ensures b.out == old(b.out) + Redelimited(t, delim)
  {
    if delim == SOH {
      SohStays(t);
      b.Append(t);
      return;
    }
    for i := 0 to |t|
      invariant b.out == old(b.out) + Redelimited(t[..i], delim)
    {
      assert t[..i + 1][..i] == t[..i];
      b.Append([if t[i] == SOH then delim else t[i]]);
    }
    assert t[..|t|] == t;
  }

  lemma {:induction false} SohStays(t: Text)
    ensures Redelimited(t, SOH) == t
  {
    if t != [] {
      SohStays(t[..|t| - 1]);
    }
  }

  method AppendEntries(b: Buffer, entries: seq<Text>, delim: Byte)
    modifies b`out
    ensures b.out == old(b.out) + EntryBytes(entries, 0, delim)
  {
    hide Redelimited;
    for i := 0 to |entries|
      invariant b.out + EntryBytes(entries, i, delim) == old(b.out) + EntryBytes(entries, 0, delim)
    {
      Assoc(b.out, Redelimited(entries[i], delim), EntryBytes(entries, i + 1, delim));
      AppendRedelimited(b, entries[i], delim);
    }
    assert b.out + [] == b.out;
  }

  method AppendStep(b: Buffer, w: Writer, k: nat, delim: Byte)
    requires w.Valid() && k < |w.layout.steps|
    modifies b`out
    ensures b.out == old(b.out) + StepBytes(w.layout, k, w.latest, w.groups, delim)
  {
    hide Redelimited, EntryBytes, FieldText, Digits;
    var step := w.layout.steps[k];
    if !step.group {
      var r := w.ranges[step.slot];
      assert RangeShows(w.buffer, r, Latest(w.latest, step.tag));
      if r.length > 0 {
        b.AppendField(step.tag, w.buffer[r.offset..r.offset + r.length], delim);
      }
      return;
    }
    for g := 0 to |w.groups|
      invariant b.out == old(b.out) && FindGroup(w.groups, g, step.tag) == FindGroup(w.groups, 0, step.tag)
    {
      if w.groups[g].countTag == step.tag {
        var entries := w.groups[g].entries;
        b.AppendField(step.tag, Digits(|entries| % 0x1_0000_0000), delim);
        AppendEntries(b, entries, delim);
        Assoc(old(b.out), FieldText(step.tag, Digits(|entries| % 0x1_0000_0000), delim), EntryBytes(entries, 0, delim));
        return;
      }
    }
  }

  /** Backfills the length at its place and sums up the finished buffer. */
  method CloseFixed(b: Buffer, lengthOffset: nat, bodyStart: nat, delim: Byte, ghost begin: Text, ghost body: Text)
    returns (ok: bool)
    requires b.out == OpenedBlank(begin, body, delim) && bodyStart == |b.out| - |body|
      && lengthOffset == LengthOffset(begin, delim)
    modifies b`out
    ensures
      var r := MakeFrame(begin, body, delim);
      ok == r.Encoded? && (ok ==> b.out == r.bytes)
  {
    hide FieldText, Sum, Opened, OpenedBlank, LengthOffset;
    var digits := FormatUint32((|b.out| - bodyStart) % 0x1_0000_0000);
    if |digits| > BODY_LENGTH_WIDTH {
      return false;
    }
    BackfillLength(begin, body, delim);
    b.out := b.out[..lengthOffset] + digits + b.out[lengthOffset + BODY_LENGTH_WIDTH..];
    b.AppendField(CHECK_SUM, ThreeDigits(Sum(b.out) % 256), delim);
    return true;
  }

  /** All steps of the layout. */
  method AppendSteps(b: Buffer, w: Writer, delim: Byte)
    requires w.Valid()
    modifies b`out
    ensures b.out == old(b.out) + FixedBody(w.layout, 0, w.latest, w.groups, delim)
  {
    hide StepBytes;
    for k := 0 to |w.layout.steps|
      invariant b.out + FixedBody(w.layout, k, w.latest, w.groups, delim)
             == old(b.out) + FixedBody(w.layout, 0, w.latest, w.groups, delim)
    {
      Assoc(b.out, StepBytes(w.layout, k, w.latest, w.groups, delim),
          FixedBody(w.layout, k + 1, w.latest, w.groups, delim));
      AppendStep(b, w, k, delim);
    }
    assert b.out + [] == b.out;
  }

  /** The frame: bound header fragments or options, body by steps, length backfilled, checksum over the buffer. */
  method EncodeToBuffer(w: Writer, o: Options, now: Text, b: Buffer) returns (ok: bool)
    requires w.Valid()
    modifies b
    ensures
      var r := FixedFrame(w.layout, w.session, w.latest, w.groups, o, now);
      ok == r.Encoded? && (ok ==> b.out == r.bytes)
  {
    hide FieldText, Digits, Wire, MakeFrame, Head, HeadTail, FixedBody, OpenedBlank, LengthOffset;
    var l, delim := w.layout, NormalizeDelimiter(o.delimiter);
    ghost var s := SessionFor(w.session, o, delim);
    var lengthOffset, bodyStart;
    if w.bound.Some? && delim == SOH {
      StartFromFragments(b, w.bound.value, l, o, s);
      lengthOffset, bodyStart := w.bound.value.lengthOffset, w.bound.value.bodyStart;
    } else {
      StartFromOptions(b, l, o, delim);
      lengthOffset, bodyStart := LengthOffset(o.beginString, delim), |OpenedBlank(o.beginString, [], delim)|;
    }
    AppendHeadTail(b, l, o, now, delim);
    AppendSteps(b, w, delim);
    ghost var start, body := OpenedBlank(s.beginString, [], delim), FixedBody(l, 0, w.latest, w.groups, delim);
    ghost var head, tail := Head([], l, s.senderCompId, s.targetCompId, o, delim), HeadTail(l, o, now, delim);
    HeadFrom(start, l, s.senderCompId, s.targetCompId, o, delim);
    Assoc(start, head, tail);
    Assoc(start, head + tail, body);
    BlankGrows(s.beginString, head + tail + body, delim);
    ok := CloseFixed(b, lengthOffset, bodyStart, delim, s.beginString, head + tail + body);
  }
}
