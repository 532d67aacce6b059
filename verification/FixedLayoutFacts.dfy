/** What the fixed-layout writer prints, against the generic encoder and against its own slow path. */
module FixedLayoutFacts {
  import opened Optional
  import opened Bytes
  import opened FixTags
  import opened Dictionary
  import opened Scanner
  import opened TokenStream
  import opened EncoderSplit
  import opened Framing
  import opened FixedLayout
  import O = OwnedMessage
  import G = Encoder

  // ---------------------------------------------------------------- the body is the generic body

  /** A message with the latest non-empty value of each tag and the groups in use, and nothing else. */
  ghost predicate Holds(
      d: Dict, rules: seq<nat>, m: O.Message, latest: map<nat, Text>, groups: seq<GroupEncode>, tags: seq<nat>,
          delim: Byte)
  {
    && (forall f :: f in m.fields ==> f.tag in tags) && (forall t :: t in tags ==> HoldsTag(m, latest, t))
    && (forall t :: t in tags ==> O.GroupIndex(m.groups, t) < 0)
    && (forall g :: g in m.groups ==> g.countTag in rules)
    && forall t :: t in rules && t in d.groups ==> HoldsGroup(d, m, groups, t, delim)
  }

  ghost predicate HoldsTag(m: O.Message, latest: map<nat, Text>, t: nat) {
    var i := O.FieldIndex(m.fields, t);
    if Latest(latest, t) == [] then i < 0 else i >= 0 && O.ValueText(m.fields[i].value) == Latest(latest, t)
  }

  /** The group of the message is the group in use, whose entries are kept as the generic encoder prints them. */
  ghost predicate HoldsGroup(d: Dict, m: O.Message, groups: seq<GroupEncode>, t: nat, delim: Byte)
    requires t in d.groups
  {
    var gi, used := O.GroupIndex(m.groups, t), FindGroup(groups, 0, t);
    if used.None? then gi < 0
    else
      && gi >= 0 && |m.groups[gi].entries| == |used.value| < 0x1_0000_0000
      && forall j :: 0 <= j < |used.value| ==>
           Redelimited(used.value[j], delim)
           == Wire(G.EmitBody(d, d.groups[t].rules, m.groups[gi].entries[j], false, E), delim)
  }

  lemma {:induction false} EntriesPrint(
      d: Dict, rules: seq<nat>, entries: seq<O.Message>, kept: seq<Text>, i: nat, delim: Byte, k: Stream)
    requires i <= |entries| == |kept|
    requires forall j :: 0 <= j < |kept| ==>
      Redelimited(kept[j], delim) == Wire(G.EmitBody(d, rules, entries[j], false, E), delim)
    ensures Wire(G.EmitEntries(d, rules, entries, i, k), delim) == EntryBytes(kept, i, delim) + Wire(k, delim)
    decreases |entries| - i
  {
    hide Redelimited, G.EmitBody, Wire;
    if i < |entries| {
      var more := G.EmitEntries(d, rules, entries, i + 1, k);
      EntriesPrint(d, rules, entries, kept, i + 1, delim, k);
      SplitBody(d, rules, entries[i], false, more);
      WireAppend(G.EmitBody(d, rules, entries[i], false, E), more, delim);
      Assoc(Redelimited(kept[i], delim), EntryBytes(kept, i + 1, delim), Wire(k, delim));
    } else {
      assert [] + Wire(k, delim) == Wire(k, delim);
    }
  }

  /** A group in use prints as the generic encoder prints the message's group. */
  lemma GroupPrints(d: Dict, m: O.Message, groups: seq<GroupEncode>, t: nat, delim: Byte, k: Stream)
    requires t in d.groups && HoldsGroup(d, m, groups, t, delim) && FindGroup(groups, 0, t).Some?
    ensures
      var kept := FindGroup(groups, 0, t).value;
      Wire(G.EmitGroup(d, m.groups[O.GroupIndex(m.groups, t)], k), delim)
        == FieldText(t, Digits(|kept| % 0x1_0000_0000), delim) + EntryBytes(kept, 0, delim) + Wire(k, delim)
  {
    hide Redelimited, G.EmitBody, EntryBytes, FieldText, Digits;
    var g, kept := m.groups[O.GroupIndex(m.groups, t)], FindGroup(groups, 0, t).value;
    EntriesPrint(d, d.groups[t].rules, g.entries, kept, 0, delim, k);
    Assoc(FieldText(t, Digits(|kept|), delim), EntryBytes(kept, 0, delim), Wire(k, delim));
  }

  /** The caller's fields among the rules. */
  ghost predicate FieldTagsOf(tags: seq<nat>, d: Dict, rules: seq<nat>) {
    forall t :: t in tags <==> t in rules && !IsEnvelopeTag(t) && t !in d.groups
  }

  lemma {:induction false} BodyTagsAt(rules: seq<nat>, n: nat, i: nat)
    requires i < n <= |rules| && !IsEnvelopeTag(rules[i])
    ensures |BodyTags(rules, i)| < |BodyTags(rules, n)| && BodyTags(rules, n)[|BodyTags(rules, i)|] == rules[i]
  {
    if i < n - 1 {
      BodyTagsAt(rules, n - 1, i);
    }
  }

  lemma {:induction false} BodyTagsGrow(rules: seq<nat>, n: nat, i: nat)
    requires i <= n <= |rules|
    ensures |BodyTags(rules, i)| <= |BodyTags(rules, n)|
  {
    if i < n {
      BodyTagsGrow(rules, n - 1, i);
    }
  }

  lemma BodyTagsNext(rules: seq<nat>, i: nat)
    requires i < |rules|
    ensures |BodyTags(rules, i + 1)| == |BodyTags(rules, i)| + if IsEnvelopeTag(rules[i]) then 0 else 1
  {
    hide IsEnvelopeTag;
  }

  /** One rule prints the same either way. */
  lemma RulePrints(
      d: Dict, rules: seq<nat>, i: nat, l: Layout, latest: map<nat, Text>, groups: seq<GroupEncode>, m: O.Message,
      delim: Byte, k: Stream)
    requires i < |rules| && !IsEnvelopeTag(rules[i]) && Follows(l, d, rules) && FieldTagsOf(l.fieldTags, d, rules)
    requires Holds(d, rules, m, latest, groups, l.fieldTags, delim) && |BodyTags(rules, i)| < |l.steps|
    requires l.steps[|BodyTags(rules, i)|].tag == rules[i]
    ensures Wire(G.EmitRule(d, m, rules[i], true, k), delim)
         == StepBytes(l, |BodyTags(rules, i)|, latest, groups, delim) + Wire(k, delim)
  {
    hide FieldText, BodyTags, IsEnvelopeTag, G.EmitGroup;
    var t := rules[i];
    NotSkipped(t);
    if t in d.groups {
      assert HoldsGroup(d, m, groups, t, delim);
      NoField(m, l.fieldTags, 0, t);
      if FindGroup(groups, 0, t).Some? {
        GroupPrints(d, m, groups, t, delim, k);
      }
    } else {
      assert HoldsTag(m, latest, t);
    }
  }

  lemma NotSkipped(t: nat)
    requires !IsEnvelopeTag(t)
    ensures !G.Skipped(t, true)
  {
  }

  lemma {:induction false} NoField(m: O.Message, tags: seq<nat>, i: nat, t: nat)
    requires i <= |m.fields| && (forall f :: f in m.fields ==> f.tag in tags) && t !in tags
    ensures O.FieldFrom(m.fields, i, t) < 0
    decreases |m.fields| - i
  {
    if i < |m.fields| {
      assert m.fields[i] in m.fields;
      NoField(m, tags, i + 1, t);
    }
  }

  lemma {:induction false} PassPrints(
      d: Dict, rules: seq<nat>, i: nat, l: Layout, latest: map<nat, Text>, groups: seq<GroupEncode>, m: O.Message,
      delim: Byte, k: Stream)
    requires i <= |rules| && Follows(l, d, rules) && FieldTagsOf(l.fieldTags, d, rules)
    requires Holds(d, rules, m, latest, groups, l.fieldTags, delim)
    ensures |BodyTags(rules, i)| <= |l.steps|
    ensures Wire(G.RulePass(d, rules, i, m, true, k), delim)
         == FixedBody(l, |BodyTags(rules, i)|, latest, groups, delim) + Wire(k, delim)
    decreases |rules| - i
  {
    hide FieldText, StepBytes, IsEnvelopeTag, Holds, FieldTagsOf, BodyTags, Wire;
    BodyTagsGrow(rules, |rules|, i);
    if i == |rules| {
      assert [] + Wire(k, delim) == Wire(k, delim);
    } else {
      BodyTagsNext(rules, i);
      var more := G.RulePass(d, rules, i + 1, m, true, k);
      PassPrints(d, rules, i + 1, l, latest, groups, m, delim, k);
      if IsEnvelopeTag(rules[i]) {
        EnvelopeSkipped(d, m, rules[i], more);
      } else {
        var n := |BodyTags(rules, i)|;
        BodyTagsAt(rules, |rules|, i);
        RulePrints(d, rules, i, l, latest, groups, m, delim, more);
        Assoc(StepBytes(l, n, latest, groups, delim), FixedBody(l, n + 1, latest, groups, delim), Wire(k, delim));
      }
    }
  }

  lemma EnvelopeSkipped(d: Dict, m: O.Message, t: nat, k: Stream)
    requires IsEnvelopeTag(t)
    ensures G.EmitRule(d, m, t, true, k) == k
  {
  }

  lemma {:induction false} NoExtraFields(rules: seq<nat>, m: O.Message, i: nat, k: Stream)
    requires i <= |m.fields| && forall f :: f in m.fields ==> f.tag in rules
    ensures G.ExtraFields(rules, m, i, true, k) == k
    decreases |m.fields| - i
  {
    if i < |m.fields| {
      assert m.fields[i] in m.fields;
      NoExtraFields(rules, m, i + 1, k);
    }
  }

  lemma {:induction false} NoExtraGroups(d: Dict, rules: seq<nat>, groups: seq<O.GroupData>, i: nat, k: Stream)
    requires i <= |groups| && forall g :: g in groups ==> g.countTag in rules
    ensures G.ExtraGroups(d, rules, groups, i, k) == k
    decreases |groups| - i
  {
    if i < |groups| {
      assert groups[i] in groups;
      NoExtraGroups(d, rules, groups, i + 1, k);
    }
  }

  /** The printed body is what the generic encoder prints for a message with the same values and groups. */
  lemma BodyIsGeneric(
      d: Dict, rules: seq<nat>, l: Layout, latest: map<nat, Text>, groups: seq<GroupEncode>, m: O.Message, delim: Byte)
    requires Follows(l, d, rules) && FieldTagsOf(l.fieldTags, d, rules)
    requires Holds(d, rules, m, latest, groups, l.fieldTags, delim)
    ensures FixedBody(l, 0, latest, groups, delim) == Wire(G.EmitBody(d, rules, m, true, E), delim)
  {
    hide FixedBody, Follows, HoldsGroup, HoldsTag;
    NoExtraGroups(d, rules, m.groups, 0, E);
    NoExtraFields(rules, m, 0, E);
    PassPrints(d, rules, 0, l, latest, groups, m, delim, E);
    assert FixedBody(l, 0, latest, groups, delim) + [] == FixedBody(l, 0, latest, groups, delim);
  }

  // ---------------------------------------------------------------- bound header and options

  /** A field at the front of a text tells where it ends. */
  lemma FrontField(tag: nat, a: Text, x: Text, b: Text, y: Text, delim: Byte)
    requires delim !in a && delim !in b && FieldText(tag, a, delim) + x == FieldText(tag, b, delim) + y
    ensures a == b && x == y
  {
    hide Digits;
    var p := Digits(tag) + [EQUALS];
    var s := FieldText(tag, a, delim) + x;
    assert s == p + (a + ([delim] + x)) && s == p + (b + ([delim] + y));
    SamePrefix(p, a + ([delim] + x), b + ([delim] + y));
    FirstDelimiter(a, x, b, y, delim);
  }

  lemma SamePrefix(p: Text, x: Text, y: Text)
    requires p + x == p + y
    ensures x == y
  {
    assert (p + x)[|p|..] == x && (p + y)[|p|..] == y;
  }

  lemma FirstDelimiter(a: Text, x: Text, b: Text, y: Text, delim: Byte)
    requires delim !in a && delim !in b && a + ([delim] + x) == b + ([delim] + y)
    ensures a == b && x == y
  {
    var s := a + ([delim] + x);
    assert s[|a|] == delim && s[|b|] == delim;
    assert forall i :: 0 <= i < |a| ==> s[i] == a[i];
    assert forall i :: 0 <= i < |b| ==> s[i] == b[i];
    assert |a| == |b|;
    assert s[..|a|] == a && s[..|b|] == b;
    assert s[|a| + 1..] == x && s[|b| + 1..] == y;
  }

  /** Two heads that print alike come from the same names. */
  lemma SameHead(l: Layout, s: Session, t: Session, o: Options, x: Text, y: Text)
    requires SOH !in s.senderCompId && SOH !in s.targetCompId && SOH !in t.senderCompId && SOH !in t.targetCompId
    requires Head([], l, s.senderCompId, s.targetCompId, o, SOH) + x
         == Head([], l, t.senderCompId, t.targetCompId, o, SOH) + y
    ensures s.senderCompId == t.senderCompId && s.targetCompId == t.targetCompId && x == y
  {
    hide FieldText, SeqText;
    var p := FieldText(MSG_TYPE, l.msgType, SOH) + FieldText(MSG_SEQ_NUM, SeqText(o), SOH);
    Assoc([], FieldText(MSG_TYPE, l.msgType, SOH), FieldText(MSG_SEQ_NUM, SeqText(o), SOH));
    var q, z := OptionalText(SENDER_SUB_ID, o.senderSubId, SOH), OptionalText(TARGET_SUB_ID, o.targetSubId, SOH);
    HeadParts(p, FieldText(SENDER_COMP_ID, s.senderCompId, SOH), q, FieldText(TARGET_COMP_ID, s.targetCompId, SOH), z,
        x);
    HeadParts(p, FieldText(SENDER_COMP_ID, t.senderCompId, SOH), q, FieldText(TARGET_COMP_ID, t.targetCompId, SOH), z,
        y);
    var u, v := q + (FieldText(TARGET_COMP_ID, s.targetCompId, SOH) + (z + x)),
        q + (FieldText(TARGET_COMP_ID, t.targetCompId, SOH) + (z + y));
    SamePrefix(p, FieldText(SENDER_COMP_ID, s.senderCompId, SOH) + u,
        FieldText(SENDER_COMP_ID, t.senderCompId, SOH) + v);
    FrontField(SENDER_COMP_ID, s.senderCompId, u, t.senderCompId, v, SOH);
    SamePrefix(q, FieldText(TARGET_COMP_ID, s.targetCompId, SOH) + (z + x),
        FieldText(TARGET_COMP_ID, t.targetCompId, SOH) + (z + y));
    FrontField(TARGET_COMP_ID, s.targetCompId, z + x, t.targetCompId, z + y, SOH);
    SamePrefix(z, x, y);
  }

  lemma HeadParts(p: Text, a: Text, q: Text, b: Text, z: Text, x: Text)
    ensures [] + p + a + q + b + z + x == p + (a + (q + (b + (z + x))))
  {
  }

  /** With the delimiter SOH, a bound session prints the frame of the options exactly when it holds their names. */
  lemma BoundAgreesExactly(l: Layout, s: Session, latest: map<nat, Text>, groups: seq<GroupEncode>, o: Options,
      now: Text)
    requires NormalizeDelimiter(o.delimiter) == SOH
    requires SOH !in s.beginString && SOH !in s.senderCompId && SOH !in s.targetCompId
    requires SOH !in o.beginString && SOH !in o.senderCompId && SOH !in o.targetCompId
    requires FixedFrame(l, Some(s), latest, groups, o, now).Encoded?
      && FixedFrame(l, None, latest, groups, o, now).Encoded?
    ensures FixedFrame(l, Some(s), latest, groups, o, now) == FixedFrame(l, None, latest, groups, o, now)
        <==> s == Session(o.beginString, o.senderCompId, o.targetCompId)
  {
    hide FieldText, Head, HeadTail, FixedBody, Digits, Sum;
    var t := Session(o.beginString, o.senderCompId, o.targetCompId);
    if FixedFrame(l, Some(s), latest, groups, o, now) == FixedFrame(l, None, latest, groups, o, now) {
      var rest := HeadTail(l, o, now, SOH) + FixedBody(l, 0, latest, groups, SOH);
      var hs, ht := Head([], l, s.senderCompId, s.targetCompId, o, SOH),
          Head([], l, t.senderCompId, t.targetCompId, o, SOH);
      Assoc(hs, HeadTail(l, o, now, SOH), FixedBody(l, 0, latest, groups, SOH));
      Assoc(ht, HeadTail(l, o, now, SOH), FixedBody(l, 0, latest, groups, SOH));
      SameFrames(s.beginString, hs, t.beginString, ht, rest);
      var x, y := FrameEnd(s.beginString, hs + rest), FrameEnd(t.beginString, ht + rest);
      Assoc(hs, rest, x);
      Assoc(ht, rest, y);
      SameHead(l, s, t, o, rest + x, rest + y);
    }
  }

  /** The CheckSum field of a frame. */
  function FrameEnd(begin: Text, body: Text): Text {
    CheckSumField(Opened(begin, body, SOH), SOH)
  }

  /** Equal frames have the same BeginString, and the same bytes behind BodyLength. */
  lemma SameFrames(b: Text, h: Text, c: Text, k: Text, rest: Text)
    requires SOH !in b && SOH !in c
    requires MakeFrame(b, h + rest, SOH).Encoded? && MakeFrame(b, h + rest, SOH) == MakeFrame(c, k + rest, SOH)
    ensures b == c && h + rest + FrameEnd(b, h + rest) == k + rest + FrameEnd(c, k + rest)
  {
    hide FieldText, Digits, CheckSumField;
    var m, n := Digits(|h + rest| % 0x1_0000_0000), Digits(|k + rest| % 0x1_0000_0000);
    var x, y := h + rest + FrameEnd(b, h + rest), k + rest + FrameEnd(c, k + rest);
    FrameParts(FieldText(BEGIN_STRING, b, SOH), FieldText(BODY_LENGTH, m, SOH), h + rest, FrameEnd(b, h + rest));
    FrameParts(FieldText(BEGIN_STRING, c, SOH), FieldText(BODY_LENGTH, n, SOH), k + rest, FrameEnd(c, k + rest));
    FrontField(BEGIN_STRING, b, FieldText(BODY_LENGTH, m, SOH) + x, c, FieldText(BODY_LENGTH, n, SOH) + y, SOH);
    DigitsAreClean(|h + rest| % 0x1_0000_0000);
    DigitsAreClean(|k + rest| % 0x1_0000_0000);
    FrontField(BODY_LENGTH, m, x, n, y, SOH);
  }

  lemma FrameParts(a: Text, b: Text, body: Text, end: Text)
    ensures a + b + body + end == a + (b + (body + end))
  {
  }

  lemma DigitsAreClean(n: nat)
    ensures SOH !in Digits(n)
  {
  }
}
