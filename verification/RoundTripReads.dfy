/** Reading the decoded tree of an encoded message gives back the message: field by field, group by group. */
module RoundTripReads {
  import opened Optional
  import opened Bytes
  import opened FixTags
  import opened Dictionary
  import opened TokenStream
  import opened ParsedTree
  import opened RoundTrip
  import opened FrameRoundTrip
  import opened EncoderSplit
  import F = Framing
  import O = OwnedMessage

  // ---- lookups in lists that grow at the front

  lemma {:induction false} SlotsShift(a: seq<Slot>, b: seq<Slot>, i: nat, tag: nat)
    requires i <= |b|
    ensures SlotFrom(a + b, |a| + i, tag) == if SlotFrom(b, i, tag) < 0 then -1 else |a| + SlotFrom(b, i, tag)
    decreases |b| - i
  {
    if i < |b| { SlotsShift(a, b, i + 1, tag); }
  }

  lemma {:induction false} SlotsSkip(a: seq<Slot>, b: seq<Slot>, i: nat, tag: nat)
    requires i <= |a| && forall k :: i <= k < |a| ==> a[k].tag != tag
    ensures SlotFrom(a + b, i, tag) == SlotFrom(a + b, |a|, tag)
    decreases |a| - i
  {
    if i < |a| { SlotsSkip(a, b, i + 1, tag); }
  }

  /** Slots in front that do not bear the tag only shift what is found. */
  lemma SlotsBehind(a: seq<Slot>, b: seq<Slot>, tag: nat)
    requires forall k :: 0 <= k < |a| ==> a[k].tag != tag
    ensures SlotIndex(a + b, tag) == if SlotIndex(b, tag) < 0 then -1 else |a| + SlotIndex(b, tag)
  {
    SlotsSkip(a, b, 0, tag);
    SlotsShift(a, b, 0, tag);
  }

  lemma {:induction false} GroupsShift(a: seq<Group>, b: seq<Group>, i: nat, tag: nat)
    requires i <= |b|
    ensures GroupFrom(a + b, |a| + i, tag) == if GroupFrom(b, i, tag) < 0 then -1 else |a| + GroupFrom(b, i, tag)
    decreases |b| - i
  {
    if i < |b| { GroupsShift(a, b, i + 1, tag); }
  }

  lemma GroupBehind(g: Group, b: seq<Group>, tag: nat)
    ensures GroupIndex([g] + b, tag)
         == if g.countTag == tag then 0 else if GroupIndex(b, tag) < 0 then -1 else 1 + GroupIndex(b, tag)
  {
    GroupsShift([g], b, 0, tag);
  }

  // ---- what a tag reads as

  /** The text a message puts under a tag: a group's count or a field's value. */
  function TextUnder(m: O.Message, tag: nat): Option<Text> {
    var gi, fi := O.GroupIndex(m.groups, tag), O.FieldIndex(m.fields, tag);
    if gi >= 0 then Some(Digits(|m.groups[gi].entries|))
    else if fi >= 0 then Some(O.ValueText(m.fields[fi].value))
    else None
  }

  function TextOf(slots: seq<Slot>, tag: nat): Option<Text> {
    var i := SlotIndex(slots, tag);
    if i >= 0 then Some(slots[i].text) else None
  }

  lemma TextBehind(s: Slot, more: seq<Slot>, tag: nat)
    ensures TextOf([s] + more, tag) == if s.tag == tag then Some(s.text) else TextOf(more, tag)
  {
    if s.tag != tag { SlotsBehind([s], more, tag); }
  }

  /** Every rule's tag reads as what the message has under it, and no other tag reads at all. */
  lemma {:induction false} SlotsRead(d: Dict, rules: seq<nat>, i: nat, m: O.Message, tag: nat)
    requires i <= |rules| && Distinct(rules)
    ensures TextOf(ExpectSlots(d, rules, i, m), tag) == if tag in rules[i..] then TextUnder(m, tag) else None
    decreases |rules| - i
  {
    if i < |rules| {
      SlotsRead(d, rules, i + 1, m, tag);
      assert rules[i..] == [rules[i]] + rules[i + 1..];
      assert tag == rules[i] ==> tag !in rules[i + 1..];
      var more := ExpectSlots(d, rules, i + 1, m);
      var gi, fi := O.GroupIndex(m.groups, rules[i]), O.FieldIndex(m.fields, rules[i]);
      if gi >= 0 {
        TextBehind(Slot(rules[i], Digits(|m.groups[gi].entries|), TypeOf(d, rules[i])), more, tag);
      } else if fi >= 0 {
        TextBehind(Slot(rules[i], O.ValueText(m.fields[fi].value), TypeOf(d, rules[i])), more, tag);
      }
    }
  }

  function GroupUnder(groups: seq<Group>, tag: nat): Option<Group> {
    var i := GroupIndex(groups, tag);
    if i >= 0 then Some(groups[i]) else None
  }

  /** Every rule's group reads as the message's group, and no other group is there. */
  lemma {:induction false} GroupsRead(d: Dict, rules: seq<nat>, i: nat, depth: nat, m: O.Message, tag: nat)
    requires i <= |rules| && Distinct(rules)
    ensures GroupUnder(ExpectGroups(d, rules, i, depth, m), tag)
         == if tag in rules[i..] && O.GroupIndex(m.groups, tag) >= 0
            then Some(ExpectGroup(d, depth + 1, m.groups[O.GroupIndex(m.groups, tag)])) else None
    decreases |rules| - i
  {
    if i < |rules| {
      GroupsRead(d, rules, i + 1, depth, m, tag);
      assert rules[i..] == [rules[i]] + rules[i + 1..];
      assert tag == rules[i] ==> tag !in rules[i + 1..];
      var gi := O.GroupIndex(m.groups, rules[i]);
      if gi >= 0 {
        GroupBehind(ExpectGroup(d, depth + 1, m.groups[gi]), ExpectGroups(d, rules, i + 1, depth, m), tag);
      }
    }
  }

  /** The entries of a read group are the entries of the message's group, in order. */
  lemma {:induction false} EntriesRead(d: Dict, rules: seq<nat>, depth: nat, es: seq<O.Message>, i: nat, k: nat)
    requires i <= k < |es|
    ensures |ExpectEntries(d, rules, depth, es, i)| == |es| - i
    ensures ExpectEntries(d, rules, depth, es, i)[k - i] == Expect(d, rules, depth, es[k])
    decreases |es| - i
  {
    if i < k {
      EntriesRead(d, rules, depth, es, i + 1, k);
    } else if i + 1 < |es| {
      EntriesRead(d, rules, depth, es, i + 1, i + 1);
    }
  }

  // ---- the root

  lemma {:induction false} HeaderSlotTags(d: Dict, st: Stream, lo: nat, delim: Byte, k: nat)
    requires HeaderOk(d, st, lo, delim) && k < |HeaderSlots(d, st)|
    ensures IsHeaderTag(HeaderSlots(d, st)[k].tag)
    decreases st
  {
    if k > 0 { HeaderSlotTags(d, st.rest, HeaderRank(st.tok.tag) + 1, delim, k - 1); }
  }

  /** A body tag of a decoded message reads as what the encoded message had under it. */
  lemma RootReads(d: Dict, msgType: Text, m: O.Message, o: F.Options, now: Text, delim: Byte, tag: nat)
    requires Encodable(d, msgType, m, o, now, delim) && !IsHeaderTag(tag)
    ensures var root := ExpectRoot(d, msgType, m, o, now);
            var rules := d.messages[msgType];
            && TextOf(root.slots, tag) == (if tag in rules then TextUnder(m, tag) else None)
            && GroupUnder(root.groups, tag)
               == (if tag in rules && O.GroupIndex(m.groups, tag) >= 0
                   then Some(ExpectGroup(d, 1, m.groups[O.GroupIndex(m.groups, tag)])) else None)
  {
    hide HeaderSlots, HeaderRest, ExpectSlots, ExpectGroups, SlotFrom, GroupFrom, Conforms, OptionsOk, IsHeaderTag;
    hide TextOf, TextUnder, GroupUnder;
    var rules := d.messages[msgType];
    FrontTags(d, msgType, o, now, delim, tag);
    BodyReads(d, rules, m, Front(d, msgType, o, now), tag);
    GroupsRead(d, rules, 0, 0, m, tag);
    assert rules[0..] == rules;
  }

  /** MsgType and the header fields. */
  function Front(d: Dict, msgType: Text, o: F.Options, now: Text): seq<Slot> {
    [Slot(MSG_TYPE, msgType, TypeOf(d, MSG_TYPE))] + HeaderSlots(d, HeaderRest(msgType, o, now))
  }

  lemma FrontTags(d: Dict, msgType: Text, o: F.Options, now: Text, delim: Byte, tag: nat)
    requires OptionsOk(d, msgType, o, now, delim) && !IsHeaderTag(tag)
    ensures forall k :: 0 <= k < |Front(d, msgType, o, now)| ==> Front(d, msgType, o, now)[k].tag != tag
  {
    HeaderRestOk(d, msgType, o, now, delim);
    assert IsHeaderTag(MSG_TYPE);
    hide HeaderSlots, HeaderRest, HeaderOk, IsHeaderTag, OptionsOk;
    var front := Front(d, msgType, o, now);
    forall k | 0 <= k < |front| ensures front[k].tag != tag {
      if k > 0 { HeaderSlotTags(d, HeaderRest(msgType, o, now), 1, delim, k - 1); }
    }
  }

  lemma BodyReads(d: Dict, rules: seq<nat>, m: O.Message, front: seq<Slot>, tag: nat)
    requires Distinct(rules) && forall k :: 0 <= k < |front| ==> front[k].tag != tag
    ensures TextOf(front + ExpectSlots(d, rules, 0, m), tag) == if tag in rules then TextUnder(m, tag) else None
  {
    SlotsBehind(front, ExpectSlots(d, rules, 0, m), tag);
    SlotsRead(d, rules, 0, m, tag);
    assert rules[0..] == rules;
  }

  // ---- header fields of the root

  lemma {:induction false} TextOfJoined(a: seq<Slot>, b: seq<Slot>, tag: nat)
    ensures TextOf(a + b, tag) == OrElse(TextOf(a, tag), TextOf(b, tag))
    decreases |a|
  {
    if a == [] {
      assert a + b == b;
    } else {
      var more := a[1..];
      assert a == [a[0]] + more && a + b == [a[0]] + (more + b);
      TextOfJoined(more, b, tag);
      TextBehind(a[0], more, tag);
      TextBehind(a[0], more + b, tag);
    }
  }

  lemma {:induction false} HeaderSlotsRead(d: Dict, st: Stream, tag: nat)
    ensures TextOf(HeaderSlots(d, st), tag) == StreamText(st, tag)
    decreases st
  {
    if st.Next? {
      HeaderSlotsRead(d, st.rest, tag);
      TextBehind(Slot(st.tok.tag, st.tok.text, TypeOf(d, st.tok.tag)), HeaderSlots(d, st.rest), tag);
    }
  }

  /** A header tag of a decoded message reads as what the options said. */
  lemma RootHeaderReads(d: Dict, msgType: Text, m: O.Message, o: F.Options, now: Text, delim: Byte, tag: nat)
    requires Encodable(d, msgType, m, o, now, delim) && IsHeaderTag(tag)
    ensures TextOf(ExpectRoot(d, msgType, m, o, now).slots, tag) == SentText(msgType, o, now, tag)
  {
    HeaderSays(msgType, o, now, tag);
    assert F.EmitHeader(msgType, o, now, E).tok == MakeTok(MSG_TYPE, msgType);
    hide F.EmitHeader, HeaderSlots, ExpectSlots, Conforms, OptionsOk, SentText, TextOf;
    var rules, front := d.messages[msgType], HeaderSlots(d, HeaderRest(msgType, o, now));
    HeaderSlotsRead(d, HeaderRest(msgType, o, now), tag);
    SlotsRead(d, rules, 0, m, tag);
    TextBehind(Slot(MSG_TYPE, msgType, TypeOf(d, MSG_TYPE)), front, tag);
    TextOfJoined(Front(d, msgType, o, now), ExpectSlots(d, rules, 0, m), tag);
  }

  // ---- typed values

  /** Integers of 64 bits, booleans and characters parse back from their text. */
  lemma ValuesReadBack(v: O.FieldValue)
    ensures v.VInt? && -0x8000_0000_0000_0000 <= v.num < 0x8000_0000_0000_0000 ==>
      ParseSigned(O.ValueText(v)) == Some(v.num)
    ensures v.VBool? ==> (O.ValueText(v) == [YES] <==> v.flag) && (O.ValueText(v) == [NO] <==> !v.flag)
    ensures v.VChar? ==> O.ValueText(v) == [v.ch]
  {
    if v.VInt? && -0x8000_0000_0000_0000 <= v.num < 0x8000_0000_0000_0000 { ParseSignedOfDigits(v.num); }
    assert [YES][0] != [NO][0];
  }
}
