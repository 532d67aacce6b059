/** Lookups through a profile view find what a search of its tables finds. */
module ProfileLookups {
  import opened Optional
  import opened Bytes
  import opened CanonicalOrder
  import opened OverlayMerge
  import opened ProfileRecords
  import opened KeyIndex
  import opened ProfileView

  ghost predicate NoRepeats(tags: seq<nat>) {
    forall i, j :: 0 <= i < j < |tags| ==> tags[i] != tags[j]
  }

  lemma TagsDistinct(tags: seq<nat>)
    requires NoRepeats(tags)
    ensures DistinctKeys(TagKeys(tags))
  { }

  /** What a linear search for the tag finds. */
  function Search(tags: seq<nat>, tag: nat): (r: Option<nat>)
    ensures r.Some? ==> r.value < |tags| && tags[r.value] == tag
    ensures r.None? ==> tag !in tags
  {
    var r := First(TagKeys(tags), Leaf(tag), 0);
    assert r.None? ==> forall j :: 0 <= j < |tags| ==> TagKeys(tags)[j] != Leaf(tag);
    assert r.None? ==> forall j :: 0 <= j < |tags| ==> tags[j] != tag;
    assert r.Some? ==> TagKeys(tags)[r.value] == Leaf(tags[r.value]);
    r
  }

  /** Large tags go through the sorted index, small ones through the direct table. */
  method FindField(v: View, tag: nat) returns (r: Option<nat>)
    requires Indexed(v)
    ensures NoRepeats(FieldTags(v.tables)) && tag >= DIRECT_SIZE ==> r == Search(FieldTags(v.tables), tag)
    ensures NoRepeats(FieldTags(v.tables)) && tag < DIRECT_SIZE ==>
      var found := Search(FieldTags(v.tables), tag);
      r == found <==> (found.Some? ==> found.value < NO_ENTRY)
  {
    ghost var tags := FieldTags(v.tables);
    hide IndexOf, FieldTags, Consistent, SegmentsSorted, EnumBitsHold, BitsHold;
    if tag < DIRECT_SIZE {
      if NoRepeats(tags) { DirectFinds(tags, tag); }
      return ThroughDirect(v.direct[tag]);
    }
    if NoRepeats(tags) { TagsDistinct(tags); }
    r := FindSorted(v.fieldIndex, Leaf(tag), TagKeys(tags));
  }

  method FindGroup(v: View, tag: nat) returns (r: Option<nat>)
    requires Indexed(v)
    ensures r.Some? <==> tag in CountTags(v.tables)
    ensures NoRepeats(CountTags(v.tables)) ==> r == Search(CountTags(v.tables), tag)
  {
    ghost var tags := CountTags(v.tables);
    hide IndexOf, CountTags, Consistent, SegmentsSorted, EnumBitsHold, BitsHold, DirectHoldsAll;
    if NoRepeats(tags) { TagsDistinct(tags); }
    r := FindSorted(v.groupIndex, Leaf(tag), TagKeys(tags));
    if r.Some? {
      assert TagKeys(tags)[r.value] == Leaf(tags[r.value]);
    } else {
      assert forall j :: 0 <= j < |tags| ==> TagKeys(tags)[j] == Leaf(tags[j]);
    }
  }

  /** The bitmap and the index agree on what a count tag is. */
  method IsGroupCountTag(v: View, tag: nat) returns (r: bool)
    requires Indexed(v)
    ensures r <==> tag in CountTags(v.tables)
  {
    hide IndexOf, CountTags, Consistent, SegmentsSorted, EnumBitsHold, DirectHoldsAll;
    if tag < GROUP_BITS {
      return v.groupBits[tag];
    }
    var g := FindGroup(v, tag);
    return g.Some?;
  }

  method FindMessage(v: View, msgType: Text) returns (r: Option<nat>)
    requires Indexed(v)
    ensures r.None? ==> forall i :: 0 <= i < |v.tables.messages| ==> TypeKeys(v.tables)[i] != ByteKey(msgType)
    ensures DistinctKeys(TypeKeys(v.tables)) ==> r == First(TypeKeys(v.tables), ByteKey(msgType), 0)
  {
    hide IndexOf, Consistent, SegmentsSorted, EnumBitsHold, BitsHold, DirectHoldsAll;
    r := FindSorted(v.messageIndex, ByteKey(msgType), TypeKeys(v.tables));
  }

  // ---- rules

  /** Binary search in a sorted segment. */
  method RuleIndexIn(slots: seq<Slot>, tag: nat, ghost rules: seq<Rule>) returns (r: Option<nat>)
    requires slots == IndexOf(TagKeys(RuleTags(rules)))
    ensures NoRepeats(RuleTags(rules)) ==> r == Search(RuleTags(rules), tag)
  {
    hide IndexOf, RuleTags;
    if NoRepeats(RuleTags(rules)) { TagsDistinct(RuleTags(rules)); }
    r := FindSorted(slots, Leaf(tag), TagKeys(RuleTags(rules)));
  }

  function RulesOfMessage(t: Tables, i: nat): seq<Rule>
    requires Consistent(t) && i < |t.messages|
  {
    Segment(t.messageRules, MessageRange(t.messages[i]))
  }

  function RulesOfGroup(t: Tables, i: nat): seq<Rule>
    requires Consistent(t) && i < |t.groups|
  {
    Segment(t.groupRules, GroupRange(t.groups[i]))
  }

  /** When messages' rules lie in sequence, each message's rules are searched in its own segment. */
  method MessageRuleIndex(v: View, i: nat, tag: nat) returns (r: Option<nat>)
    requires Indexed(v) && i < |v.tables.messages| && InSequence(Ranges(MessageRange, v.tables.messages))
    ensures NoRepeats(RuleTags(RulesOfMessage(v.tables, i))) ==> r == Search(RuleTags(RulesOfMessage(v.tables, i)), tag)
  {
    var m := MessageRange(v.tables.messages[i]);
    assert Ranges(MessageRange, v.tables.messages)[i] == m;
    hide IndexOf, EnumBitsHold, BitsHold, DirectHoldsAll;
    var segment := Segment(v.messageSlots, m);
    r := RuleIndexIn(segment, tag, RulesOfMessage(v.tables, i));
  }

  /** Short rule lists are searched in order, longer ones in their sorted segment. */
  method GroupRuleIndex(v: View, i: nat, tag: nat) returns (r: Option<nat>)
    requires Indexed(v) && i < |v.tables.groups| && InSequence(Ranges(GroupRange, v.tables.groups))
    ensures NoRepeats(RuleTags(RulesOfGroup(v.tables, i))) ==> r == Search(RuleTags(RulesOfGroup(v.tables, i)), tag)
  {
    var g := GroupRange(v.tables.groups[i]);
    assert Ranges(GroupRange, v.tables.groups)[i] == g;
    hide IndexOf, EnumBitsHold, BitsHold, DirectHoldsAll;
    var rules := RulesOfGroup(v.tables, i);
    if g.count <= 8 {
      r := ScanRules(rules, tag);
    } else {
      var segment := Segment(v.groupSlots, g);
      r := RuleIndexIn(segment, tag, rules);
    }
  }

  method ScanRules(rules: seq<Rule>, tag: nat) returns (r: Option<nat>)
    ensures r == Search(RuleTags(rules), tag)
  {
    ghost var keys := TagKeys(RuleTags(rules));
    var i := 0;
    while i < |rules|
      invariant i <= |rules| && First(keys, Leaf(tag), 0) == First(keys, Leaf(tag), i)
    {
      assert keys[i] == Leaf(rules[i].tag);
      if rules[i].tag == tag { return Some(i); }
      i := i + 1;
    }
    return None;
  }

  // ---- enumeration values

  /** A field without values allows everything; a value must otherwise be among them. */
  predicate Allowed(t: Tables, f: FieldRec, value: Text) {
    f.enumCount == 0 || value == [] || f.enumOffset >= |t.enums| || Some(value) in Values(t, f)
  }

  method IsEnumValueAllowed(v: View, i: nat, value: Text) returns (ok: bool)
    requires Indexed(v) && i < |v.tables.fields|
    ensures ok <==> Allowed(v.tables, v.tables.fields[i], value)
  {
    var t, f := v.tables, v.tables.fields[i];
    hide IndexOf, Consistent, SegmentsSorted, BitsHold, DirectHoldsAll, TextAt, Ranges, FieldTags, CountTags, TypeKeys;
    if f.enumCount == 0 || value == [] { return true; }
    var bits := v.enumBits[i];
    assert StandsFor(bits, Values(t, f));
    if bits.Some? {
      if |value| != 1 {
        MultiNotSingle(Values(t, f), value);
        return false;
      }
      assert value == [value[0]];
      return bits.value[value[0]];
    }
    if f.enumOffset >= |t.enums| { return true; }
    ok := ScanValues(Values(t, f), value);
  }

  method ScanValues(values: seq<Option<Text>>, value: Text) returns (found: bool)
    ensures found <==> Some(value) in values
  {
    var k := 0;
    while k < |values|
      invariant k <= |values| && forall j :: 0 <= j < k ==> values[j] != Some(value)
    {
      if values[k] == Some(value) { return true; }
      k := k + 1;
    }
    return false;
  }

  lemma MultiNotSingle(values: seq<Option<Text>>, value: Text)
    requires |value| != 1 && values != [] && forall i :: 0 <= i < |values| ==> Single(values[i])
    ensures Some(value) !in values
  { }
}
