/** The read-only view of a profile: checks, indexes and lookups. */
module ProfileView {
  import opened Optional
  import opened Bytes
  import opened CanonicalOrder
  import opened OverlayMerge
  import opened StringTable
  import opened ProfileRecords
  import opened KeyIndex

  const GROUP_BITS: nat := 1024

  datatype View = View(
    tables: Tables, fieldIndex: seq<Slot>, groupIndex: seq<Slot>, messageIndex: seq<Slot>,
    messageSlots: seq<Slot>, groupSlots: seq<Slot>, direct: seq<nat>, groupBits: seq<bool>,
    enumBits: seq<Option<seq<bool>>>)

  // ---- keys of the tables

  function FieldTags(t: Tables): seq<nat> { Each((r: FieldRec) => r.tag, t.fields) }

  function CountTags(t: Tables): seq<nat> { Each((r: GroupRec) => r.countTag, t.groups) }

  /** The text at an offset that was checked before. */
  function TextAt(strings: Text, offset: nat): Text {
    var s := StringAt(strings, offset);
    if s.Some? then s.value else []
  }

  function TypeKeys(t: Tables): seq<Key> { Each((r: MessageRec) => ByteKey(TextAt(t.strings, r.msgType)), t.messages) }

  function RuleTags(rules: seq<Rule>): seq<nat> { Each((r: Rule) => r.tag, rules) }

  // ---- what a view is built from

  predicate NameOk(t: Tables, offset: nat) {
    StringAt(t.strings, offset).Some?
  }

  predicate RangeOk(first: nat, count: nat, total: nat) {
    first <= total && count <= total - first
  }

  /** Names point into the string table, rule ranges into the rules. */
  ghost predicate Consistent(t: Tables) {
    && (forall i :: 0 <= i < |t.fields| ==> NameOk(t, t.fields[i].name))
    && (forall i :: 0 <= i < |t.messages| ==>
          NameOk(t, t.messages[i].name) && NameOk(t, t.messages[i].msgType)
          && RangeOk(t.messages[i].firstRule, t.messages[i].ruleCount, |t.messageRules|))
    && (forall i :: 0 <= i < |t.groups| ==>
          NameOk(t, t.groups[i].name) && RangeOk(t.groups[i].firstRule, t.groups[i].ruleCount, |t.groupRules|))
  }

  method CheckTables(t: Tables) returns (ok: bool)
    ensures ok <==> Consistent(t)
  {
    hide NameOk, RangeOk;
    var i := 0;
    while i < |t.fields|
      invariant i <= |t.fields| && forall k :: 0 <= k < i ==> NameOk(t, t.fields[k].name)
    {
      if !NameOk(t, t.fields[i].name) { return false; }
      i := i + 1;
    }
    i := 0;
    while i < |t.messages|
      invariant i <= |t.messages|
      invariant forall k :: 0 <= k < i ==>
        NameOk(t, t.messages[k].name) && NameOk(t, t.messages[k].msgType)
        && RangeOk(t.messages[k].firstRule, t.messages[k].ruleCount, |t.messageRules|)
    {
      var m := t.messages[i];
      if !NameOk(t, m.name) { return false; }
      if !NameOk(t, m.msgType) { return false; }
      if !RangeOk(m.firstRule, m.ruleCount, |t.messageRules|) { return false; }
      i := i + 1;
    }
    i := 0;
    while i < |t.groups|
      invariant i <= |t.groups|
      invariant forall k :: 0 <= k < i ==>
        NameOk(t, t.groups[k].name) && RangeOk(t.groups[k].firstRule, t.groups[k].ruleCount, |t.groupRules|)
    {
      var g := t.groups[i];
      if !NameOk(t, g.name) { return false; }
      if !RangeOk(g.firstRule, g.ruleCount, |t.groupRules|) { return false; }
      i := i + 1;
    }
    return true;
  }

  // ---- sorted rule segments

  datatype Range = Range(first: nat, count: nat)

  ghost predicate RangesOk(ranges: seq<Range>, total: nat) {
    forall i :: 0 <= i < |ranges| ==> RangeOk(ranges[i].first, ranges[i].count, total)
  }

  /** Ranges that follow each other. */
  ghost predicate InSequence(ranges: seq<Range>) {
    forall i, j :: 0 <= i < j < |ranges| ==> ranges[i].first + ranges[i].count <= ranges[j].first
  }

  function Segment<T>(s: seq<T>, r: Range): seq<T>
    requires RangeOk(r.first, r.count, |s|)
  {
    s[r.first..r.first + r.count]
  }

  function SegmentIndex(rules: seq<Rule>, r: Range): seq<Slot>
    requires RangeOk(r.first, r.count, |rules|)
  {
    IndexOf(TagKeys(RuleTags(Segment(rules, r))))
  }

  lemma SegmentIndexSize(rules: seq<Rule>, r: Range)
    requires RangeOk(r.first, r.count, |rules|)
    ensures |SegmentIndex(rules, r)| == r.count
  {
    IndexHolds(TagKeys(RuleTags(Segment(rules, r))));
  }

  /** Writes part over the segment r. */
  function Overwrite(slots: seq<Slot>, r: Range, part: seq<Slot>): (out: seq<Slot>)
    requires RangeOk(r.first, r.count, |slots|) && |part| == r.count
    ensures |out| == |slots|
  {
    slots[..r.first] + part + slots[r.first + r.count..]
  }

  lemma Overwritten(slots: seq<Slot>, r: Range, part: seq<Slot>, s: Range)
    requires RangeOk(r.first, r.count, |slots|) && |part| == r.count && RangeOk(s.first, s.count, |slots|)
    ensures Segment(Overwrite(slots, r, part), r) == part
    ensures s.first + s.count <= r.first ==> Segment(Overwrite(slots, r, part), s) == Segment(slots, s)
  {
    var out := Overwrite(slots, r, part);
    assert out[r.first..r.first + r.count] == part;
    if s.first + s.count <= r.first {
      assert out[s.first..s.first + s.count] == slots[s.first..s.first + s.count];
    }
  }

  /** Ranges that follow each other keep their own slots, sorted by tag. */
  ghost predicate SegmentsSorted(slots: seq<Slot>, rules: seq<Rule>, ranges: seq<Range>) {
    |slots| == |rules| && RangesOk(ranges, |rules|)
    && (InSequence(ranges) ==>
          forall k :: 0 <= k < |ranges| ==> Segment(slots, ranges[k]) == SegmentIndex(rules, ranges[k]))
  }

  /** Fills and sorts the slots of one range after the other. */
  method SortRuleSegments(rules: seq<Rule>, ranges: seq<Range>) returns (slots: seq<Slot>)
    requires RangesOk(ranges, |rules|)
    ensures SegmentsSorted(slots, rules, ranges)
  {
    slots := seq(|rules|, _ => Slot(Leaf(0), 0));
    var i := 0;
    hide SegmentIndex, Overwrite, Segment;
    while i < |ranges|
      invariant i <= |ranges| && |slots| == |rules|
      invariant InSequence(ranges) ==>
        forall k :: 0 <= k < i ==> Segment(slots, ranges[k]) == SegmentIndex(rules, ranges[k])
    {
      var r := ranges[i];
      var part := SegmentIndex(rules, r);
      SegmentIndexSize(rules, r);
      ghost var before := slots;
      slots := Overwrite(slots, r, part);
      forall k | 0 <= k < i + 1 && InSequence(ranges)
        ensures Segment(slots, ranges[k]) == SegmentIndex(rules, ranges[k])
      {
        Overwritten(before, r, part, ranges[k]);
      }
      i := i + 1;
    }
  }

  function MessageRange(m: MessageRec): Range { Range(m.firstRule, m.ruleCount) }

  function GroupRange(g: GroupRec): Range { Range(g.firstRule, g.ruleCount) }

  // ---- bitmaps

  /** One bit for each small count tag. */
  method BuildGroupBits(tags: seq<nat>) returns (bits: array<bool>)
    ensures fresh(bits) && bits.Length == GROUP_BITS
    ensures forall t :: 0 <= t < GROUP_BITS ==> (bits[t] <==> t in tags)
  {
    bits := new bool[GROUP_BITS](_ => false);
    var i := 0;
    assert tags[..0] == [];
    while i < |tags|
      invariant i <= |tags| && forall t :: 0 <= t < GROUP_BITS ==> (bits[t] <==> t in tags[..i])
    {
      if tags[i] < GROUP_BITS {
        bits[tags[i]] := true;
      }
      assert tags[..i + 1] == tags[..i] + [tags[i]];
      i := i + 1;
    }
    assert tags[..i] == tags;
  }

  /** The enumeration values a field names, as far as the section goes. */
  function Values(t: Tables, f: FieldRec): seq<Option<Text>> {
    var begin := if f.enumOffset < |t.enums| then f.enumOffset else |t.enums|;
    var end := if begin + f.enumCount < |t.enums| then begin + f.enumCount else |t.enums|;
    Each((e: EnumRec) => StringAt(t.strings, e.value), t.enums[begin..end])
  }

  predicate Single(v: Option<Text>) {
    v.Some? && |v.value| == 1
  }

  /** A bitmap over single characters stands for the values, or there is none. */
  ghost predicate StandsFor(bits: Option<seq<bool>>, values: seq<Option<Text>>) {
    bits.Some? ==>
      values != [] && (forall i :: 0 <= i < |values| ==> Single(values[i])) && |bits.value| == 256
      && forall c: Byte :: bits.value[c] <==> Some([c]) in values
  }

  method BuildEnumBits(values: seq<Option<Text>>) returns (bits: Option<seq<bool>>)
    ensures StandsFor(bits, values)
    ensures values != [] && (forall i :: 0 <= i < |values| ==> Single(values[i])) ==> bits.Some?
  {
    if values == [] { return None; }
    var i := 0;
    while i < |values|
      invariant i <= |values| && forall k :: 0 <= k < i ==> Single(values[k])
    {
      if !Single(values[i]) { return None; }
      i := i + 1;
    }
    var map256 := new bool[256](_ => false);
    i := 0;
    assert values[..0] == [];
    while i < |values|
      invariant i <= |values| && forall c: Byte :: map256[c] <==> Some([c]) in values[..i]
    {
      var c := values[i].value[0];
      assert values[i].value == [c];
      map256[c] := true;
      assert values[..i + 1] == values[..i] + [values[i]];
      i := i + 1;
    }
    assert values[..i] == values;
    return Some(map256[..]);
  }

  // ---- building the view

  function Ranges<A>(f: A -> Range, xs: seq<A>): seq<Range> { Each(f, xs) }

  ghost predicate DirectHoldsAll(direct: seq<nat>, tags: seq<nat>) {
    |direct| == DIRECT_SIZE && forall t :: 0 <= t < DIRECT_SIZE ==> direct[t] == DirectOf(tags, |tags|, t)
  }

  ghost predicate BitsHold(bits: seq<bool>, tags: seq<nat>) {
    |bits| == GROUP_BITS && forall t :: 0 <= t < GROUP_BITS ==> (bits[t] <==> t in tags)
  }

  ghost predicate EnumBitsHold(bits: seq<Option<seq<bool>>>, t: Tables) {
    |bits| == |t.fields| && forall i :: 0 <= i < |bits| ==> StandsFor(bits[i], Values(t, t.fields[i]))
  }

  /** Every index of the view belongs to its tables. */
  ghost predicate Indexed(v: View) {
    var t := v.tables;
    && Consistent(t)
    && v.fieldIndex == IndexOf(TagKeys(FieldTags(t))) && v.groupIndex == IndexOf(TagKeys(CountTags(t)))
    && v.messageIndex == IndexOf(TypeKeys(t))
    && SegmentsSorted(v.messageSlots, t.messageRules, Ranges(MessageRange, t.messages))
    && SegmentsSorted(v.groupSlots, t.groupRules, Ranges(GroupRange, t.groups))
    && DirectHoldsAll(v.direct, FieldTags(t)) && BitsHold(v.groupBits, CountTags(t)) && EnumBitsHold(v.enumBits, t)
  }

  lemma ConsistentRanges(t: Tables)
    requires Consistent(t)
    ensures RangesOk(Ranges(MessageRange, t.messages), |t.messageRules|)
    ensures RangesOk(Ranges(GroupRange, t.groups), |t.groupRules|)
  {
    hide NameOk;
  }

  method BuildEnumMaps(t: Tables) returns (bits: seq<Option<seq<bool>>>)
    ensures EnumBitsHold(bits, t)
  {
    hide StandsFor, Values;
    bits := [];
    var i := 0;
    while i < |t.fields|
      invariant i <= |t.fields| && |bits| == i
      invariant forall k :: 0 <= k < i ==> StandsFor(bits[k], Values(t, t.fields[k]))
    {
      var b := BuildEnumBits(Values(t, t.fields[i]));
      bits := bits + [b];
      i := i + 1;
    }
  }

  /** None for inconsistent tables, else a view with all its indexes. */
  method FromTables(t: Tables) returns (r: Option<View>)
    ensures r.Some? <==> Consistent(t)
    ensures r.Some? ==> r.value.tables == t && Indexed(r.value)
  {
    hide Consistent, SegmentsSorted, IndexOf;
    var ok := CheckTables(t);
    if !ok { return None; }
    ConsistentRanges(t);
    var messageSlots := SortRuleSegments(t.messageRules, Ranges(MessageRange, t.messages));
    var groupSlots := SortRuleSegments(t.groupRules, Ranges(GroupRange, t.groups));
    var direct := BuildDirect(FieldTags(t));
    var groupBits := BuildGroupBits(CountTags(t));
    var enumBits := BuildEnumMaps(t);
    assert DirectHoldsAll(direct[..], FieldTags(t)) && BitsHold(groupBits[..], CountTags(t));
    return Some(View(t, IndexOf(TagKeys(FieldTags(t))), IndexOf(TagKeys(CountTags(t))), IndexOf(TypeKeys(t)),
                     messageSlots, groupSlots, direct[..], groupBits[..], enumBits));
  }
}
