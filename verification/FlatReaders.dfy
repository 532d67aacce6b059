/**
 * Reading a parsed message: lookup by tag finds exactly what the tree holds, and so does lookup by position, except
 * at a root whose fields have a group between them.
 */
module FlatReaders {
  import opened Optional
  import opened Bytes
  import opened ParsedTree
  import opened RootIndex
  import opened RootHistory
  import opened FlatTree
  import opened FlatUpdates
  import opened FlatMessage
  import opened FlatRoot
  import opened FlatDecoder

  /** Root appends are the steps of the index's history. */
  lemma AppendedIsStep(m: Flat, n: Flat, before: map<nat, nat>, keys: map<nat, nat>, s: FieldSlot)
    requires Sizes(m) && Indexed(m, before) && FlatDecoder.Appended(m, n, before, keys, s)
    ensures Table(n.slots, keys) == Step(Table(m.slots, before), AtRoot(s))
  {
  }

  /** The root field with the tag, as `FindParsedFieldInRoot` finds it. */
  method FindRootField(msg: ParsedMessage, index: Index, tag: nat) returns (r: Option<FieldSlot>)
    requires Ready(msg, index) && tag < 0x1_0000
    ensures
      var at := SlotIndex(RootSlots(msg.State(), msg.raw), tag);
      if at < 0 then r.None? else r.Some? && SlotView(msg.raw, r.value) == RootSlots(msg.State(), msg.raw)[at]
  {
    hide RootViews, WellFormed;
    KeyedSlot(msg.State(), index.keys, tag);
    RootFieldAt(msg.State(), msg.raw, index.keys, tag);
    var k := index.Lookup(tag);
    if k.None? {
      return None;
    }
    r := Some(msg.slots[k.value]);
  }

  lemma RootFieldAt(m: Flat, raw: Text, keys: map<nat, nat>, tag: nat)
    requires WellFormed(m) && Indexed(m, keys) && tag < 0x1_0000
    ensures SlotIndex(RootSlots(m, raw), tag) >= 0 <==> Key(tag) in keys
    ensures Key(tag) in keys ==>
      && keys[Key(tag)] < |m.slots|
      && SlotView(raw, m.slots[keys[Key(tag)]]) == RootSlots(m, raw)[SlotIndex(RootSlots(m, raw), tag)]
  {
    IndexFinds(m, raw, keys, |m.slots|, tag);
    if Key(tag) in keys {
      RootViewAt(m, raw, keys[Key(tag)], |m.slots|);
    }
  }

  lemma {:induction false} RootViewAt(m: Flat, raw: Text, k: nat, n: nat)
    requires Sizes(m) && k < n <= |m.slots| && m.slotOwner[k] == -1
    ensures |RootViews(m, raw, k)| < |RootViews(m, raw, n)|
    ensures RootViews(m, raw, n)[|RootViews(m, raw, k)|] == SlotView(raw, m.slots[k])
    decreases n
  {
    if k < n - 1 {
      RootViewAt(m, raw, k, n - 1);
    }
  }

  /** The field of an entry with the tag. */
  method FindEntryField(msg: ParsedMessage, i: nat, tag: nat) returns (r: Option<FieldSlot>)
    requires WellFormed(msg.State()) && i < |msg.entries|
    ensures
      var at := SlotIndex(msg.SlotsOf(i), tag);
      if at < 0 then r.None? else r.Some? && SlotView(msg.raw, r.value) == msg.SlotsOf(i)[at]
  {
    hide RangeViews, SlotFrom;
    var k := msg.FindEntrySlot(i, tag);
    if k < 0 {
      return None;
    }
    assert RangeOk(msg.State(), i);
    RangeViewsAt(msg.raw, msg.slots, msg.entries[i].firstField, msg.entries[i].firstField + msg.entries[i].fieldCount,
        k);
    r := Some(msg.slots[k]);
  }

  // ---------------------------------------------------------------- fields by position

  /** No entry's slot stands among the first `n` slots that the root's record spans. */
  ghost predicate RootUnbroken(m: Flat, n: nat)
    requires Sizes(m)
  {
    forall k {:trigger IsRootSlot(m, k)} :: m.root.firstField <= k < m.root.firstField + n ==> IsRootSlot(m, k)
  }

  predicate IsRootSlot(m: Flat, k: int)
    requires Sizes(m)
  {
    0 <= k < |m.slots| && m.slotOwner[k] == -1
  }

  /**
   * The slot at a position of a container. In an entry it is the entry's field at that position. At the root it
   * is the root's field at that position exactly when no slot of an entry stands before it.
   */
  method NthParsedField(msg: ParsedMessage, c: int, index: nat) returns (r: Option<nat>)
    requires WellFormed(msg.State()) && RootCounted(msg.State()) && Container(msg.State(), c)
    ensures r.Some? ==> r.value < |msg.slots|
    ensures c >= 0 ==> (r.Some? <==> index < |msg.SlotsOf(c)|)
    ensures c >= 0 && r.Some? ==>
      msg.slotOwner[r.value] == c && SlotView(msg.raw, msg.slots[r.value]) == msg.SlotsOf(c)[index]
    ensures c < 0 ==> (r.Some? <==> index < |RootSlots(msg.State(), msg.raw)|)
    ensures c < 0 && r.Some? ==>
      && |RootPlaces(msg.State(), |msg.slots|)| == |RootSlots(msg.State(), msg.raw)|
      && (r.value == RootPlaces(msg.State(), |msg.slots|)[index] <==> RootUnbroken(msg.State(), index + 1))
  {
    hide RangeViews, RootViews, WellFormed, RootPlaces, RootUnbroken;
    var e := if c < 0 then msg.root else msg.entries[c];
    if c < 0 {
      RootPositions(msg.State(), msg.raw, index);
    } else {
      RangeOkAt(msg.State(), c);
    }
    if e.firstField < 0 || index >= e.fieldCount {
      return None;
    }
    if c >= 0 {
      RangeViewsAt(msg.raw, msg.slots, e.firstField, e.firstField + e.fieldCount, e.firstField + index);
    }
    r := Some(e.firstField + index);
  }

  lemma RangeOkAt(m: Flat, i: nat)
    requires WellFormed(m) && i < |m.entries|
    ensures RangeOk(m, i)
  {
  }

  /** An increasing list is at every position as far along as the position, and strictly so past a gap. */
  lemma {:induction false} IncreasingRuns(list: seq<nat>, i: nat, j: nat)
    requires Increasing(list) && i <= j < |list|
    ensures list[j] - list[i] >= j - i
    decreases j - i
  {
    if i < j {
      IncreasingRuns(list, i, j - 1);
    }
  }

  /** Every root slot below `n` is one of its places. */
  lemma {:induction false} IsPlace(m: Flat, n: nat, k: nat) returns (i: nat)
    requires Sizes(m) && k < n <= |m.slots| && m.slotOwner[k] == -1
    ensures i < |RootPlaces(m, n)| && RootPlaces(m, n)[i] == k
    decreases n
  {
    if k == n - 1 {
      i := |RootPlaces(m, n)| - 1;
    } else {
      i := IsPlace(m, n - 1, k);
    }
  }

  /** The places of an unbroken run from the first field on. */
  lemma {:induction false} UnbrokenPlaces(m: Flat, i: nat)
    requires RootCounted(m) && i < |RootPlaces(m, |m.slots|)| && RootUnbroken(m, i + 1)
    ensures RootPlaces(m, |m.slots|)[i] == m.root.firstField + i
  {
    hide RootPlaces;
    var places := RootPlaces(m, |m.slots|);
    if i > 0 {
      assert RootUnbroken(m, i);
      UnbrokenPlaces(m, i - 1);
      var k := m.root.firstField + i;
      assert IsRootSlot(m, k);
      var j := IsPlace(m, |m.slots|, k);
      if j < i {
        IncreasingRuns(places, j, i - 1);
      } else {
        IncreasingRuns(places, i, j);
        assert places[i - 1] < places[i];
      }
    }
  }

  lemma RootPositions(m: Flat, raw: Text, i: nat)
    requires RootCounted(m)
    ensures |RootPlaces(m, |m.slots|)| == |RootSlots(m, raw)|
    ensures i < |RootSlots(m, raw)| ==>
      && 0 <= m.root.firstField && m.root.firstField + i < |m.slots|
      && (m.root.firstField + i == RootPlaces(m, |m.slots|)[i] <==> RootUnbroken(m, i + 1))
  {
    hide RootPlaces, RootViews;
    ViewsAtPlaces(m, raw, |m.slots|);
    var places := RootPlaces(m, |m.slots|);
    if i < |places| {
      IncreasingRuns(places, 0, i);
      if RootUnbroken(m, i + 1) {
        UnbrokenPlaces(m, i);
      } else if places[i] == m.root.firstField + i {
        forall k | m.root.firstField <= k < m.root.firstField + i + 1
          ensures IsRootSlot(m, k)
        {
          IncreasingRuns(places, 0, k - places[0]);
          IncreasingRuns(places, k - places[0], i);
        }
      }
    }
  }

  /** Reading the root by position, all positions together: right exactly when no group comes before a root field. */
  lemma RootOrderExactly(m: Flat, raw: Text)
    requires RootCounted(m)
    ensures |RootPlaces(m, |m.slots|)| == m.root.fieldCount == |RootSlots(m, raw)|
    ensures (forall i :: 0 <= i < m.root.fieldCount ==> RootPlaces(m, |m.slots|)[i] == m.root.firstField + i)
       <==> RootUnbroken(m, m.root.fieldCount)
    ensures forall i :: 0 <= i < m.root.fieldCount ==>
      RootSlots(m, raw)[i] == SlotView(raw, m.slots[RootPlaces(m, |m.slots|)[i]])
  {
    hide RootPlaces, RootViews;
    ViewsAtPlaces(m, raw, |m.slots|);
    var places := RootPlaces(m, |m.slots|);
    if RootUnbroken(m, |places|) {
      forall i | 0 <= i < |places| ensures places[i] == m.root.firstField + i {
        assert RootUnbroken(m, i + 1);
        UnbrokenPlaces(m, i);
      }
    } else if places != [] {
      RootPositions(m, raw, |places| - 1);
    }
  }

  /** A message of MsgType, a group of one entry with one field, and a root field behind the group. */
  function FieldBehindGroup(msgType: FieldSlot, count: FieldSlot, inside: FieldSlot, behind: FieldSlot): Flat {
    Flat([msgType, count, inside, behind], EntryData(0, 3, 0, 0, 1, -1), [EntryData(2, 1, -1, -1, 0, -1)],
         [GroupFrame(count.tag, 0, 0, 1, 1, -1)], [-1, -1, 0, -1], [-1], [0], [[0], []], [[0]])
  }

  /** It arises by storing its fields one after the other. */
  lemma FieldBehindGroupArises(msgType: FieldSlot, count: FieldSlot, inside: FieldSlot, behind: FieldSlot)
    ensures
      var started := PushRootSlot(PushRootSlot(EMPTY, msgType), count);
      && Sizes(started) && Container(started, -1) && Last(started.chains[0]) < |started.groups|
      && var grouped := PushGroup(started, -1, count.tag, 1);
      && Sizes(grouped) && |grouped.groups| == 1 && Last(grouped.kids[0]) < |grouped.entries|
      && var added := PushEntry(grouped, 0);
      && |added.entries| == 1
      && PushRootSlot(PushSlot(added, 0, inside), behind) == FieldBehindGroup(msgType, count, inside, behind)
  {
    CountStored(msgType, count);
    GroupStored(msgType, count);
    EntryStored(msgType, count);
    InsideStored(msgType, count, inside, behind);
  }

  function Counted(msgType: FieldSlot, count: FieldSlot): Flat {
    Flat([msgType, count], EntryData(0, 2, -1, -1, 0, -1), [], [], [-1, -1], [], [], [[]], [])
  }

  lemma CountStored(msgType: FieldSlot, count: FieldSlot)
    ensures PushRootSlot(PushRootSlot(EMPTY, msgType), count) == Counted(msgType, count)
  {
    assert [] + [msgType] == [msgType] && [-1] + [-1] == [-1, -1];
  }

  function Grouped(msgType: FieldSlot, count: FieldSlot): Flat {
    Flat([msgType, count], EntryData(0, 2, 0, 0, 1, -1), [], [GroupFrame(count.tag, -1, -1, 0, 1, -1)], [-1, -1], [-1],
         [], [[0]], [[]])
  }

  lemma GroupStored(msgType: FieldSlot, count: FieldSlot)
    ensures
      var m := Counted(msgType, count);
      && Sizes(m) && Container(m, -1) && Last(m.chains[0]) < |m.groups|
      && PushGroup(m, -1, count.tag, 1) == Grouped(msgType, count)
  {
    var none: seq<nat>, first: seq<nat> := [], [0];
    var m := Counted(msgType, count);
    var n := PushGroup(m, -1, count.tag, 1);
    assert m.chains == [none] && none + [0] == first && m.chains[0 := first] == [first];
    assert n.groups == [GroupFrame(count.tag, -1, -1, 0, 1, -1)] && n.groupOwner == [-1] && n.kids == [none];
  }

  function WithEntry(msgType: FieldSlot, count: FieldSlot): Flat {
    Flat([msgType, count], EntryData(0, 2, 0, 0, 1, -1), [NO_ENTRY], [GroupFrame(count.tag, 0, 0, 1, 1, -1)], [-1, -1],
         [-1], [0], [[0], []], [[0]])
  }

  lemma EntryStored(msgType: FieldSlot, count: FieldSlot)
    ensures
      var m := Grouped(msgType, count);
      && Sizes(m) && Last(m.kids[0]) < |m.entries| && PushEntry(m, 0) == WithEntry(msgType, count)
  {
    var none: seq<nat>, first: seq<nat> := [], [0];
    var m := Grouped(msgType, count);
    var n := PushEntry(m, 0);
    assert m.kids == [none] && none + [0] == first && m.kids[0 := first] == [first];
    assert n.entries == [NO_ENTRY] && n.entryGroup == [0] && n.chains == [first, none];
    assert n.groups == [GroupFrame(count.tag, 0, 0, 1, 1, -1)];
  }

  lemma InsideStored(msgType: FieldSlot, count: FieldSlot, inside: FieldSlot, behind: FieldSlot)
    ensures PushRootSlot(PushSlot(WithEntry(msgType, count), 0, inside), behind)
         == FieldBehindGroup(msgType, count, inside, behind)
  {
    var n := PushSlot(WithEntry(msgType, count), 0, inside);
    assert n.slots == [msgType, count, inside] && n.slotOwner == [-1, -1, 0];
    assert n.entries == [EntryData(2, 1, -1, -1, 0, -1)];
    assert n.slots + [behind] == [msgType, count, inside, behind] && n.slotOwner + [-1] == [-1, -1, 0, -1];
  }

  lemma FieldBehindGroupOk(msgType: FieldSlot, count: FieldSlot, inside: FieldSlot, behind: FieldSlot)
    ensures WellFormed(FieldBehindGroup(msgType, count, inside, behind))
  {
    var m := FieldBehindGroup(msgType, count, inside, behind);
    assert ChainOk(m, -1) by { assert GroupLink(m, -1, 0); }
    assert ChainOk(m, 0);
    assert KidsOk(m, 0) by { assert EntryLink(m, 0, 0); }
    assert EntryOk(m, 0) && RangeOk(m, 0);
  }

  /** Its third root field, read by position, is the field inside the group. */
  lemma FieldBehindGroupIsMissed(msgType: FieldSlot, count: FieldSlot, inside: FieldSlot, behind: FieldSlot)
    ensures
      var m := FieldBehindGroup(msgType, count, inside, behind);
      && WellFormed(m) && RootCounted(m) && !RootUnbroken(m, 3) && m.root.fieldCount == 3
      && RootPlaces(m, 4) == [0, 1, 3] && m.slots[m.root.firstField + 2] == inside
  {
    FieldBehindGroupOk(msgType, count, inside, behind);
    hide WellFormed;
    var m := FieldBehindGroup(msgType, count, inside, behind);
    assert RootPlaces(m, 2) == RootPlaces(m, 1) + [1] && RootPlaces(m, 1) == [0];
    assert RootPlaces(m, 4) == RootPlaces(m, 3) + [3] && RootPlaces(m, 3) == RootPlaces(m, 2);
    assert !IsRootSlot(m, 2);
  }

  /** The group of a container at a position, by following the links. */
  method NthParsedGroup(msg: ParsedMessage, c: int, index: nat) returns (r: Option<nat>)
    requires WellFormed(msg.State()) && Container(msg.State(), c)
    ensures r.Some? <==> index < |msg.GroupsOf(c)|
    ensures r.Some? ==> r.value < |msg.groups| && ViewGroup(msg.State(), msg.raw, r.value) == msg.GroupsOf(c)[index]
  {
    ghost var m, list := msg.State(), msg.chains[c + 1];
    hide WellFormed, ViewGroups, ViewGroup;
    ChainStep(m, msg.raw, c, 0);
    var g := (if c < 0 then msg.root else msg.entries[c]).firstGroup;
    var current := 0;
    while g >= 0
      invariant 0 <= current <= |list| && current <= index && g == if current < |list| then list[current] else -1
      decreases |list| - current
    {
      ChainStep(m, msg.raw, c, current);
      if current == index {
        ViewGroupsAt(m, msg.raw, c, 0, index);
        return Some(g);
      }
      g := msg.groups[g].nextGroup;
      current := current + 1;
    }
    r := None;
  }

  /** The entries of a group are linked in the order a reader sees. */
  lemma KidsStep(m: Flat, raw: Text, g: nat, k: nat)
    requires WellFormed(m) && g < |m.groups| && k <= |m.kids[g]|
    ensures |ViewKids(m, raw, g, 0)| == |m.kids[g]| && m.groups[g].firstEntry == First(m.kids[g])
    ensures k < |m.kids[g]| ==>
      m.kids[g][k] < |m.entries| && m.entries[m.kids[g][k]].nextEntry == FlatTree.After(m.kids[g], k)
  {
    ViewKidsAt(m, raw, g, 0, k);
    assert KidsOk(m, g);
    if k < |m.kids[g]| {
      assert EntryLink(m, g, k);
    }
  }

  /** The entry of a group at a position, by following the links. */
  method NthParsedEntry(msg: ParsedMessage, g: nat, index: nat) returns (r: Option<nat>)
    requires WellFormed(msg.State()) && g < |msg.groups|
    ensures r.Some? <==> index < |ViewGroup(msg.State(), msg.raw, g).entries|
    ensures r.Some? ==>
      r.value < |msg.entries| && ViewEntry(msg.State(), msg.raw, r.value)
          == ViewGroup(msg.State(), msg.raw, g).entries[index]
  {
    ghost var m, list := msg.State(), msg.kids[g];
    hide WellFormed, ViewKids, ViewEntry;
    KidsStep(m, msg.raw, g, 0);
    var i := msg.groups[g].firstEntry;
    var current := 0;
    while i >= 0
      invariant 0 <= current <= |list| && current <= index && i == if current < |list| then list[current] else -1
      decreases |list| - current
    {
      KidsStep(m, msg.raw, g, current);
      if current == index {
        ViewKidsAt(m, msg.raw, g, 0, index);
        return Some(i);
      }
      i := msg.entries[i].nextEntry;
      current := current + 1;
    }
    r := None;
  }

  // ---------------------------------------------------------------- shape

  /** Each slot belongs to at most one entry: the ranges of different entries are disjoint. */
  lemma RangesDisjoint(m: Flat, i: nat, j: nat, s: nat)
    requires WellFormed(m) && i < |m.entries| && j < |m.entries| && i != j && s < |m.slots|
    ensures
      var a, b := m.entries[i], m.entries[j];
      !(a.firstField <= s < a.firstField + a.fieldCount && b.firstField <= s < b.firstField + b.fieldCount)
  {
    assert RangeOk(m, i) && RangeOk(m, j);
    var owner := m.slotOwner[s];
    assert owner != i || owner != j;
  }

  /** Links only lead forward, so no chain has a cycle. */
  lemma LinksLeadForward(m: Flat, c: int, k: nat, j: nat)
    requires WellFormed(m) && Container(m, c) && k < |m.chains[c + 1]|
    ensures
      var g := m.chains[c + 1][k];
      && g < |m.groups| && (m.groups[g].nextGroup == -1 <==> k == |m.chains[c + 1]| - 1)
      && (m.groups[g].nextGroup != -1 ==> m.groups[g].nextGroup > g)
    ensures
      var g := m.chains[c + 1][k];
      j < |m.kids[g]| ==>
        var i := m.kids[g][j];
        && c < i < |m.entries| && (m.entries[i].nextEntry == -1 <==> j == |m.kids[g]| - 1)
        && (m.entries[i].nextEntry != -1 ==> m.entries[i].nextEntry > i)
  {
    assert ChainOk(m, c) && GroupLink(m, c, k);
    var g := m.chains[c + 1][k];
    if j < |m.kids[g]| {
      KidIsBelow(m, g, j);
      assert KidsOk(m, g) && EntryLink(m, g, j);
    }
  }

  /** Counts are the lengths of the chains in 16 bits. */
  lemma CountsAreLengths(m: Flat, raw: Text, c: int, k: nat)
    requires WellFormed(m) && Container(m, c) && k < |m.chains[c + 1]|
    ensures DataOf(m, c).groupCount == |ViewGroups(m, raw, c, 0)| % 0x1_0000
    ensures m.chains[c + 1][k] < |m.groups|
    ensures m.groups[m.chains[c + 1][k]].entryCount == |ViewGroup(m, raw, m.chains[c + 1][k]).entries| % 0x1_0000
  {
    assert ChainOk(m, c) && GroupLink(m, c, k);
    ViewGroupsAt(m, raw, c, 0, k);
    assert KidsOk(m, m.chains[c + 1][k]);
    ViewKidsAt(m, raw, m.chains[c + 1][k], 0, 0);
  }
}
