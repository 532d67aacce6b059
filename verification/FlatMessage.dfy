/** The parsed message under construction: the arrays of the flat form, updated in place. */
module FlatMessage {
  import opened Bytes
  import opened ParsedTree
  import opened FlatTree
  import opened FlatUpdates

  /** Group parsing below `c` adds slots and groups, and leaves the container's own slots alone. */
  ghost predicate Grown(m: Flat, n: Flat, c: int) {
    && WellFormed(m) && WellFormed(n) && Container(m, c) && Container(n, c) && Same(m, n, c)
    && m.slots <= n.slots && DataOf(n, c).firstField == DataOf(m, c).firstField
    && DataOf(n, c).fieldCount == DataOf(m, c).fieldCount && NewSlotsFrom(m, n, c + 1)
  }

  /** Slots added since belong to containers from `c` on. */
  ghost predicate NewSlotsFrom(m: Flat, n: Flat, c: int)
    requires Sizes(n)
  {
    forall s {:trigger OwnedFrom(n, s, c)} :: |m.slots| <= s < |n.slots| ==> OwnedFrom(n, s, c)
  }

  ghost predicate OwnedFrom(n: Flat, s: int, c: int) {
    0 <= s < |n.slotOwner| && n.slotOwner[s] >= c
  }

  lemma NewSlotsThen(m: Flat, n: Flat, o: Flat, b: int, c: int, d: int)
    requires Sizes(m) && Sizes(n) && Sizes(o) && Same(n, o, b) && NewSlotsFrom(m, n, c) && NewSlotsFrom(n, o, d)
      && c <= d
    ensures NewSlotsFrom(m, o, c)
  {
    forall s | |m.slots| <= s < |o.slots| ensures OwnedFrom(o, s, c) {
      assert if s < |n.slots| then OwnedFrom(n, s, c) else OwnedFrom(o, s, d);
    }
  }

  lemma GrownSelf(m: Flat, c: int)
    requires WellFormed(m) && Container(m, c)
    ensures Grown(m, m, c)
  {
  }

  lemma GrownThen(m: Flat, n: Flat, o: Flat, c: int)
    requires Grown(m, n, c) && Grown(n, o, c)
    ensures Grown(m, o, c)
  {
    SameThen(m, n, o, c, c);
    NewSlotsThen(m, n, o, c, c + 1, c + 1);
  }

  /** Searching a container's chain is searching the groups a reader sees. */
  lemma ChainStep(m: Flat, raw: Text, c: int, k: nat)
    requires WellFormed(m) && Container(m, c) && k <= |m.chains[c + 1]|
    ensures |ViewGroups(m, raw, c, 0)| == |m.chains[c + 1]|
    ensures DataOf(m, c).firstGroup == First(m.chains[c + 1])
    ensures k < |m.chains[c + 1]| ==>
      var g := m.chains[c + 1][k];
      && g < |m.groups| && m.groups[g].nextGroup == After(m.chains[c + 1], k)
      && ViewGroups(m, raw, c, 0)[k].countTag == m.groups[g].countTag
  {
    ViewGroupsAt(m, raw, c, 0, k);
    assert ChainOk(m, c);
    if k < |m.chains[c + 1]| {
      assert GroupLink(m, c, k);
    }
  }

  /** A new group is found behind the others. */
  lemma NewGroupFound(groups: seq<Group>, g: Group, i: nat)
    requires i <= |groups| && GroupFrom(groups, i, g.countTag) < 0
    ensures GroupFrom(groups + [g], i, g.countTag) == |groups|
    decreases |groups| - i
  {
    if i < |groups| {
      NewGroupFound(groups, g, i + 1);
    }
  }

  class ParsedMessage {
    var raw: Text
    var slots: seq<FieldSlot>
    var root: EntryData
    var entries: seq<EntryData>
    var groups: seq<GroupFrame>
    ghost var slotOwner: seq<int>
    ghost var groupOwner: seq<int>
    ghost var entryGroup: seq<nat>
    ghost var chains: seq<seq<nat>>
    ghost var kids: seq<seq<nat>>

    ghost function State(): Flat
      reads this
    {
      Flat(slots, root, entries, groups, slotOwner, groupOwner, entryGroup, chains, kids)
    }

    /** The groups of a container as a reader sees them. */
    ghost function GroupsOf(c: int): seq<Group>
      requires WellFormed(State()) && Container(State(), c)
      reads this
    {
      ViewGroups(State(), raw, c, 0)
    }

    method FindParsedGroupIndex(c: int, tag: nat) returns (g: int)
      requires WellFormed(State()) && Container(State(), c)
      ensures |GroupsOf(c)| == |chains[c + 1]|
      ensures -1 <= g < |groups|
      ensures g == if GroupIndex(GroupsOf(c), tag) < 0 then -1 else chains[c + 1][GroupIndex(GroupsOf(c), tag)]
    {
      ghost var m, list, view := State(), chains[c + 1], GroupsOf(c);
      g := (if c < 0 then root else entries[c]).firstGroup;
      ghost var p := 0;
      ChainStep(m, raw, c, 0);
      while g >= 0
        invariant 0 <= p <= |list| == |view| && g == if p < |list| then list[p] else -1
        invariant GroupFrom(view, p, tag) == GroupFrom(view, 0, tag)
        decreases |list| - p
      {
        ChainStep(m, raw, c, p);
        if groups[g].countTag == tag {
          return;
        }
        g := groups[g].nextGroup;
        p := p + 1;
      }
    }

    method EnsureParsedGroup(c: int, tag: nat, depth: nat) returns (g: nat, ghost p: nat)
      requires WellFormed(State()) && Container(State(), c)
      modifies this
      ensures Grown(old(State()), State(), c) && raw == old(raw)
      ensures |entries| == |old(entries)| && slots == old(slots)
      ensures p < |chains[c + 1]| && g < |groups| && chains[c + 1][p] == g
      ensures GroupsOf(c) == AddEntries(old(GroupsOf(c)), tag, depth, []) && GroupIndex(GroupsOf(c), tag) == p
    {
      ghost var m := State();
      var existing := FindParsedGroupIndex(c, tag);
      if existing >= 0 {
        KeptAsIs(GroupsOf(c), tag, depth);
        return existing, GroupIndex(GroupsOf(c), tag);
      }
      g := CreateGroup(c, tag, depth);
      p := |m.chains[c + 1]|;
      PushGroupOk(m, c, tag, depth);
      PushGroupView(m, raw, c, tag, depth);
      NewGroupFound(old(GroupsOf(c)), Group(tag, depth, []), 0);
    }

    /** The part of the above that adds a frame and links it. */
    method CreateGroup(c: int, tag: nat, depth: nat) returns (g: nat)
      requires WellFormed(State()) && Container(State(), c)
      modifies this
      ensures g == |old(groups)| && raw == old(raw)
      ensures Last(old(chains)[c + 1]) < |old(groups)| && State() == PushGroup(old(State()), c, tag, depth)
    {
      ghost var m := State();
      g := |groups|;
      LastGroup(m, c);
      groups := groups + [GroupFrame(tag, -1, -1, 0, depth, -1)];
      assert ChainOk(m, c);
      var d := if c < 0 then root else entries[c];
      if d.firstGroup < 0 {
        d := d.(firstGroup := g);
      } else {
        groups := groups[d.lastGroup := groups[d.lastGroup].(nextGroup := g)];
      }
      d := d.(lastGroup := g, groupCount := (d.groupCount + 1) % 0x1_0000);
      if c < 0 {
        root := d;
      } else {
        entries := entries[c := d];
      }
      groupOwner, kids := groupOwner + [c], kids + [[]];
      chains := chains[c + 1 := chains[c + 1] + [g]];
      assert State() == PushGroup(m, c, tag, depth);
    }

    method AppendParsedEntry(g: nat) returns (i: nat)
      requires WellFormed(State()) && g < |groups|
      modifies this
      ensures i == |old(entries)| && raw == old(raw)
      ensures Last(old(kids)[g]) < |old(entries)| && State() == PushEntry(old(State()), g)
    {
      ghost var m := State();
      LastEntry(m, g);
      i := |entries|;
      entries := entries + [NO_ENTRY];
      assert KidsOk(m, g);
      var f := groups[g];
      if f.firstEntry < 0 {
        f := f.(firstEntry := i);
      } else {
        entries := entries[f.lastEntry := entries[f.lastEntry].(nextEntry := i)];
      }
      groups := groups[g := f.(lastEntry := i, entryCount := (f.entryCount + 1) % 0x1_0000)];
      entryGroup, chains := entryGroup + [g], chains + [[]];
      kids := kids[g := kids[g] + [i]];
      assert State() == PushEntry(m, g);
    }

    /** The slots of an entry as a reader sees them. */
    ghost function SlotsOf(i: nat): seq<Slot>
      requires WellFormed(State()) && i < |entries|
      reads this
    {
      assert RangeOk(State(), i);
      EntrySlots(State(), raw, i)
    }

    method FindEntrySlot(i: nat, tag: nat) returns (k: int)
      requires WellFormed(State()) && i < |entries|
      ensures k < 0 <==> SlotIndex(SlotsOf(i), tag) < 0
      ensures k >= 0 ==> k < |slots| && slotOwner[k] == i && k - entries[i].firstField == SlotIndex(SlotsOf(i), tag)
    {
      hide RangeViews, SlotFrom;
      assert RangeOk(State(), i);
      var e := entries[i];
      if e.fieldCount == 0 {
        NoSuchSlot([], 0, tag);
        return -1;
      }
      k := ScanRange(e.firstField, e.firstField + e.fieldCount, tag);
    }

    /** First slot of the range with the tag, or -1. */
    method ScanRange(lo: nat, hi: nat, tag: nat) returns (k: int)
      requires lo <= hi <= |slots|
      ensures k == -1 || lo <= k < hi
      ensures SlotIndex(RangeViews(raw, slots, lo, hi), tag) == if k < 0 then -1 else k - lo
    {
      hide RangeViews, SlotFrom;
      ghost var view := RangeViews(raw, slots, lo, hi);
      k := lo;
      while k < hi
        invariant lo <= k <= hi && SlotFrom(view, k - lo, tag) == SlotFrom(view, 0, tag)
      {
        RangeViewsAt(raw, slots, lo, hi, k);
        SlotFromStep(view, k - lo, tag);
        if slots[k].tag == tag {
          return;
        }
        k := k + 1;
      }
      NoSuchSlot(view, hi - lo, tag);
      k := -1;
    }

    /** A repeated tag overwrites its slot; a new one extends the entry's range. */
    method AppendParsedFieldSlot(i: nat, s: FieldSlot) returns (existed: bool)
      requires WellFormed(State()) && SlotsAtEnd(State(), i) && entries[i].fieldCount < 0xFFFF
      modifies this`slots, this`entries, this`slotOwner
      ensures SlotsBecome(old(State()), State(), raw, i, Upsert(old(SlotsOf(i)), SlotView(raw, s)))
      ensures existed <==> SlotIndex(old(SlotsOf(i)), s.tag) >= 0
    {
      ghost var m := State();
      var k := FindEntrySlot(i, s.tag);
      existed := k >= 0;
      if existed {
        SetSlotUpserts(m, raw, i, k, s);
        ReplaceSlot(k, s);
      } else {
        PushSlotUpserts(m, raw, i, s);
        AddSlot(i, s);
      }
    }

    method ReplaceSlot(k: nat, s: FieldSlot)
      requires k < |slots|
      modifies this`slots
      ensures State() == SetSlot(old(State()), k, s)
    {
      slots := slots[k := s];
    }

    method AddRootSlot(s: FieldSlot)
      modifies this`slots, this`root, this`slotOwner
      ensures State() == PushRootSlot(old(State()), s)
    {
      root := root.(firstField := if root.firstField < 0 then |slots| else root.firstField,
                    fieldCount := (root.fieldCount + 1) % 0x1_0000);
      slots := slots + [s];
      slotOwner := slotOwner + [-1];
    }

    method AddSlot(i: nat, s: FieldSlot)
      requires i < |entries|
      modifies this`slots, this`entries, this`slotOwner
      ensures State() == PushSlot(old(State()), i, s)
    {
      var e := entries[i];
      entries := entries[i := e.(firstField := if e.firstField < 0 then |slots| else e.firstField,
                                 fieldCount := (e.fieldCount + 1) % 0x1_0000)];
      slots := slots + [s];
      slotOwner := slotOwner + [i];
    }

    /** All deferred slots of an entry, one after the other, on top of those it has. */
    method AppendDeferred(i: nat, deferred: seq<FieldSlot>, ghost start: seq<Slot>)
      requires SlotsBecome(State(), State(), raw, i, start) && |start| + |deferred| < 0xFFFF
      modifies this`slots, this`entries, this`slotOwner
      ensures SlotsBecome(old(State()), State(), raw, i, UpsertAll(start, SlotViews(raw, deferred), 0))
    {
      hide *;
      ghost var m, views, now := State(), SlotViews(raw, deferred), start;
      for k := 0 to |deferred|
        invariant SlotsBecome(m, State(), raw, i, now) && |now| <= |start| + k
        invariant UpsertAll(now, views, k) == UpsertAll(start, views, 0)
      {
        UpsertStep(raw, deferred, now, k);
        AppendNext(i, deferred[k], m, now);
        now := Upsert(now, SlotView(raw, deferred[k]));
      }
      UpsertEnd(now, views);
    }

    /** One more slot of an entry whose slots so far are `now`. */
    method AppendNext(i: nat, s: FieldSlot, ghost m: Flat, ghost now: seq<Slot>)
      requires SlotsBecome(m, State(), raw, i, now) && |now| < 0xFFFF
      modifies this`slots, this`entries, this`slotOwner
      ensures SlotsBecome(m, State(), raw, i, Upsert(now, SlotView(raw, s)))
    {
      ghost var n := State();
      var existed := AppendParsedFieldSlot(i, s);
      SlotsBecomeThen(m, n, State(), raw, i, now, Upsert(now, SlotView(raw, s)));
    }
  }

  lemma SlotFromStep(slots: seq<Slot>, i: nat, tag: nat)
    requires i < |slots|
    ensures SlotFrom(slots, i, tag) == if slots[i].tag == tag then i else SlotFrom(slots, i + 1, tag)
  {
  }

  lemma UpsertEnd(now: seq<Slot>, more: seq<Slot>)
    ensures UpsertAll(now, more, |more|) == now
  {
  }

  lemma {:induction false} UpsertAllLength(slots: seq<Slot>, more: seq<Slot>, i: nat)
    requires i <= |more|
    ensures |UpsertAll(slots, more, i)| <= |slots| + |more| - i
    decreases |more| - i
  {
    if i < |more| {
      UpsertAllLength(Upsert(slots, more[i]), more, i + 1);
    }
  }

  lemma UpsertStep(raw: Text, deferred: seq<FieldSlot>, now: seq<Slot>, k: nat)
    requires k < |deferred|
    ensures
      var next := Upsert(now, SlotView(raw, deferred[k]));
      && |next| <= |now| + 1
      && UpsertAll(next, SlotViews(raw, deferred), k + 1) == UpsertAll(now, SlotViews(raw, deferred), k)
  {
    RangeViewsAt(raw, deferred, 0, |deferred|, k);
  }

  /** Only the slots of entry `i` have changed: a reader sees `slots` now, and the same groups. */
  ghost predicate SlotsBecome(m: Flat, n: Flat, raw: Text, i: nat, slots: seq<Slot>) {
    && WellFormed(m) && WellFormed(n) && Same(m, n, i) && SlotsAtEnd(n, i) && |n.entries| == |m.entries|
    && i < |m.entries|
    && n.chains == m.chains && n.groups == m.groups && n.kids == m.kids
    && RangeOk(n, i) && EntrySlots(n, raw, i) == slots && n.entries[i].fieldCount == |slots|
    && NewSlotsFrom(m, n, i) && |n.slots| - |m.slots| == n.entries[i].fieldCount - m.entries[i].fieldCount
  }

  lemma EmptyRange(m: Flat, raw: Text, i: nat)
    requires WellFormed(m) && i < |m.entries| && m.entries[i].fieldCount == 0
    ensures SlotsBecome(m, m, raw, i, [])
  {
    assert RangeOk(m, i);
  }

  lemma SlotsBecomeThen(m: Flat, n: Flat, o: Flat, raw: Text, i: nat, a: seq<Slot>, b: seq<Slot>)
    requires SlotsBecome(m, n, raw, i, a) && SlotsBecome(n, o, raw, i, b)
    ensures SlotsBecome(m, o, raw, i, b)
  {
    SameThen(m, n, o, i, i);
    NewSlotsThen(m, n, o, i, i, i);
  }

  lemma SetSlotUpserts(m: Flat, raw: Text, i: nat, k: nat, s: FieldSlot)
    requires WellFormed(m) && SlotsAtEnd(m, i) && k < |m.slots| && m.slotOwner[k] == i && RangeOk(m, i)
    requires k - m.entries[i].firstField == SlotIndex(EntrySlots(m, raw, i), s.tag)
    ensures SlotsBecome(m, SetSlot(m, k, s), raw, i, Upsert(EntrySlots(m, raw, i), SlotView(raw, s)))
  {
    SetSlotOk(m, k, s);
    assert RangeOk(SetSlot(m, k, s), i);
    SetSlotView(m, raw, i, k, s);
  }

  lemma PushSlotUpserts(m: Flat, raw: Text, i: nat, s: FieldSlot)
    requires WellFormed(m) && SlotsAtEnd(m, i) && m.entries[i].fieldCount < 0xFFFF && RangeOk(m, i)
    requires SlotIndex(EntrySlots(m, raw, i), s.tag) < 0
    ensures SlotsBecome(m, PushSlot(m, i, s), raw, i, Upsert(EntrySlots(m, raw, i), SlotView(raw, s)))
  {
    PushSlotOk(m, i, s);
    assert RangeOk(PushSlot(m, i, s), i);
    PushSlotView(m, raw, i, s);
  }

  /** Adding no entries to a group that is there changes nothing. */
  lemma KeptAsIs(groups: seq<Group>, tag: nat, depth: nat)
    requires GroupIndex(groups, tag) >= 0
    ensures AddEntries(groups, tag, depth, []) == groups
  {
    var i := GroupIndex(groups, tag);
    assert groups[i].entries + [] == groups[i].entries;
  }
}
