/** The root's fields in the flat message, and how its index finds them. */
module FlatRoot {
  import opened Bytes
  import opened ParsedTree
  import opened RootIndex
  import opened FlatTree
  import opened FlatUpdates
  import opened FlatMessage

  /** The root's fields among the first `n` slots, as a reader sees them. */
  function RootViews(m: Flat, raw: Text, n: nat): seq<Slot>
    requires Sizes(m) && n <= |m.slots|
  {
    if n == 0 then []
    else if m.slotOwner[n - 1] == -1 then RootViews(m, raw, n - 1) + [SlotView(raw, m.slots[n - 1])]
    else RootViews(m, raw, n - 1)
  }

  function RootSlots(m: Flat, raw: Text): seq<Slot>
    requires Sizes(m)
  {
    RootViews(m, raw, |m.slots|)
  }

  lemma {:induction false} RootViewsSame(m: Flat, n: Flat, raw: Text, k: nat)
    requires Sizes(m) && Sizes(n) && k <= |m.slots| && k <= |n.slots|
    requires forall s :: 0 <= s < k ==> n.slotOwner[s] == m.slotOwner[s] && n.slots[s] == m.slots[s]
    ensures RootViews(n, raw, k) == RootViews(m, raw, k)
  {
    if k > 0 {
      RootViewsSame(m, n, raw, k - 1);
    }
  }

  /** Slots added for entries do not show at the root. */
  lemma {:induction false} EntrySlotsDoNotShow(n: Flat, raw: Text, k: nat, l: nat)
    requires Sizes(n) && k <= l <= |n.slots| && forall s :: k <= s < l ==> n.slotOwner[s] >= 0
    ensures RootViews(n, raw, l) == RootViews(n, raw, k)
  {
    if k < l {
      EntrySlotsDoNotShow(n, raw, k, l - 1);
    }
  }

  lemma GrownRoot(m: Flat, n: Flat, raw: Text)
    requires Grown(m, n, -1)
    ensures RootSlots(n, raw) == RootSlots(m, raw)
  {
    RootViewsSame(m, n, raw, |m.slots|);
    forall s | |m.slots| <= s < |n.slots| ensures n.slotOwner[s] >= 0 {
      assert OwnedFrom(n, s, 0);
    }
    EntrySlotsDoNotShow(n, raw, |m.slots|, |n.slots|);
  }

  // ---------------------------------------------------------------- where the root's fields stand

  /** The slot numbers of the root's fields among the first `n` slots. */
  function RootPlaces(m: Flat, n: nat): (r: seq<nat>)
    requires Sizes(m) && n <= |m.slots|
    ensures forall i :: 0 <= i < |r| ==> r[i] < n && m.slotOwner[r[i]] == -1
    ensures Increasing(r)
  {
    if n == 0 then []
    else if m.slotOwner[n - 1] == -1 then RootPlaces(m, n - 1) + [n - 1]
    else RootPlaces(m, n - 1)
  }

  /** The root's own record numbers its first field and counts its fields. */
  ghost predicate RootCounted(m: Flat) {
    && Sizes(m)
    && m.root.fieldCount == |RootPlaces(m, |m.slots|)| && m.root.firstField == First(RootPlaces(m, |m.slots|))
  }

  /** The root's fields as a reader sees them are those at its places. */
  lemma {:induction false} ViewsAtPlaces(m: Flat, raw: Text, n: nat)
    requires Sizes(m) && n <= |m.slots|
    ensures |RootViews(m, raw, n)| == |RootPlaces(m, n)|
    ensures forall i :: 0 <= i < |RootPlaces(m, n)| ==>
      RootViews(m, raw, n)[i] == SlotView(raw, m.slots[RootPlaces(m, n)[i]])
  {
    if n > 0 {
      ViewsAtPlaces(m, raw, n - 1);
    }
  }

  lemma {:induction false} PlacesSame(m: Flat, n: Flat, k: nat)
    requires Sizes(m) && Sizes(n) && k <= |m.slots| && k <= |n.slots|
    requires forall s :: 0 <= s < k ==> n.slotOwner[s] == m.slotOwner[s]
    ensures RootPlaces(n, k) == RootPlaces(m, k)
  {
    if k > 0 {
      PlacesSame(m, n, k - 1);
    }
  }

  lemma {:induction false} NoPlacesAdded(n: Flat, k: nat, l: nat)
    requires Sizes(n) && k <= l <= |n.slots| && forall s :: k <= s < l ==> n.slotOwner[s] >= 0
    ensures RootPlaces(n, l) == RootPlaces(n, k)
  {
    if k < l {
      NoPlacesAdded(n, k, l - 1);
    }
  }

  lemma CountedGrown(m: Flat, n: Flat)
    requires Grown(m, n, -1) && RootCounted(m)
    ensures RootCounted(n)
  {
    PlacesSame(m, n, |m.slots|);
    forall s | |m.slots| <= s < |n.slots| ensures n.slotOwner[s] >= 0 {
      assert OwnedFrom(n, s, 0);
    }
    NoPlacesAdded(n, |m.slots|, |n.slots|);
  }

  lemma CountedPushed(m: Flat, s: FieldSlot)
    requires RootCounted(m) && |m.slots| < 0xFFFF
    ensures RootCounted(PushRootSlot(m, s))
  {
    PlacesBound(m, |m.slots|);
    PlacesSame(m, PushRootSlot(m, s), |m.slots|);
  }

  lemma CountedReplaced(m: Flat, k: nat, s: FieldSlot)
    requires RootCounted(m) && k < |m.slots|
    ensures RootCounted(SetSlot(m, k, s))
  {
    PlacesSame(m, SetSlot(m, k, s), |m.slots|);
  }

  lemma {:induction false} PlacesBound(m: Flat, n: nat)
    requires Sizes(m) && n <= |m.slots|
    ensures |RootPlaces(m, n)| <= n
  {
    if n > 0 {
      PlacesBound(m, n - 1);
    }
  }

  // ---------------------------------------------------------------- the index

  /** The keys are those of the root's slots, one slot each, and tell the tags apart. */
  ghost predicate Indexed(m: Flat, keys: map<nat, nat>)
    requires Sizes(m)
  {
    && (forall k :: k in keys ==> keys[k] < |m.slots| && m.slotOwner[keys[k]] == -1 && Key(m.slots[keys[k]].tag) == k)
    && (forall s :: 0 <= s < |m.slots| && m.slotOwner[s] == -1 ==>
          m.slots[s].tag < 0x1_0000 && Key(m.slots[s].tag) in keys && keys[Key(m.slots[s].tag)] == s)
  }

  lemma SlotIndexAppend(slots: seq<Slot>, s: Slot, i: nat, tag: nat)
    requires i <= |slots|
    ensures SlotFrom(slots + [s], i, tag)
         == if SlotFrom(slots, i, tag) >= 0 then SlotFrom(slots, i, tag) else if s.tag == tag then |slots| else -1
    decreases |slots| - i
  {
    if i < |slots| {
      SlotIndexAppend(slots, s, i + 1, tag);
    }
  }

  /** A tag stands at the root where the index says, or not at all. */
  lemma {:induction false} IndexFinds(m: Flat, raw: Text, keys: map<nat, nat>, n: nat, tag: nat)
    requires Sizes(m) && Indexed(m, keys) && n <= |m.slots| && tag < 0x1_0000
    ensures SlotIndex(RootViews(m, raw, n), tag)
         == if Key(tag) in keys && keys[Key(tag)] < n then |RootViews(m, raw, keys[Key(tag)])| else -1
  {
    if n > 0 {
      IndexFinds(m, raw, keys, n - 1, tag);
      if m.slotOwner[n - 1] == -1 {
        SlotIndexAppend(RootViews(m, raw, n - 1), SlotView(raw, m.slots[n - 1]), 0, tag);
      }
    }
  }

  // ---------------------------------------------------------------- storing a field

  /** What storing a root field makes of message and keys. */
  ghost predicate RootStored(m: Flat, n: Flat, raw: Text, keys: map<nat, nat>, s: FieldSlot) {
    && WellFormed(m) && WellFormed(n) && Indexed(n, keys) && |n.slots| <= |m.slots| + 1
    && RootSlots(n, raw) == Upsert(RootSlots(m, raw), SlotView(raw, s))
    && ViewGroups(n, raw, -1, 0) == ViewGroups(m, raw, -1, 0)
  }

  lemma PushRootSlotOk(m: Flat, s: FieldSlot)
    requires WellFormed(m)
    ensures WellFormed(PushRootSlot(m, s)) && Same(m, PushRootSlot(m, s), -1)
  {
    var n := PushRootSlot(m, s);
    forall b | Container(n, b) ensures ChainOk(n, b) {
      assert ChainOk(m, b);
      forall k | 0 <= k < |n.chains[b + 1]| ensures GroupLink(n, b, k) {
        assert GroupLink(m, b, k);
      }
    }
    forall g | 0 <= g < |n.groups| ensures KidsOk(n, g) {
      assert KidsOk(m, g);
      forall k | 0 <= k < |n.kids[g]| ensures EntryLink(n, g, k) {
        assert EntryLink(m, g, k);
      }
    }
    forall j | 0 <= j < |n.entries| ensures EntryOk(n, j) && RangeOk(n, j) {
      assert EntryOk(m, j) && RangeOk(m, j);
    }
  }

  lemma RootSlotPushed(m: Flat, raw: Text, keys: map<nat, nat>, s: FieldSlot)
    requires WellFormed(m) && Indexed(m, keys) && s.tag < 0x1_0000 && Key(s.tag) !in keys
    ensures RootStored(m, PushRootSlot(m, s), raw, keys[Key(s.tag) := |m.slots|], s)
  {
    var n := PushRootSlot(m, s);
    PushRootSlotOk(m, s);
    RootViewsSame(m, n, raw, |m.slots|);
    IndexFinds(m, raw, keys, |m.slots|, s.tag);
    OwnGroupsSame(m, n, raw, -1);
  }

  lemma {:induction false} SetRootView(m: Flat, raw: Text, k: nat, s: FieldSlot, n: nat)
    requires Sizes(m) && k < n <= |m.slots| && m.slotOwner[k] == -1
    ensures |RootViews(m, raw, k)| < |RootViews(m, raw, n)|
    ensures RootViews(SetSlot(m, k, s), raw, n) == RootViews(m, raw, n)[|RootViews(m, raw, k)| := SlotView(raw, s)]
    decreases n
  {
    if k < n - 1 {
      SetRootView(m, raw, k, s, n - 1);
    } else {
      RootViewsSame(m, SetSlot(m, k, s), raw, k);
    }
  }

  lemma RootSlotReplaced(m: Flat, raw: Text, keys: map<nat, nat>, s: FieldSlot)
    requires WellFormed(m) && Indexed(m, keys) && s.tag < 0x1_0000 && Key(s.tag) in keys
    ensures RootStored(m, SetSlot(m, keys[Key(s.tag)], s), raw, keys, s)
  {
    var k := keys[Key(s.tag)];
    SetSlotOk(m, k, s);
    SetRootView(m, raw, k, s, |m.slots|);
    IndexFinds(m, raw, keys, |m.slots|, s.tag);
    OwnGroupsSame(m, SetSlot(m, k, s), raw, -1);
  }
}
