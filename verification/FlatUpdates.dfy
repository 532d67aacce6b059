/** The steps by which a flat message grows, and what each does to the tree a reader sees. */
module FlatUpdates {
  import opened Bytes
  import opened ParsedTree
  import opened FlatTree

  // ---------------------------------------------------------------- a new group of a container

  function PushGroup(m: Flat, c: int, tag: nat, depth: nat): Flat
    requires Sizes(m) && Container(m, c) && Last(m.chains[c + 1]) < |m.groups|
  {
    var g, list, d := |m.groups|, m.chains[c + 1], DataOf(m, c);
    var linked := if list == [] then m.groups else m.groups[Last(list) := m.groups[Last(list)].(nextGroup := g)];
    var d1 := d.(firstGroup := if list == [] then g else d.firstGroup, lastGroup := g,
                 groupCount := (d.groupCount + 1) % 0x1_0000);
    m.(groups := linked + [GroupFrame(tag, -1, -1, 0, depth, -1)],
       root := if c < 0 then d1 else m.root,
       entries := if c < 0 then m.entries else m.entries[c := d1],
       groupOwner := m.groupOwner + [c],
       chains := m.chains[c + 1 := list + [g]],
       kids := m.kids + [[]])
  }

  lemma PushGroupChain(m: Flat, c: int, tag: nat, depth: nat, b: int)
    requires WellFormed(m) && Container(m, c) && Container(m, b) && Last(m.chains[c + 1]) < |m.groups|
    ensures ChainOk(PushGroup(m, c, tag, depth), b)
  {
    assert ChainOk(m, b) && ChainOk(m, c);
    hide WellFormed;
    var n := PushGroup(m, c, tag, depth);
    forall k | 0 <= k < |n.chains[b + 1]| ensures GroupLink(n, b, k) {
      if k < |m.chains[b + 1]| {
        assert GroupLink(m, b, k);
        if b != c && m.chains[c + 1] != [] {
          assert GroupLink(m, c, |m.chains[c + 1]| - 1);
        }
      }
    }
  }

  lemma LastGroup(m: Flat, c: int)
    requires WellFormed(m) && Container(m, c)
    ensures Last(m.chains[c + 1]) < |m.groups|
  {
    assert ChainOk(m, c);
    if m.chains[c + 1] != [] {
      assert GroupLink(m, c, |m.chains[c + 1]| - 1);
    }
  }

  lemma PushGroupOk(m: Flat, c: int, tag: nat, depth: nat)
    requires WellFormed(m) && Container(m, c)
    ensures Last(m.chains[c + 1]) < |m.groups|
    ensures WellFormed(PushGroup(m, c, tag, depth)) && Same(m, PushGroup(m, c, tag, depth), c)
  {
    LastGroup(m, c);
    var n := PushGroup(m, c, tag, depth);
    forall b | Container(n, b) ensures ChainOk(n, b) {
      PushGroupChain(m, c, tag, depth, b);
    }
    forall i | 0 <= i < |n.entries| ensures EntryOk(n, i) && RangeOk(n, i) {
      assert EntryOk(m, i) && RangeOk(m, i);
    }
    forall g | 0 <= g < |n.groups| ensures KidsOk(n, g) {
      if g < |m.groups| {
        assert KidsOk(m, g);
        forall k | 0 <= k < |n.kids[g]| ensures EntryLink(n, g, k) {
          assert EntryLink(m, g, k);
        }
      }
    }
  }

  /** The `j`-th group of the changed container has kept its entries. */
  ghost predicate OwnSame(m: Flat, n: Flat, c: int, j: nat)
    requires Sizes(m) && Sizes(n) && |m.groups| <= |n.groups| && Container(m, c)
  {
    j < |m.chains[c + 1]| && m.chains[c + 1][j] < |m.groups| && SameGroup(m, n, m.chains[c + 1][j])
  }

  /** Groups of the changed container that have kept their entries look the same. */
  lemma OwnGroupKept(m: Flat, n: Flat, raw: Text, c: int, j: nat)
    requires WellFormed(m) && WellFormed(n) && Container(m, c) && Same(m, n, c)
    requires m.chains[c + 1] <= n.chains[c + 1] && OwnSame(m, n, c, j)
    ensures |ViewGroups(m, raw, c, 0)| == |m.chains[c + 1]| && |ViewGroups(n, raw, c, 0)| == |n.chains[c + 1]|
    ensures ViewGroups(n, raw, c, 0)[j] == ViewGroups(m, raw, c, 0)[j]
  {
    ViewGroupsAt(m, raw, c, 0, j);
    ViewGroupsAt(n, raw, c, 0, j);
    assert ChainOk(m, c) && GroupLink(m, c, j);
    KidsFrame(m, n, raw, c, m.chains[c + 1][j], 0);
  }

  /** The new group is the container's last and has no entries. */
  lemma PushGroupView(m: Flat, raw: Text, c: int, tag: nat, depth: nat)
    requires WellFormed(m) && Container(m, c) && Last(m.chains[c + 1]) < |m.groups|
    requires WellFormed(PushGroup(m, c, tag, depth)) && Same(m, PushGroup(m, c, tag, depth), c)
    ensures ViewGroups(PushGroup(m, c, tag, depth), raw, c, 0) == ViewGroups(m, raw, c, 0) + [Group(tag, depth, [])]
  {
    var n := PushGroup(m, c, tag, depth);
    var list := m.chains[c + 1];
    ViewGroupsAt(m, raw, c, 0, 0);
    ViewGroupsAt(n, raw, c, 0, |list|);
    forall j | 0 <= j < |list| ensures ViewGroups(n, raw, c, 0)[j] == ViewGroups(m, raw, c, 0)[j] {
      assert ChainOk(m, c) && GroupLink(m, c, j) && OwnSame(m, n, c, j);
      OwnGroupKept(m, n, raw, c, j);
    }
  }

  // ---------------------------------------------------------------- a new entry of a group

  function PushEntry(m: Flat, g: nat): Flat
    requires Sizes(m) && g < |m.groups| && Last(m.kids[g]) < |m.entries|
  {
    var i, list, f := |m.entries|, m.kids[g], m.groups[g];
    var linked := if list == [] then m.entries else m.entries[Last(list) := m.entries[Last(list)].(nextEntry := i)];
    m.(entries := linked + [NO_ENTRY],
       groups := m.groups[g := f.(firstEntry := if list == [] then i else f.firstEntry, lastEntry := i,
                                  entryCount := (f.entryCount + 1) % 0x1_0000)],
       entryGroup := m.entryGroup + [g],
       chains := m.chains + [[]],
       kids := m.kids[g := list + [i]])
  }

  lemma LastEntry(m: Flat, g: nat)
    requires WellFormed(m) && g < |m.groups|
    ensures Last(m.kids[g]) < |m.entries|
  {
    assert KidsOk(m, g);
    if m.kids[g] != [] {
      assert EntryLink(m, g, |m.kids[g]| - 1);
    }
  }

  lemma PushEntryKids(m: Flat, g: nat, h: nat)
    requires WellFormed(m) && g < |m.groups| && h < |m.groups| && Last(m.kids[g]) < |m.entries|
    ensures KidsOk(PushEntry(m, g), h)
  {
    assert KidsOk(m, h) && KidsOk(m, g);
    var n := PushEntry(m, g);
    forall k | 0 <= k < |n.kids[h]| ensures EntryLink(n, h, k) {
      if k < |m.kids[h]| {
        assert EntryLink(m, h, k);
        if h != g && m.kids[g] != [] {
          assert EntryLink(m, g, |m.kids[g]| - 1);
        }
      }
    }
    if h == g {
      forall j, k | 0 <= j < k < |n.kids[h]| ensures n.kids[h][j] < n.kids[h][k] {
        assert EntryLink(m, h, j);
      }
    }
  }

  lemma PushEntryChain(m: Flat, g: nat, b: int)
    requires WellFormed(m) && g < |m.groups| && Last(m.kids[g]) < |m.entries| && Container(PushEntry(m, g), b)
    ensures ChainOk(PushEntry(m, g), b)
  {
    var n := PushEntry(m, g);
    if b < |m.entries| {
      assert ChainOk(m, b);
      forall k | 0 <= k < |n.chains[b + 1]| ensures GroupLink(n, b, k) {
        assert GroupLink(m, b, k);
      }
    }
  }

  lemma PushEntryOk(m: Flat, g: nat)
    requires WellFormed(m) && g < |m.groups| && Last(m.kids[g]) < |m.entries|
    ensures WellFormed(PushEntry(m, g)) && Same(m, PushEntry(m, g), m.groupOwner[g])
  {
    var n := PushEntry(m, g);
    forall b | Container(n, b) ensures ChainOk(n, b) {
      PushEntryChain(m, g, b);
    }
    forall h | 0 <= h < |n.groups| ensures KidsOk(n, h) {
      PushEntryKids(m, g, h);
    }
    forall i | 0 <= i < |n.entries| ensures EntryOk(n, i) && RangeOk(n, i) {
      if i < |m.entries| {
        assert EntryOk(m, i) && RangeOk(m, i);
      }
    }
  }

  /** Changes to a container, then to it again or to something newer. */
  lemma SameThen(m: Flat, n: Flat, o: Flat, c: int, d: int)
    requires WellFormed(m) && Sizes(n) && Sizes(o) && Same(m, n, c) && Same(n, o, d) && Container(m, c)
    requires d == c || d >= |m.entries|
    ensures Same(m, o, c)
  {
    forall i | 0 <= i < |m.entries| && i != c ensures SameEntry(m, o, i) {
      assert SameEntry(m, n, i) && SameEntry(n, o, i);
    }
    forall g | 0 <= g < |m.groups| && m.groupOwner[g] != c ensures SameGroup(m, o, g) {
      assert SameGroup(m, n, g) && SameGroup(n, o, g);
    }
    forall s | 0 <= s < |m.slots| && m.slotOwner[s] != c ensures SameSlot(m, o, s) {
      assert SameSlot(m, n, s) && SameSlot(n, o, s);
    }
  }

  /** Entries of a container lie outside everything around it. */
  lemma KidIsBelow(m: Flat, g: nat, k: nat)
    requires WellFormed(m) && g < |m.groups| && k < |m.kids[g]|
    ensures m.kids[g][k] < |m.entries| && m.groupOwner[g] < m.kids[g][k]
    ensures Container(m, m.groupOwner[g]) && !Above(m, m.kids[g][k], m.groupOwner[g])
  {
    assert KidsOk(m, g) && EntryLink(m, g, k) && EntryOk(m, m.kids[g][k]);
    if Above(m, m.kids[g][k], m.groupOwner[g]) {
      AboveIsBefore(m, m.kids[g][k], m.groupOwner[g]);
    }
  }

  /** A group's entries once a new one has been added and filled in. */
  lemma FilledEntryKids(m: Flat, n: Flat, raw: Text, g: nat)
    requires WellFormed(m) && WellFormed(n) && g < |m.groups| && Same(m, n, m.groupOwner[g])
    requires n.kids[g] == m.kids[g] + [|m.entries|] && |m.entries| < |n.entries|
    ensures ViewKids(n, raw, g, 0) == ViewKids(m, raw, g, 0) + [ViewEntry(n, raw, |m.entries|)]
  {
    var list := m.kids[g];
    ViewKidsAt(m, raw, g, 0, 0);
    ViewKidsAt(n, raw, g, 0, |list|);
    forall k | 0 <= k < |list| ensures ViewKids(n, raw, g, 0)[k] == ViewKids(m, raw, g, 0)[k] {
      ViewKidsAt(m, raw, g, 0, k);
      ViewKidsAt(n, raw, g, 0, k);
      KidIsBelow(m, g, k);
      EntryFrame(m, n, raw, m.groupOwner[g], list[k]);
    }
  }

  /** A group after `e` has joined its entries. */
  function Joined(g: Group, e: Entry): Group {
    g.(entries := g.entries + [e])
  }

  /** The container's groups once a new entry of the `p`-th has been added and filled in. */
  lemma FilledEntryGroups(m: Flat, n: Flat, raw: Text, c: int, p: nat)
    requires WellFormed(m) && WellFormed(n) && Container(m, c) && Same(m, n, c)
    requires n.chains[c + 1] == m.chains[c + 1] && p < |m.chains[c + 1]| && |m.entries| < |n.entries|
    requires forall j :: 0 <= j < |m.chains[c + 1]| && j != p ==> OwnSame(m, n, c, j)
    requires
      var g := m.chains[c + 1][p];
      && g < |m.groups| && n.kids[g] == m.kids[g] + [|m.entries|]
      && n.groups[g].countTag == m.groups[g].countTag && n.groups[g].depth == m.groups[g].depth
    ensures |ViewGroups(m, raw, c, 0)| == |m.chains[c + 1]|
    ensures ViewGroups(n, raw, c, 0)
         == ViewGroups(m, raw, c, 0)[p := Joined(ViewGroups(m, raw, c, 0)[p], ViewEntry(n, raw, |m.entries|))]
  {
    var list := m.chains[c + 1];
    ViewGroupsAt(m, raw, c, 0, p);
    ViewGroupsAt(n, raw, c, 0, p);
    assert ChainOk(m, c) && GroupLink(m, c, p);
    FilledEntryKids(m, n, raw, list[p]);
    forall j | 0 <= j < |list| && j != p ensures ViewGroups(n, raw, c, 0)[j] == ViewGroups(m, raw, c, 0)[j] {
      assert OwnSame(m, n, c, j);
      OwnGroupKept(m, n, raw, c, j);
    }
  }

  // ---------------------------------------------------------------- slots of an entry

  /** The entry's slots are the latest ones, or it has none. */
  predicate SlotsAtEnd(m: Flat, i: nat) {
    i < |m.entries| && (m.entries[i].fieldCount == 0 || m.entries[i].firstField + m.entries[i].fieldCount == |m.slots|)
  }

  function PushSlot(m: Flat, i: nat, s: FieldSlot): Flat
    requires i < |m.entries|
  {
    var e := m.entries[i];
    m.(slots := m.slots + [s], slotOwner := m.slotOwner + [i],
       entries := m.entries[i := e.(firstField := if e.firstField < 0 then |m.slots| else e.firstField,
                                    fieldCount := (e.fieldCount + 1) % 0x1_0000)])
  }

  function PushRootSlot(m: Flat, s: FieldSlot): Flat {
    m.(slots := m.slots + [s], slotOwner := m.slotOwner + [-1],
       root := m.root.(firstField := if m.root.firstField < 0 then |m.slots| else m.root.firstField,
                       fieldCount := (m.root.fieldCount + 1) % 0x1_0000))
  }

  function SetSlot(m: Flat, k: nat, s: FieldSlot): Flat
    requires k < |m.slots|
  {
    m.(slots := m.slots[k := s])
  }

  lemma PushSlotOk(m: Flat, i: nat, s: FieldSlot)
    requires WellFormed(m) && SlotsAtEnd(m, i) && m.entries[i].fieldCount < 0xFFFF
    ensures WellFormed(PushSlot(m, i, s)) && Same(m, PushSlot(m, i, s), i) && SlotsAtEnd(PushSlot(m, i, s), i)
  {
    var n := PushSlot(m, i, s);
    assert RangeOk(m, i);
    forall b | Container(n, b) ensures ChainOk(n, b) {
      assert ChainOk(m, b);
      forall k | 0 <= k < |n.chains[b + 1]| ensures GroupLink(n, b, k) {
        assert GroupLink(m, b, k);
      }
    }
    forall g | 0 <= g < |n.groups| ensures KidsOk(n, g) {
      assert KidsOk(m, g);
      forall k | 0 <= k < |n.kids[g]| ensures EntryLink(n, g, k) {
        assert EntryLink(m, g, k);
      }
    }
    forall j | 0 <= j < |n.entries| ensures EntryOk(n, j) && RangeOk(n, j) {
      assert EntryOk(m, j) && RangeOk(m, j);
    }
  }

  lemma SetSlotOk(m: Flat, k: nat, s: FieldSlot)
    requires WellFormed(m) && k < |m.slots|
    ensures WellFormed(SetSlot(m, k, s)) && Same(m, SetSlot(m, k, s), m.slotOwner[k])
  {
    var n := SetSlot(m, k, s);
    forall b | Container(n, b) ensures ChainOk(n, b) {
      assert ChainOk(m, b);
      forall k | 0 <= k < |n.chains[b + 1]| ensures GroupLink(n, b, k) {
        assert GroupLink(m, b, k);
      }
    }
    forall g | 0 <= g < |n.groups| ensures KidsOk(n, g) {
      assert KidsOk(m, g);
      forall k | 0 <= k < |n.kids[g]| ensures EntryLink(n, g, k) {
        assert EntryLink(m, g, k);
      }
    }
    forall j | 0 <= j < |n.entries| ensures EntryOk(n, j) && RangeOk(n, j) {
      assert EntryOk(m, j) && RangeOk(m, j);
    }
  }

  lemma SlotViewsAppend(raw: Text, a: seq<FieldSlot>, s: FieldSlot)
    ensures SlotViews(raw, a + [s]) == SlotViews(raw, a) + [SlotView(raw, s)]
  {
    RangeViewsSame(raw, a, a + [s], 0, |a|);
  }

  lemma PushSlotView(m: Flat, raw: Text, i: nat, s: FieldSlot)
    requires Sizes(m) && SlotsAtEnd(m, i) && m.entries[i].fieldCount < 0xFFFF
    requires Sizes(PushSlot(m, i, s)) && RangeOk(m, i) && RangeOk(PushSlot(m, i, s), i)
    ensures EntrySlots(PushSlot(m, i, s), raw, i) == EntrySlots(m, raw, i) + [SlotView(raw, s)]
  {
    hide RangeViews;
    var n, e := PushSlot(m, i, s), m.entries[i];
    var lo := n.entries[i].firstField;
    RangeViewsSame(raw, m.slots, n.slots, lo, lo + e.fieldCount);
    RangeViewsLast(raw, n.slots, lo, lo + e.fieldCount + 1);
  }

  lemma SetSlotView(m: Flat, raw: Text, i: nat, k: nat, s: FieldSlot)
    requires Sizes(m) && i < |m.entries| && k < |m.slots| && m.slotOwner[k] == i
    requires RangeOk(m, i) && RangeOk(SetSlot(m, k, s), i)
    ensures 0 <= k - m.entries[i].firstField < |EntrySlots(m, raw, i)|
    ensures EntrySlots(SetSlot(m, k, s), raw, i)
         == EntrySlots(m, raw, i)[k - m.entries[i].firstField := SlotView(raw, s)]
  {
    var e := m.entries[i];
    SetInRange(raw, m.slots, e.firstField, e.firstField + e.fieldCount, k, s);
  }

  lemma {:induction false} SetInRange(raw: Text, slots: seq<FieldSlot>, lo: nat, hi: nat, k: nat, s: FieldSlot)
    requires lo <= k < hi <= |slots|
    ensures RangeViews(raw, slots[k := s], lo, hi) == RangeViews(raw, slots, lo, hi)[k - lo := SlotView(raw, s)]
    decreases hi - lo
  {
    hide SlotView;
    if k < hi - 1 {
      SetInRange(raw, slots, lo, hi - 1, k, s);
    } else {
      RangeViewsSame(raw, slots, slots[k := s], lo, hi - 1);
    }
  }

  /** A change to the slots of a container leaves its groups as they were. */
  lemma OwnGroupsSame(m: Flat, n: Flat, raw: Text, c: int)
    requires WellFormed(m) && WellFormed(n) && Container(m, c) && Same(m, n, c)
    requires n.chains[c + 1] == m.chains[c + 1] && n.groups == m.groups && n.kids == m.kids
    ensures ViewGroups(n, raw, c, 0) == ViewGroups(m, raw, c, 0)
  {
    ViewGroupsAt(m, raw, c, 0, 0);
    ViewGroupsAt(n, raw, c, 0, 0);
    forall j | 0 <= j < |m.chains[c + 1]| ensures ViewGroups(n, raw, c, 0)[j] == ViewGroups(m, raw, c, 0)[j] {
      assert ChainOk(m, c) && GroupLink(m, c, j) && OwnSame(m, n, c, j);
      OwnGroupKept(m, n, raw, c, j);
    }
  }
}
