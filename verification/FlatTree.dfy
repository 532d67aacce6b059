/**
 * The flat form of a parsed message: arrays of field slots, entries and group frames that refer to each
 * other by index. The lists `chains` and `kids` say which groups belong to a container and which entries to
 * a group; the links in the arrays spell out those lists.
 */
module FlatTree {
  import opened Bytes
  import opened Dictionary
  import opened ParsedTree

  datatype FieldSlot = FieldSlot(tag: nat, offset: nat, length: nat, ftype: FieldType)

  /** Indices are -1 where there is nothing to refer to; counts are 16 bits wide. */
  datatype EntryData = EntryData(
    firstField: int, fieldCount: nat, firstGroup: int, lastGroup: int, groupCount: nat, nextEntry: int)

  datatype GroupFrame = GroupFrame(
    countTag: nat, firstEntry: int, lastEntry: int, entryCount: nat, depth: nat, nextGroup: int)

  const NO_ENTRY: EntryData := EntryData(-1, 0, -1, -1, 0, -1)

  /** Containers are the root, numbered -1, and the entries. */
  datatype Flat = Flat(
    slots: seq<FieldSlot>, root: EntryData, entries: seq<EntryData>, groups: seq<GroupFrame>,
    slotOwner: seq<int>, groupOwner: seq<int>, entryGroup: seq<nat>,
    chains: seq<seq<nat>>, kids: seq<seq<nat>>)

  const EMPTY: Flat := Flat([], NO_ENTRY, [], [], [], [], [], [[]], [])

  // ---------------------------------------------------------------- well-formedness

  predicate Sizes(m: Flat) {
    && |m.slotOwner| == |m.slots| && |m.groupOwner| == |m.groups| == |m.kids|
    && |m.entryGroup| == |m.entries| && |m.chains| == |m.entries| + 1
  }

  predicate Container(m: Flat, c: int) {
    -1 <= c < |m.entries|
  }

  function DataOf(m: Flat, c: int): EntryData
    requires Container(m, c)
  {
    if c < 0 then m.root else m.entries[c]
  }

  predicate Increasing(list: seq<nat>) {
    forall j, k :: 0 <= j < k < |list| ==> list[j] < list[k]
  }

  function First(list: seq<nat>): int {
    if list == [] then -1 else list[0]
  }

  function Last(list: seq<nat>): int {
    if list == [] then -1 else list[|list| - 1]
  }

  /** The element behind position `k`. */
  function After(list: seq<nat>, k: nat): int {
    if k + 1 < |list| then list[k + 1] else -1
  }

  /** The links from a container through its groups are the list of its groups. */
  ghost predicate ChainOk(m: Flat, c: int)
    requires Sizes(m)
  {
    && Container(m, c)
    && var list := m.chains[c + 1];
       && Increasing(list)
       && DataOf(m, c).firstGroup == First(list) && DataOf(m, c).lastGroup == Last(list)
       && DataOf(m, c).groupCount == |list| % 0x1_0000
       && forall k {:trigger GroupLink(m, c, k)} :: 0 <= k < |list| ==> GroupLink(m, c, k)
  }

  /** The `k`-th group of a container refers to the next one. */
  ghost predicate GroupLink(m: Flat, c: int, k: nat)
    requires Sizes(m) && Container(m, c) && k < |m.chains[c + 1]|
  {
    var g := m.chains[c + 1][k];
    g < |m.groups| && m.groupOwner[g] == c && m.groups[g].nextGroup == After(m.chains[c + 1], k)
  }

  /** The links from a group through its entries are the list of its entries. */
  ghost predicate KidsOk(m: Flat, g: nat)
    requires Sizes(m)
  {
    && g < |m.groups|
    && var list := m.kids[g];
       && Increasing(list)
       && m.groups[g].firstEntry == First(list) && m.groups[g].lastEntry == Last(list)
       && m.groups[g].entryCount == |list| % 0x1_0000
       && forall k {:trigger EntryLink(m, g, k)} :: 0 <= k < |list| ==> EntryLink(m, g, k)
  }

  /** The `k`-th entry of a group refers to the next one. */
  ghost predicate EntryLink(m: Flat, g: nat, k: nat)
    requires Sizes(m) && g < |m.groups| && k < |m.kids[g]|
  {
    var i := m.kids[g][k];
    i < |m.entries| && m.entryGroup[i] == g && m.entries[i].nextEntry == After(m.kids[g], k)
  }

  /** An entry's slots are one contiguous range, and no other slot is its own. */
  ghost predicate RangeOk(m: Flat, i: nat)
    requires Sizes(m)
  {
    && i < |m.entries|
    && var e := m.entries[i];
       && (if e.fieldCount == 0 then e.firstField == -1 else 0 <= e.firstField)
       && e.firstField + e.fieldCount <= |m.slots| && e.fieldCount < 0x1_0000
       && forall s :: 0 <= s < |m.slots| ==> (m.slotOwner[s] == i <==> e.firstField <= s < e.firstField + e.fieldCount)
  }

  /** The group of an entry belongs to a container created before it. */
  ghost predicate EntryOk(m: Flat, i: nat)
    requires Sizes(m)
  {
    i < |m.entries| && m.entryGroup[i] < |m.groups| && m.groupOwner[m.entryGroup[i]] < i
  }

  ghost predicate WellFormed(m: Flat) {
    && Sizes(m)
    && (forall g :: 0 <= g < |m.groups| ==> Container(m, m.groupOwner[g]))
    && (forall s :: 0 <= s < |m.slots| ==> Container(m, m.slotOwner[s]))
    && (forall i {:trigger EntryOk(m, i)} :: 0 <= i < |m.entries| ==> EntryOk(m, i))
    && (forall c {:trigger ChainOk(m, c)} :: Container(m, c) ==> ChainOk(m, c))
    && (forall g {:trigger KidsOk(m, g)} :: 0 <= g < |m.groups| ==> KidsOk(m, g))
    && (forall i {:trigger RangeOk(m, i)} :: 0 <= i < |m.entries| ==> RangeOk(m, i))
  }

  // ---------------------------------------------------------------- the tree a reader sees

  function SlotView(raw: Text, s: FieldSlot): Slot {
    Slot(s.tag, if s.offset + s.length <= |raw| then raw[s.offset..s.offset + s.length] else [], s.ftype)
  }

  /** The slots from `lo` up to `hi` as a reader sees them. */
  function RangeViews(raw: Text, slots: seq<FieldSlot>, lo: nat, hi: nat): (r: seq<Slot>)
    requires lo <= hi <= |slots|
    ensures |r| == hi - lo
    decreases hi - lo
  {
    if lo == hi then [] else RangeViews(raw, slots, lo, hi - 1) + [SlotView(raw, slots[hi - 1])]
  }

  lemma RangeViewsLast(raw: Text, slots: seq<FieldSlot>, lo: nat, hi: nat)
    requires lo < hi <= |slots|
    ensures RangeViews(raw, slots, lo, hi) == RangeViews(raw, slots, lo, hi - 1) + [SlotView(raw, slots[hi - 1])]
    ensures RangeViews(raw, slots, lo, lo) == []
  {
  }

  lemma {:induction false} RangeViewsAt(raw: Text, slots: seq<FieldSlot>, lo: nat, hi: nat, k: nat)
    requires lo <= k < hi <= |slots|
    ensures RangeViews(raw, slots, lo, hi)[k - lo] == SlotView(raw, slots[k])
    decreases hi - lo
  {
    if k < hi - 1 {
      RangeViewsAt(raw, slots, lo, hi - 1, k);
    }
  }

  lemma {:induction false} RangeViewsSame(raw: Text, a: seq<FieldSlot>, b: seq<FieldSlot>, lo: nat, hi: nat)
    requires lo <= hi <= |a| && hi <= |b| && forall k :: lo <= k < hi ==> a[k] == b[k]
    ensures RangeViews(raw, a, lo, hi) == RangeViews(raw, b, lo, hi)
    decreases hi - lo
  {
    if lo < hi {
      RangeViewsSame(raw, a, b, lo, hi - 1);
    }
  }

  function SlotViews(raw: Text, slots: seq<FieldSlot>): (r: seq<Slot>)
    ensures |r| == |slots|
  {
    RangeViews(raw, slots, 0, |slots|)
  }

  function EntrySlots(m: Flat, raw: Text, i: nat): seq<Slot>
    requires Sizes(m) && RangeOk(m, i)
  {
    var e := m.entries[i];
    if e.fieldCount == 0 then [] else RangeViews(raw, m.slots, e.firstField, e.firstField + e.fieldCount)
  }

  ghost function ViewEntry(m: Flat, raw: Text, i: nat): Entry
    requires WellFormed(m) && i < |m.entries|
    decreases |m.entries| - i, 3, 0
  {
    assert RangeOk(m, i);
    Entry(EntrySlots(m, raw, i), ViewGroups(m, raw, i, 0))
  }

  ghost function ViewGroups(m: Flat, raw: Text, c: int, k: nat): seq<Group>
    requires WellFormed(m) && Container(m, c) && k <= |m.chains[c + 1]|
    decreases |m.entries| - c, 2, |m.chains[c + 1]| - k
  {
    if k == |m.chains[c + 1]| then []
    else
      assert ChainOk(m, c) && GroupLink(m, c, k);
      [ViewGroup(m, raw, m.chains[c + 1][k])] + ViewGroups(m, raw, c, k + 1)
  }

  ghost function ViewGroup(m: Flat, raw: Text, g: nat): Group
    requires WellFormed(m) && g < |m.groups|
    decreases |m.entries| - m.groupOwner[g], 1, 0
  {
    Group(m.groups[g].countTag, m.groups[g].depth, ViewKids(m, raw, g, 0))
  }

  ghost function ViewKids(m: Flat, raw: Text, g: nat, k: nat): seq<Entry>
    requires WellFormed(m) && g < |m.groups| && k <= |m.kids[g]|
    decreases |m.entries| - m.groupOwner[g], 0, |m.kids[g]| - k
  {
    if k == |m.kids[g]| then []
    else
      assert KidsOk(m, g) && EntryLink(m, g, k) && EntryOk(m, m.kids[g][k]);
      [ViewEntry(m, raw, m.kids[g][k])] + ViewKids(m, raw, g, k + 1)
  }

  // ---------------------------------------------------------------- changes below one container

  /** Only what belongs to the container `c` has changed, and new things have been added. */
  ghost predicate Same(m: Flat, n: Flat, c: int)
    requires Sizes(m) && Sizes(n)
  {
    && |m.slots| <= |n.slots| && |m.entries| <= |n.entries| && |m.groups| <= |n.groups|
    && (c >= 0 ==>
          && n.chains[0] == m.chains[0]
          && n.root.firstField == m.root.firstField && n.root.fieldCount == m.root.fieldCount)
    && m.entryGroup <= n.entryGroup && m.groupOwner <= n.groupOwner && m.slotOwner <= n.slotOwner
    && (forall i {:trigger SameEntry(m, n, i)} :: 0 <= i < |m.entries| && i != c ==> SameEntry(m, n, i))
    && (forall g {:trigger SameGroup(m, n, g)} :: 0 <= g < |m.groups| && m.groupOwner[g] != c ==> SameGroup(m, n, g))
    && (forall s {:trigger SameSlot(m, n, s)} :: 0 <= s < |m.slots| && m.slotOwner[s] != c ==> SameSlot(m, n, s))
  }

  ghost predicate SameSlot(m: Flat, n: Flat, s: nat)
    requires s < |m.slots| <= |n.slots|
  {
    n.slots[s] == m.slots[s]
  }

  ghost predicate SameEntry(m: Flat, n: Flat, i: nat)
    requires Sizes(m) && Sizes(n) && i < |m.entries| <= |n.entries|
  {
    && n.entries[i].firstField == m.entries[i].firstField && n.entries[i].fieldCount == m.entries[i].fieldCount
    && n.chains[i + 1] == m.chains[i + 1]
  }

  ghost predicate SameGroup(m: Flat, n: Flat, g: nat)
    requires Sizes(m) && Sizes(n) && g < |m.groups| <= |n.groups|
  {
    n.groups[g].countTag == m.groups[g].countTag && n.groups[g].depth == m.groups[g].depth && n.kids[g] == m.kids[g]
  }

  /** `a` is `b` or one of the containers around `b`. */
  ghost predicate Above(m: Flat, a: int, b: int)
    requires WellFormed(m) && Container(m, b)
    decreases b + 1
  {
    a == b || (b >= 0 && EntryOk(m, b) && Above(m, a, m.groupOwner[m.entryGroup[b]]))
  }

  lemma {:induction false} AboveIsBefore(m: Flat, a: int, b: int)
    requires WellFormed(m) && Container(m, b) && Above(m, a, b)
    ensures a <= b
    decreases b + 1
  {
    if a != b {
      AboveIsBefore(m, a, m.groupOwner[m.entryGroup[b]]);
    }
  }

  lemma {:induction false} AboveChild(m: Flat, i: nat, b: int)
    requires WellFormed(m) && Container(m, b) && i < |m.entries| && EntryOk(m, i) && Above(m, i, b)
    ensures Above(m, m.groupOwner[m.entryGroup[i]], b)
    decreases b + 1
  {
    if i != b {
      AboveChild(m, i, m.groupOwner[m.entryGroup[b]]);
    }
  }

  // ---------------------------------------------------------------- a view outlives changes elsewhere

  lemma {:induction false} EntryFrame(m: Flat, n: Flat, raw: Text, c: int, i: nat)
    requires WellFormed(m) && WellFormed(n) && Container(m, c) && Same(m, n, c)
    requires i < |m.entries| && !Above(m, i, c)
    ensures ViewEntry(n, raw, i) == ViewEntry(m, raw, i)
    decreases |m.entries| - i, 3, 0
  {
    assert SameEntry(m, n, i) && RangeOk(m, i) && RangeOk(n, i);
    SlotsFrame(m, n, raw, c, i);
    GroupsFrame(m, n, raw, c, i, 0);
  }

  lemma SlotsFrame(m: Flat, n: Flat, raw: Text, c: int, i: nat)
    requires Sizes(m) && Sizes(n) && Same(m, n, c) && i != c && i < |m.entries| && RangeOk(m, i) && RangeOk(n, i)
    ensures EntrySlots(n, raw, i) == EntrySlots(m, raw, i)
  {
    assert SameEntry(m, n, i);
    var e := m.entries[i];
    if e.fieldCount > 0 {
      forall s | e.firstField <= s < e.firstField + e.fieldCount ensures n.slots[s] == m.slots[s] {
        assert SameSlot(m, n, s);
      }
      RangeViewsSame(raw, m.slots, n.slots, e.firstField, e.firstField + e.fieldCount);
    }
  }

  lemma {:induction false} GroupsFrame(m: Flat, n: Flat, raw: Text, c: int, i: nat, k: nat)
    requires WellFormed(m) && WellFormed(n) && Container(m, c) && Same(m, n, c)
    requires i < |m.entries| && !Above(m, i, c) && k <= |m.chains[i + 1]| && SameEntry(m, n, i)
    ensures ViewGroups(n, raw, i, k) == ViewGroups(m, raw, i, k)
    decreases |m.entries| - i, 2, |m.chains[i + 1]| - k
  {
    if k < |m.chains[i + 1]| {
      assert ChainOk(m, i) && GroupLink(m, i, k);
      GroupKept(m, n, raw, c, m.chains[i + 1][k]);
      GroupsFrame(m, n, raw, c, i, k + 1);
    }
  }

  lemma {:induction false} GroupKept(m: Flat, n: Flat, raw: Text, c: int, g: nat)
    requires WellFormed(m) && WellFormed(n) && Container(m, c) && Same(m, n, c)
    requires g < |m.groups| && !Above(m, m.groupOwner[g], c)
    ensures ViewGroup(n, raw, g) == ViewGroup(m, raw, g)
    decreases |m.entries| - m.groupOwner[g], 1, |m.kids[g]| + 1
  {
    assert Above(m, m.groupOwner[g], m.groupOwner[g]);
    assert SameGroup(m, n, g);
    KidsFrame(m, n, raw, c, g, 0);
  }

  lemma {:induction false} KidsFrame(m: Flat, n: Flat, raw: Text, c: int, g: nat, k: nat)
    requires WellFormed(m) && WellFormed(n) && Container(m, c) && Same(m, n, c)
    requires g < |m.groups| && (m.groupOwner[g] == c || !Above(m, m.groupOwner[g], c))
    requires SameGroup(m, n, g) && k <= |m.kids[g]|
    ensures ViewKids(n, raw, g, k) == ViewKids(m, raw, g, k)
    decreases |m.entries| - m.groupOwner[g], 1, |m.kids[g]| - k
  {
    if k < |m.kids[g]| {
      assert KidsOk(m, g) && EntryLink(m, g, k);
      var i := m.kids[g][k];
      assert EntryOk(m, i);
      if Above(m, i, c) {
        AboveIsBefore(m, i, c);
        AboveChild(m, i, c);
      }
      EntryFrame(m, n, raw, c, i);
      KidsFrame(m, n, raw, c, g, k + 1);
    }
  }

  // ---------------------------------------------------------------- views position by position

  lemma {:induction false} ViewGroupsAt(m: Flat, raw: Text, c: int, k: nat, j: nat)
    requires WellFormed(m) && Container(m, c) && k <= |m.chains[c + 1]|
    ensures |ViewGroups(m, raw, c, k)| == |m.chains[c + 1]| - k
    ensures k <= j < |m.chains[c + 1]| ==>
      m.chains[c + 1][j] < |m.groups| && ViewGroups(m, raw, c, k)[j - k] == ViewGroup(m, raw, m.chains[c + 1][j])
    decreases |m.chains[c + 1]| - k
  {
    if k < |m.chains[c + 1]| {
      assert ChainOk(m, c) && GroupLink(m, c, k);
      ViewGroupsAt(m, raw, c, k + 1, j);
    }
  }

  lemma {:induction false} ViewKidsAt(m: Flat, raw: Text, g: nat, k: nat, j: nat)
    requires WellFormed(m) && g < |m.groups| && k <= |m.kids[g]|
    ensures |ViewKids(m, raw, g, k)| == |m.kids[g]| - k
    ensures k <= j < |m.kids[g]| ==>
      m.kids[g][j] < |m.entries| && ViewKids(m, raw, g, k)[j - k] == ViewEntry(m, raw, m.kids[g][j])
    decreases |m.kids[g]| - k
  {
    if k < |m.kids[g]| {
      assert KidsOk(m, g) && EntryLink(m, g, k);
      ViewKidsAt(m, raw, g, k + 1, j);
    }
  }
}
