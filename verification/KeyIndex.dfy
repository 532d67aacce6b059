/** Sorted indexes with binary search, and a direct table for small keys. */
module KeyIndex {
  import opened Optional
  import opened Bytes
  import opened CanonicalOrder

  datatype Slot = Slot(key: Key, index: nat)

  /** Slots compare by key; equal keys, which a sort leaves in any order, by index. */
  function SlotKey(s: Slot): Key {
    Node([s.key, Leaf(s.index)])
  }

  function SlotsFor(keys: seq<Key>): (slots: seq<Slot>)
    ensures |slots| == |keys| && forall i :: 0 <= i < |keys| ==> slots[i] == Slot(keys[i], i)
  {
    seq(|keys|, i requires 0 <= i < |keys| => Slot(keys[i], i))
  }

  function IndexOf(keys: seq<Key>): seq<Slot> {
    Sort(SlotsFor(keys), SlotKey)
  }

  /** The first place of k at or after i: what a linear search finds. */
  function First(keys: seq<Key>, k: Key, i: nat): (r: Option<nat>)
    requires i <= |keys|
    ensures r.Some? ==> i <= r.value < |keys| && keys[r.value] == k
    ensures r.None? ==> forall j :: i <= j < |keys| ==> keys[j] != k
    decreases |keys| - i
  {
    if i == |keys| then None else if keys[i] == k then Some(i) else First(keys, k, i + 1)
  }

  ghost predicate DistinctKeys(keys: seq<Key>) {
    forall i, j :: 0 <= i < j < |keys| ==> keys[i] != keys[j]
  }

  // ---- what an index holds

  lemma SlotOrder(a: Slot, b: Slot)
    requires !Before(SlotKey, b, a)
    ensures !Less(b.key, a.key)
  {
    var x, y := SlotKey(a).kids, SlotKey(b).kids;
    assert ListLess(y, x) <==> Less(y[0], x[0]) || (y[0] == x[0] && ListLess(y[1..], x[1..]));
    assert Before(SlotKey, b, a) <==> Less(SlotKey(b), SlotKey(a));
  }

  ghost predicate KeysRise(slots: seq<Slot>) {
    forall i, j :: 0 <= i < j < |slots| ==> !Less(slots[j].key, slots[i].key)
  }

  /** The index of keys holds each key with its place, in order. */
  lemma IndexHolds(keys: seq<Key>)
    ensures KeysRise(IndexOf(keys)) && |IndexOf(keys)| == |keys|
    ensures forall s :: s in IndexOf(keys) <==> s.index < |keys| && s == Slot(keys[s.index], s.index)
  {
    var slots, index := SlotsFor(keys), IndexOf(keys);
    SortSorts(slots, SlotKey);
    assert |multiset(index)| == |multiset(slots)|;
    hide Less, Sort, SlotKey;
    forall i, j | 0 <= i < j < |index| ensures !Less(index[j].key, index[i].key) {
      SlotOrder(index[i], index[j]);
    }
    forall s ensures s in index <==> s.index < |keys| && s == Slot(keys[s.index], s.index) {
      assert s in index <==> s in multiset(index);
      assert s in slots <==> s in multiset(slots);
      if s.index < |keys| && s == Slot(keys[s.index], s.index) { assert slots[s.index] == s; }
    }
  }

  // ---- searching

  /** The first slot whose key is not below k. */
  method LowerBound(slots: seq<Slot>, k: Key) returns (p: nat)
    requires KeysRise(slots)
    ensures p <= |slots|
    ensures forall i :: 0 <= i < p ==> Less(slots[i].key, k)
    ensures forall i :: p <= i < |slots| ==> !Less(slots[i].key, k)
  {
    hide Less;
    p := 0;
    var count := |slots|;
    while count > 0
      invariant 0 <= count && p + count <= |slots|
      invariant forall i :: 0 <= i < p ==> Less(slots[i].key, k)
      invariant forall i :: p + count <= i < |slots| ==> !Less(slots[i].key, k)
    {
      var half := count / 2;
      var mid := p + half;
      if Less(slots[mid].key, k) {
        forall i | 0 <= i < mid + 1 ensures Less(slots[i].key, k) {
          if i < mid { NotAbove(slots[i].key, slots[mid].key, k); }
        }
        p := mid + 1;
        count := count - half - 1;
      } else {
        forall i | mid <= i < |slots| ensures !Less(slots[i].key, k) {
          if mid < i && Less(slots[i].key, k) { NotAbove(slots[mid].key, slots[i].key, k); }
        }
        count := half;
      }
    }
  }

  lemma NotAbove(a: Key, b: Key, k: Key)
    requires !Less(b, a) && Less(b, k)
    ensures Less(a, k)
  {
    Compares(a, b);
    if a != b { Chains(a, b, k); }
  }

  lemma FoundAtBound(slots: seq<Slot>, p: nat, s: Slot)
    requires KeysRise(slots) && s in slots && p <= |slots|
    requires forall i :: 0 <= i < p ==> Less(slots[i].key, s.key)
    requires forall i :: p <= i < |slots| ==> !Less(slots[i].key, s.key)
    ensures p < |slots| && slots[p].key == s.key
  {
    hide Less;
    var q :| 0 <= q < |slots| && slots[q] == s;
    Compares(s.key, s.key);
    Compares(s.key, slots[p].key);
  }

  /** Binary search finds a place of k, if there is one; the only one when keys do not repeat. */
  method FindSorted(slots: seq<Slot>, k: Key, ghost keys: seq<Key>) returns (r: Option<nat>)
    requires slots == IndexOf(keys)
    ensures r.Some? ==> r.value < |keys| && keys[r.value] == k
    ensures r.None? ==> forall i :: 0 <= i < |keys| ==> keys[i] != k
    ensures DistinctKeys(keys) ==> r == First(keys, k, 0)
  {
    IndexHolds(keys);
    hide IndexOf, Less;
    var p := LowerBound(slots, k);
    if p < |slots| && slots[p].key == k {
      assert slots[p] in slots;
      return Some(slots[p].index);
    }
    forall i | 0 <= i < |keys| ensures keys[i] != k {
      assert Slot(keys[i], i) in slots;
      if keys[i] == k { FoundAtBound(slots, p, Slot(keys[i], i)); }
    }
    return None;
  }

  // ---- the direct table

  const DIRECT_SIZE: nat := 10000
  const NO_ENTRY: nat := 0xFFFF

  /** What the table holds for a tag after the first n tags. */
  function DirectOf(tags: seq<nat>, n: nat, tag: nat): nat
    requires n <= |tags|
  {
    if n == 0 then NO_ENTRY
    else if tags[n - 1] == tag && n - 1 <= 0xFFFF then n - 1
    else DirectOf(tags, n - 1, tag)
  }

  method BuildDirect(tags: seq<nat>) returns (table: array<nat>)
    ensures fresh(table) && table.Length == DIRECT_SIZE
    ensures forall t :: 0 <= t < DIRECT_SIZE ==> table[t] == DirectOf(tags, |tags|, t)
  {
    table := new nat[DIRECT_SIZE](_ => NO_ENTRY);
    var i := 0;
    while i < |tags|
      invariant i <= |tags|
      invariant forall t :: 0 <= t < DIRECT_SIZE ==> table[t] == DirectOf(tags, i, t)
    {
      var tag := tags[i];
      if tag < DIRECT_SIZE && i <= 0xFFFF {
        table[tag] := i;
      }
      i := i + 1;
    }
  }

  function TagKeys(tags: seq<nat>): (keys: seq<Key>)
    ensures |keys| == |tags| && forall i :: 0 <= i < |tags| ==> keys[i] == Leaf(tags[i])
  {
    seq(|tags|, i requires 0 <= i < |tags| => Leaf(tags[i]))
  }

  /** What a lookup through the table finds. */
  function ThroughDirect(entry: nat): Option<nat> {
    if entry != NO_ENTRY then Some(entry) else None
  }

  lemma {:induction false} DirectHolds(tags: seq<nat>, n: nat, tag: nat)
    requires n <= |tags| && forall i, j :: 0 <= i < j < |tags| ==> tags[i] != tags[j]
    ensures var e := DirectOf(tags, n, tag); e <= NO_ENTRY && (e == NO_ENTRY || (e < n && tags[e] == tag))
    ensures forall i :: 0 <= i < n && i <= 0xFFFF && tags[i] == tag ==> DirectOf(tags, n, tag) == i
  {
    if n > 0 {
      DirectHolds(tags, n - 1, tag);
      forall i | 0 <= i < n && i <= 0xFFFF && tags[i] == tag ensures DirectOf(tags, n, tag) == i {
        if i < n - 1 { assert tags[i] != tags[n - 1]; }
      }
    }
  }

  /** The table finds what a search finds exactly when the place fits below the mark for no entry. */
  lemma DirectFinds(tags: seq<nat>, tag: nat)
    requires forall i, j :: 0 <= i < j < |tags| ==> tags[i] != tags[j]
    ensures var found := First(TagKeys(tags), Leaf(tag), 0);
            ThroughDirect(DirectOf(tags, |tags|, tag)) == found <==> (found.Some? ==> found.value < NO_ENTRY)
  {
    var keys := TagKeys(tags);
    var found := First(keys, Leaf(tag), 0);
    DirectHolds(tags, |tags|, tag);
    var e := DirectOf(tags, |tags|, tag);
    hide First, TagKeys, DirectOf;
    assert e < |tags| ==> keys[e] == Leaf(tags[e]);
    if found.Some? {
      var i := found.value;
      assert keys[i] == Leaf(tags[i]) && tags[i] == tag;
    }
  }

  /** 65535 large tags and then tag 1. */
  function CrowdedTags(): (tags: seq<nat>)
    ensures |tags| == 0x1_0000 && tags[0xFFFF] == 1 && forall i :: 0 <= i < 0xFFFF ==> tags[i] == 20000 + i
  {
    seq(0x1_0000, i => if i == 0xFFFF then 1 else 20000 + i)
  }

  /** Tag 1 at place 65535 is found by a search and missed by the table. */
  lemma LateTagIsMissed()
    ensures
      var tags := CrowdedTags();
      && First(TagKeys(tags), Leaf(1), 0) == Some(0xFFFF)
      && ThroughDirect(DirectOf(tags, |tags|, 1)) == None
  {
    var tags := CrowdedTags();
    hide CrowdedTags, First;
    DirectFinds(tags, 1);
    var found := First(TagKeys(tags), Leaf(1), 0);
    assert TagKeys(tags)[0xFFFF] == Leaf(1);
    assert found.Some? && TagKeys(tags)[found.value] == Leaf(tags[found.value]);
    assert DirectOf(tags, 0x1_0000, 1) == 0xFFFF;
  }

  // ---- keys of byte strings

  function ByteKey(t: Text): Key {
    Node(seq(|t|, i requires 0 <= i < |t| => Leaf(t[i])))
  }

  lemma ByteKeysDiffer(a: Text, b: Text)
    requires ByteKey(a) == ByteKey(b)
    ensures a == b
  {
    assert |ByteKey(a).kids| == |a| && |ByteKey(b).kids| == |b|;
    forall i | 0 <= i < |a| ensures a[i] == b[i] {
      assert ByteKey(a).kids[i] == ByteKey(b).kids[i];
    }
  }
}
