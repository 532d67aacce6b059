/** The root index over a whole decode: which field a lookup returns after any sequence of appends. */
module RootHistory {
  import opened Optional
  import opened RootIndex
  import opened FlatTree

  /** A field stored at the root, or a slot added for a group entry. */
  datatype Event = AtRoot(slot: FieldSlot) | InEntry(slot: FieldSlot)

  datatype Table = Table(slots: seq<FieldSlot>, keys: map<nat, nat>)

  /** What a root append and an entry append do to slots and keys. */
  function Step(t: Table, e: Event): Table {
    match e
    case InEntry(s) => t.(slots := t.slots + [s])
    case AtRoot(s) =>
      if Key(s.tag) in t.keys && t.keys[Key(s.tag)] < |t.slots| then t.(slots := t.slots[t.keys[Key(s.tag)] := s])
      else Table(t.slots + [s], t.keys[Key(s.tag) := |t.slots|])
  }

  function After(events: seq<Event>): Table
    decreases |events|
  {
    if events == [] then Table([], map[]) else Step(After(events[..|events| - 1]), events[|events| - 1])
  }

  /** The field a lookup by tag returns. */
  function Lookup(t: Table, tag: nat): Option<FieldSlot> {
    if Key(tag) in t.keys && t.keys[Key(tag)] < |t.slots| then Some(t.slots[t.keys[Key(tag)]]) else None
  }

  /** The last root field with the key. */
  function LastWithKey(events: seq<Event>, key: nat): Option<FieldSlot>
    decreases |events|
  {
    if events == [] then None
    else
      var e := events[|events| - 1];
      if e.AtRoot? && Key(e.slot.tag) == key then Some(e.slot) else LastWithKey(events[..|events| - 1], key)
  }

  /** The last root field with the tag itself. */
  function LastWithTag(events: seq<Event>, tag: nat): Option<FieldSlot>
    decreases |events|
  {
    if events == [] then None
    else
      var e := events[|events| - 1];
      if e.AtRoot? && e.slot.tag == tag then Some(e.slot) else LastWithTag(events[..|events| - 1], tag)
  }

  /** Keys refer to root slots that have them; an append for an entry touches none. */
  ghost predicate KeysOk(t: Table) {
    forall k :: k in t.keys ==> t.keys[k] < |t.slots| && Key(t.slots[t.keys[k]].tag) == k
  }

  lemma {:induction false} AfterOk(events: seq<Event>)
    ensures KeysOk(After(events))
    decreases |events|
  {
    if events != [] {
      AfterOk(events[..|events| - 1]);
    }
  }

  /** A lookup returns the last field stored under the tag's key. */
  lemma {:induction false} LookupIsLastWithKey(events: seq<Event>, tag: nat)
    ensures Lookup(After(events), tag) == LastWithKey(events, Key(tag))
    decreases |events|
  {
    if events != [] {
      var before := After(events[..|events| - 1]);
      AfterOk(events[..|events| - 1]);
      LookupIsLastWithKey(events[..|events| - 1], tag);
    }
  }

  lemma {:induction false} LastWithKeyHasKey(events: seq<Event>, key: nat)
    ensures LastWithKey(events, key).Some? ==> Key(LastWithKey(events, key).value.tag) == key
    decreases |events|
  {
    if events != [] {
      LastWithKeyHasKey(events[..|events| - 1], key);
    }
  }

  lemma {:induction false} LastWithTagHasTag(events: seq<Event>, tag: nat)
    ensures LastWithTag(events, tag).Some? ==> LastWithTag(events, tag).value.tag == tag
    ensures LastWithKey(events, Key(tag)).None? ==> LastWithTag(events, tag).None?
    ensures
      var k := LastWithKey(events, Key(tag));
      k.Some? && k.value.tag == tag ==> LastWithTag(events, tag) == k
    decreases |events|
  {
    if events != [] {
      LastWithTagHasTag(events[..|events| - 1], tag);
    }
  }

  /**
   * The index is a last-write-wins map for a tag exactly when the last field stored under its key, if any,
   * has that very tag.
   */
  lemma LastWriteWins(events: seq<Event>, tag: nat)
    ensures Lookup(After(events), tag) == LastWithTag(events, tag)
        <==> LastWithKey(events, Key(tag)).None? || LastWithKey(events, Key(tag)).value.tag == tag
  {
    LookupIsLastWithKey(events, tag);
    LastWithTagHasTag(events, tag);
  }

  /** Where all tags fit in 16 bits the index never confuses two of them. */
  lemma NarrowTagsNeverClash(events: seq<Event>, tag: nat)
    requires tag < 0x1_0000 && forall i :: 0 <= i < |events| && events[i].AtRoot? ==> events[i].slot.tag < 0x1_0000
    ensures Lookup(After(events), tag) == LastWithTag(events, tag)
  {
    LastWriteWins(events, tag);
    LastWithKeyHasKey(events, Key(tag));
    LastIsNarrow(events, Key(tag));
  }

  lemma {:induction false} LastIsNarrow(events: seq<Event>, key: nat)
    requires forall i :: 0 <= i < |events| && events[i].AtRoot? ==> events[i].slot.tag < 0x1_0000
    ensures LastWithKey(events, key).Some? ==> LastWithKey(events, key).value.tag < 0x1_0000
    decreases |events|
  {
    if events != [] {
      LastIsNarrow(events[..|events| - 1], key);
    }
  }

  /** Tags 1024 and 66560 share a key: the second field hides the first. */
  lemma WideTagsClash(a: FieldSlot, b: FieldSlot)
    requires a.tag == 1024 && b.tag == 66560
    ensures Lookup(After([AtRoot(a), AtRoot(b)]), 1024) == Some(b)
    ensures LastWithTag([AtRoot(a), AtRoot(b)], 1024) == Some(a)
  {
    LookupIsLastWithKey([AtRoot(a), AtRoot(b)], 1024);
    assert [AtRoot(a), AtRoot(b)][..1] == [AtRoot(a)];
  }

  /** A key keeps the slot of its first field. */
  lemma FirstSlotStays(events: seq<Event>, more: Event, key: nat)
    requires key in After(events).keys
    ensures key in After(events + [more]).keys && After(events + [more]).keys[key] == After(events).keys[key]
  {
    assert (events + [more])[..|events|] == events;
    AfterOk(events);
  }
}
