/**
 * The index of root fields: a direct-address table of slot numbers stamped with a generation, an overflow
 * list of 16-bit pairs for large tags and a quick cache for session tags.
 */
module RootIndex {
  import opened Optional
  import opened FixTags

  const TABLE_SIZE: nat := 1024
  const QUICK_SIZE: nat := 8
  const INVALID_SLOT: nat := 0xFFFF

  /** What the index tells tags apart by: large tags are stored in 16 bits. */
  function Key(tag: nat): nat {
    if tag < 1024 then tag else 1024 + tag % 0x1_0000
  }

  /** The tag behind a position of the quick cache. */
  function QuickTag(q: nat): nat {
    if q == 0 then BEGIN_STRING else if q == 1 then BODY_LENGTH else if q == 2 then MSG_TYPE
    else if q == 3 then MSG_SEQ_NUM else if q == 4 then SENDER_COMP_ID else if q == 5 then TARGET_COMP_ID
    else if q == 6 then SENDING_TIME else CHECK_SUM
  }

  function QuickSlot(tag: nat): (q: Option<nat>)
    ensures q.Some? ==> q.value < 8 && QuickTag(q.value) == tag
    ensures q.None? ==> forall i :: 0 <= i < 8 ==> QuickTag(i) != tag
  {
    if tag == BEGIN_STRING then Some(0) else if tag == BODY_LENGTH then Some(1) else if tag == MSG_TYPE then Some(2)
    else if tag == MSG_SEQ_NUM then Some(3) else if tag == SENDER_COMP_ID then Some(4)
    else if tag == TARGET_COMP_ID then Some(5) else if tag == SENDING_TIME then Some(6)
    else if tag == CHECK_SUM then Some(7) else None
  }

  // ---------------------------------------------------------------- overflow list

  /** Slot of the first pair with the 16-bit tag at or after `i`. */
  function ScanPairs(pairs: seq<nat>, i: nat, low: nat): Option<nat>
    decreases |pairs| - i
  {
    if i + 1 >= |pairs| then None
    else if pairs[i] == low then Some(pairs[i + 1])
    else ScanPairs(pairs, i + 2, low)
  }

  lemma {:induction false} ScanAfterPush(pairs: seq<nat>, i: nat, a: nat, b: nat, low: nat)
    requires |pairs| % 2 == 0 && i % 2 == 0 && i <= |pairs|
    ensures ScanPairs(pairs + [a] + [b], i, low)
         == if ScanPairs(pairs, i, low).Some? then ScanPairs(pairs, i, low) else if a == low then Some(b) else None
    decreases |pairs| - i
  {
    if i < |pairs| {
      ScanAfterPush(pairs, i + 2, a, b, low);
    }
  }

  // ---------------------------------------------------------------- the index

  class Index {
    const table: array<nat>
    const quick: array<nat>
    var overflow: seq<nat>
    var generation: nat
    /** Slot numbers by key. */
    ghost var keys: map<nat, nat>

    ghost predicate Valid()
      reads this, table, quick
    {
      && table.Length == TABLE_SIZE && quick.Length == QUICK_SIZE && table != quick && 1 <= generation < 0x1_0000
      && TableOk() && OverflowOk()
      && forall q :: 0 <= q < 8 ==>
           quick[q] == if QuickTag(q) in keys then keys[QuickTag(q)] % 0x1_0000 else INVALID_SLOT
    }

    /** No stamp is ahead of the generation, and the current stamps are those of the keys. */
    ghost predicate TableOk()
      requires table.Length == TABLE_SIZE
      reads this, table
    {
      forall t :: 0 <= t < 1024 ==>
        && table[t] / 0x1_0000 <= generation
        && (table[t] / 0x1_0000 == generation <==> t in keys)
        && (t in keys ==> table[t] % 0x1_0000 == keys[t] % 0x1_0000)
    }

    ghost predicate OverflowOk()
      reads this
    {
      && |overflow| % 2 == 0
      && forall low :: 0 <= low < 0x1_0000 ==>
           ScanPairs(overflow, 0, low) == if 1024 + low in keys then Some(keys[1024 + low] % 0x1_0000) else None
    }

    constructor ()
      ensures Valid() && keys == map[] && fresh(table) && fresh(quick)
    {
      table := new nat[TABLE_SIZE](i => 0);
      quick := new nat[QUICK_SIZE](i => INVALID_SLOT);
      overflow := [];
      generation := 1;
      keys := map[];
    }

    /** Forgets every key; the table is cleared only when the 16-bit generation wraps around. */
    method ResetForNewDecode()
      requires Valid()
      modifies this, table, quick
      ensures Valid() && keys == map[]
    {
      generation := (generation + 1) % 0x1_0000;
      if generation == 0 {
        for i := 0 to table.Length
          modifies table
          invariant forall t :: 0 <= t < i ==> table[t] == 0
        {
          table[i] := 0;
        }
        generation := 1;
      }
      overflow := [];
      for i := 0 to quick.Length
        modifies quick
        invariant forall q :: 0 <= q < i ==> quick[q] == INVALID_SLOT
      {
        quick[i] := INVALID_SLOT;
      }
      keys := map[];
    }

    /** The 16 stored bits of the slot number kept for the tag's key. */
    ghost function Stored(tag: nat): Option<nat>
      reads this
    {
      if Key(tag) in keys then Some(keys[Key(tag)] % 0x1_0000) else None
    }

    method Find(tag: nat) returns (slot: Option<nat>)
      requires Valid()
      ensures slot == Stored(tag)
    {
      if tag < TABLE_SIZE {
        var packed := table[tag];
        if packed / 0x1_0000 == generation {
          return Some(packed % 0x1_0000);
        }
        return None;
      }
      var i := 0;
      while i + 1 < |overflow|
        invariant ScanPairs(overflow, i, tag % 0x1_0000) == ScanPairs(overflow, 0, tag % 0x1_0000)
        decreases |overflow| - i
      {
        if overflow[i] == tag % 0x1_0000 {
          return Some(overflow[i + 1]);
        }
        i := i + 2;
      }
      slot := None;
    }

    method Insert(tag: nat, slot: nat)
      requires Valid() && Key(tag) !in keys
      modifies this, table, quick
      ensures Valid() && keys == old(keys)[Key(tag) := slot]
    {
      if tag < TABLE_SIZE {
        table[tag] := generation * 0x1_0000 + slot % 0x1_0000;
      } else {
        ghost var pairs := overflow;
        overflow := overflow + [tag % 0x1_0000];
        overflow := overflow + [slot % 0x1_0000];
        forall low | 0 <= low < 0x1_0000
          ensures ScanPairs(overflow, 0, low) == if ScanPairs(pairs, 0, low).Some? then ScanPairs(pairs, 0, low)
                                                 else if tag % 0x1_0000 == low then Some(slot % 0x1_0000) else None
        {
          ScanAfterPush(pairs, 0, tag % 0x1_0000, slot % 0x1_0000, low);
        }
      }
      var q := QuickSlot(tag);
      if q.Some? {
        quick[q.value] := slot % 0x1_0000;
      }
      keys := keys[Key(tag) := slot];
    }

    /** Lookup by readers: the quick cache answers for session tags, and tells the same as the table. */
    method Lookup(tag: nat) returns (slot: Option<nat>)
      requires Valid()
      ensures slot == if QuickSlot(tag).Some? && Stored(tag) == Some(INVALID_SLOT) then None else Stored(tag)
    {
      var q := QuickSlot(tag);
      if q.Some? {
        var i := quick[q.value];
        if i != INVALID_SLOT {
          return Some(i);
        }
        return None;
      }
      slot := Find(tag);
    }
  }
}
