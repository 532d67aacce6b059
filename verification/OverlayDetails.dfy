/** What an overlay does to each definition, attribute by attribute, and which overlays are refused. */
module OverlayDetails {
  import opened Optional
  import opened CanonicalOrder
  import opened OverlayMerge
  import opened ProfileBuilder
  import opened OverlayApply

  /** The bit of weight 2^i. */
  predicate Bit(n: nat, i: nat) {
    if i == 0 then n % 2 == 1 else Bit(n / 2, i - 1)
  }

  lemma {:induction false} NoBits(i: nat)
    ensures !Bit(0, i)
  {
    if i > 0 { NoBits(i - 1); }
  }

  /** Joined flags have the bits of both. */
  lemma {:induction false} JoinedBits(a: nat, b: nat, i: nat)
    ensures Bit(OrBits(a, b), i) <==> Bit(a, i) || Bit(b, i)
    decreases i
  {
    if a == 0 {
      NoBits(i);
    } else if i > 0 {
      JoinedBits(a / 2, b / 2, i - 1);
    }
  }

  ghost predicate FlagsJoined(a: nat, b: nat, r: nat) {
    forall i :: Bit(r, i) <==> Bit(a, i) || Bit(b, i)
  }

  lemma FlagsOfBoth(a: nat, b: nat)
    ensures FlagsJoined(a, b, OrBits(a, b))
  {
    forall i ensures Bit(OrBits(a, b), i) <==> Bit(a, i) || Bit(b, i) { JoinedBits(a, b, i); }
  }

  /** A field of both: the overlay's name if it has one, its type only with the baseline's leave, both flags. */
  ghost predicate FieldMerged(x: FieldDef, y: FieldDef, z: FieldDef) {
    && z.tag == x.tag && z.enums == x.enums && FlagsJoined(x.flags, y.flags, z.flags)
    && (if y.name == [] then z.name == x.name else z.name == y.name)
    && (if y.valueType != 0 && Bit(x.flags, 1) then z.valueType == y.valueType else z.valueType == x.valueType)
  }

  ghost predicate MessageMerged(x: MessageDef, y: MessageDef, z: MessageDef) {
    && z.msgType == x.msgType && FlagsJoined(x.flags, y.flags, z.flags)
    && (if y.name == [] then z.name == x.name else z.name == y.name) && z.rules == Merge(x.rules, y.rules)
  }

  /** A group of both: the overlay's delimiter if it names one, which must then agree or be allowed to differ. */
  ghost predicate GroupMerged(x: GroupDef, y: GroupDef, z: GroupDef) {
    && z.countTag == x.countTag && FlagsJoined(x.flags, y.flags, z.flags)
    && (if y.name == [] then z.name == x.name else z.name == y.name) && z.rules == Merge(x.rules, y.rules)
    && (if y.delimiter == 0 then z.delimiter == x.delimiter
        else z.delimiter == y.delimiter && (x.delimiter == 0 || x.delimiter == y.delimiter || Bit(y.flags, 0)))
  }

  /** A definition of the baseline only, of the overlay only, or of both. */
  ghost predicate Combined<T(!new)>(x: Option<T>, y: Option<T>, z: Option<T>, merged: (T, T, T) -> bool) {
    if x.Some? && y.Some? then z.Some? && merged(x.value, y.value, z.value) else z == if x.Some? then x else y
  }

  // ---- refusals

  /** The overlay has a group whose delimiter the baseline's group does not yield to. */
  ghost predicate DelimiterRefused(b: Dictionary, y: Dictionary) {
    exists i :: 0 <= i < |y.groups| && GroupRefused(b, y.groups[i])
  }

  predicate GroupRefused(b: Dictionary, g: GroupDef) {
    var x := Get(b.groups, CountKey, CountKey(g));
    && x.Some? && g.delimiter != 0 && x.value.delimiter != 0 && g.delimiter != x.value.delimiter
    && !Bit(g.flags, 0)
  }

  /** A session tag among the rules. */
  ghost predicate SessionRule(rules: seq<Rule>) {
    exists r :: r in rules && r.tag in {8, 9, 10, 34, 35, 49, 56}
  }

  lemma {:induction false} GroupsRefused(b: Dictionary, y: Dictionary, n: nat)
    requires n <= |y.groups| && KeysDistinct(y.groups, CountKey)
    ensures PutGroups(b.groups, y.groups, n).None? <==> exists i :: 0 <= i < n && GroupRefused(b, y.groups[i])
  {
    hide Put, Get, MergeGroup;
    if n > 0 {
      GroupsRefused(b, y, n - 1);
      var before := PutGroups(b.groups, y.groups, n - 1);
      if before.Some? {
        NotYetMerged(b, y, n);
        LookedUp(before.value, y.groups[n - 1]);
        assert before.value == PutAll(b.groups, y.groups, n - 1, CountKey, MergeGroup);
        assert PutGroups(b.groups, y.groups, n).None? <==> GroupRefused(b, y.groups[n - 1]);
      }
    }
  }

  lemma LookedUp(xs: seq<GroupDef>, y: GroupDef)
    ensures PutGroup(xs, y).None? <==>
      Get(xs, CountKey, CountKey(y)).Some? && Conflicts(Get(xs, CountKey, CountKey(y)).value, y)
  { }

  /** Each group of a duplicate-free overlay meets the baseline's own group. */
  lemma NotYetMerged(b: Dictionary, y: Dictionary, n: nat)
    requires 0 < n <= |y.groups| && KeysDistinct(y.groups, CountKey)
    ensures Get(PutAll(b.groups, y.groups, n - 1, CountKey, MergeGroup), CountKey, CountKey(y.groups[n - 1]))
         == Get(b.groups, CountKey, CountKey(y.groups[n - 1]))
  {
    hide PutAll, Get, MergeGroup, KeepsKey, Merge, OrBits;
    var k := CountKey(y.groups[n - 1]);
    MergesKeepKeys();
    PutAllGets(b.groups, y.groups, n - 1, CountKey, MergeGroup, k);
    GetLast(y.groups, n, CountKey, k);
  }

  /**
   * An overlay without duplicates is refused exactly when it changes a delimiter without leave or puts a session tag
   * into the header or the trailer.
   */
  lemma RefusedExactly(b: Dictionary, y: Dictionary)
    requires DuplicateFree(y)
    ensures Applied(b, y).None? <==>
      DelimiterRefused(b, y) || SessionRule(y.headerFields) || SessionRule(y.trailerFields)
  {
    hide PutGroups, DuplicateFree, Merge, Sort, PutAll, KeysDistinct, GroupRefused;
    DistinctByKey(y);
    GroupsRefused(b, y, |y.groups|);
    CoreTags(y.headerFields);
    CoreTags(y.trailerFields);
  }

  lemma CoreTags(rules: seq<Rule>)
    ensures HasCoreTag(rules) <==> SessionRule(rules)
  {
    if HasCoreTag(rules) {
      var i :| 0 <= i < |rules| && IsCoreSessionTag(rules[i].tag);
      assert rules[i] in rules;
    }
  }

  // ---- results

  lemma NotRefused(b: Dictionary, y: Dictionary, k: Key)
    requires DuplicateFree(y) && Applied(b, y).Some?
    ensures Get(b.groups, CountKey, k).Some? && Get(y.groups, CountKey, k).Some? ==>
      !Conflicts(Get(b.groups, CountKey, k).value, Get(y.groups, CountKey, k).value)
  {
    hide PutGroups, DuplicateFree, Merge, Sort, PutAll, KeysDistinct, SessionRule, Applied;
    RefusedExactly(b, y);
    if Get(b.groups, CountKey, k).Some? && Get(y.groups, CountKey, k).Some? {
      var g := Get(y.groups, CountKey, k).value;
      var i :| 0 <= i < |y.groups| && y.groups[i] == g;
      assert !GroupRefused(b, y.groups[i]);
    }
  }

  /**
   * The merged dictionary, attribute by attribute, under every key; header and trailer rules are merged as rule lists
   * and the dictionary keeps the baseline's identity.
   */
  lemma OverlayResult(b: Dictionary, y: Dictionary, k: Key)
    requires DuplicateFree(b) && DuplicateFree(y) && Applied(b, y).Some?
    ensures
      var m := Applied(b, y).value;
      && Combined(Get(b.fields, FieldKey, k), Get(y.fields, FieldKey, k), Get(m.fields, FieldKey, k),
                  (x, y, z) => FieldMerged(x, y, z))
      && Combined(Get(b.messages, TypeKey, k), Get(y.messages, TypeKey, k), Get(m.messages, TypeKey, k),
                  (x, y, z) => MessageMerged(x, y, z))
      && Combined(Get(b.groups, CountKey, k), Get(y.groups, CountKey, k), Get(m.groups, CountKey, k),
                  (x, y, z) => GroupMerged(x, y, z))
      && m.headerFields == Merge(b.headerFields, y.headerFields)
      && m.trailerFields == Merge(b.trailerFields, y.trailerFields)
      && m.schemaHash == b.schemaHash && m.profileId == b.profileId
  {
    OverlayMergesByKey(b, y, k);
    NotRefused(b, y, k);
    var m := Applied(b, y).value;
    assert m.headerFields == Merge(b.headerFields, y.headerFields) && m.schemaHash == b.schemaHash;
    hide Applied, DuplicateFree, Merge, Sort, Get, OrBits, FlagsJoined, PutAll, PutGroups;
    FieldParts(Get(b.fields, FieldKey, k), Get(y.fields, FieldKey, k));
    MessageParts(Get(b.messages, TypeKey, k), Get(y.messages, TypeKey, k));
    GroupParts(Get(b.groups, CountKey, k), Get(y.groups, CountKey, k));
  }

  lemma FieldParts(x: Option<FieldDef>, y: Option<FieldDef>)
    ensures Combined(x, y, Joint(x, y, MergeField), (x, y, z) => FieldMerged(x, y, z))
  {
    hide OrBits, FlagsJoined;
    if x.Some? && y.Some? {
      FlagsOfBoth(x.value.flags, y.value.flags);
      assert Bit(x.value.flags, 1) == AllowsTypeOverride(x.value.flags);
    }
  }

  lemma MessageParts(x: Option<MessageDef>, y: Option<MessageDef>)
    ensures Combined(x, y, Joint(x, y, MergeMessage), (x, y, z) => MessageMerged(x, y, z))
  {
    hide OrBits, FlagsJoined, Merge;
    if x.Some? && y.Some? { FlagsOfBoth(x.value.flags, y.value.flags); }
  }

  lemma GroupParts(x: Option<GroupDef>, y: Option<GroupDef>)
    requires x.Some? && y.Some? ==> !Conflicts(x.value, y.value)
    ensures Combined(x, y, Joint(x, y, MergeGroup), (x, y, z) => GroupMerged(x, y, z))
  {
    hide OrBits, FlagsJoined, Merge;
    if x.Some? && y.Some? { FlagsOfBoth(x.value.flags, y.value.flags); }
  }

  /** Fields come out by tag, messages by type, groups by count tag. */
  lemma ResultIsSorted(b: Dictionary, y: Dictionary)
    requires Applied(b, y).Some?
    ensures
      var m := Applied(b, y).value;
      Sorted(m.fields, FieldKey) && Sorted(m.messages, TypeKey) && Sorted(m.groups, CountKey)
  {
    hide PutAll, PutGroups, Merge, Sort, HasCoreTag, FieldKey, TypeKey, CountKey;
    SortSorts(PutAll(b.fields, y.fields, |y.fields|, FieldKey, MergeField), FieldKey);
    SortSorts(PutAll(b.messages, y.messages, |y.messages|, TypeKey, MergeMessage), TypeKey);
    SortSorts(PutGroups(b.groups, y.groups, |y.groups|).value, CountKey);
  }
}
