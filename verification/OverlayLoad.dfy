/** Overlays folded over a baseline and loaded as one profile. */
module OverlayLoad {
  import opened Optional
  import opened Bytes
  import opened CanonicalOrder
  import opened OverlayMerge
  import opened RequiredFields
  import PackedRows
  import opened ProfileRecords
  import opened ProfileBuilder
  import opened ProfileRoundTrip
  import opened OverlayApply
  import V = ProfileView

  // ---- merging keeps the widths of the numbers

  lemma {:induction false} OrBitsFits(a: nat, b: nat, k: nat)
    requires a < TwoTo(k) && b < TwoTo(k)
    ensures OrBits(a, b) < TwoTo(k)
  {
    if k > 0 && a > 0 {
      OrBitsFits(a / 2, b / 2, k - 1);
    }
  }

  lemma OrBitsWord(a: nat, b: nat)
    requires a < WORD && b < WORD
    ensures OrBits(a, b) < WORD
  {
    assert TwoTo(32) == WORD by { TwoTo32(); }
    hide TwoTo, OrBits;
    OrBitsFits(a, b, 32);
  }

  lemma TwoTo32()
    ensures TwoTo(32) == WORD
  {
    hide TwoTo;
    TwoToBytes(4);
    PackedRows.Powers();
  }

  lemma {:induction false} MergeTyped(rules: seq<Rule>, overlay: seq<Rule>, i: nat)
    requires i <= |overlay| && RulesTyped(rules) && RulesTyped(overlay)
    ensures RulesTyped(MergeFrom(rules, overlay, i))
    decreases |overlay| - i
  {
    if i < |overlay| {
      var more := MergeOne(rules, overlay, i);
      forall k | 0 <= k < |more| ensures RuleFits(more[k]) {
        var p := Find(rules, overlay[i].tag);
        if p == |rules| {
          var q := InsertAt(rules, overlay, i);
          assert more[k] == if k < q then rules[k] else if k == q then overlay[i] else rules[k - 1];
        }
      }
      MergeTyped(more, overlay, i + 1);
    }
  }

  lemma MergedField(x: FieldDef, y: FieldDef)
    requires FieldTyped(x) && FieldTyped(y)
    ensures FieldTyped(MergeField(x, y))
  {
    hide OrBits;
    OrBitsWord(x.flags, y.flags);
  }

  lemma MergedMessage(x: MessageDef, y: MessageDef)
    requires MessageTyped(x) && MessageTyped(y)
    ensures MessageTyped(MergeMessage(x, y))
  {
    hide OrBits, RulesTyped, MergeFrom;
    OrBitsWord(x.flags, y.flags);
    MergeTyped(x.rules, y.rules, 0);
  }

  lemma MergedGroup(x: GroupDef, y: GroupDef)
    requires GroupTyped(x) && GroupTyped(y)
    ensures GroupTyped(MergeGroup(x, y))
  {
    hide OrBits, RulesTyped, MergeFrom;
    OrBitsWord(x.flags, y.flags);
    MergeTyped(x.rules, y.rules, 0);
  }

  ghost predicate Keeps<T(!new)>(ok: T -> bool, merge: (T, T) -> T) {
    forall x, y :: ok(x) && ok(y) ==> ok(merge(x, y))
  }

  lemma {:induction false} PutAllKeeps<T(!new)>(
      xs: seq<T>, ys: seq<T>, n: nat, key: T -> Key, merge: (T, T) -> T, ok: T -> bool)
    requires n <= |ys| && All(ok, xs) && All(ok, ys) && Keeps(ok, merge)
    ensures All(ok, PutAll(xs, ys, n, key, merge))
  {
    if n > 0 {
      PutAllKeeps(xs, ys, n - 1, key, merge, ok);
    }
  }

  lemma SortKeeps<T(!new)>(xs: seq<T>, key: T -> Key, ok: T -> bool)
    requires All(ok, xs)
    ensures All(ok, Sort(xs, key))
  {
    SortSorts(xs, key);
    var ys := Sort(xs, key);
    hide Sort;
    forall i | 0 <= i < |ys| ensures ok(ys[i]) {
      assert ys[i] in multiset(ys);
      assert ys[i] in multiset(xs);
    }
  }

  lemma ListKeeps<T(!new)>(xs: seq<T>, ys: seq<T>, key: T -> Key, merge: (T, T) -> T, ok: T -> bool)
    requires All(ok, xs) && All(ok, ys) && Keeps(ok, merge)
    ensures All(ok, Sort(PutAll(xs, ys, |ys|, key, merge), key))
  {
    hide All, Sort, PutAll, Keeps;
    PutAllKeeps(xs, ys, |ys|, key, merge, ok);
    SortKeeps(PutAll(xs, ys, |ys|, key, merge), key, ok);
  }

  lemma MergesKeepTyped()
    ensures Keeps(FieldTyped, MergeField) && Keeps(MessageTyped, MergeMessage) && Keeps(GroupTyped, MergeGroup)
  {
    hide FieldTyped, MessageTyped, GroupTyped, MergeField, MergeMessage, MergeGroup;
    forall x, y | FieldTyped(x) && FieldTyped(y) ensures FieldTyped(MergeField(x, y)) { MergedField(x, y); }
    forall x, y | MessageTyped(x) && MessageTyped(y) ensures MessageTyped(MergeMessage(x, y)) { MergedMessage(x, y); }
    forall x, y | GroupTyped(x) && GroupTyped(y) ensures GroupTyped(MergeGroup(x, y)) { MergedGroup(x, y); }
  }

  /** Applying an overlay of 32-bit numbers to a dictionary of 32-bit numbers gives 32-bit numbers. */
  lemma AppliedTyped(b: Dictionary, y: Dictionary)
    requires Typed(b) && Typed(y) && Applied(b, y).Some?
    ensures Typed(Applied(b, y).value)
  {
    hide FieldTyped, MessageTyped, GroupTyped, RulesTyped, Sort, PutAll, PutGroups, HasCoreTag, MergeFrom, Keeps;
    hide FieldKey, TypeKey, CountKey;
    MergesKeepTyped();
    ListKeeps(b.fields, y.fields, FieldKey, MergeField, FieldTyped);
    ListKeeps(b.messages, y.messages, TypeKey, MergeMessage, MessageTyped);
    ListKeeps(b.groups, y.groups, CountKey, MergeGroup, GroupTyped);
    MergeTyped(b.headerFields, y.headerFields, 0);
    MergeTyped(b.trailerFields, y.trailerFields, 0);
  }

  ghost predicate AllTyped(ds: seq<Dictionary>) {
    forall i :: 0 <= i < |ds| ==> Typed(ds[i])
  }

  lemma {:induction false} FoldTyped(baseline: Dictionary, overlays: seq<Dictionary>, n: nat)
    requires n <= |overlays| && Typed(baseline) && AllTyped(overlays) && Folded(baseline, overlays, n).Some?
    ensures Typed(Folded(baseline, overlays, n).value)
  {
    hide Typed, Applied;
    if n > 0 {
      FoldTyped(baseline, overlays, n - 1);
      AppliedTyped(Folded(baseline, overlays, n - 1).value, overlays[n - 1]);
    }
  }

  // ---- loading

  /** The dictionary that a baseline and its overlays stand for. */
  function Merged(baseline: Dictionary, overlays: seq<Dictionary>): Option<Dictionary> {
    if baseline.profileId == 0 then None else Folded(baseline, overlays, |overlays|)
  }

  /**
   * Loads the first dictionary with the others laid over it: it fails without a dictionary, for a baseline without a
   * profile id and for a refused overlay, and otherwise a duplicate-free baseline loads as the merged dictionary.
   */
  method LoadProfileFromDictionaryFiles(dictionaries: seq<Dictionary>, u: Unread)
    returns (r: Option<V.View>, ghost t: Tables, ghost o: map<Text, nat>)
    requires AllTyped(dictionaries) && UnreadFits(u)
    ensures dictionaries == [] ==> r.None?
    ensures dictionaries != [] && Merged(dictionaries[0], dictionaries[1..]).None? ==> r.None?
    ensures dictionaries != [] && Merged(dictionaries[0], dictionaries[1..]).Some? && DuplicateFree(dictionaries[0]) ==>
      var d := Merged(dictionaries[0], dictionaries[1..]).value;
      && Typed(d) && DuplicateFree(d) && Describes(t, o, d)
      && (Within(d, t) ==> r.Some? && r.value.tables == t && V.Indexed(r.value))
  {
    hide Typed, DuplicateFree, Folded, Refuses, Describes, Within, V.Indexed, UnreadFits;
    r, t, o := None, Tables([], [], [], [], [], [], [], [], [], [], [], [], []), map[];
    if dictionaries == [] {
      return;
    }
    var baseline, overlays := dictionaries[0], dictionaries[1..];
    if baseline.profileId == 0 {
      return;
    }
    var merged := FoldOverlays(baseline, overlays);
    if merged.None? {
      return;
    }
    FoldTyped(baseline, overlays, |overlays|);
    r, t, o := LoadProfileFromDictionary(merged.value, u);
  }
}
