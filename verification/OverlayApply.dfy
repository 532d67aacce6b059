/** Applying an overlay dictionary to a baseline, key by key. */
module OverlayApply {
  import opened Optional
  import opened CanonicalOrder
  import opened OverlayMerge
  import opened KeyIndex
  import opened ProfileBuilder

  // ---- merging one definition into another of the same key

  function OrBits(a: nat, b: nat): nat
    decreases a
  {
    if a == 0 then b else (if a % 2 == 1 || b % 2 == 1 then 1 else 0) + 2 * OrBits(a / 2, b / 2)
  }

  predicate AllowsTypeOverride(flags: nat) {
    flags / 2 % 2 == 1
  }

  function MergeField(x: FieldDef, y: FieldDef): FieldDef {
    x.(name := if y.name != [] then y.name else x.name,
       valueType := if y.valueType != 0 && AllowsTypeOverride(x.flags) then y.valueType else x.valueType,
       flags := OrBits(x.flags, y.flags))
  }

  function MergeMessage(x: MessageDef, y: MessageDef): MessageDef {
    x.(name := if y.name != [] then y.name else x.name, flags := OrBits(x.flags, y.flags),
       rules := Merge(x.rules, y.rules))
  }

  /** A delimiter may only change under the overlay's explicit flag. */
  predicate Conflicts(x: GroupDef, y: GroupDef) {
    y.delimiter != 0 && x.delimiter != 0 && y.delimiter != x.delimiter && y.flags % 2 == 0
  }

  function MergeGroup(x: GroupDef, y: GroupDef): GroupDef {
    x.(delimiter := if y.delimiter != 0 then y.delimiter else x.delimiter,
       name := if y.name != [] then y.name else x.name, flags := OrBits(x.flags, y.flags),
       rules := Merge(x.rules, y.rules))
  }

  // ---- lists with keys

  /** Position of the first element with key k, |xs| when there is none. */
  function Where<T>(xs: seq<T>, key: T -> Key, k: Key, i: nat): (p: nat)
    requires i <= |xs|
    ensures i <= p <= |xs| && (p < |xs| ==> key(xs[p]) == k) && forall j :: i <= j < p ==> key(xs[j]) != k
    decreases |xs| - i
  {
    if i == |xs| || key(xs[i]) == k then i else Where(xs, key, k, i + 1)
  }

  function Get<T>(xs: seq<T>, key: T -> Key, k: Key): (r: Option<T>)
    ensures r.Some? ==> r.value in xs && key(r.value) == k
  {
    var p := Where(xs, key, k, 0);
    if p < |xs| then Some(xs[p]) else None
  }

  function Put<T>(xs: seq<T>, y: T, key: T -> Key, merge: (T, T) -> T): seq<T> {
    var p := Where(xs, key, key(y), 0);
    if p < |xs| then xs[p := merge(xs[p], y)] else xs + [y]
  }

  function PutAll<T>(xs: seq<T>, ys: seq<T>, n: nat, key: T -> Key, merge: (T, T) -> T): seq<T>
    requires n <= |ys|
  {
    if n == 0 then xs else Put(PutAll(xs, ys, n - 1, key, merge), ys[n - 1], key, merge)
  }

  ghost predicate KeysDistinct<T(!new)>(xs: seq<T>, key: T -> Key) {
    forall i, j :: 0 <= i < j < |xs| ==> key(xs[i]) != key(xs[j])
  }

  ghost predicate KeepsKey<T(!new)>(key: T -> Key, merge: (T, T) -> T) {
    forall x, y :: key(merge(x, y)) == key(x)
  }

  function Joint<T>(x: Option<T>, y: Option<T>, merge: (T, T) -> T): Option<T> {
    if x.None? then y else if y.None? then x else Some(merge(x.value, y.value))
  }

  lemma PutDistinct<T(!new)>(xs: seq<T>, y: T, key: T -> Key, merge: (T, T) -> T)
    requires KeysDistinct(xs, key) && KeepsKey(key, merge)
    ensures KeysDistinct(Put(xs, y, key, merge), key)
  { }

  lemma WhereIs<T(!new)>(xs: seq<T>, key: T -> Key, k: Key, p: nat)
    requires p < |xs| && key(xs[p]) == k && forall j :: 0 <= j < p ==> key(xs[j]) != k
    ensures Where(xs, key, k, 0) == p
  { }

  lemma WhereNone<T(!new)>(xs: seq<T>, key: T -> Key, k: Key)
    requires forall j :: 0 <= j < |xs| ==> key(xs[j]) != k
    ensures Where(xs, key, k, 0) == |xs|
  { }

  /** Putting touches its own key only. */
  lemma PutGets<T(!new)>(xs: seq<T>, y: T, key: T -> Key, merge: (T, T) -> T, k: Key)
    requires KeepsKey(key, merge)
    ensures Get(Put(xs, y, key, merge), key, k)
         == if key(y) == k then Joint(Get(xs, key, k), Some(y), merge) else Get(xs, key, k)
  {
    var p := Where(xs, key, key(y), 0);
    var q := Where(xs, key, k, 0);
    var out := Put(xs, y, key, merge);
    if key(y) == k {
      if p < |xs| { WhereIs(out, key, k, p); } else { WhereIs(out, key, k, |xs|); }
    } else if q < |xs| {
      WhereIs(out, key, k, q);
    } else {
      WhereNone(out, key, k);
    }
  }

  /** Putting all of a list merges it key by key. */
  lemma {:induction false} PutAllGets<T(!new)>(xs: seq<T>, ys: seq<T>, n: nat, key: T -> Key, merge: (T, T) -> T,
      k: Key)
    requires n <= |ys| && KeepsKey(key, merge) && KeysDistinct(ys, key)
    ensures Get(PutAll(xs, ys, n, key, merge), key, k) == Joint(Get(xs, key, k), Get(ys[..n], key, k), merge)
  {
    if n == 0 {
      WhereNone(ys[..0], key, k);
    } else {
      hide Put, Get, KeepsKey;
      PutAllGets(xs, ys, n - 1, key, merge, k);
      PutGets(PutAll(xs, ys, n - 1, key, merge), ys[n - 1], key, merge, k);
      GetLast(ys, n, key, k);
    }
  }

  lemma GetLast<T(!new)>(ys: seq<T>, n: nat, key: T -> Key, k: Key)
    requires 0 < n <= |ys| && KeysDistinct(ys, key)
    ensures Get(ys[..n], key, k) == if key(ys[n - 1]) == k then Some(ys[n - 1]) else Get(ys[..n - 1], key, k)
    ensures key(ys[n - 1]) == k ==> Get(ys[..n - 1], key, k) == None
  {
    var a, b := ys[..n], ys[..n - 1];
    if key(ys[n - 1]) == k {
      WhereIs(a, key, k, n - 1);
      WhereNone(b, key, k);
    } else {
      var p := Where(b, key, k, 0);
      if p < |b| { WhereIs(a, key, k, p); } else { WhereNone(a, key, k); }
    }
  }

  lemma {:induction false} PutAllDistinct<T(!new)>(xs: seq<T>, ys: seq<T>, n: nat, key: T -> Key, merge: (T, T) -> T)
    requires n <= |ys| && KeysDistinct(xs, key) && KeepsKey(key, merge)
    ensures KeysDistinct(PutAll(xs, ys, n, key, merge), key)
  {
    if n > 0 {
      PutAllDistinct(xs, ys, n - 1, key, merge);
      PutDistinct(PutAll(xs, ys, n - 1, key, merge), ys[n - 1], key, merge);
    }
  }

  // ---- sorting by key

  /** Sorting keeps keys distinct and every key's definition. */
  lemma SortGets<T(!new)>(xs: seq<T>, key: T -> Key, k: Key)
    requires KeysDistinct(xs, key)
    ensures KeysDistinct(Sort(xs, key), key) && Get(Sort(xs, key), key, k) == Get(xs, key, k)
  {
    var ys := Sort(xs, key);
    SortSorts(xs, key);
    DistinctPermuted(xs, ys, key);
    SameMembers(xs, ys, key, k);
  }

  lemma DistinctPermuted<T(!new)>(xs: seq<T>, ys: seq<T>, key: T -> Key)
    requires KeysDistinct(xs, key) && multiset(xs) == multiset(ys)
    ensures KeysDistinct(ys, key)
  {
    forall i, j | 0 <= i < j < |ys| ensures key(ys[i]) != key(ys[j]) {
      if key(ys[i]) == key(ys[j]) {
        assert ys[i] in multiset(xs) && ys[j] in multiset(xs);
        var a :| 0 <= a < |xs| && xs[a] == ys[i];
        var b :| 0 <= b < |xs| && xs[b] == ys[j];
        assert a == b;
        TwiceIn(ys, i, j);
        OnceIn(xs, a, key);
      }
    }
  }

  lemma TwiceIn<T>(ys: seq<T>, i: nat, j: nat)
    requires i < j < |ys| && ys[i] == ys[j]
    ensures multiset(ys)[ys[i]] >= 2
  {
    assert ys == ys[..j] + [ys[j]] + ys[j + 1..];
    assert ys[i] in multiset(ys[..j]) by { assert ys[..j][i] == ys[i]; }
  }

  lemma OnceIn<T(!new)>(xs: seq<T>, a: nat, key: T -> Key)
    requires a < |xs| && KeysDistinct(xs, key)
    ensures multiset(xs)[xs[a]] == 1
  {
    assert xs == xs[..a] + [xs[a]] + xs[a + 1..];
    assert xs[a] !in xs[..a];
    assert xs[a] !in xs[a + 1..];
  }

  lemma SameMembers<T(!new)>(xs: seq<T>, ys: seq<T>, key: T -> Key, k: Key)
    requires KeysDistinct(xs, key) && KeysDistinct(ys, key) && multiset(xs) == multiset(ys)
    ensures Get(ys, key, k) == Get(xs, key, k)
  {
    var p := Where(xs, key, k, 0);
    if p < |xs| {
      assert xs[p] in multiset(ys);
      var b :| 0 <= b < |ys| && ys[b] == xs[p];
      WhereIs(ys, key, k, b);
    } else {
      forall j | 0 <= j < |ys| ensures key(ys[j]) != k { assert ys[j] in multiset(xs); }
      WhereNone(ys, key, k);
    }
  }

  // ---- the overlay

  function FieldKey(f: FieldDef): Key { Leaf(f.tag) }

  function TypeKey(m: MessageDef): Key { ByteKey(m.msgType) }

  function CountKey(g: GroupDef): Key { Leaf(g.countTag) }

  predicate IsCoreSessionTag(tag: nat) {
    tag == 8 || tag == 9 || tag == 10 || tag == 34 || tag == 35 || tag == 49 || tag == 56
  }

  predicate HasCoreTag(rules: seq<Rule>) {
    exists i :: 0 <= i < |rules| && IsCoreSessionTag(rules[i].tag)
  }

  /** The groups after n groups of the overlay; None when a delimiter changes without leave. */
  function PutGroups(xs: seq<GroupDef>, ys: seq<GroupDef>, n: nat): (r: Option<seq<GroupDef>>)
    requires n <= |ys|
    ensures r.Some? ==> r.value == PutAll(xs, ys, n, CountKey, MergeGroup)
  {
    if n == 0 then Some(xs)
    else
      var before := PutGroups(xs, ys, n - 1);
      if before.None? then None else PutGroup(before.value, ys[n - 1])
  }

  /** The merged dictionary, or none when the overlay oversteps. */
  function Applied(b: Dictionary, y: Dictionary): Option<Dictionary> {
    var groups := PutGroups(b.groups, y.groups, |y.groups|);
    if groups.None? || HasCoreTag(y.headerFields) || HasCoreTag(y.trailerFields) then None
    else
      Some(b.(fields := Sort(PutAll(b.fields, y.fields, |y.fields|, FieldKey, MergeField), FieldKey),
              messages := Sort(PutAll(b.messages, y.messages, |y.messages|, TypeKey, MergeMessage), TypeKey),
              groups := Sort(groups.value, CountKey),
              headerFields := Merge(b.headerFields, y.headerFields),
              trailerFields := Merge(b.trailerFields, y.trailerFields)))
  }

  method FindKey<T>(xs: seq<T>, key: T -> Key, k: Key) returns (p: nat)
    ensures p == Where(xs, key, k, 0)
  {
    p := 0;
    while p < |xs| && key(xs[p]) != k
      invariant p <= |xs| && Where(xs, key, k, 0) == Where(xs, key, k, p)
    {
      p := p + 1;
    }
  }

  method ApplyFields(base: seq<FieldDef>, overlay: seq<FieldDef>) returns (fields: seq<FieldDef>)
    ensures fields == PutAll(base, overlay, |overlay|, FieldKey, MergeField)
  {
    fields := base;
    for i := 0 to |overlay|
      invariant fields == PutAll(base, overlay, i, FieldKey, MergeField)
    {
      var y := overlay[i];
      var p := FindKey(fields, FieldKey, FieldKey(y));
      if p == |fields| {
        fields := fields + [y];
      } else {
        var x := fields[p];
        if y.name != [] { x := x.(name := y.name); }
        if y.valueType != 0 && AllowsTypeOverride(x.flags) { x := x.(valueType := y.valueType); }
        x := x.(flags := OrBits(x.flags, y.flags));
        fields := fields[p := x];
      }
    }
  }

  method ApplyMessages(base: seq<MessageDef>, overlay: seq<MessageDef>) returns (messages: seq<MessageDef>)
    ensures messages == PutAll(base, overlay, |overlay|, TypeKey, MergeMessage)
  {
    messages := base;
    for i := 0 to |overlay|
      invariant messages == PutAll(base, overlay, i, TypeKey, MergeMessage)
    {
      var y := overlay[i];
      var p := FindKey(messages, TypeKey, TypeKey(y));
      if p == |messages| {
        messages := messages + [MessageDef(y.msgType, y.name, y.rules, y.flags)];
      } else {
        var x := messages[p];
        if y.name != [] { x := x.(name := y.name); }
        x := x.(flags := OrBits(x.flags, y.flags));
        var rules := MergeFieldRules(x.rules, y.rules);
        messages := messages[p := x.(rules := rules)];
      }
    }
  }

  function PutGroup(xs: seq<GroupDef>, y: GroupDef): (r: Option<seq<GroupDef>>)
    ensures r.Some? ==> r.value == Put(xs, y, CountKey, MergeGroup)
  {
    var p := Where(xs, CountKey, CountKey(y), 0);
    if p < |xs| && Conflicts(xs[p], y) then None else Some(Put(xs, y, CountKey, MergeGroup))
  }

  method ApplyGroup(groups: seq<GroupDef>, y: GroupDef) returns (r: Option<seq<GroupDef>>)
    ensures r == PutGroup(groups, y)
  {
    hide Merge, OrBits;
    var p := FindKey(groups, CountKey, CountKey(y));
    if p == |groups| {
      return Some(groups + [GroupDef(y.countTag, y.delimiter, y.name, y.rules, y.flags)]);
    }
    var x := groups[p];
    if y.delimiter != 0 {
      if x.delimiter != 0 && y.delimiter != x.delimiter && y.flags % 2 == 0 { return None; }
      x := x.(delimiter := y.delimiter);
    }
    if y.name != [] { x := x.(name := y.name); }
    x := x.(flags := OrBits(x.flags, y.flags));
    var rules := MergeFieldRules(x.rules, y.rules);
    return Some(groups[p := x.(rules := rules)]);
  }

  method ApplyGroups(base: seq<GroupDef>, overlay: seq<GroupDef>) returns (r: Option<seq<GroupDef>>)
    ensures r == PutGroups(base, overlay, |overlay|)
  {
    hide PutGroup, PutAll;
    var groups := base;
    for i := 0 to |overlay|
      invariant PutGroups(base, overlay, i) == Some(groups)
    {
      var next := ApplyGroup(groups, overlay[i]);
      if next.None? {
        PutGroupsFails(base, overlay, i + 1, |overlay|);
        return None;
      }
      groups := next.value;
    }
    return Some(groups);
  }

  lemma {:induction false} PutGroupsFails(xs: seq<GroupDef>, ys: seq<GroupDef>, m: nat, n: nat)
    requires m <= n <= |ys| && PutGroups(xs, ys, m).None?
    ensures PutGroups(xs, ys, n).None?
    decreases n
  {
    hide PutGroup, PutAll;
    if m < n { PutGroupsFails(xs, ys, m, n - 1); }
  }

  method FindCoreTag(rules: seq<Rule>) returns (found: bool)
    ensures found == HasCoreTag(rules)
  {
    for i := 0 to |rules|
      invariant forall k :: 0 <= k < i ==> !IsCoreSessionTag(rules[k].tag)
    {
      if IsCoreSessionTag(rules[i].tag) { return true; }
    }
    return false;
  }

  method ApplyOverlay(b: Dictionary, y: Dictionary) returns (r: Option<Dictionary>)
    ensures r == Applied(b, y)
  {
    hide PutAll, PutGroups, Merge, HasCoreTag, Sort;
    var fields := ApplyFields(b.fields, y.fields);
    var messages := ApplyMessages(b.messages, y.messages);
    var groups := ApplyGroups(b.groups, y.groups);
    if groups.None? { return None; }
    var core := FindCoreTag(y.headerFields);
    if core { return None; }
    var header := MergeFieldRules(b.headerFields, y.headerFields);
    core := FindCoreTag(y.trailerFields);
    if core { return None; }
    var trailer := MergeFieldRules(b.trailerFields, y.trailerFields);
    return Some(b.(fields := Sort(fields, FieldKey), messages := Sort(messages, TypeKey),
                   groups := Sort(groups.value, CountKey), headerFields := header, trailerFields := trailer));
  }

  // ---- what an overlay does

  lemma MergesKeepKeys()
    ensures KeepsKey(FieldKey, MergeField) && KeepsKey(TypeKey, MergeMessage) && KeepsKey(CountKey, MergeGroup)
  { }

  lemma DistinctByKey(d: Dictionary)
    ensures DuplicateFree(d) <==>
      KeysDistinct(d.fields, FieldKey) && KeysDistinct(d.messages, TypeKey) && KeysDistinct(d.groups, CountKey)
  {
    if DuplicateFree(d) {
      forall i, j | 0 <= i < j < |d.messages| ensures TypeKey(d.messages[i]) != TypeKey(d.messages[j]) {
        if TypeKey(d.messages[i]) == TypeKey(d.messages[j]) {
          ByteKeysDiffer(d.messages[i].msgType, d.messages[j].msgType);
        }
      }
    }
    if KeysDistinct(d.messages, TypeKey) {
      forall i, j | 0 <= i < j < |d.messages| ensures d.messages[i].msgType != d.messages[j].msgType {
        assert TypeKey(d.messages[i]) != TypeKey(d.messages[j]);
      }
    }
    if KeysDistinct(d.fields, FieldKey) && KeysDistinct(d.groups, CountKey) {
      forall i, j | 0 <= i < j < |d.fields| ensures d.fields[i].tag != d.fields[j].tag {
        assert FieldKey(d.fields[i]) != FieldKey(d.fields[j]);
      }
      forall i, j | 0 <= i < j < |d.groups| ensures d.groups[i].countTag != d.groups[j].countTag {
        assert CountKey(d.groups[i]) != CountKey(d.groups[j]);
      }
    }
  }

  /** An overlay never brings duplicates into a dictionary without them, whatever it holds itself. */
  lemma OverlayKeepsDistinct(b: Dictionary, y: Dictionary)
    requires DuplicateFree(b) && Applied(b, y).Some?
    ensures DuplicateFree(Applied(b, y).value)
  {
    hide DuplicateFree, Put, PutAll, Merge, Sort, FieldKey, TypeKey, CountKey, MergeField, MergeMessage, MergeGroup;
    hide KeysDistinct, PutGroups, HasCoreTag;
    MergesKeepKeys();
    DistinctByKey(b);
    PutAllDistinct(b.fields, y.fields, |y.fields|, FieldKey, MergeField);
    PutAllDistinct(b.messages, y.messages, |y.messages|, TypeKey, MergeMessage);
    PutAllDistinct(b.groups, y.groups, |y.groups|, CountKey, MergeGroup);
    var k := Leaf(0);
    SortGets(PutAll(b.fields, y.fields, |y.fields|, FieldKey, MergeField), FieldKey, k);
    SortGets(PutAll(b.messages, y.messages, |y.messages|, TypeKey, MergeMessage), TypeKey, k);
    SortGets(PutAll(b.groups, y.groups, |y.groups|, CountKey, MergeGroup), CountKey, k);
    DistinctByKey(Applied(b, y).value);
  }

  /** The result defines each field, message and group as the baseline, the overlay or both merged. */
  lemma OverlayMergesByKey(b: Dictionary, y: Dictionary, k: Key)
    requires DuplicateFree(b) && DuplicateFree(y) && Applied(b, y).Some?
    ensures var m := Applied(b, y).value;
            && Get(m.fields, FieldKey, k) == Joint(Get(b.fields, FieldKey, k), Get(y.fields, FieldKey, k), MergeField)
            && Get(m.messages, TypeKey, k)
               == Joint(Get(b.messages, TypeKey, k), Get(y.messages, TypeKey, k), MergeMessage)
            && Get(m.groups, CountKey, k) == Joint(Get(b.groups, CountKey, k), Get(y.groups, CountKey, k), MergeGroup)
  {
    hide DuplicateFree, Put, PutAll, Merge, Sort, FieldKey, TypeKey, CountKey, MergeField, MergeMessage, MergeGroup;
    hide KeysDistinct, PutGroups, HasCoreTag, Get, Joint;
    MergesKeepKeys();
    DistinctByKey(b);
    DistinctByKey(y);
    ListMerges(b.fields, y.fields, FieldKey, MergeField, k);
    ListMerges(b.messages, y.messages, TypeKey, MergeMessage, k);
    ListMerges(b.groups, y.groups, CountKey, MergeGroup, k);
  }

  lemma ListMerges<T(!new)>(xs: seq<T>, ys: seq<T>, key: T -> Key, merge: (T, T) -> T, k: Key)
    requires KeysDistinct(xs, key) && KeysDistinct(ys, key) && KeepsKey(key, merge)
    ensures Get(Sort(PutAll(xs, ys, |ys|, key, merge), key), key, k) == Joint(Get(xs, key, k), Get(ys, key, k), merge)
  {
    hide KeysDistinct, KeepsKey, Get, Joint, PutAll, Sort;
    PutAllDistinct(xs, ys, |ys|, key, merge);
    PutAllGets(xs, ys, |ys|, key, merge, k);
    assert ys[..|ys|] == ys;
    SortGets(PutAll(xs, ys, |ys|, key, merge), key, k);
  }

  /** The first `n` overlays on top of the baseline, or nothing once one is refused. */
  function Folded(baseline: Dictionary, overlays: seq<Dictionary>, n: nat): Option<Dictionary>
    requires n <= |overlays|
  {
    if n == 0 then Some(baseline)
    else
      var merged := Folded(baseline, overlays, n - 1);
      if merged.None? then None else Applied(merged.value, overlays[n - 1])
  }

  /** An overlay that the dictionary merged so far refuses. */
  predicate Refuses(baseline: Dictionary, overlays: seq<Dictionary>, i: nat)
    requires i < |overlays|
  {
    var merged := Folded(baseline, overlays, i);
    merged.Some? && Applied(merged.value, overlays[i]).None?
  }

  /** A fold fails exactly when it comes to an overlay that is refused. */
  lemma {:induction false} FoldFails(baseline: Dictionary, overlays: seq<Dictionary>, n: nat)
    requires n <= |overlays|
    ensures Folded(baseline, overlays, n).None? <==> exists i :: 0 <= i < n && Refuses(baseline, overlays, i)
  {
    hide Applied;
    if n > 0 {
      FoldFails(baseline, overlays, n - 1);
      if Folded(baseline, overlays, n).None? && Folded(baseline, overlays, n - 1).Some? {
        assert Refuses(baseline, overlays, n - 1);
      }
    }
  }

  lemma {:induction false} FoldKeepsDistinct(baseline: Dictionary, overlays: seq<Dictionary>, n: nat)
    requires n <= |overlays| && DuplicateFree(baseline) && Folded(baseline, overlays, n).Some?
    ensures DuplicateFree(Folded(baseline, overlays, n).value)
  {
    hide DuplicateFree, Applied;
    if n > 0 {
      FoldKeepsDistinct(baseline, overlays, n - 1);
      OverlayKeepsDistinct(Folded(baseline, overlays, n - 1).value, overlays[n - 1]);
    }
  }

  /** Overlays applied one after the other. */
  method FoldOverlays(baseline: Dictionary, overlays: seq<Dictionary>) returns (r: Option<Dictionary>)
    ensures r == Folded(baseline, overlays, |overlays|)
    ensures r.None? <==> exists i :: 0 <= i < |overlays| && Refuses(baseline, overlays, i)
    ensures DuplicateFree(baseline) && r.Some? ==> DuplicateFree(r.value)
  {
    hide DuplicateFree, Applied;
    FoldFails(baseline, overlays, |overlays|);
    if DuplicateFree(baseline) && Folded(baseline, overlays, |overlays|).Some? {
      FoldKeepsDistinct(baseline, overlays, |overlays|);
    }
    var merged := baseline;
    var i := 0;
    while i < |overlays|
      invariant i <= |overlays| && Folded(baseline, overlays, i) == Some(merged)
    {
      var next := ApplyOverlay(merged, overlays[i]);
      if next.None? {
        assert Refuses(baseline, overlays, i);
        return None;
      }
      merged := next.value;
      i := i + 1;
    }
    return Some(merged);
  }
}
