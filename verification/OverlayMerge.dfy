/** Merging the field rules of an overlay dictionary into those of a base dictionary, keeping both orders. */
module OverlayMerge {
  datatype Rule = Rule(tag: nat, flags: nat)

  /** First rule with the tag at or after `i`, or the number of rules. */
  function FindFrom(rules: seq<Rule>, i: nat, tag: nat): (p: nat)
    requires i <= |rules|
    ensures i <= p <= |rules| && (p < |rules| ==> rules[p].tag == tag)
    decreases |rules| - i
  {
    if i == |rules| || rules[i].tag == tag then i else FindFrom(rules, i + 1, tag)
  }

  function Find(rules: seq<Rule>, tag: nat): (p: nat)
    ensures p <= |rules| && (p < |rules| ==> rules[p].tag == tag)
  {
    FindFrom(rules, 0, tag)
  }

  lemma {:induction false} FindFirst(rules: seq<Rule>, i: nat, k: nat)
    requires i <= k < |rules|
    ensures FindFrom(rules, i, rules[k].tag) <= k
    decreases |rules| - i
  {
    if rules[i].tag != rules[k].tag {
      FindFirst(rules, i + 1, k);
    }
  }

  function Insert(rules: seq<Rule>, p: nat, rule: Rule): seq<Rule>
    requires p <= |rules|
  {
    rules[..p] + [rule] + rules[p..]
  }

  /** Place of the nearest overlay rule at or after `next` that is among the rules, or the number of rules. */
  function RightAnchor(rules: seq<Rule>, overlay: seq<Rule>, next: nat): (p: nat)
    requires next <= |overlay|
    ensures p <= |rules|
    decreases |overlay| - next
  {
    if next == |overlay| then |rules|
    else if Find(rules, overlay[next].tag) < |rules| then Find(rules, overlay[next].tag)
    else RightAnchor(rules, overlay, next + 1)
  }

  /** Place of the nearest overlay rule before `prev` that is among the rules, or the number of rules. */
  function LeftAnchor(rules: seq<Rule>, overlay: seq<Rule>, prev: nat): (p: nat)
    requires prev <= |overlay|
    ensures p <= |rules|
  {
    if prev == 0 then |rules|
    else if Find(rules, overlay[prev - 1].tag) < |rules| then Find(rules, overlay[prev - 1].tag)
    else LeftAnchor(rules, overlay, prev - 1)
  }

  /** Where a rule that is not there yet goes. */
  function InsertAt(rules: seq<Rule>, overlay: seq<Rule>, i: nat): (p: nat)
    requires i < |overlay|
    ensures p <= |rules|
  {
    var right := RightAnchor(rules, overlay, i + 1);
    var left := LeftAnchor(rules, overlay, i);
    if right < |rules| then right else if left < |rules| then left + 1 else |rules|
  }

  function MergeOne(rules: seq<Rule>, overlay: seq<Rule>, i: nat): seq<Rule>
    requires i < |overlay|
  {
    var p := Find(rules, overlay[i].tag);
    if p < |rules| then rules[p := Rule(overlay[i].tag, overlay[i].flags)]
    else Insert(rules, InsertAt(rules, overlay, i), overlay[i])
  }

  function MergeFrom(rules: seq<Rule>, overlay: seq<Rule>, i: nat): seq<Rule>
    requires i <= |overlay|
    decreases |overlay| - i
  {
    if i == |overlay| then rules else MergeFrom(MergeOne(rules, overlay, i), overlay, i + 1)
  }

  function Merge(base: seq<Rule>, overlay: seq<Rule>): seq<Rule> {
    MergeFrom(base, overlay, 0)
  }

  // ---------------------------------------------------------------- the loop

  method FindRightAnchor(rules: seq<Rule>, overlay: seq<Rule>, index: nat) returns (insertPos: nat)
    requires index < |overlay|
    ensures insertPos == RightAnchor(rules, overlay, index + 1)
  {
    insertPos := |rules|;
    for next := index + 1 to |overlay|
      invariant RightAnchor(rules, overlay, next) == RightAnchor(rules, overlay, index + 1)
    {
      var rightAnchor := Find(rules, overlay[next].tag);
      if rightAnchor < |rules| {
        return rightAnchor;
      }
    }
  }

  method FindLeftAnchor(rules: seq<Rule>, overlay: seq<Rule>, index: nat) returns (leftAnchor: nat)
    requires index < |overlay|
    ensures leftAnchor == LeftAnchor(rules, overlay, index)
  {
    var prev: nat := index;
    while prev > 0
      invariant prev <= index && LeftAnchor(rules, overlay, prev) == LeftAnchor(rules, overlay, index)
    {
      leftAnchor := Find(rules, overlay[prev - 1].tag);
      if leftAnchor < |rules| {
        return;
      }
      prev := prev - 1;
    }
    leftAnchor := |rules|;
  }

  method MergeFieldRules(base: seq<Rule>, overlay: seq<Rule>) returns (rules: seq<Rule>)
    ensures rules == Merge(base, overlay)
  {
    rules := base;
    for index := 0 to |overlay|
      invariant MergeFrom(rules, overlay, index) == Merge(base, overlay)
    {
      var rule := overlay[index];
      var existing := Find(rules, rule.tag);
      if existing < |rules| {
        rules := rules[existing := rules[existing].(flags := rule.flags)];
        continue;
      }
      var insertPos := FindRightAnchor(rules, overlay, index);
      if insertPos < |rules| {
        rules := Insert(rules, insertPos, rule);
        continue;
      }
      var leftAnchor := FindLeftAnchor(rules, overlay, index);
      if leftAnchor < |rules| {
        rules := Insert(rules, leftAnchor + 1, rule);
      } else {
        rules := Insert(rules, |rules|, rule);
      }
    }
  }

  // ---------------------------------------------------------------- orders

  ghost predicate Distinct(rules: seq<Rule>) {
    forall i, j :: 0 <= i < j < |rules| ==> rules[i].tag != rules[j].tag
  }

  ghost predicate Has(rules: seq<Rule>, tag: nat) {
    exists k :: 0 <= k < |rules| && rules[k].tag == tag
  }

  /** `a`'s tags stand in `b` at the increasing places `f`. */
  ghost predicate Embeds(a: seq<Rule>, b: seq<Rule>, f: seq<nat>) {
    && |f| == |a| && (forall k :: 0 <= k < |f| ==> f[k] < |b| && b[f[k]].tag == a[k].tag)
    && forall j, k :: 0 <= j < k < |f| ==> f[j] < f[k]
  }

  /** `a`'s tags are a subsequence of `b`'s. */
  ghost predicate Subsequence(a: seq<Rule>, b: seq<Rule>) {
    exists f :: Embeds(a, b, f)
  }

  /** Tags found in both lists stand in the same order in both. */
  ghost predicate SameOrder(a: seq<Rule>, b: seq<Rule>) {
    forall i, j, k, l :: Common(a, i, b, k) && Common(a, j, b, l) && i < j ==> k < l
  }

  ghost predicate Common(a: seq<Rule>, i: int, b: seq<Rule>, k: int) {
    0 <= i < |a| && 0 <= k < |b| && a[i].tag == b[k].tag
  }

  // ---------------------------------------------------------------- one step

  lemma FindHas(rules: seq<Rule>, tag: nat)
    ensures Find(rules, tag) < |rules| <==> Has(rules, tag)
  {
    if k :| 0 <= k < |rules| && rules[k].tag == tag {
      FindFirst(rules, 0, k);
    }
  }

  /** Inserting keeps every rule in its place up to a shift. */
  lemma Inserted(rules: seq<Rule>, p: nat, rule: Rule, k: nat)
    requires p <= |rules| && k <= |rules|
    ensures
      var r := Insert(rules, p, rule);
      |r| == |rules| + 1 && r[k] == if k < p then rules[k] else if k == p then rule else rules[k - 1]
  {
  }

  lemma EmbedsAfterInsert(a: seq<Rule>, rules: seq<Rule>, p: nat, rule: Rule)
    requires p <= |rules| && Subsequence(a, rules)
    ensures Subsequence(a, Insert(rules, p, rule))
  {
    var f :| Embeds(a, rules, f);
    var g := seq(|f|, k requires 0 <= k < |f| => if f[k] < p then f[k] else f[k] + 1);
    assert Embeds(a, Insert(rules, p, rule), g);
  }

  lemma StepKeepsBase(a: seq<Rule>, rules: seq<Rule>, overlay: seq<Rule>, i: nat)
    requires i < |overlay| && Subsequence(a, rules)
    ensures Subsequence(a, MergeOne(rules, overlay, i))
  {
    var p := Find(rules, overlay[i].tag);
    if p < |rules| {
      var f :| Embeds(a, rules, f);
      assert Embeds(a, MergeOne(rules, overlay, i), f);
    } else {
      EmbedsAfterInsert(a, rules, InsertAt(rules, overlay, i), overlay[i]);
    }
  }

  lemma StepTags(rules: seq<Rule>, overlay: seq<Rule>, i: nat, tag: nat)
    requires i < |overlay|
    ensures Has(MergeOne(rules, overlay, i), tag) <==> Has(rules, tag) || tag == overlay[i].tag
  {
    var r, p := MergeOne(rules, overlay, i), Find(rules, overlay[i].tag);
    if p < |rules| {
      assert r[p].tag == overlay[i].tag;
      if Has(rules, tag) {
        var k :| 0 <= k < |rules| && rules[k].tag == tag;
        assert r[k].tag == tag;
      }
    } else {
      var q := InsertAt(rules, overlay, i);
      assert r[q].tag == overlay[i].tag;
      if Has(rules, tag) {
        var k :| 0 <= k < |rules| && rules[k].tag == tag;
        assert r[if k < q then k else k + 1].tag == tag;
      }
      if Has(r, tag) {
        var k :| 0 <= k < |r| && r[k].tag == tag;
        assert k < q ==> rules[k].tag == tag;
        assert k > q ==> rules[k - 1].tag == tag;
      }
    }
  }

  lemma StepDistinct(rules: seq<Rule>, overlay: seq<Rule>, i: nat)
    requires i < |overlay| && Distinct(rules)
    ensures Distinct(MergeOne(rules, overlay, i))
  {
    var r, p := MergeOne(rules, overlay, i), Find(rules, overlay[i].tag);
    FindHas(rules, overlay[i].tag);
    if p == |rules| {
      var q := InsertAt(rules, overlay, i);
      forall j, k | 0 <= j < k < |r| ensures r[j].tag != r[k].tag {
        Inserted(rules, q, overlay[i], j);
        Inserted(rules, q, overlay[i], k);
      }
    }
  }

  // ---------------------------------------------------------------- the anchors

  /** The right anchor is the place of the first overlay rule from `next` on that is there. */
  lemma {:induction false} RightAnchorAt(rules: seq<Rule>, overlay: seq<Rule>, next: nat)
    returns (n: nat)
    requires next <= |overlay|
    ensures next <= n <= |overlay| && forall k :: next <= k < n ==> !Has(rules, overlay[k].tag)
    ensures n < |overlay| ==>
      Has(rules, overlay[n].tag) && RightAnchor(rules, overlay, next) == Find(rules, overlay[n].tag)
    ensures n == |overlay| ==> RightAnchor(rules, overlay, next) == |rules|
    decreases |overlay| - next
  {
    n := next;
    if next < |overlay| {
      FindHas(rules, overlay[next].tag);
      if Find(rules, overlay[next].tag) == |rules| {
        n := RightAnchorAt(rules, overlay, next + 1);
      }
    }
  }

  /** The overlay rules up to `i` are there and those there stand in overlay order. */
  ghost predicate Merged(rules: seq<Rule>, overlay: seq<Rule>, i: nat)
    requires i <= |overlay|
  {
    Distinct(rules) && SameOrder(overlay, rules) && forall k :: 0 <= k < i ==> Covers(rules, overlay, k)
  }

  ghost predicate Covers(rules: seq<Rule>, overlay: seq<Rule>, k: int) {
    0 <= k < |overlay| && Has(rules, overlay[k].tag)
  }

  /** A new rule goes behind the overlay rules before it and in front of those after it. */
  lemma InsertsBetween(rules: seq<Rule>, overlay: seq<Rule>, i: nat, j: nat, k: nat)
    requires i < |overlay| && Merged(rules, overlay, i) && Distinct(overlay) && !Has(rules, overlay[i].tag)
    requires Common(overlay, j, rules, k)
    ensures j < i ==> k < InsertAt(rules, overlay, i)
    ensures j > i ==> k >= InsertAt(rules, overlay, i)
  {
    var n := RightAnchorAt(rules, overlay, i + 1);
    if n < |overlay| {
      var p := Find(rules, overlay[n].tag);
      FindHas(rules, overlay[n].tag);
      assert Common(overlay, n, rules, p);
      assert j < n ==> k < p;
      assert j > n ==> k > p;
    } else if i > 0 {
      var p := Find(rules, overlay[i - 1].tag);
      assert Covers(rules, overlay, i - 1);
      FindHas(rules, overlay[i - 1].tag);
      assert LeftAnchor(rules, overlay, i) == p && Common(overlay, i - 1, rules, p);
      assert j < i - 1 ==> k < p;
    }
  }

  lemma StepKeepsOrder(rules: seq<Rule>, overlay: seq<Rule>, i: nat)
    requires i < |overlay| && Merged(rules, overlay, i) && Distinct(overlay)
    ensures Merged(MergeOne(rules, overlay, i), overlay, i + 1)
  {
    var r := MergeOne(rules, overlay, i);
    StepDistinct(rules, overlay, i);
    forall k | 0 <= k < i + 1 ensures Covers(r, overlay, k) {
      assert k < i ==> Covers(rules, overlay, k);
      StepTags(rules, overlay, i, overlay[k].tag);
    }
    FindHas(rules, overlay[i].tag);
    if Has(rules, overlay[i].tag) {
      forall a, b, k, l | Common(overlay, a, r, k) && Common(overlay, b, r, l) && a < b ensures k < l {
        assert Common(overlay, a, rules, k) && Common(overlay, b, rules, l);
      }
    } else {
      StepInsertsInOrder(rules, overlay, i);
    }
  }

  lemma StepInsertsInOrder(rules: seq<Rule>, overlay: seq<Rule>, i: nat)
    requires i < |overlay| && Merged(rules, overlay, i) && Distinct(overlay) && !Has(rules, overlay[i].tag)
    ensures SameOrder(overlay, Insert(rules, InsertAt(rules, overlay, i), overlay[i]))
  {
    var q := InsertAt(rules, overlay, i);
    var r := Insert(rules, q, overlay[i]);
    forall a, b, k, l | Common(overlay, a, r, k) && Common(overlay, b, r, l) && a < b ensures k < l
    {
      Inserted(rules, q, overlay[i], k);
      Inserted(rules, q, overlay[i], l);
      var k1, l1 := if k <= q then k else k - 1, if l <= q then l else l - 1;
      if k != q {
        InsertsBetween(rules, overlay, i, a, k1);
      }
      if l != q {
        InsertsBetween(rules, overlay, i, b, l1);
      }
      assert k != q && l != q ==> Common(overlay, a, rules, k1) && Common(overlay, b, rules, l1);
    }
  }

  // ---------------------------------------------------------------- whole merges

  lemma {:induction false} MergeKeepsBase(a: seq<Rule>, rules: seq<Rule>, overlay: seq<Rule>, i: nat)
    requires i <= |overlay| && Subsequence(a, rules)
    ensures Subsequence(a, MergeFrom(rules, overlay, i))
    decreases |overlay| - i
  {
    if i < |overlay| {
      StepKeepsBase(a, rules, overlay, i);
      MergeKeepsBase(a, MergeOne(rules, overlay, i), overlay, i + 1);
    }
  }

  ghost predicate HasFrom(rules: seq<Rule>, i: nat, tag: nat) {
    exists k :: i <= k < |rules| && rules[k].tag == tag
  }

  lemma {:induction false} MergeTags(rules: seq<Rule>, overlay: seq<Rule>, i: nat, tag: nat)
    requires i <= |overlay|
    ensures Has(MergeFrom(rules, overlay, i), tag) <==> Has(rules, tag) || HasFrom(overlay, i, tag)
    decreases |overlay| - i
  {
    if i < |overlay| {
      StepTags(rules, overlay, i, tag);
      MergeTags(MergeOne(rules, overlay, i), overlay, i + 1, tag);
    }
  }

  lemma {:induction false} MergeDistinct(rules: seq<Rule>, overlay: seq<Rule>, i: nat)
    requires i <= |overlay| && Distinct(rules)
    ensures Distinct(MergeFrom(rules, overlay, i))
    decreases |overlay| - i
  {
    if i < |overlay| {
      StepDistinct(rules, overlay, i);
      MergeDistinct(MergeOne(rules, overlay, i), overlay, i + 1);
    }
  }

  lemma {:induction false} MergeOrders(rules: seq<Rule>, overlay: seq<Rule>, i: nat)
    requires i <= |overlay| && Merged(rules, overlay, i) && Distinct(overlay)
    ensures Merged(MergeFrom(rules, overlay, i), overlay, |overlay|)
    decreases |overlay| - i
  {
    if i < |overlay| {
      StepKeepsOrder(rules, overlay, i);
      MergeOrders(MergeOne(rules, overlay, i), overlay, i + 1);
    }
  }

  // ---------------------------------------------------------------- flags

  function FlagsOf(rules: seq<Rule>, tag: nat): nat {
    var p := Find(rules, tag);
    if p < |rules| then rules[p].flags else 0
  }

  /** `k` is where the overlay last speaks of the tag. */
  ghost predicate LastAt(overlay: seq<Rule>, k: nat, tag: nat) {
    k < |overlay| && overlay[k].tag == tag && forall l :: k < l < |overlay| ==> overlay[l].tag != tag
  }

  lemma StepFlags(rules: seq<Rule>, overlay: seq<Rule>, i: nat, tag: nat)
    requires i < |overlay|
    ensures FlagsOf(MergeOne(rules, overlay, i), tag)
         == if tag == overlay[i].tag then overlay[i].flags else FlagsOf(rules, tag)
  {
    var r, p := MergeOne(rules, overlay, i), Find(rules, overlay[i].tag);
    if p == |rules| {
      FindHas(rules, overlay[i].tag);
      FindAfterInsert(rules, InsertAt(rules, overlay, i), overlay[i], tag);
    } else {
      SameTagsFind(rules, r, tag);
    }
  }

  /** A new rule is found where it was put, and the others where they have moved. */
  lemma FindAfterInsert(rules: seq<Rule>, q: nat, rule: Rule, tag: nat)
    requires q <= |rules| && !Has(rules, rule.tag)
    ensures
      var f := Find(rules, tag);
      Find(Insert(rules, q, rule), tag) == if tag == rule.tag then q else if f < q then f else f + 1
  {
    var r, f := Insert(rules, q, rule), Find(rules, tag);
    var g := if tag == rule.tag then q else if f < q then f else f + 1;
    if g < |r| {
      Inserted(rules, q, rule, g);
      FindFirst(r, 0, g);
    }
    var h := Find(r, tag);
    if h < |r| {
      Inserted(rules, q, rule, h);
      if h != q {
        FindFirst(rules, 0, if h < q then h else h - 1);
      }
    }
  }

  /** The last word of the overlay wins; what it does not mention keeps its flags. */
  lemma {:induction false} MergeFlags(rules: seq<Rule>, overlay: seq<Rule>, i: nat, tag: nat)
    requires i <= |overlay|
    ensures forall k :: i <= k && LastAt(overlay, k, tag) ==>
      FlagsOf(MergeFrom(rules, overlay, i), tag) == overlay[k].flags
    ensures (forall k :: i <= k < |overlay| ==> overlay[k].tag != tag) ==>
              FlagsOf(MergeFrom(rules, overlay, i), tag) == FlagsOf(rules, tag)
    decreases |overlay| - i
  {
    if i < |overlay| {
      StepFlags(rules, overlay, i, tag);
      MergeFlags(MergeOne(rules, overlay, i), overlay, i + 1, tag);
    }
  }

  // ---------------------------------------------------------------- merging again

  /** Where every overlay tag is present, only flags can change. */
  lemma {:induction false} OnlyFlagsChange(rules: seq<Rule>, overlay: seq<Rule>, i: nat, p: nat)
    requires i <= |overlay| && (forall k :: i <= k < |overlay| ==> Has(rules, overlay[k].tag)) && p < |rules|
    ensures
      var r := MergeFrom(rules, overlay, i);
      && |r| == |rules| && r[p].tag == rules[p].tag && (p > Find(rules, rules[p].tag) ==> r[p] == rules[p])
      && Find(r, rules[p].tag) == Find(rules, rules[p].tag)
    decreases |overlay| - i
  {
    if i < |overlay| {
      FindHas(rules, overlay[i].tag);
      var r := MergeOne(rules, overlay, i);
      forall k | i + 1 <= k < |overlay| ensures Has(r, overlay[k].tag) {
        StepTags(rules, overlay, i, overlay[k].tag);
      }
      SameTagsFind(rules, r, rules[p].tag);
      OnlyFlagsChange(r, overlay, i + 1, p);
    }
  }

  lemma SameTagsFind(a: seq<Rule>, b: seq<Rule>, tag: nat)
    requires |a| == |b| && forall k :: 0 <= k < |a| ==> a[k].tag == b[k].tag
    ensures Find(a, tag) == Find(b, tag)
  {
    var p, q := Find(a, tag), Find(b, tag);
    if p < |a| {
      FindFirst(b, 0, p);
    }
    if q < |b| {
      FindFirst(a, 0, q);
    }
  }

  lemma {:induction false} LastOf(overlay: seq<Rule>, n: nat, tag: nat) returns (k: nat)
    requires n < |overlay| && overlay[n].tag == tag
    ensures LastAt(overlay, k, tag)
    decreases |overlay| - n
  {
    k := n;
    if l :| n < l < |overlay| && overlay[l].tag == tag {
      k := LastOf(overlay, l, tag);
    }
  }

  // ---------------------------------------------------------------- main theorems

  /** Merging the same overlay again changes nothing, whatever the lists. */
  lemma MergeIsIdempotent(base: seq<Rule>, overlay: seq<Rule>)
    ensures Merge(Merge(base, overlay), overlay) == Merge(base, overlay)
  {
    var r := Merge(base, overlay);
    var again := Merge(r, overlay);
    forall k | 0 <= k < |overlay| ensures Has(r, overlay[k].tag) {
      MergeTags(base, overlay, 0, overlay[k].tag);
    }
    if overlay != [] {
      assert Has(r, overlay[0].tag);
      OnlyFlagsChange(r, overlay, 0, 0);
      forall p | 0 <= p < |r| ensures again[p] == r[p] {
        OnlyFlagsChange(r, overlay, 0, p);
        FindFirst(r, 0, p);
        FlagsAgain(base, overlay, r[p].tag);
      }
    }
  }

  lemma FlagsAgain(base: seq<Rule>, overlay: seq<Rule>, tag: nat)
    ensures FlagsOf(Merge(Merge(base, overlay), overlay), tag) == FlagsOf(Merge(base, overlay), tag)
  {
    MergeFlags(base, overlay, 0, tag);
    MergeFlags(Merge(base, overlay), overlay, 0, tag);
    if n :| 0 <= n < |overlay| && overlay[n].tag == tag {
      var k := LastOf(overlay, n, tag);
    }
  }

  /** Both lists' tags without repetition and no others, the base in its order, the overlay's flags winning. */
  lemma MergeIsUnion(base: seq<Rule>, overlay: seq<Rule>, tag: nat, k: nat)
    ensures Subsequence(base, Merge(base, overlay))
    ensures Distinct(base) ==> Distinct(Merge(base, overlay))
    ensures Has(Merge(base, overlay), tag) <==> Has(base, tag) || Has(overlay, tag)
    ensures LastAt(overlay, k, tag) ==> FlagsOf(Merge(base, overlay), tag) == overlay[k].flags
    ensures !Has(overlay, tag) ==> FlagsOf(Merge(base, overlay), tag) == FlagsOf(base, tag)
  {
    assert Embeds(base, base, seq(|base|, k => k));
    MergeKeepsBase(base, base, overlay, 0);
    if Distinct(base) {
      MergeDistinct(base, overlay, 0);
    }
    MergeTags(base, overlay, 0, tag);
    MergeFlags(base, overlay, 0, tag);
  }

  /** The overlay's tags are a subsequence too exactly when the common tags stand in the same order in both lists. */
  lemma OverlayOrderKept(base: seq<Rule>, overlay: seq<Rule>)
    requires Distinct(base) && Distinct(overlay)
    ensures Subsequence(overlay, Merge(base, overlay)) <==> SameOrder(overlay, base)
  {
    var r := Merge(base, overlay);
    MergeIsUnion(base, overlay, 0, 0);
    if SameOrder(overlay, base) {
      MergeOrders(base, overlay, 0);
      PlacesEmbed(overlay, r);
    }
    if Subsequence(overlay, r) {
      var f :| Embeds(overlay, r, f);
      var g :| Embeds(base, r, g);
      forall i, j, k, l | Common(overlay, i, base, k) && Common(overlay, j, base, l) && i < j ensures k < l {
        assert f[i] == g[k] && f[j] == g[l];
      }
    }
  }

  lemma PlacesEmbed(a: seq<Rule>, r: seq<Rule>)
    requires Merged(r, a, |a|)
    ensures Subsequence(a, r)
  {
    var f := seq(|a|, k requires 0 <= k < |a| => Find(r, a[k].tag));
    forall k | 0 <= k < |a| ensures Common(a, k, r, f[k]) {
      assert Covers(r, a, k);
      FindHas(r, a[k].tag);
    }
    assert Embeds(a, r, f);
  }

  /** Lists that disagree on the order of two tags: the base order is kept. */
  lemma ConflictingOrders()
    ensures !SameOrder([Rule(2, 0), Rule(1, 0)], [Rule(1, 0), Rule(2, 0)])
    ensures !Subsequence([Rule(2, 0), Rule(1, 0)], Merge([Rule(1, 0), Rule(2, 0)], [Rule(2, 0), Rule(1, 0)]))
  {
    var base, overlay := [Rule(1, 0), Rule(2, 0)], [Rule(2, 0), Rule(1, 0)];
    assert Common(overlay, 0, base, 1) && Common(overlay, 1, base, 0);
    OverlayOrderKept(base, overlay);
  }
}
