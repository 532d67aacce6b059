/** Where an overlay's new rules stand in the merged list: beside their neighbours of the overlay. */
module OverlayPlaces {
  import opened OverlayMerge

  /** The tags stand side by side. */
  predicate Next(rules: seq<Rule>, x: nat, y: nat) {
    Find(rules, y) < |rules| && Find(rules, x) + 1 == Find(rules, y)
  }

  lemma FindApart(rules: seq<Rule>, x: nat, y: nat)
    requires Find(rules, x) == Find(rules, y) < |rules|
    ensures x == y
  {
  }

  /** A step elsewhere leaves neighbours side by side. */
  lemma StepKeepsNext(rules: seq<Rule>, overlay: seq<Rule>, j: nat, x: nat, y: nat)
    requires j < |overlay| && Next(rules, x, y)
    requires !Has(rules, overlay[j].tag) ==> InsertAt(rules, overlay, j) != Find(rules, y)
    ensures Next(MergeOne(rules, overlay, j), x, y)
  {
    hide InsertAt, Insert;
    FindHas(rules, overlay[j].tag);
    if Has(rules, overlay[j].tag) {
      SameTagsFind(rules, MergeOne(rules, overlay, j), x);
      SameTagsFind(rules, MergeOne(rules, overlay, j), y);
    } else {
      FindHas(rules, x);
      FindHas(rules, y);
      FindAfterInsert(rules, InsertAt(rules, overlay, j), overlay[j], x);
      FindAfterInsert(rules, InsertAt(rules, overlay, j), overlay[j], y);
      Inserted(rules, InsertAt(rules, overlay, j), overlay[j], 0);
    }
  }

  /** Every overlay rule before `j` is there, and none behind that is not in the base. */
  ghost predicate Done(base: seq<Rule>, rules: seq<Rule>, overlay: seq<Rule>, j: nat) {
    && j <= |overlay| && (forall k :: 0 <= k < j ==> Covers(rules, overlay, k))
    && forall k :: j <= k < |overlay| ==> (Covers(rules, overlay, k) <==> Has(base, overlay[k].tag))
  }

  lemma StepDone(base: seq<Rule>, rules: seq<Rule>, overlay: seq<Rule>, j: nat)
    requires Distinct(overlay) && Done(base, rules, overlay, j) && j < |overlay|
    ensures Done(base, MergeOne(rules, overlay, j), overlay, j + 1)
  {
    hide MergeOne, Has;
    var r := MergeOne(rules, overlay, j);
    forall k | 0 <= k < |overlay| ensures Covers(r, overlay, k) <==> Covers(rules, overlay, k) || k == j {
      StepTags(rules, overlay, j, overlay[k].tag);
    }
  }

  /** A new rule goes before the nearest later rule that is there, else behind the one before it. */
  lemma InsertedBeside(base: seq<Rule>, rules: seq<Rule>, overlay: seq<Rule>, j: nat) returns (n: nat)
    requires Distinct(overlay) && Done(base, rules, overlay, j) && j < |overlay|
    ensures j < n <= |overlay| && forall k :: j < k < n ==> !Has(base, overlay[k].tag)
    ensures n < |overlay| ==>
      && Has(base, overlay[n].tag) && InsertAt(rules, overlay, j) == Find(rules, overlay[n].tag) < |rules|
    ensures n == |overlay| && j > 0 ==>
      InsertAt(rules, overlay, j) == Find(rules, overlay[j - 1].tag) + 1 <= |rules|
    ensures n == |overlay| && j == 0 ==> InsertAt(rules, overlay, j) == |rules|
  {
    hide Has;
    n := RightAnchorAt(rules, overlay, j + 1);
    forall k | j < k < |overlay| ensures Has(rules, overlay[k].tag) <==> Has(base, overlay[k].tag) {
      assert Covers(rules, overlay, k) <==> Has(base, overlay[k].tag);
    }
    if n < |overlay| {
      FindHas(rules, overlay[n].tag);
    } else if j > 0 {
      assert Covers(rules, overlay, j - 1);
      FindHas(rules, overlay[j - 1].tag);
    }
  }

  /** Neighbours of the overlay that stand side by side stay so through the steps behind them. */
  lemma {:induction false} MergeKeepsNext(base: seq<Rule>, rules: seq<Rule>, overlay: seq<Rule>, i: nat, j: nat)
    requires Distinct(overlay) && Done(base, rules, overlay, j) && i + 2 <= j <= |overlay|
    requires Next(rules, overlay[i].tag, overlay[i + 1].tag)
    ensures Next(MergeFrom(rules, overlay, j), overlay[i].tag, overlay[i + 1].tag)
    decreases |overlay| - j
  {
    hide MergeOne, Has, InsertAt, Done, Find;
    if j < |overlay| {
      var n := InsertedBeside(base, rules, overlay, j);
      ElsewhereThan(rules, overlay, i, j, n);
      StepKeepsNext(rules, overlay, j, overlay[i].tag, overlay[i + 1].tag);
      StepDone(base, rules, overlay, j);
      MergeKeepsNext(base, MergeOne(rules, overlay, j), overlay, i, j + 1);
    }
  }

  lemma ElsewhereThan(rules: seq<Rule>, overlay: seq<Rule>, i: nat, j: nat, n: nat)
    requires Distinct(overlay) && i + 2 <= j < n <= |overlay| && Next(rules, overlay[i].tag, overlay[i + 1].tag)
    requires n < |overlay| ==> InsertAt(rules, overlay, j) == Find(rules, overlay[n].tag) < |rules|
    requires n == |overlay| ==> InsertAt(rules, overlay, j) == Find(rules, overlay[j - 1].tag) + 1 <= |rules|
    ensures InsertAt(rules, overlay, j) != Find(rules, overlay[i + 1].tag)
  {
    hide InsertAt, FindFrom;
    if InsertAt(rules, overlay, j) == Find(rules, overlay[i + 1].tag) {
      if n < |overlay| {
        FindApart(rules, overlay[n].tag, overlay[i + 1].tag);
      } else {
        FindApart(rules, overlay[j - 1].tag, overlay[i].tag);
      }
      assert false;
    }
  }

  lemma {:induction false} StepsDone(base: seq<Rule>, rules: seq<Rule>, overlay: seq<Rule>, j: nat, i: nat)
    returns (r: seq<Rule>)
    requires Distinct(overlay) && Done(base, rules, overlay, j) && j <= i <= |overlay|
    ensures Done(base, r, overlay, i) && MergeFrom(rules, overlay, j) == MergeFrom(r, overlay, i)
    decreases i - j
  {
    hide MergeOne, Done;
    r := rules;
    if j < i {
      StepDone(base, rules, overlay, j);
      r := StepsDone(base, MergeOne(rules, overlay, j), overlay, j + 1, i);
    }
  }

  lemma InsertedFound(rules: seq<Rule>, overlay: seq<Rule>, i: nat, t: nat)
    requires i < |overlay| && !Has(rules, overlay[i].tag)
    ensures
      var q, r, f := InsertAt(rules, overlay, i), MergeOne(rules, overlay, i), Find(rules, t);
      && |r| == |rules| + 1 && Find(r, overlay[i].tag) == q
      && (t != overlay[i].tag ==> Find(r, t) == if f < q then f else f + 1)
  {
    hide InsertAt;
    FindHas(rules, overlay[i].tag);
    FindAfterInsert(rules, InsertAt(rules, overlay, i), overlay[i], t);
    FindAfterInsert(rules, InsertAt(rules, overlay, i), overlay[i], overlay[i].tag);
    Inserted(rules, InsertAt(rules, overlay, i), overlay[i], 0);
  }

  /** One new rule, before the steps behind its right neighbour. */
  lemma NewBeforeNext(base: seq<Rule>, rules: seq<Rule>, overlay: seq<Rule>, i: nat, n: nat)
    requires Distinct(overlay) && Done(base, rules, overlay, i) && i < n < |overlay|
    requires !Has(base, overlay[i].tag) && Has(base, overlay[n].tag)
    ensures
      var r := MergeOne(MergeOne(rules, overlay, i), overlay, i + 1);
      Done(base, r, overlay, i + 2) && Next(r, overlay[i].tag, overlay[i + 1].tag)
  {
    hide MergeOne, Has, InsertAt, Find, Done;
    var a := MergeOne(rules, overlay, i);
    var m := InsertedBeside(base, rules, overlay, i);
    assert m <= n;
    Uncovered(base, rules, overlay, i);
    InsertedFound(rules, overlay, i, overlay[m].tag);
    assert overlay[m].tag != overlay[i].tag;
    assert Next(a, overlay[i].tag, overlay[m].tag);
    StepDone(base, rules, overlay, i);
    StepDone(base, a, overlay, i + 1);
    if m == i + 1 {
      Present(base, a, overlay, i + 1);
      StepKeepsNext(a, overlay, i + 1, overlay[i].tag, overlay[i + 1].tag);
    } else {
      var l := InsertedBeside(base, a, overlay, i + 1);
      assert l == m;
      Uncovered(base, a, overlay, i + 1);
      InsertedFound(a, overlay, i + 1, overlay[i].tag);
      assert overlay[i].tag != overlay[i + 1].tag;
    }
  }

  lemma Uncovered(base: seq<Rule>, rules: seq<Rule>, overlay: seq<Rule>, i: nat)
    requires Done(base, rules, overlay, i) && i < |overlay| && !Has(base, overlay[i].tag)
    ensures !Has(rules, overlay[i].tag)
  {
    assert !Covers(rules, overlay, i);
  }

  lemma Present(base: seq<Rule>, rules: seq<Rule>, overlay: seq<Rule>, i: nat)
    requires Done(base, rules, overlay, i) && i < |overlay| && Has(base, overlay[i].tag)
    ensures Has(rules, overlay[i].tag)
  {
    assert Covers(rules, overlay, i);
  }

  /** One new rule behind all rules that the base has. */
  lemma NewBehindLast(base: seq<Rule>, rules: seq<Rule>, overlay: seq<Rule>, i: nat)
    requires Distinct(overlay) && Done(base, rules, overlay, i) && 0 < i < |overlay|
    requires forall k :: i <= k < |overlay| ==> !Has(base, overlay[k].tag)
    ensures
      var r := MergeOne(rules, overlay, i);
      Done(base, r, overlay, i + 1) && Next(r, overlay[i - 1].tag, overlay[i].tag)
  {
    hide MergeOne, Has, InsertAt, Find, Done;
    var m := InsertedBeside(base, rules, overlay, i);
    assert m == |overlay|;
    Uncovered(base, rules, overlay, i);
    InsertedFound(rules, overlay, i, overlay[i - 1].tag);
    assert overlay[i - 1].tag != overlay[i].tag;
    StepDone(base, rules, overlay, i);
  }

  /** A later rule of the overlay is in the base. */
  ghost predicate HasLater(base: seq<Rule>, overlay: seq<Rule>, i: nat) {
    exists n :: i < n < |overlay| && Has(base, overlay[n].tag)
  }

  lemma NothingDone(base: seq<Rule>, overlay: seq<Rule>)
    ensures Done(base, base, overlay, 0)
  {
  }

  /**
   * A rule that the base does not have stands directly before the overlay's next rule if the base has any of the later
   * ones, else directly behind the overlay's previous rule.
   */
  lemma NewRuleStands(base: seq<Rule>, overlay: seq<Rule>, i: nat)
    requires Distinct(overlay) && i < |overlay| && !Has(base, overlay[i].tag)
    ensures HasLater(base, overlay, i) ==> Next(Merge(base, overlay), overlay[i].tag, overlay[i + 1].tag)
    ensures !HasLater(base, overlay, i) && i > 0 ==> Next(Merge(base, overlay), overlay[i - 1].tag, overlay[i].tag)
  {
    hide MergeOne, Has, Done, Next;
    NothingDone(base, overlay);
    var rules := StepsDone(base, base, overlay, 0, i);
    if HasLater(base, overlay, i) {
      var n :| i < n < |overlay| && Has(base, overlay[n].tag);
      NewBeforeNext(base, rules, overlay, i, n);
      MergeKeepsNext(base, MergeOne(MergeOne(rules, overlay, i), overlay, i + 1), overlay, i, i + 2);
    } else if i > 0 {
      NewBehindLast(base, rules, overlay, i);
      MergeKeepsNext(base, MergeOne(rules, overlay, i), overlay, i - 1, i + 1);
    }
  }

  /** Lists with no tag in common are joined end to end. */
  lemma {:induction false} UnrelatedJoin(base: seq<Rule>, overlay: seq<Rule>, i: nat)
    requires Distinct(overlay) && i <= |overlay| && forall k :: 0 <= k < |overlay| ==> !Has(base, overlay[k].tag)
    ensures MergeFrom(base + overlay[..i], overlay, i) == base + overlay
    decreases |overlay| - i
  {
    hide Has;
    if i == |overlay| {
      assert overlay[..i] == overlay;
    } else {
      var rules := base + overlay[..i];
      JoinedDone(base, overlay, i);
      var n := InsertedBeside(base, rules, overlay, i);
      Uncovered(base, rules, overlay, i);
      FindHas(rules, overlay[i].tag);
      if i > 0 {
        LastFound(base, overlay, i);
      }
      assert InsertAt(rules, overlay, i) == |rules|;
      assert Insert(rules, |rules|, overlay[i]) == rules + [overlay[i]];
      assert rules + [overlay[i]] == base + overlay[..i + 1];
      UnrelatedJoin(base, overlay, i + 1);
    }
  }

  lemma JoinedDone(base: seq<Rule>, overlay: seq<Rule>, i: nat)
    requires Distinct(overlay) && i <= |overlay| && forall k :: 0 <= k < |overlay| ==> !Has(base, overlay[k].tag)
    ensures Done(base, base + overlay[..i], overlay, i)
  {
    var rules := base + overlay[..i];
    forall k | 0 <= k < i ensures Covers(rules, overlay, k) {
      assert rules[|base| + k].tag == overlay[k].tag;
    }
    forall k | i <= k < |overlay| ensures !Has(rules, overlay[k].tag) {
      forall l | 0 <= l < |rules| ensures rules[l].tag != overlay[k].tag {
        assert l < |base| ==> rules[l] == base[l];
      }
    }
  }

  lemma LastFound(base: seq<Rule>, overlay: seq<Rule>, i: nat)
    requires Distinct(overlay) && 0 < i <= |overlay| && !Has(base, overlay[i - 1].tag)
    ensures Find(base + overlay[..i], overlay[i - 1].tag) == |base| + i - 1
  {
    var rules, p := base + overlay[..i], Find(base + overlay[..i], overlay[i - 1].tag);
    FindFirst(rules, 0, |base| + i - 1);
    assert rules[|base| + i - 1] == overlay[i - 1];
    forall l | 0 <= l < |base| ensures rules[l].tag != overlay[i - 1].tag {
      assert rules[l] == base[l];
    }
    assert rules[p] == overlay[p - |base|];
  }
}
