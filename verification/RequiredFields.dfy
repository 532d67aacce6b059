/**
 * Required-field checks on repeating groups: the 64-bit words computed by the artifact builder against the
 * plain rule-by-rule check.
 */
module RequiredFields {
  import opened Optional
  import opened ParsedTree
  import opened OverlayMerge

  predicate IsRequired(r: Rule) {
    r.flags % 2 == 1
  }

  /** A group definition as stored: `overflow` says that the bitmap does not show every required rule. */
  datatype GroupNeeds = GroupNeeds(rules: seq<Rule>, bitmap: nat, overflow: bool)

  // ---------------------------------------------------------------- bits of a word

  function TwoTo(n: nat): (r: nat)
    ensures r > 0
  {
    if n == 0 then 1 else 2 * TwoTo(n - 1)
  }

  /** Bit `k` of a word: the lowest bit after `k` halvings. */
  predicate Bit(word: nat, k: nat)
    decreases k
  {
    if k == 0 then word % 2 == 1 else Bit(word / 2, k - 1)
  }

  lemma {:induction false} TwoToGrows(a: nat, b: nat)
    requires a <= b
    ensures TwoTo(a) <= TwoTo(b)
    decreases b
  {
    if a < b {
      TwoToGrows(a, b - 1);
    }
  }

  lemma {:induction false} ZeroHasNoBits(k: nat)
    ensures !Bit(0, k)
  {
    if k > 0 {
      ZeroHasNoBits(k - 1);
    }
  }

  /** A power of two adds its own bit to a smaller word and no other. */
  lemma {:induction false} BitAdded(word: nat, j: nat, k: nat)
    requires word < TwoTo(j)
    ensures Bit(word + TwoTo(j), k) <==> k == j || Bit(word, k)
    ensures Bit(word, k) ==> k < j
    decreases j
  {
    if j == 0 {
      ZeroHasNoBits(k);
      if k > 0 {
        ZeroHasNoBits(k - 1);
      }
    } else if k > 0 {
      assert (word + TwoTo(j)) / 2 == word / 2 + TwoTo(j - 1);
      BitAdded(word / 2, j - 1, k - 1);
    }
  }

  // ---------------------------------------------------------------- building the bitmap

  /** One bit for each required rule among the first 64. */
  function Mask(rules: seq<Rule>, n: nat): nat
    requires n <= |rules|
  {
    if n == 0 then 0
    else Mask(rules, n - 1) + (if IsRequired(rules[n - 1]) && n <= 64 then TwoTo(n - 1) else 0)
  }

  predicate Overflows(rules: seq<Rule>, n: nat)
    requires n <= |rules|
  {
    exists k :: 64 <= k < n && IsRequired(rules[k])
  }

  lemma {:induction false} MaskFits(rules: seq<Rule>, n: nat)
    requires n <= |rules|
    ensures Mask(rules, n) < TwoTo(if n < 64 then n else 64)
  {
    if n > 0 {
      MaskFits(rules, n - 1);
    }
  }

  /** The stored word has a one exactly at each required rule among the first 64. */
  lemma {:induction false} MaskBits(rules: seq<Rule>, n: nat, k: nat)
    requires n <= |rules|
    ensures Bit(Mask(rules, n), k) <==> k < n && k < 64 && IsRequired(rules[k])
  {
    if n == 0 {
      ZeroHasNoBits(k);
    } else {
      MaskBits(rules, n - 1, k);
      if n <= 64 {
        MaskFits(rules, n - 1);
        BitAdded(Mask(rules, n - 1), n - 1, k);
      }
    }
  }

  method ComputeRequiredFieldBitmap(rules: seq<Rule>) returns (bitmap: nat, overflow: bool)
    ensures bitmap == Mask(rules, |rules|) && bitmap < TwoTo(64)
    ensures forall k: nat :: Bit(bitmap, k) <==> k < |rules| && k < 64 && IsRequired(rules[k])
    ensures overflow == Overflows(rules, |rules|)
  {
    bitmap, overflow := 0, false;
    var bit := 1;
    for index := 0 to |rules|
      invariant bitmap == Mask(rules, index) && overflow == Overflows(rules, index) && bit == TwoTo(index)
    {
      if IsRequired(rules[index]) {
        if index >= 64 {
          overflow := true;
        } else {
          bitmap := bitmap + bit;
        }
      }
      bit := 2 * bit;
    }
    MaskFits(rules, |rules|);
    if |rules| < 64 {
      TwoToGrows(|rules|, 64);
    }
    forall k: nat ensures Bit(bitmap, k) <==> k < |rules| && k < 64 && IsRequired(rules[k]) {
      MaskBits(rules, |rules|, k);
    }
  }

  /** What the builder stores: an exact bitmap, and the flag whenever a required rule lies outside it. */
  ghost predicate Built(g: GroupNeeds) {
    && (forall i: nat :: i < 64 ==> (Bit(g.bitmap, i) <==> i < |g.rules| && IsRequired(g.rules[i])))
    && (Overflows(g.rules, |g.rules|) ==> g.overflow)
  }

  // ---------------------------------------------------------------- the rule-by-rule meaning

  predicate HasTag(e: Entry, tag: nat) {
    SlotIndex(e.slots, tag) >= 0 || GroupIndex(e.groups, tag) >= 0
  }

  function Nested(e: Entry, tag: nat): (es: seq<Entry>)
    ensures forall x :: x in es ==> x < e
  {
    var gi := GroupIndex(e.groups, tag);
    if gi < 0 then [] else e.groups[gi].entries
  }

  predicate RuleMet(defs: map<nat, GroupNeeds>, e: Entry, rule: Rule)
    decreases e, 0
  {
    && (IsRequired(rule) ==> HasTag(e, rule.tag))
    && (rule.tag in defs ==> forall x :: x in Nested(e, rule.tag) ==> Complete(defs, defs[rule.tag].rules, x))
  }

  /** Every required field is present in the entry and in every group below it that the rules know. */
  predicate Complete(defs: map<nat, GroupNeeds>, rules: seq<Rule>, e: Entry)
    decreases e, 1
  {
    forall k :: 0 <= k < |rules| ==> RuleMet(defs, e, rules[k])
  }

  /** The tag is required of the entry, or of one below it, and absent there. */
  predicate Lacks(defs: map<nat, GroupNeeds>, rules: seq<Rule>, e: Entry, tag: nat)
    decreases e
  {
    || (exists k :: 0 <= k < |rules| && IsRequired(rules[k]) && rules[k].tag == tag && !HasTag(e, tag))
    || (exists k, x :: 0 <= k < |rules| && rules[k].tag in defs && x in Nested(e, rules[k].tag)
          && Lacks(defs, defs[rules[k].tag].rules, x, tag))
  }

  // ---------------------------------------------------------------- the check

  function Lowest(s: set<nat>, from: nat): (m: nat)
    requires exists x :: x in s && from <= x < 64
    ensures m in s && from <= m
    decreases 64 - from
  {
    if from in s then from else Lowest(s, from + 1)
  }

  /** The bitmap check and the rule-by-rule check pass on the same entries, and a failure names a missing field. */
  method ValidateRequiredGroup(defs: map<nat, GroupNeeds>, entries: seq<Entry>, g: GroupNeeds)
    returns (missing: Option<nat>)
    requires Built(g) && forall t :: t in defs ==> Built(defs[t])
    ensures missing.None? <==> forall i :: 0 <= i < |entries| ==> Complete(defs, g.rules, entries[i])
    ensures missing.Some? ==> exists i :: 0 <= i < |entries| && Lacks(defs, g.rules, entries[i], missing.value)
    decreases entries, 1
  {
    for index := 0 to |entries|
      invariant forall i :: 0 <= i < index ==> Complete(defs, g.rules, entries[i])
    {
      missing := ValidateEntry(defs, entries[index], g);
      if missing.Some? {
        return;
      }
    }
    missing := None;
  }

  method ValidateEntry(defs: map<nat, GroupNeeds>, e: Entry, g: GroupNeeds) returns (missing: Option<nat>)
    requires Built(g) && forall t :: t in defs ==> Built(defs[t])
    ensures missing.None? <==> Complete(defs, g.rules, e)
    ensures missing.Some? ==> Lacks(defs, g.rules, e, missing.value)
    decreases e, 0
  {
    var present: set<nat> := {};
    for k := 0 to |g.rules|
      invariant forall i :: i in present <==> 0 <= i < k && i < 64 && HasTag(e, g.rules[i].tag)
      invariant forall i :: 0 <= i < k ==> NestedMet(defs, e, g.rules[i].tag)
      invariant g.overflow ==> forall i :: 0 <= i < k && IsRequired(g.rules[i]) ==> HasTag(e, g.rules[i].tag)
    {
      var rule := g.rules[k];
      var here := HasTag(e, rule.tag);
      if here && k < 64 {
        present := present + {k};
      }
      if g.overflow && IsRequired(rule) && !here {
        return Some(rule.tag);
      }
      if rule.tag !in defs || GroupIndex(e.groups, rule.tag) < 0 {
        continue;
      }
      missing := ValidateRequiredGroup(defs, Nested(e, rule.tag), defs[rule.tag]);
      if missing.Some? {
        return;
      }
    }
    missing := None;
    if !g.overflow {
      var lacking := set i | 0 <= i < 64 && Bit(g.bitmap, i) && i !in present;
      if lacking != {} {
        missing := Some(g.rules[Lowest(lacking, 0)].tag);
      }
    }
  }

  /** A whole message: its own rules one by one, its groups by their bitmaps. */
  method ValidateRequiredRules(defs: map<nat, GroupNeeds>, root: Entry, rules: seq<Rule>) returns (missing: Option<nat>)
    requires forall t :: t in defs ==> Built(defs[t])
    ensures missing.None? <==> Complete(defs, rules, root)
    ensures missing.Some? ==> Lacks(defs, rules, root, missing.value)
  {
    for k := 0 to |rules|
      invariant forall i :: 0 <= i < k ==> RuleMet(defs, root, rules[i])
    {
      var rule := rules[k];
      if IsRequired(rule) && !HasTag(root, rule.tag) {
        return Some(rule.tag);
      }
      if rule.tag !in defs || GroupIndex(root.groups, rule.tag) < 0 {
        continue;
      }
      missing := ValidateRequiredGroup(defs, Nested(root, rule.tag), defs[rule.tag]);
      if missing.Some? {
        return;
      }
    }
    missing := None;
  }

  predicate NestedMet(defs: map<nat, GroupNeeds>, e: Entry, tag: nat) {
    tag in defs ==> forall x :: x in Nested(e, tag) ==> Complete(defs, defs[tag].rules, x)
  }
}
