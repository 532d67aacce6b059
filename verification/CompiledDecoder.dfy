/** Decoders compiled per message type: a small hash table with an overflow list instead of dictionary lookups. */
module CompiledDecoder {
  import opened Optional
  import opened FixTags
  import opened Dictionary

  const TABLE_SIZE: nat := 256
  const INVALID_SLOT: nat := 0xFF
  const MAX_SLOTS: nat := 128
  const MAX_OVERFLOW: nat := 16

  datatype FieldPlan = FieldPlan(tag: nat, ftype: FieldType, group: Option<GroupDef>)

  datatype Overflow = Overflow(tag: nat, slot: nat)

  datatype Compiled = Compiled(table: seq<nat>, slots: seq<FieldPlan>, overflow: seq<Overflow>, exceeded: bool)

  // ---------------------------------------------------------------- lookup

  function ScanOverflow(overflow: seq<Overflow>, i: nat, tag: nat): (r: nat)
    requires i <= |overflow|
    decreases |overflow| - i
  {
    if i == |overflow| then INVALID_SLOT
    else if overflow[i].tag == tag then overflow[i].slot
    else ScanOverflow(overflow, i + 1, tag)
  }

  predicate Shaped(c: Compiled) {
    && |c.table| == TABLE_SIZE && |c.slots| <= MAX_SLOTS
    && forall k :: 0 <= k < |c.table| ==> c.table[k] == INVALID_SLOT || c.table[k] < |c.slots|
  }

  function Lookup(c: Compiled, tag: nat): nat
    requires Shaped(c)
  {
    var i := c.table[tag % 256];
    if i != INVALID_SLOT && c.slots[i].tag == tag then i else ScanOverflow(c.overflow, 0, tag)
  }

  // ---------------------------------------------------------------- building

  function Plan(d: Dict, tag: nat): FieldPlan {
    FieldPlan(tag, if tag in d.fields then d.fields[tag] else TString,
        if tag in d.groups then Some(d.groups[tag]) else None)
  }

  /** The rules outside the session envelope, in order. */
  function BodyRules(rules: seq<nat>): seq<nat>
    decreases |rules|
  {
    if rules == [] then []
    else
      var last := |rules| - 1;
      if IsEnvelopeTag(rules[last]) then BodyRules(rules[..last]) else BodyRules(rules[..last]) + [rules[last]]
  }

  /** Those of them that get a slot. */
  function Kept(rules: seq<nat>): (r: seq<nat>)
    ensures |r| <= MAX_SLOTS
  {
    var body := BodyRules(rules);
    if |body| <= MAX_SLOTS then body else body[..MAX_SLOTS]
  }

  /** A lookup finds the first slot of a tag, and its plan, for every tag. */
  ghost predicate Finds(c: Compiled, d: Dict, tags: seq<nat>) {
    && Shaped(c) && |c.slots| == |tags|
    && (forall i :: 0 <= i < |tags| ==> c.slots[i] == Plan(d, tags[i]))
    && forall tag :: FindsTag(c, tags, tag)
  }

  ghost predicate FindsTag(c: Compiled, tags: seq<nat>, tag: nat)
    requires Shaped(c)
  {
    Lookup(c, tag) == if RuleIndex(tags, tag) < 0 then INVALID_SLOT else RuleIndex(tags, tag)
  }

  lemma {:induction false} RuleFromAppend(tags: seq<nat>, i: nat, x: nat, tag: nat)
    requires i <= |tags|
    ensures RuleFrom(tags + [x], i, tag)
         == if RuleFrom(tags, i, tag) >= 0 then RuleFrom(tags, i, tag) else if x == tag then |tags| else -1
    decreases |tags| - i
  {
    if i < |tags| {
      RuleFromAppend(tags, i + 1, x, tag);
    }
  }

  lemma {:induction false} ScanOverflowAppend(overflow: seq<Overflow>, i: nat, x: Overflow, tag: nat)
    requires i <= |overflow| && forall k :: i <= k < |overflow| ==> overflow[k].slot != INVALID_SLOT
    ensures ScanOverflow(overflow + [x], i, tag)
         == if ScanOverflow(overflow, i, tag) != INVALID_SLOT then ScanOverflow(overflow, i, tag)
            else if x.tag == tag then x.slot else INVALID_SLOT
    decreases |overflow| - i
  {
    if i < |overflow| {
      ScanOverflowAppend(overflow, i + 1, x, tag);
    }
  }

  /** Overflow entries stand behind an occupied table position. */
  ghost predicate Tidy(c: Compiled) {
    && Shaped(c) && |c.overflow| <= MAX_OVERFLOW
    && forall k :: 0 <= k < |c.overflow| ==>
        c.overflow[k].slot < |c.slots| && c.table[c.overflow[k].tag % 256] != INVALID_SLOT
  }

  /** One more rule gets a slot. */
  function Index(c: Compiled, d: Dict, tag: nat): Compiled
    requires Shaped(c)
  {
    var slot := |c.slots|;
    var c1 := c.(slots := c.slots + [Plan(d, tag)]);
    if c.table[tag % 256] == INVALID_SLOT then c1.(table := c.table[tag % 256 := slot])
    else if |c.overflow| < MAX_OVERFLOW then c1.(overflow := c.overflow + [Overflow(tag, slot)])
    else c1.(exceeded := true)
  }

  lemma {:induction false} FreeMeansAbsent(c: Compiled, i: nat, tag: nat)
    requires Tidy(c) && i <= |c.overflow| && c.table[tag % 256] == INVALID_SLOT
    ensures ScanOverflow(c.overflow, i, tag) == INVALID_SLOT
    decreases |c.overflow| - i
  {
    if i < |c.overflow| {
      FreeMeansAbsent(c, i + 1, tag);
    }
  }

  lemma IndexTidy(c: Compiled, d: Dict, tag: nat)
    requires Tidy(c) && |c.slots| < MAX_SLOTS
    ensures Tidy(Index(c, d, tag))
  {
  }

  lemma IndexFindsTag(c: Compiled, d: Dict, tags: seq<nat>, tag: nat, x: nat)
    requires Tidy(c) && Finds(c, d, tags) && |c.slots| < MAX_SLOTS && Tidy(Index(c, d, tag))
    requires !Index(c, d, tag).exceeded
    ensures FindsTag(Index(c, d, tag), tags + [tag], x)
  {
    assert FindsTag(c, tags, x) && FindsTag(c, tags, tag);
    RuleFromAppend(tags, 0, tag, x);
    if c.table[tag % 256] == INVALID_SLOT {
      FreeMeansAbsent(c, 0, tag);
    } else {
      ScanOverflowAppend(c.overflow, 0, Overflow(tag, |c.slots|), x);
    }
  }

  lemma IndexFinds(c: Compiled, d: Dict, tags: seq<nat>, tag: nat)
    requires Tidy(c) && |c.slots| == |tags| < MAX_SLOTS && (!c.exceeded ==> Finds(c, d, tags))
    ensures Tidy(Index(c, d, tag)) && |Index(c, d, tag).slots| == |tags| + 1
    ensures !Index(c, d, tag).exceeded ==> Finds(Index(c, d, tag), d, tags + [tag])
  {
    var c1 := Index(c, d, tag);
    IndexTidy(c, d, tag);
    if !c1.exceeded {
      forall x ensures FindsTag(c1, tags + [tag], x) {
        IndexFindsTag(c, d, tags, tag, x);
      }
    }
  }

  const EMPTY_DECODER: Compiled := Compiled(seq(TABLE_SIZE, i => INVALID_SLOT), [], [], false)

  /** Some tag has the low byte `k`. */
  predicate Taken(tags: seq<nat>, k: nat) {
    exists i :: 0 <= i < |tags| && tags[i] % 256 == k
  }

  /** Number of tags whose low byte another tag had before. */
  function Collisions(tags: seq<nat>): nat
    decreases |tags|
  {
    if tags == [] then 0
    else
      var last := |tags| - 1;
      Collisions(tags[..last]) + if Taken(tags[..last], tags[last] % 256) then 1 else 0
  }

  /** The overflow list holds the collisions, as far as it goes. */
  ghost predicate Counted(c: Compiled, tags: seq<nat>) {
    && Shaped(c) && (forall k :: 0 <= k < 256 ==> (c.table[k] != INVALID_SLOT <==> Taken(tags, k)))
    && |c.overflow| == (if Collisions(tags) > MAX_OVERFLOW then MAX_OVERFLOW else Collisions(tags))
    && (c.exceeded <==> Collisions(tags) > MAX_OVERFLOW)
  }

  lemma IndexCounted(c: Compiled, d: Dict, tags: seq<nat>, tag: nat)
    requires Tidy(c) && |c.slots| == |tags| < MAX_SLOTS && Counted(c, tags)
    ensures Counted(Index(c, d, tag), tags + [tag])
  {
    var more := tags + [tag];
    assert more[..|tags|] == tags;
    IndexTidy(c, d, tag);
    forall k | 0 <= k < 256 ensures Taken(more, k) <==> Taken(tags, k) || tag % 256 == k {
      assert more[|tags|] == tag;
      if i :| 0 <= i < |tags| && tags[i] % 256 == k {
        assert more[i] % 256 == k;
      }
    }
  }

  lemma EmptyFinds(d: Dict)
    ensures Tidy(EMPTY_DECODER) && EMPTY_DECODER.slots == [] && Finds(EMPTY_DECODER, d, [])
      && Counted(EMPTY_DECODER, [])
  {
    forall x ensures FindsTag(EMPTY_DECODER, [], x) {
    }
  }

  lemma BodyStep(rules: seq<nat>, i: nat)
    requires i <= |rules|
    ensures BodyRules(rules[..0]) == []
    ensures i < |rules| ==>
      BodyRules(rules[..i + 1])
        == if IsEnvelopeTag(rules[i]) then BodyRules(rules[..i]) else BodyRules(rules[..i]) + [rules[i]]
  {
    if i < |rules| {
      assert rules[..i + 1][..i] == rules[..i];
    }
  }

  /** The loop may stop once the slots are used up. */
  lemma KeptSoFar(rules: seq<nat>, i: nat)
    requires i <= |rules| && |BodyRules(rules[..i])| <= MAX_SLOTS
    requires i == |rules| || |BodyRules(rules[..i])| == MAX_SLOTS
    ensures Kept(rules) == BodyRules(rules[..i])
  {
    BodyRulesGrow(rules, i);
    assert i == |rules| ==> rules[..i] == rules;
  }

  lemma TidyShaped(c: Compiled)
    requires Tidy(c)
    ensures Shaped(c) && |c.slots| <= MAX_SLOTS
  {
  }

  /**
   * Unless the overflow list ran out, which is when more than 16 tags collide, the decoder finds exactly
   * the first 128 rules outside the envelope.
   */
  method Build(d: Dict, rules: seq<nat>) returns (c: Compiled)
    ensures Shaped(c) && (c.exceeded <==> Collisions(Kept(rules)) > MAX_OVERFLOW)
    ensures !c.exceeded ==> Finds(c, d, Kept(rules))
  {
    hide BodyRules, Kept, Finds, Tidy, Index, Shaped, IsEnvelopeTag, Collisions, Taken;
    c := EMPTY_DECODER;
    EmptyFinds(d);
    BodyStep(rules, 0);
    for i := 0 to |rules|
      invariant Tidy(c) && |c.slots| == |BodyRules(rules[..i])|
      invariant !c.exceeded ==> Finds(c, d, BodyRules(rules[..i]))
      invariant Counted(c, BodyRules(rules[..i]))
    {
      var tag := rules[i];
      BodyStep(rules, i);
      TidyShaped(c);
      if IsEnvelopeTag(tag) {
        continue;
      }
      if |c.slots| >= MAX_SLOTS {
        KeptSoFar(rules, i);
        return;
      }
      IndexFinds(c, d, BodyRules(rules[..i]), tag);
      IndexCounted(c, d, BodyRules(rules[..i]), tag);
      c := AddSlot(c, d, tag);
    }
    TidyShaped(c);
    KeptSoFar(rules, |rules|);
  }

  /** Position in the table, or in the overflow list if that is taken. */
  method AddSlot(c: Compiled, d: Dict, tag: nat) returns (r: Compiled)
    requires Shaped(c)
    ensures r == Index(c, d, tag)
  {
    var slot := FieldPlan(tag, TString, None);
    if tag in d.fields {
      slot := slot.(ftype := d.fields[tag]);
    }
    if tag in d.groups {
      slot := slot.(group := Some(d.groups[tag]));
    }
    var at := |c.slots|;
    r := c.(slots := c.slots + [slot]);
    if c.table[tag % 256] == INVALID_SLOT {
      r := r.(table := r.table[tag % 256 := at]);
    } else if |c.overflow| < MAX_OVERFLOW {
      r := r.(overflow := r.overflow + [Overflow(tag, at)]);
    } else {
      r := r.(exceeded := true);
    }
  }

  /** The rules of a prefix come first. */
  lemma {:induction false} BodyRulesGrow(rules: seq<nat>, i: nat)
    requires i <= |rules|
    ensures BodyRules(rules[..i]) <= BodyRules(rules)
    decreases |rules|
  {
    if i == |rules| {
      assert rules[..i] == rules;
    } else {
      var last := |rules| - 1;
      assert rules[..last][..i] == rules[..i];
      BodyRulesGrow(rules[..last], i);
    }
  }
}
