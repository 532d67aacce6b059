/** The required-field check on a loaded profile: the stored bitmaps are those of the dictionary's own rules. */
module ProfileRequired {
  import opened Optional
  import opened Bytes
  import ParsedTree
  import opened OverlayMerge
  import opened RequiredFields
  import opened ProfileRecords
  import opened ProfileBuilder
  import opened ProfileLookups
  import opened ProfileRoundTrip
  import V = ProfileView

  const BITMAP_OVERFLOW: nat := 2

  /** The record of a group as the check reads it. */
  function NeedsOf(t: Tables, k: nat): GroupNeeds
    requires V.Consistent(t) && k < |t.groups|
  {
    GroupNeeds(RulesOfGroup(t, k), t.groups[k].bitmap, t.groups[k].flags / BITMAP_OVERFLOW % 2 == 1)
  }

  /** The group records by count tag, as a lookup finds them. */
  function Needs(t: Tables): map<nat, GroupNeeds>
    requires V.Consistent(t)
  {
    map tag | tag in V.CountTags(t) :: NeedsOf(t, Search(V.CountTags(t), tag).value)
  }

  /** The rules of the dictionary's groups by count tag. */
  ghost predicate NeedsRules(needs: map<nat, GroupNeeds>, d: Dictionary) {
    && (forall tag :: tag in needs <==> exists k :: 0 <= k < |d.groups| && d.groups[k].countTag == tag)
    && forall k :: 0 <= k < |d.groups| ==>
         d.groups[k].countTag in needs && needs[d.groups[k].countTag].rules == d.groups[k].rules
  }

  lemma FlagShows(flags: nat, overflow: bool)
    ensures overflow ==> WithOverflow(flags, overflow) / BITMAP_OVERFLOW % 2 == 1
  {
  }

  lemma RecordStores(t: Tables, o: map<Text, nat>, d: Dictionary, k: nat)
    requires Describes(t, o, d) && k < |d.groups|
    ensures |t.groups| == |d.groups|
    ensures
      var g := d.groups[k];
      && t.groups[k].bitmap == Mask(g.rules, |g.rules|)
      && t.groups[k].flags == WithOverflow(g.flags, Overflows(g.rules, |g.rules|))
  {
    hide FieldsDone, EnumsDone, MessagesDone, RulesDone, RuleStart, Mask, Overflows, WithOverflow;
    assert GroupDone(o, d.groups, k, t.groups[k]);
  }

  lemma StoredIsBuilt(rules: seq<Rule>, flags: nat)
    ensures Built(GroupNeeds(rules, Mask(rules, |rules|),
                             WithOverflow(flags, Overflows(rules, |rules|)) / BITMAP_OVERFLOW % 2 == 1))
  {
    hide Mask, Overflows, WithOverflow, Bit;
    FlagShows(flags, Overflows(rules, |rules|));
    forall i: nat | i < 64 ensures Bit(Mask(rules, |rules|), i) <==> i < |rules| && IsRequired(rules[i]) {
      MaskBits(rules, |rules|, i);
    }
  }

  /** The record of a described group has the bitmap of its rules. */
  lemma RecordIsBuilt(t: Tables, o: map<Text, nat>, d: Dictionary, k: nat)
    requires Describes(t, o, d) && Within(d, t) && k < |d.groups|
    ensures V.Consistent(t) && |t.groups| == |d.groups|
    ensures NeedsOf(t, k).rules == d.groups[k].rules && Built(NeedsOf(t, k))
  {
    hide Describes, Within, V.Consistent, Mask, Overflows, WithOverflow, Built, RulesOfGroup, RulesOfMessage;
    RulesAnswer(t, o, d);
    RecordStores(t, o, d, k);
    StoredIsBuilt(d.groups[k].rules, d.groups[k].flags);
  }

  /** A count tag stands for the dictionary's group with that tag. */
  lemma FoundByTag(t: Tables, o: map<Text, nat>, d: Dictionary, tag: nat)
    requires Describes(t, o, d) && Within(d, t) && DuplicateFree(d)
    ensures |t.groups| == |d.groups| && V.CountTags(t) == Counts(d)
    ensures tag in Counts(d) ==>
      && Search(V.CountTags(t), tag).Some?
      && var k := Search(V.CountTags(t), tag).value; k < |d.groups| && d.groups[k].countTag == tag
    ensures forall k :: 0 <= k < |d.groups| && d.groups[k].countTag == tag ==> Search(V.CountTags(t), tag) == Some(k)
  {
    hide Describes, Within, DuplicateFree;
    GroupsAnswer(t, o, d);
    DescribedSizes(t, o, d);
    forall k | 0 <= k < |d.groups| && d.groups[k].countTag == tag ensures Search(V.CountTags(t), tag) == Some(k) {
      assert Counts(d)[k] == tag;
    }
  }

  /** Every group record of a loaded profile carries the dictionary's rules and the bitmap of those rules. */
  lemma LoadedNeedsBuilt(t: Tables, o: map<Text, nat>, d: Dictionary)
    requires Describes(t, o, d) && Within(d, t) && DuplicateFree(d)
    ensures V.Consistent(t) && NeedsRules(Needs(t), d)
    ensures forall tag :: tag in Needs(t) ==> Built(Needs(t)[tag])
  {
    hide Describes, Within, V.Consistent, DuplicateFree, Built, NeedsOf, RulesOfGroup, RulesOfMessage;
    RulesAnswer(t, o, d);
    FoundByTag(t, o, d, 0);
    forall tag | tag in Needs(t)
      ensures Built(Needs(t)[tag]) && exists k :: 0 <= k < |d.groups| && d.groups[k].countTag == tag
    {
      FoundByTag(t, o, d, tag);
      RecordIsBuilt(t, o, d, Search(V.CountTags(t), tag).value);
    }
    forall k | 0 <= k < |d.groups|
      ensures d.groups[k].countTag in Needs(t) && Needs(t)[d.groups[k].countTag].rules == d.groups[k].rules
    {
      assert Counts(d)[k] == d.groups[k].countTag;
      FoundByTag(t, o, d, d.groups[k].countTag);
      RecordIsBuilt(t, o, d, k);
    }
  }

  /** The check of a message against a loaded profile is the rule-by-rule check by the dictionary. */
  method ValidateLoaded(t: Tables, ghost o: map<Text, nat>, ghost d: Dictionary, k: nat, root: ParsedTree.Entry)
    returns (missing: Option<nat>)
    requires Describes(t, o, d) && Within(d, t) && DuplicateFree(d) && k < |d.messages|
    ensures V.Consistent(t) && NeedsRules(Needs(t), d)
    ensures missing.None? <==> Complete(Needs(t), d.messages[k].rules, root)
    ensures missing.Some? ==> Lacks(Needs(t), d.messages[k].rules, root, missing.value)
  {
    LoadedNeedsBuilt(t, o, d);
    RulesAnswer(t, o, d);
    hide Describes, Within, V.Consistent, DuplicateFree, Built;
    missing := ValidateRequiredRules(Needs(t), root, RulesOfMessage(t, k));
  }
}
