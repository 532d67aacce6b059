/** A dictionary built into an artifact and loaded again answers every lookup as the dictionary itself would. */
module ProfileRoundTrip {
  import opened Optional
  import opened Bytes
  import opened PackedRows
  import opened ArtifactFile
  import opened ArtifactCheck
  import opened ArtifactRoundTrip
  import opened CanonicalOrder
  import opened OverlayMerge
  import opened StringTable
  import opened ProfileRecords
  import opened ProfileFile
  import opened ProfileBuilder
  import opened RequiredFields
  import opened KeyIndex
  import V = ProfileView
  import opened ProfileLookups

  // ---- the numbers of a dictionary are 32 bits wide

  predicate RulesTyped(rules: seq<Rule>) {
    forall i :: 0 <= i < |rules| ==> RuleFits(rules[i])
  }

  predicate FieldTyped(f: FieldDef) {
    f.tag < WORD && f.valueType < WORD && f.flags < WORD
  }

  predicate MessageTyped(m: MessageDef) {
    m.flags < WORD && RulesTyped(m.rules)
  }

  predicate GroupTyped(g: GroupDef) {
    g.countTag < WORD && g.delimiter < WORD && g.flags < WORD && RulesTyped(g.rules)
  }

  predicate Typed(d: Dictionary) {
    && (forall i :: 0 <= i < |d.fields| ==> FieldTyped(d.fields[i]))
    && (forall i :: 0 <= i < |d.messages| ==> MessageTyped(d.messages[i]))
    && (forall i :: 0 <= i < |d.groups| ==> GroupTyped(d.groups[i]))
    && RulesTyped(d.headerFields) && RulesTyped(d.trailerFields)
    && d.schemaHash < TWO_TO_64 && d.profileId < TWO_TO_64
  }

  predicate UnreadFits(u: Unread) {
    && AllFit(RULE_WIDTHS, u.admin) && AllFit(TRIPLE_WIDTHS, u.validation) && AllFit(LOOKUP_WIDTHS, u.lookup)
    && AllFit(TEMPLATE_WIDTHS, u.templates)
  }

  // ---- records of a dictionary fit

  lemma {:induction false} RuleOwner(lists: seq<seq<Rule>>, n: nat, j: nat) returns (k: nat)
    requires n <= |lists| && j < RuleStart(lists, n)
    ensures k < n && RuleStart(lists, k) <= j < RuleStart(lists, k) + |lists[k]|
  {
    if j >= RuleStart(lists, n - 1) { k := n - 1; } else { k := RuleOwner(lists, n - 1, j); }
  }

  lemma SegmentAt(rules: seq<Rule>, start: nat, part: seq<Rule>, j: nat)
    requires SegmentIs(rules, start, part) && start <= j < start + |part|
    ensures rules[j] == part[j - start]
  {
    assert rules[start..start + |part|][j - start] == rules[j];
  }

  lemma RulesAllFit(lists: seq<seq<Rule>>, rules: seq<Rule>)
    requires RulesDone(lists, rules, |lists|) && forall k :: 0 <= k < |lists| ==> RulesTyped(lists[k])
    ensures All(RuleFits, rules)
  {
    hide RuleStart, SegmentIs, RuleFits;
    forall j | 0 <= j < |rules| ensures RuleFits(rules[j]) {
      var k := RuleOwner(lists, |lists|, j);
      SegmentAt(rules, RuleStart(lists, k), lists[k], j);
      assert RulesTyped(lists[k]);
    }
  }

  lemma {:induction false} EnumOwner(fields: seq<FieldDef>, n: nat, j: nat) returns (k: nat)
    requires n <= |fields| && j < EnumStart(fields, n)
    ensures k < n && EnumStart(fields, k) <= j < EnumStart(fields, k) + |fields[k].enums|
  {
    if j >= EnumStart(fields, n - 1) { k := n - 1; } else { k := EnumOwner(fields, n - 1, j); }
  }

  lemma ValueFits(o: map<Text, nat>, f: FieldDef, enums: seq<EnumRec>, start: nat, j: nat, strings: Text)
    requires TableOk(strings, o) && FieldTyped(f) && ValuesDone(o, f, enums, start, |f.enums|)
    requires start <= j < start + |f.enums|
    ensures j < |enums| && EnumFits(enums[j])
  {
    hide LiesAt;
    assert EnumDone(o, f, enums, start, j - start);
  }

  lemma EnumsAllFit(o: map<Text, nat>, fields: seq<FieldDef>, enums: seq<EnumRec>, strings: Text)
    requires TableOk(strings, o) && EnumsDone(o, fields, enums, |fields|)
    requires forall i :: 0 <= i < |fields| ==> FieldTyped(fields[i])
    ensures All(EnumFits, enums)
  {
    hide EnumStart, ValuesDone, FieldTyped, EnumFits, TableOk;
    forall j | 0 <= j < |enums| ensures EnumFits(enums[j]) {
      var k := EnumOwner(fields, |fields|, j);
      ValueFits(o, fields[k], enums, EnumStart(fields, k), j, strings);
    }
  }

  lemma {:induction false} TwoToBytes(k: nat)
    ensures TwoTo(8 * k) == Power(k)
  {
    if k > 0 {
      TwoToBytes(k - 1);
      var n := 8 * k;
      assert TwoTo(n) == 2 * TwoTo(n - 1) && TwoTo(n - 1) == 2 * TwoTo(n - 2) && TwoTo(n - 2) == 2 * TwoTo(n - 3);
      assert TwoTo(n - 3) == 2 * TwoTo(n - 4) && TwoTo(n - 4) == 2 * TwoTo(n - 5) && TwoTo(n - 5) == 2 * TwoTo(n - 6);
      assert TwoTo(n - 6) == 2 * TwoTo(n - 7) && TwoTo(n - 7) == 2 * TwoTo(n - 8);
    }
  }

  lemma TwoTo64()
    ensures TwoTo(64) == TWO_TO_64
  {
    hide TwoTo;
    TwoToBytes(8);
    Powers();
  }

  lemma FlagsFit(flags: nat, overflow: bool)
    requires flags < WORD
    ensures WithOverflow(flags, overflow) < WORD
  { }

  lemma FieldsAllFit(o: map<Text, nat>, fields: seq<FieldDef>, recs: seq<FieldRec>, strings: Text)
    requires TableOk(strings, o) && FieldsDone(o, fields, recs, |fields|)
    requires forall i :: 0 <= i < |fields| ==> FieldTyped(fields[i])
    ensures All(FieldFits, recs)
  {
    hide EnumStart, LiesAt;
    forall j | 0 <= j < |recs| ensures FieldFits(recs[j]) {
      assert FieldDone(o, fields, j, recs[j]) && FieldTyped(fields[j]);
    }
  }

  lemma MessagesAllFit(o: map<Text, nat>, ms: seq<MessageDef>, recs: seq<MessageRec>, strings: Text)
    requires TableOk(strings, o) && MessagesDone(o, ms, recs, |ms|)
    requires forall i :: 0 <= i < |ms| ==> MessageTyped(ms[i])
    ensures All(MessageFits, recs)
  {
    hide RuleStart, LiesAt, RulesTyped;
    forall j | 0 <= j < |recs| ensures MessageFits(recs[j]) {
      assert MessageDone(o, ms, j, recs[j]) && MessageTyped(ms[j]);
    }
  }

  lemma GroupsAllFit(o: map<Text, nat>, gs: seq<GroupDef>, recs: seq<GroupRec>, strings: Text)
    requires TableOk(strings, o) && GroupsDone(o, gs, recs, |gs|)
    requires forall i :: 0 <= i < |gs| ==> GroupTyped(gs[i])
    ensures All(GroupFits, recs)
  {
    hide RuleStart, LiesAt, RulesTyped, Mask, Overflows, WithOverflow;
    forall j | 0 <= j < |recs| ensures GroupFits(recs[j]) {
      var g := gs[j];
      assert GroupDone(o, gs, j, recs[j]) && GroupTyped(g);
      FlagsFit(g.flags, Overflows(g.rules, |g.rules|));
      MaskBelow(g.rules);
    }
  }

  lemma MaskBelow(rules: seq<Rule>)
    ensures Mask(rules, |rules|) < TWO_TO_64
  {
    MaskFits(rules, |rules|);
    TwoTo64();
    if |rules| < 64 { TwoToGrows(|rules|, 64); }
  }

  /** Tables that describe a dictionary fit the widths of the artifact. */
  lemma DescribedFits(t: Tables, o: map<Text, nat>, d: Dictionary)
    requires Describes(t, o, d) && Typed(d) && UnreadFits(Unread(t.admin, t.validation, t.lookup, t.templates))
    ensures TablesFit(t)
  {
    hide TableOk, FieldsDone, EnumsDone, MessagesDone, GroupsDone, RulesDone, All, AllFit;
    FieldsAllFit(o, d.fields, t.fields, t.strings);
    EnumsAllFit(o, d.fields, t.enums, t.strings);
    MessagesAllFit(o, d.messages, t.messages, t.strings);
    GroupsAllFit(o, d.groups, t.groups, t.strings);
    ListsFit(d);
    RulesAllFit(MessageRules(d.messages), t.messageRules);
    RulesAllFit(GroupRules(d.groups), t.groupRules);
    PlainRulesFit(t.headerRules);
    PlainRulesFit(t.trailerRules);
  }

  lemma PlainRulesFit(rules: seq<Rule>)
    requires RulesTyped(rules)
    ensures All(RuleFits, rules)
  { }

  lemma ListsFit(d: Dictionary)
    requires Typed(d)
    ensures |MessageRules(d.messages)| == |d.messages| && |GroupRules(d.groups)| == |d.groups|
    ensures forall k :: 0 <= k < |d.messages| ==> RulesTyped(MessageRules(d.messages)[k])
    ensures forall k :: 0 <= k < |d.groups| ==> RulesTyped(GroupRules(d.groups)[k])
  {
    hide RulesTyped, FieldTyped;
    assert forall k :: 0 <= k < |d.messages| ==> MessageTyped(d.messages[k]);
    assert forall k :: 0 <= k < |d.groups| ==> GroupTyped(d.groups[k]);
  }

  // ---- described tables make a view

  /** Offsets and counts stay within their widths, and the file within its own. */
  ghost predicate Within(d: Dictionary, t: Tables) {
    && |t.strings| <= LIMIT && |t.messageRules| < WORD && |t.groupRules| < WORD && |t.enums| < WORD
    && TableEnd(Pendings(t)) + |Bodies(Pendings(t))| < TWO_TO_64
  }

  lemma {:induction false} RuleStartsRise(lists: seq<seq<Rule>>, i: nat, j: nat)
    requires i <= j <= |lists|
    ensures RuleStart(lists, i) <= RuleStart(lists, j)
    ensures i < j ==> RuleStart(lists, i) + |lists[i]| <= RuleStart(lists, j)
    decreases j
  {
    if i < j { RuleStartsRise(lists, i, j - 1); }
  }

  lemma NamePlaced(strings: Text, o: map<Text, nat>, v: Text)
    requires TableOk(strings, o) && v in o && |strings| <= LIMIT
    ensures StringAt(strings, o[v]).Some? && (StringAt(strings, o[v]) == Some(v) <==> 0 !in v)
  {
    ReadsBack(strings, o[v], v);
  }

  lemma BelowWord(n: nat)
    requires n < WORD
    ensures n % WORD == n
  { }

  /** The k-th list keeps its place among the rules. */
  lemma ListPlace(lists: seq<seq<Rule>>, rules: seq<Rule>, k: nat)
    requires RulesDone(lists, rules, |lists|) && k < |lists| && |rules| < WORD
    ensures RuleStart(lists, k) % WORD == RuleStart(lists, k) && |lists[k]| % WORD == |lists[k]|
    ensures RuleStart(lists, k) + |lists[k]| <= |rules|
    ensures rules[RuleStart(lists, k)..RuleStart(lists, k) + |lists[k]|] == lists[k]
  {
    hide RuleStart;
    RulesLength(lists, rules, |lists|);
    RuleStartsRise(lists, k, |lists|);
    assert SegmentIs(rules, RuleStart(lists, k), lists[k]);
    BelowWord(RuleStart(lists, k));
    BelowWord(|lists[k]|);
  }

  lemma MessageDescribed(t: Tables, o: map<Text, nat>, d: Dictionary, k: nat)
    requires Describes(t, o, d) && Within(d, t) && k < |d.messages|
    ensures |t.messages| == |d.messages|
    ensures var m := t.messages[k];
            V.NameOk(t, m.name) && V.NameOk(t, m.msgType) && V.RangeOk(m.firstRule, m.ruleCount, |t.messageRules|)
            && m.firstRule == RuleStart(MessageRules(d.messages), k) && m.ruleCount == |d.messages[k].rules|
            && t.messageRules[m.firstRule..m.firstRule + m.ruleCount] == d.messages[k].rules
            && (0 !in d.messages[k].msgType ==> StringAt(t.strings, m.msgType) == Some(d.messages[k].msgType))
            && (0 !in d.messages[k].name ==> StringAt(t.strings, m.name) == Some(d.messages[k].name))
  {
    hide TableOk, FieldsDone, EnumsDone, GroupsDone, RulesDone, RuleStart, StringAt, Pendings, Bodies, TableEnd;
    var lists := MessageRules(d.messages);
    assert |lists| == |d.messages| && lists[k] == d.messages[k].rules;
    ListPlace(lists, t.messageRules, k);
    assert MessageDone(o, d.messages, k, t.messages[k]);
    NamePlaced(t.strings, o, d.messages[k].name);
    NamePlaced(t.strings, o, d.messages[k].msgType);
  }

  lemma GroupDescribed(t: Tables, o: map<Text, nat>, d: Dictionary, k: nat)
    requires Describes(t, o, d) && Within(d, t) && k < |d.groups|
    ensures |t.groups| == |d.groups|
    ensures var g := t.groups[k];
            V.NameOk(t, g.name) && V.RangeOk(g.firstRule, g.ruleCount, |t.groupRules|)
            && g.firstRule == RuleStart(GroupRules(d.groups), k) && g.ruleCount == |d.groups[k].rules|
            && t.groupRules[g.firstRule..g.firstRule + g.ruleCount] == d.groups[k].rules
            && g.countTag == d.groups[k].countTag && g.delimiter == d.groups[k].delimiter
            && (0 !in d.groups[k].name ==> StringAt(t.strings, g.name) == Some(d.groups[k].name))
  {
    hide TableOk, FieldsDone, EnumsDone, MessagesDone, RulesDone, RuleStart, StringAt, Pendings, Bodies, TableEnd;
    hide Mask, Overflows, WithOverflow;
    var lists := GroupRules(d.groups);
    assert |lists| == |d.groups| && lists[k] == d.groups[k].rules;
    ListPlace(lists, t.groupRules, k);
    assert GroupDone(o, d.groups, k, t.groups[k]);
    NamePlaced(t.strings, o, d.groups[k].name);
  }

  lemma FieldDescribed(t: Tables, o: map<Text, nat>, d: Dictionary, k: nat)
    requires Describes(t, o, d) && Within(d, t) && k < |d.fields|
    ensures |t.fields| == |d.fields|
    ensures var r, f := t.fields[k], d.fields[k];
            V.NameOk(t, r.name) && r.tag == f.tag && r.valueType == f.valueType && r.flags == f.flags
            && (0 !in f.name ==> StringAt(t.strings, r.name) == Some(f.name))
  {
    hide TableOk, MessagesDone, EnumsDone, GroupsDone, RulesDone, EnumStart, StringAt, Pendings, Bodies, TableEnd;
    assert FieldDone(o, d.fields, k, t.fields[k]);
    NamePlaced(t.strings, o, d.fields[k].name);
  }

  lemma DescribedSizes(t: Tables, o: map<Text, nat>, d: Dictionary)
    requires Describes(t, o, d)
    ensures |t.fields| == |d.fields| && |t.messages| == |d.messages| && |t.groups| == |d.groups|
  {
    hide TableOk, EnumsDone, RulesDone, FieldDone, MessageDone, GroupDone;
  }

  lemma DescribedConsistent(t: Tables, o: map<Text, nat>, d: Dictionary)
    requires Describes(t, o, d) && Within(d, t)
    ensures V.Consistent(t)
    ensures V.InSequence(V.Ranges(V.MessageRange, t.messages)) && V.InSequence(V.Ranges(V.GroupRange, t.groups))
  {
    hide Describes, Within, V.NameOk, V.RangeOk, StringAt, RuleStart;
    DescribedSizes(t, o, d);
    forall k | 0 <= k < |t.fields| ensures V.NameOk(t, t.fields[k].name) { FieldDescribed(t, o, d, k); }
    forall k | 0 <= k < |t.messages|
      ensures V.NameOk(t, t.messages[k].name) && V.NameOk(t, t.messages[k].msgType)
           && V.RangeOk(t.messages[k].firstRule, t.messages[k].ruleCount, |t.messageRules|)
    {
      MessageDescribed(t, o, d, k);
    }
    forall k | 0 <= k < |t.groups|
      ensures V.NameOk(t, t.groups[k].name) && V.RangeOk(t.groups[k].firstRule, t.groups[k].ruleCount, |t.groupRules|)
    {
      GroupDescribed(t, o, d, k);
    }
    MessagesInSequence(t, o, d);
    GroupsInSequence(t, o, d);
  }

  lemma MessagesInSequence(t: Tables, o: map<Text, nat>, d: Dictionary)
    requires Describes(t, o, d) && Within(d, t)
    ensures V.InSequence(V.Ranges(V.MessageRange, t.messages))
  {
    hide Describes, Within, V.NameOk, V.RangeOk, StringAt, RuleStart;
    DescribedSizes(t, o, d);
    var lists := MessageRules(d.messages);
    var rs := V.Ranges(V.MessageRange, t.messages);
    forall i, j | 0 <= i < j < |rs| ensures rs[i].first + rs[i].count <= rs[j].first {
      MessageDescribed(t, o, d, i);
      MessageDescribed(t, o, d, j);
      RuleStartsRise(lists, i, j);
    }
  }

  lemma GroupsInSequence(t: Tables, o: map<Text, nat>, d: Dictionary)
    requires Describes(t, o, d) && Within(d, t)
    ensures V.InSequence(V.Ranges(V.GroupRange, t.groups))
  {
    hide Describes, Within, V.NameOk, V.RangeOk, StringAt, RuleStart;
    DescribedSizes(t, o, d);
    var lists := GroupRules(d.groups);
    var rs := V.Ranges(V.GroupRange, t.groups);
    forall i, j | 0 <= i < j < |rs| ensures rs[i].first + rs[i].count <= rs[j].first {
      GroupDescribed(t, o, d, i);
      GroupDescribed(t, o, d, j);
      RuleStartsRise(lists, i, j);
    }
  }

  /** Builds the artifact in memory, checks it, reads its tables and indexes them. */
  method LoadProfileFromDictionary(d: Dictionary, u: Unread)
    returns (r: Option<V.View>, ghost t: Tables, ghost o: map<Text, nat>)
    requires Typed(d) && UnreadFits(u)
    ensures !DuplicateFree(d) ==> r.None?
    ensures DuplicateFree(d) ==> Describes(t, o, d)
    ensures DuplicateFree(d) && Within(d, t) ==> r.Some? && r.value.tables == t && V.Indexed(r.value)
  {
    hide DuplicateFree, Describes, Typed, Accepts, Assemble, Pendings, Sections, ReadTables, V.Consistent, V.Indexed;
    hide UnreadFits, TablesFit, HeaderAt;
    var bytes;
    bytes, t, o := BuildProfileArtifact(d, u);
    if bytes.None? { return None, t, o; }
    if Within(d, t) {
      DescribedFits(t, o, d);
      FileFitsWhen(d, t);
      TablesReadBack(d.schemaHash, d.profileId, t);
      DescribedConsistent(t, o, d);
      SizeOfFile(d, t);
    }
    var data := bytes.value[..];
    // a vector in memory is shorter than this
    if |data| >= TWO_TO_64 { return None, t, o; }
    var v, h, sections := ValidateArtifact(data);
    if !v.Accepted? { return None, t, o; }
    var tables := ReadTables(data, sections);
    if tables.None? { return None, t, o; }
    r := V.FromTables(tables.value);
  }

  lemma FileFitsWhen(d: Dictionary, t: Tables)
    requires Typed(d) && Within(d, t) && TablesFit(t)
    ensures FileFits(d.schemaHash, d.profileId, t)
  {
    hide TablesFit, Pendings, Bodies, TableEnd;
  }

  lemma SizeOfFile(d: Dictionary, t: Tables)
    requires Within(d, t)
    ensures |Assemble(d.schemaHash, d.profileId, Pendings(t))| < TWO_TO_64
  {
    hide Pendings, Bodies, Assemble, RowBytes, RowsBytes, Layout, SectionRows, HeaderRow;
    AssembledFrom(d.schemaHash, d.profileId, Pendings(t), Layout(Pendings(t), TableEnd(Pendings(t))));
  }

  // ---- lookups answer as the dictionary would

  function Tags(d: Dictionary): seq<nat> { Each((f: FieldDef) => f.tag, d.fields) }

  function Counts(d: Dictionary): seq<nat> { Each((g: GroupDef) => g.countTag, d.groups) }

  /** The message of a type, found by looking at one after the other. */
  function SearchType(ms: seq<MessageDef>, msgType: Text, i: nat): Option<nat>
    requires i <= |ms|
    decreases |ms| - i
  {
    if i == |ms| then None else if ms[i].msgType == msgType then Some(i) else SearchType(ms, msgType, i + 1)
  }

  lemma KeysDiffer(d: Dictionary)
    requires DuplicateFree(d)
    ensures NoRepeats(Tags(d)) && NoRepeats(Counts(d))
  {
    assert DistinctTags(d.fields, |d.fields|) && DistinctCounts(d.groups, |d.groups|);
  }

  /** Field lookups search the dictionary's own tags. */
  lemma FieldsAnswer(t: Tables, o: map<Text, nat>, d: Dictionary)
    requires Describes(t, o, d) && Within(d, t) && DuplicateFree(d)
    ensures V.FieldTags(t) == Tags(d) && NoRepeats(V.FieldTags(t))
  {
    hide Describes, Within, DuplicateFree, StringAt, V.NameOk, NoRepeats;
    KeysDiffer(d);
    DescribedSizes(t, o, d);
    forall k | 0 <= k < |d.fields| ensures V.FieldTags(t)[k] == Tags(d)[k] { FieldDescribed(t, o, d, k); }
  }

  lemma GroupsAnswer(t: Tables, o: map<Text, nat>, d: Dictionary)
    requires Describes(t, o, d) && Within(d, t) && DuplicateFree(d)
    ensures V.CountTags(t) == Counts(d) && NoRepeats(V.CountTags(t))
  {
    hide Describes, Within, DuplicateFree, StringAt, V.NameOk, RuleStart, NoRepeats;
    KeysDiffer(d);
    DescribedSizes(t, o, d);
    forall k | 0 <= k < |d.groups| ensures V.CountTags(t)[k] == Counts(d)[k] { GroupDescribed(t, o, d, k); }
  }

  lemma {:induction false} FirstType(keys: seq<Key>, ms: seq<MessageDef>, msgType: Text, i: nat)
    requires |keys| == |ms| && i <= |ms| && forall k :: 0 <= k < |ms| ==> keys[k] == ByteKey(ms[k].msgType)
    ensures First(keys, ByteKey(msgType), i) == SearchType(ms, msgType, i)
    decreases |ms| - i
  {
    hide ByteKey;
    if i < |ms| {
      if keys[i] == ByteKey(msgType) { ByteKeysDiffer(ms[i].msgType, msgType); }
      FirstType(keys, ms, msgType, i + 1);
    }
  }

  /** Message lookups search the dictionary's own message types, unless a type holds a NUL. */
  lemma MessagesAnswer(t: Tables, o: map<Text, nat>, d: Dictionary, msgType: Text)
    requires Describes(t, o, d) && Within(d, t) && DuplicateFree(d)
    requires forall k :: 0 <= k < |d.messages| ==> 0 !in d.messages[k].msgType
    ensures DistinctKeys(V.TypeKeys(t))
    ensures First(V.TypeKeys(t), ByteKey(msgType), 0) == SearchType(d.messages, msgType, 0)
  {
    assert DistinctTypes(d.messages, |d.messages|);
    hide Describes, Within, DuplicateFree, StringAt, V.NameOk, RuleStart, ByteKey;
    DescribedSizes(t, o, d);
    var keys := V.TypeKeys(t);
    forall k | 0 <= k < |d.messages| ensures keys[k] == ByteKey(d.messages[k].msgType) { MessageDescribed(t, o, d, k); }
    forall i, j | 0 <= i < j < |keys| ensures keys[i] != keys[j] {
      if keys[i] == keys[j] { ByteKeysDiffer(d.messages[i].msgType, d.messages[j].msgType); }
    }
    FirstType(keys, d.messages, msgType, 0);
  }

  /** Rule lookups search the rules the dictionary gives a message or group. */
  lemma RulesAnswer(t: Tables, o: map<Text, nat>, d: Dictionary)
    requires Describes(t, o, d) && Within(d, t)
    ensures V.Consistent(t) && |t.messages| == |d.messages| && |t.groups| == |d.groups|
    ensures forall k :: 0 <= k < |d.messages| ==> RulesOfMessage(t, k) == d.messages[k].rules
    ensures forall k :: 0 <= k < |d.groups| ==> RulesOfGroup(t, k) == d.groups[k].rules
  {
    hide Describes, Within, StringAt, V.NameOk, RuleStart;
    DescribedConsistent(t, o, d);
    DescribedSizes(t, o, d);
    forall k | 0 <= k < |d.messages| ensures RulesOfMessage(t, k) == d.messages[k].rules {
      MessageDescribed(t, o, d, k);
    }
    forall k | 0 <= k < |d.groups| ensures RulesOfGroup(t, k) == d.groups[k].rules { GroupDescribed(t, o, d, k); }
  }

  // ---- enumeration values

  lemma {:induction false} EnumStartsRise(fields: seq<FieldDef>, i: nat, j: nat)
    requires i <= j <= |fields|
    ensures EnumStart(fields, i) <= EnumStart(fields, j)
    ensures i < j ==> EnumStart(fields, i) + |fields[i].enums| <= EnumStart(fields, j)
    decreases j
  {
    if i < j { EnumStartsRise(fields, i, j - 1); }
  }

  lemma EnumsLength(o: map<Text, nat>, fields: seq<FieldDef>, enums: seq<EnumRec>)
    requires EnumsDone(o, fields, enums, |fields|)
    ensures |enums| == EnumStart(fields, |fields|)
  { }

  /** The values of a field with fewer than 65536 of them, read from the artifact. */
  lemma ValuesDescribed(t: Tables, o: map<Text, nat>, d: Dictionary, k: nat)
    requires Describes(t, o, d) && Within(d, t) && k < |d.fields| && |d.fields[k].enums| < 0x1_0000
    requires forall j :: 0 <= j < |d.fields[k].enums| ==> 0 !in d.fields[k].enums[j].value
    ensures |t.fields| == |d.fields| && t.fields[k].enumCount == |d.fields[k].enums|
    ensures t.fields[k].enumOffset == EnumStart(d.fields, k) <= |t.enums| - |d.fields[k].enums|
    ensures |V.Values(t, t.fields[k])| == |d.fields[k].enums|
    ensures forall j :: 0 <= j < |d.fields[k].enums| ==> V.Values(t, t.fields[k])[j] == Some(d.fields[k].enums[j].value)
  {
    hide TableOk, MessagesDone, GroupsDone, RulesDone, EnumStart, StringAt, Pendings, Bodies, TableEnd;
    var f := d.fields[k];
    var start := EnumStart(d.fields, k);
    EnumsLength(o, d.fields, t.enums);
    EnumStartsRise(d.fields, k, |d.fields|);
    assert FieldDone(o, d.fields, k, t.fields[k]);
    BelowWord(start);
    assert |f.enums| % 0x1_0000 == |f.enums|;
    assert ValuesDone(o, f, t.enums, start, |f.enums|);
    forall j | 0 <= j < |f.enums| ensures StringAt(t.strings, t.enums[start + j].value) == Some(f.enums[j].value) {
      assert EnumDone(o, f, t.enums, start, j);
      NamePlaced(t.strings, o, f.enums[j].value);
    }
    ValuesAt(t, t.fields[k], f.enums);
  }

  lemma ValuesAt(t: Tables, r: FieldRec, enums: seq<EnumEntry>)
    requires r.enumCount == |enums| && r.enumOffset + |enums| <= |t.enums|
    requires forall j :: 0 <= j < |enums| ==>
      StringAt(t.strings, t.enums[r.enumOffset + j].value) == Some(enums[j].value)
    ensures |V.Values(t, r)| == |enums| && forall j :: 0 <= j < |enums| ==> V.Values(t, r)[j] == Some(enums[j].value)
  {
    hide StringAt;
    var part := t.enums[r.enumOffset..r.enumOffset + |enums|];
    forall j | 0 <= j < |enums| ensures V.Values(t, r)[j] == Some(enums[j].value) {
      assert part[j] == t.enums[r.enumOffset + j];
    }
  }

  predicate HasValue(enums: seq<EnumEntry>, value: Text) {
    exists j :: 0 <= j < |enums| && enums[j].value == value
  }

  /** A value is allowed exactly when the dictionary lists it, or lists nothing, or the value is empty. */
  lemma EnumsAnswer(t: Tables, o: map<Text, nat>, d: Dictionary, k: nat, value: Text)
    requires Describes(t, o, d) && Within(d, t) && k < |d.fields| && |d.fields[k].enums| < 0x1_0000
    requires forall j :: 0 <= j < |d.fields[k].enums| ==> 0 !in d.fields[k].enums[j].value
    ensures |t.fields| == |d.fields|
    ensures Allowed(t, t.fields[k], value)
         <==> d.fields[k].enums == [] || value == [] || HasValue(d.fields[k].enums, value)
  {
    hide Describes, Within, V.Values;
    ValuesDescribed(t, o, d, k);
    var values := V.Values(t, t.fields[k]);
    var enums := d.fields[k].enums;
    if Some(value) in values {
      var j :| 0 <= j < |values| && values[j] == Some(value);
      assert enums[j].value == value;
    }
    if HasValue(enums, value) {
      var j :| 0 <= j < |enums| && enums[j].value == value;
      assert values[j] == Some(value);
    }
  }
}
