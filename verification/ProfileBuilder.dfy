/** Building the tables of a profile artifact from a dictionary. */
module ProfileBuilder {
  import opened Optional
  import opened Bytes
  import opened ArtifactFile
  import opened ArtifactWriter
  import opened OverlayMerge
  import opened StringTable
  import opened ProfileRecords
  import opened RequiredFields

  datatype EnumEntry = EnumEntry(value: Text, name: Text)
  datatype FieldDef = FieldDef(tag: nat, name: Text, valueType: nat, flags: nat, enums: seq<EnumEntry>)
  datatype MessageDef = MessageDef(msgType: Text, name: Text, rules: seq<Rule>, flags: nat)
  datatype GroupDef = GroupDef(countTag: nat, delimiter: nat, name: Text, rules: seq<Rule>, flags: nat)
  datatype Dictionary = Dictionary(
    schemaHash: nat, profileId: nat, fields: seq<FieldDef>, messages: seq<MessageDef>, groups: seq<GroupDef>,
    headerFields: seq<Rule>, trailerFields: seq<Rule>)

  // ---- fields and their enumerations

  /** Number of enumeration values before the i-th field. */
  function EnumStart(fields: seq<FieldDef>, i: nat): nat
    requires i <= |fields|
  {
    if i == 0 then 0 else EnumStart(fields, i - 1) + |fields[i - 1].enums|
  }

  ghost predicate FieldDone(o: map<Text, nat>, fields: seq<FieldDef>, k: nat, r: FieldRec)
    requires k < |fields|
  {
    var f := fields[k];
    f.name in o && r == FieldRec(f.tag, o[f.name], f.valueType, f.flags, EnumStart(fields, k) % WORD,
        |f.enums| % 0x1_0000)
  }

  ghost predicate EnumDone(o: map<Text, nat>, f: FieldDef, enums: seq<EnumRec>, start: nat, j: nat)
    requires j < |f.enums| && start + j < |enums|
  {
    && f.enums[j].value in o && f.enums[j].name in o
    && enums[start + j] == EnumRec(f.tag, o[f.enums[j].value], o[f.enums[j].name])
  }

  /** The records of the first n fields. */
  ghost predicate FieldsDone(o: map<Text, nat>, fields: seq<FieldDef>, recs: seq<FieldRec>, n: nat)
    requires n <= |fields|
  {
    |recs| == n && forall k :: 0 <= k < n ==> FieldDone(o, fields, k, recs[k])
  }

  /** The values of field k, from where they start. */
  ghost predicate ValuesDone(o: map<Text, nat>, f: FieldDef, enums: seq<EnumRec>, start: nat, n: nat)
    requires n <= |f.enums|
  {
    start + n <= |enums| && forall j :: 0 <= j < n ==> EnumDone(o, f, enums, start, j)
  }

  ghost predicate EnumsDone(o: map<Text, nat>, fields: seq<FieldDef>, enums: seq<EnumRec>, n: nat)
    requires n <= |fields|
  {
    |enums| == EnumStart(fields, n)
    && forall k :: 0 <= k < n ==> ValuesDone(o, fields[k], enums, EnumStart(fields, k), |fields[k].enums|)
  }

  lemma FieldsDoneLonger(o: map<Text, nat>, p: map<Text, nat>, fields: seq<FieldDef>, recs: seq<FieldRec>, n: nat)
    requires n <= |fields| && Extends(o, p) && FieldsDone(o, fields, recs, n)
    ensures FieldsDone(p, fields, recs, n)
  {
    hide EnumStart;
    forall k | 0 <= k < n ensures FieldDone(p, fields, k, recs[k]) {
      assert FieldDone(o, fields, k, recs[k]);
    }
  }

  lemma ValuesDoneLonger(
      o: map<Text, nat>, p: map<Text, nat>, f: FieldDef, enums: seq<EnumRec>, more: seq<EnumRec>, start: nat, n: nat)
    requires n <= |f.enums| && Extends(o, p) && ValuesDone(o, f, enums, start, n)
    ensures ValuesDone(p, f, enums + more, start, n)
  {
    forall j | 0 <= j < n ensures EnumDone(p, f, enums + more, start, j) {
      assert EnumDone(o, f, enums, start, j);
    }
  }

  lemma EnumsDoneLonger(
      o: map<Text, nat>, p: map<Text, nat>, fields: seq<FieldDef>, enums: seq<EnumRec>, more: seq<EnumRec>, n: nat)
    requires n <= |fields| && Extends(o, p) && EnumsDone(o, fields, enums, n)
    ensures forall k :: 0 <= k < n ==> ValuesDone(p, fields[k], enums + more, EnumStart(fields, k), |fields[k].enums|)
  {
    hide EnumStart, ValuesDone;
    forall k | 0 <= k < n ensures ValuesDone(p, fields[k], enums + more, EnumStart(fields, k), |fields[k].enums|) {
      ValuesDoneLonger(o, p, fields[k], enums, more, EnumStart(fields, k), |fields[k].enums|);
    }
  }

  lemma ExtendsTwice(a: map<Text, nat>, b: map<Text, nat>, c: map<Text, nat>)
    requires Extends(a, b) && Extends(b, c)
    ensures Extends(a, c)
  { }

  method InternValues(table: StringTableBuilder, f: FieldDef) returns (recs: seq<EnumRec>)
    requires table.Valid()
    modifies table
    ensures table.Valid() && Extends(old(table.offsets), table.offsets)
    ensures |recs| == |f.enums| && ValuesDone(table.offsets, f, recs, 0, |f.enums|)
  {
    recs := [];
    var j := 0;
    hide TableOk;
    while j < |f.enums|
      invariant j <= |f.enums| && table.Valid() && Extends(old(table.offsets), table.offsets)
      invariant |recs| == j && ValuesDone(table.offsets, f, recs, 0, j)
    {
      ghost var o := table.offsets;
      var value := table.Intern(f.enums[j].value);
      ghost var p := table.offsets;
      var name := table.Intern(f.enums[j].name);
      ExtendsTwice(o, p, table.offsets);
      ExtendsTwice(old(table.offsets), o, table.offsets);
      ghost var last := [EnumRec(f.tag, value, name)];
      ValuesDoneLonger(o, table.offsets, f, recs, last, 0, j);
      recs := recs + [EnumRec(f.tag, value, name)];
      j := j + 1;
    }
  }

  method BuildFields(table: StringTableBuilder, fields: seq<FieldDef>)
    returns (recs: seq<FieldRec>, enums: seq<EnumRec>)
    requires table.Valid()
    modifies table
    ensures table.Valid() && Extends(old(table.offsets), table.offsets)
    ensures FieldsDone(table.offsets, fields, recs, |fields|) && EnumsDone(table.offsets, fields, enums, |fields|)
  {
    recs, enums := [], [];
    var i := 0;
    hide TableOk;
    while i < |fields|
      invariant i <= |fields| && table.Valid() && Extends(old(table.offsets), table.offsets)
      invariant FieldsDone(table.offsets, fields, recs, i) && EnumsDone(table.offsets, fields, enums, i)
    {
      recs, enums := BuildField(table, fields, i, recs, enums);
      i := i + 1;
    }
  }

  method BuildField(table: StringTableBuilder, fields: seq<FieldDef>, i: nat, recs: seq<FieldRec>, enums: seq<EnumRec>)
    returns (recs': seq<FieldRec>, enums': seq<EnumRec>)
    requires i < |fields| && table.Valid()
    requires FieldsDone(table.offsets, fields, recs, i) && EnumsDone(table.offsets, fields, enums, i)
    modifies table
    ensures table.Valid() && Extends(old(table.offsets), table.offsets)
    ensures FieldsDone(table.offsets, fields, recs', i + 1) && EnumsDone(table.offsets, fields, enums', i + 1)
  {
    hide TableOk, ValuesDone;
    var f := fields[i];
    var enumOffset := |enums| % 0x1_0000_0000;
    var enumCount := |f.enums| % 0x1_0000;
    var name := table.Intern(f.name);
    var rec := FieldRec(f.tag, name, f.valueType, f.flags, enumOffset, enumCount);
    recs' := recs + [rec];
    ghost var o := table.offsets;
    var values := InternValues(table, f);
    enums' := enums + values;
    ExtendsTwice(old(table.offsets), o, table.offsets);
    FieldsDoneLonger(old(table.offsets), table.offsets, fields, recs, i);
    EnumsDoneLonger(old(table.offsets), table.offsets, fields, enums, values, i);
    ValuesShifted(table.offsets, f, enums, values);
  }

  lemma ValuesShifted(o: map<Text, nat>, f: FieldDef, enums: seq<EnumRec>, values: seq<EnumRec>)
    requires |values| == |f.enums| && ValuesDone(o, f, values, 0, |f.enums|)
    ensures ValuesDone(o, f, enums + values, |enums|, |f.enums|)
  {
    forall j | 0 <= j < |f.enums| ensures EnumDone(o, f, enums + values, |enums|, j) {
      assert EnumDone(o, f, values, 0, j);
    }
  }

  // ---- rule lists laid end to end

  function RuleStart(lists: seq<seq<Rule>>, i: nat): nat
    requires i <= |lists|
  {
    if i == 0 then 0 else RuleStart(lists, i - 1) + |lists[i - 1]|
  }

  ghost predicate SegmentIs(rules: seq<Rule>, start: nat, part: seq<Rule>) {
    start + |part| <= |rules| && rules[start..start + |part|] == part
  }

  ghost predicate RulesDone(lists: seq<seq<Rule>>, rules: seq<Rule>, n: nat)
    requires n <= |lists|
  {
    |rules| == RuleStart(lists, n) && forall k :: 0 <= k < n ==> SegmentIs(rules, RuleStart(lists, k), lists[k])
  }

  lemma SegmentLonger(rules: seq<Rule>, more: seq<Rule>, start: nat, part: seq<Rule>)
    requires SegmentIs(rules, start, part)
    ensures SegmentIs(rules + more, start, part)
  {
    assert (rules + more)[start..start + |part|] == rules[start..start + |part|];
  }

  lemma RulesGrow(lists: seq<seq<Rule>>, rules: seq<Rule>, n: nat)
    requires n < |lists| && RulesDone(lists, rules, n)
    ensures RulesDone(lists, rules + lists[n], n + 1)
  {
    hide SegmentIs;
    forall k | 0 <= k < n + 1 ensures SegmentIs(rules + lists[n], RuleStart(lists, k), lists[k]) {
      if k < n {
        SegmentLonger(rules, lists[n], RuleStart(lists, k), lists[k]);
      } else {
        SegmentAtEnd(rules, lists[n]);
      }
    }
  }

  lemma SegmentAtEnd(rules: seq<Rule>, part: seq<Rule>)
    ensures SegmentIs(rules + part, |rules|, part)
  {
    assert (rules + part)[|rules|..|rules| + |part|] == part;
  }

  method AppendRules(rules: seq<Rule>, more: seq<Rule>) returns (out: seq<Rule>)
    ensures out == rules + more
  {
    out := rules;
    var i := 0;
    while i < |more|
      invariant i <= |more| && out == rules + more[..i]
    {
      out := out + [Rule(more[i].tag, more[i].flags)];
      i := i + 1;
    }
  }

  // ---- messages

  function MessageRules(ms: seq<MessageDef>): seq<seq<Rule>> {
    Each((m: MessageDef) => m.rules, ms)
  }

  ghost predicate MessageDone(o: map<Text, nat>, ms: seq<MessageDef>, k: nat, r: MessageRec)
    requires k < |ms|
  {
    var m := ms[k];
    m.msgType in o && m.name in o
    && r == MessageRec(o[m.msgType], o[m.name], RuleStart(MessageRules(ms), k) % WORD, |m.rules| % WORD, m.flags)
  }

  ghost predicate MessagesDone(o: map<Text, nat>, ms: seq<MessageDef>, recs: seq<MessageRec>, n: nat)
    requires n <= |ms|
  {
    |recs| == n && forall k :: 0 <= k < n ==> MessageDone(o, ms, k, recs[k])
  }

  lemma MessagesDoneLonger(o: map<Text, nat>, p: map<Text, nat>, ms: seq<MessageDef>, recs: seq<MessageRec>, n: nat)
    requires n <= |ms| && Extends(o, p) && MessagesDone(o, ms, recs, n)
    ensures MessagesDone(p, ms, recs, n)
  {
    hide RuleStart;
    forall k | 0 <= k < n ensures MessageDone(p, ms, k, recs[k]) {
      assert MessageDone(o, ms, k, recs[k]);
    }
  }

  lemma MessagesGrow(
      o: map<Text, nat>, p: map<Text, nat>, ms: seq<MessageDef>, recs: seq<MessageRec>, n: nat, r: MessageRec)
    requires n < |ms| && Extends(o, p) && MessagesDone(o, ms, recs, n) && MessageDone(p, ms, n, r)
    ensures MessagesDone(p, ms, recs + [r], n + 1)
  {
    MessagesDoneLonger(o, p, ms, recs, n);
    hide MessageDone;
  }

  method BuildMessage(table: StringTableBuilder, m: MessageDef, first: nat) returns (r: MessageRec)
    requires table.Valid()
    modifies table
    ensures table.Valid() && Extends(old(table.offsets), table.offsets)
    ensures m.msgType in table.offsets && m.name in table.offsets
    ensures r == MessageRec(table.offsets[m.msgType], table.offsets[m.name], first % WORD, |m.rules| % WORD, m.flags)
  {
    hide TableOk;
    var msgType := table.Intern(m.msgType);
    ghost var p := table.offsets;
    var name := table.Intern(m.name);
    ExtendsTwice(old(table.offsets), p, table.offsets);
    r := MessageRec(msgType, name, first % 0x1_0000_0000, |m.rules| % 0x1_0000_0000, m.flags);
  }

  lemma RulesLength(lists: seq<seq<Rule>>, rules: seq<Rule>, n: nat)
    requires n <= |lists| && RulesDone(lists, rules, n)
    ensures |rules| == RuleStart(lists, n)
  { }

  method BuildMessages(table: StringTableBuilder, ms: seq<MessageDef>) returns (recs: seq<MessageRec>, rules: seq<Rule>)
    requires table.Valid()
    modifies table
    ensures table.Valid() && Extends(old(table.offsets), table.offsets)
    ensures MessagesDone(table.offsets, ms, recs, |ms|) && RulesDone(MessageRules(ms), rules, |ms|)
  {
    recs, rules := [], [];
    var i := 0;
    ghost var lists := MessageRules(ms);
    assert RulesDone(lists, rules, 0);
    hide TableOk, RulesDone, RuleStart;
    while i < |ms|
      invariant i <= |ms| && table.Valid() && Extends(old(table.offsets), table.offsets)
      invariant MessagesDone(table.offsets, ms, recs, i) && RulesDone(lists, rules, i)
    {
      var m := ms[i];
      var first := |rules|;
      RulesLength(lists, rules, i);
      RulesGrow(lists, rules, i);
      rules := AppendRules(rules, m.rules);
      ghost var o := table.offsets;
      var r := BuildMessage(table, m, first);
      ExtendsTwice(old(table.offsets), o, table.offsets);
      MessagesGrow(o, table.offsets, ms, recs, i, r);
      recs := recs + [r];
      i := i + 1;
    }
  }

  // ---- groups

  /** Sets the flag bit with value 2. */
  function WithOverflow(flags: nat, overflow: bool): nat {
    if overflow && flags / 2 % 2 == 0 then flags + 2 else flags
  }

  function GroupRules(gs: seq<GroupDef>): seq<seq<Rule>> {
    Each((g: GroupDef) => g.rules, gs)
  }

  ghost predicate GroupDone(o: map<Text, nat>, gs: seq<GroupDef>, k: nat, r: GroupRec)
    requires k < |gs|
  {
    var g := gs[k];
    g.name in o
    && r == GroupRec(g.countTag, g.delimiter, o[g.name], RuleStart(GroupRules(gs), k) % WORD, |g.rules| % WORD,
                     WithOverflow(g.flags, Overflows(g.rules, |g.rules|)), Mask(g.rules, |g.rules|))
  }

  ghost predicate GroupsDone(o: map<Text, nat>, gs: seq<GroupDef>, recs: seq<GroupRec>, n: nat)
    requires n <= |gs|
  {
    |recs| == n && forall k :: 0 <= k < n ==> GroupDone(o, gs, k, recs[k])
  }

  lemma GroupsGrow(
      o: map<Text, nat>, p: map<Text, nat>, gs: seq<GroupDef>, recs: seq<GroupRec>, n: nat, r: GroupRec)
    requires n < |gs| && Extends(o, p) && GroupsDone(o, gs, recs, n) && GroupDone(p, gs, n, r)
    ensures GroupsDone(p, gs, recs + [r], n + 1)
  {
    GroupsDoneLonger(o, p, gs, recs, n);
    hide GroupDone;
  }

  method BuildGroup(table: StringTableBuilder, g: GroupDef, first: nat) returns (r: GroupRec)
    requires table.Valid()
    modifies table
    ensures table.Valid() && Extends(old(table.offsets), table.offsets) && g.name in table.offsets
    ensures r == GroupRec(g.countTag, g.delimiter, table.offsets[g.name], first % WORD, |g.rules| % WORD,
                          WithOverflow(g.flags, Overflows(g.rules, |g.rules|)), Mask(g.rules, |g.rules|))
  {
    hide TableOk, Mask, Overflows, WithOverflow;
    var bitmap, overflow := ComputeRequiredFieldBitmap(g.rules);
    var name := table.Intern(g.name);
    r := GroupRec(g.countTag, g.delimiter, name, first % 0x1_0000_0000, |g.rules| % 0x1_0000_0000,
                  WithOverflow(g.flags, overflow), bitmap);
  }

  method BuildGroups(table: StringTableBuilder, gs: seq<GroupDef>) returns (recs: seq<GroupRec>, rules: seq<Rule>)
    requires table.Valid()
    modifies table
    ensures table.Valid() && Extends(old(table.offsets), table.offsets)
    ensures GroupsDone(table.offsets, gs, recs, |gs|) && RulesDone(GroupRules(gs), rules, |gs|)
  {
    recs, rules := [], [];
    var i := 0;
    ghost var lists := GroupRules(gs);
    assert RulesDone(lists, rules, 0);
    hide TableOk, RulesDone, RuleStart, Mask, Overflows, WithOverflow;
    while i < |gs|
      invariant i <= |gs| && table.Valid() && Extends(old(table.offsets), table.offsets)
      invariant GroupsDone(table.offsets, gs, recs, i) && RulesDone(lists, rules, i)
    {
      var g := gs[i];
      var first := |rules|;
      RulesLength(lists, rules, i);
      RulesGrow(lists, rules, i);
      rules := AppendRules(rules, g.rules);
      ghost var o := table.offsets;
      var r := BuildGroup(table, g, first);
      ExtendsTwice(old(table.offsets), o, table.offsets);
      GroupsGrow(o, table.offsets, gs, recs, i, r);
      recs := recs + [r];
      i := i + 1;
    }
  }

  lemma GroupsDoneLonger(o: map<Text, nat>, p: map<Text, nat>, gs: seq<GroupDef>, recs: seq<GroupRec>, n: nat)
    requires n <= |gs| && Extends(o, p) && GroupsDone(o, gs, recs, n)
    ensures GroupsDone(p, gs, recs, n)
  {
    hide RuleStart, Mask, Overflows, WithOverflow;
    forall k | 0 <= k < n ensures GroupDone(p, gs, k, recs[k]) {
      assert GroupDone(o, gs, k, recs[k]);
    }
  }

  // ---- the artifact

  /** Rows of the sections that are written but that no view reads. */
  datatype Unread = Unread(admin: seq<Row>, validation: seq<Row>, lookup: seq<Row>, templates: seq<Row>)

  /** The tables hold the dictionary, with its strings at the offsets o. */
  ghost predicate Describes(t: Tables, o: map<Text, nat>, d: Dictionary) {
    && TableOk(t.strings, o)
    && FieldsDone(o, d.fields, t.fields, |d.fields|) && EnumsDone(o, d.fields, t.enums, |d.fields|)
    && MessagesDone(o, d.messages, t.messages, |d.messages|)
    && RulesDone(MessageRules(d.messages), t.messageRules, |d.messages|)
    && GroupsDone(o, d.groups, t.groups, |d.groups|) && RulesDone(GroupRules(d.groups), t.groupRules, |d.groups|)
    && t.headerRules == d.headerFields && t.trailerRules == d.trailerFields
  }

  method BuildTables(d: Dictionary, u: Unread) returns (t: Tables, ghost o: map<Text, nat>)
    ensures Describes(t, o, d)
    ensures t.admin == u.admin && t.validation == u.validation && t.lookup == u.lookup && t.templates == u.templates
  {
    hide TableOk, FieldsDone, EnumsDone, MessagesDone, GroupsDone, RulesDone;
    var table := new StringTableBuilder();
    var fields, enums := BuildFields(table, d.fields);
    ghost var o1 := table.offsets;
    var messages, messageRules := BuildMessages(table, d.messages);
    ghost var o2 := table.offsets;
    var groups, groupRules := BuildGroups(table, d.groups);
    o := table.offsets;
    ExtendsTwice(o1, o2, o);
    FieldsDoneLonger(o1, o, d.fields, fields, |d.fields|);
    EnumsStay(o1, o, d.fields, enums, |d.fields|);
    MessagesDoneLonger(o2, o, d.messages, messages, |d.messages|);
    var header := AppendRules([], d.headerFields);
    var trailer := AppendRules([], d.trailerFields);
    t := Tables(table.bytes, fields, messages, groups, messageRules, groupRules, header, trailer, enums,
                u.admin, u.validation, u.lookup, u.templates);
  }

  lemma EnumsStay(o: map<Text, nat>, p: map<Text, nat>, fields: seq<FieldDef>, enums: seq<EnumRec>, n: nat)
    requires n <= |fields| && Extends(o, p) && EnumsDone(o, fields, enums, n)
    ensures EnumsDone(p, fields, enums, n)
  {
    hide ValuesDone, EnumStart;
    EnumsDoneLonger(o, p, fields, enums, [], n);
    assert enums + [] == enums;
  }

  ghost predicate DistinctTags(fields: seq<FieldDef>, n: nat)
    requires n <= |fields|
  {
    forall i, j :: 0 <= i < j < n ==> fields[i].tag != fields[j].tag
  }

  ghost predicate DistinctTypes(ms: seq<MessageDef>, n: nat)
    requires n <= |ms|
  {
    forall i, j :: 0 <= i < j < n ==> ms[i].msgType != ms[j].msgType
  }

  ghost predicate DistinctCounts(gs: seq<GroupDef>, n: nat)
    requires n <= |gs|
  {
    forall i, j :: 0 <= i < j < n ==> gs[i].countTag != gs[j].countTag
  }

  /** No two fields, messages or groups share their key. */
  ghost predicate DuplicateFree(d: Dictionary) {
    && DistinctTags(d.fields, |d.fields|) && DistinctTypes(d.messages, |d.messages|)
    && DistinctCounts(d.groups, |d.groups|)
  }

  method ValidateDictionary(d: Dictionary) returns (ok: bool)
    ensures ok <==> DuplicateFree(d)
  {
    var tags: set<nat> := {};
    var i := 0;
    while i < |d.fields|
      invariant i <= |d.fields| && DistinctTags(d.fields, i)
      invariant forall t :: t in tags <==> exists k :: 0 <= k < i && d.fields[k].tag == t
    {
      if d.fields[i].tag in tags { return false; }
      tags := tags + {d.fields[i].tag};
      i := i + 1;
    }
    var types: set<Text> := {};
    i := 0;
    while i < |d.messages|
      invariant i <= |d.messages| && DistinctTypes(d.messages, i)
      invariant forall t :: t in types <==> exists k :: 0 <= k < i && d.messages[k].msgType == t
    {
      if d.messages[i].msgType in types { return false; }
      types := types + {d.messages[i].msgType};
      i := i + 1;
    }
    var counts: set<nat> := {};
    i := 0;
    while i < |d.groups|
      invariant i <= |d.groups| && DistinctCounts(d.groups, i)
      invariant forall t :: t in counts <==> exists k :: 0 <= k < i && d.groups[k].countTag == t
    {
      if d.groups[i].countTag in counts { return false; }
      counts := counts + {d.groups[i].countTag};
      i := i + 1;
    }
    return true;
  }

  /** None for a dictionary with duplicates, else the artifact of tables that describe it. */
  method BuildProfileArtifact(d: Dictionary, u: Unread)
    returns (bytes: Option<array<Byte>>, ghost t: Tables, ghost o: map<Text, nat>)
    ensures bytes.Some? <==> DuplicateFree(d)
    ensures bytes.Some? ==>
      && Describes(t, o, d) && Unread(t.admin, t.validation, t.lookup, t.templates) == u
      && fresh(bytes.value) && bytes.value[..] == Assemble(d.schemaHash, d.profileId, Pendings(t))
  {
    hide Describes, Pendings, Assemble, DuplicateFree;
    var ok := ValidateDictionary(d);
    if !ok {
      return None, Tables([], [], [], [], [], [], [], [], [], [], [], [], []), map[];
    }
    var tables, offsets := BuildTables(d, u);
    var written := WriteArtifact(d.schemaHash, d.profileId, Pendings(tables));
    return Some(written), tables, offsets;
  }
}
