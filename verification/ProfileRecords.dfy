/** The records of a profile artifact and the sections that hold them. */
module ProfileRecords {
  import opened Optional
  import opened Bytes
  import opened PackedRows
  import opened ArtifactFile
  import opened OverlayMerge

  type Row = seq<nat>

  datatype FieldRec = FieldRec(tag: nat, name: nat, valueType: nat, flags: nat, enumOffset: nat, enumCount: nat)
  datatype MessageRec = MessageRec(msgType: nat, name: nat, firstRule: nat, ruleCount: nat, flags: nat)
  datatype GroupRec = GroupRec(
    countTag: nat, delimiter: nat, name: nat, firstRule: nat, ruleCount: nat, flags: nat, bitmap: nat)
  datatype EnumRec = EnumRec(tag: nat, value: nat, name: nat)

  /** Everything an artifact holds; names are offsets into the string table. */
  datatype Tables = Tables(
    strings: Text, fields: seq<FieldRec>, messages: seq<MessageRec>, groups: seq<GroupRec>,
    messageRules: seq<Rule>, groupRules: seq<Rule>, headerRules: seq<Rule>, trailerRules: seq<Rule>,
    enums: seq<EnumRec>, admin: seq<Row>, validation: seq<Row>, lookup: seq<Row>, templates: seq<Row>)

  const BYTE_WIDTHS: seq<nat> := [1]
  const FIELD_WIDTHS: seq<nat> := [4, 4, 4, 4] + ([4] + [2, 2])
  const MESSAGE_WIDTHS: seq<nat> := [4, 4, 4, 4] + [4, 4]
  const GROUP_WIDTHS: seq<nat> := [4, 4, 4, 4] + ([4, 4] + [8])
  const RULE_WIDTHS: seq<nat> := [4, 4]
  const TRIPLE_WIDTHS: seq<nat> := [4] + [4, 4]
  const LOOKUP_WIDTHS: seq<nat> := [4]
  const TEMPLATE_WIDTHS: seq<nat> := [4, 4, 4, 4]

  // ---- records as rows

  function FieldRow(r: FieldRec): Row { [r.tag, r.name, r.valueType, r.flags, r.enumOffset, r.enumCount, 0] }

  function MessageRow(r: MessageRec): Row { [r.msgType, r.name, r.firstRule, r.ruleCount, r.flags, 0] }

  function GroupRow(r: GroupRec): Row {
    [r.countTag, r.delimiter, r.name, r.firstRule, r.ruleCount, r.flags, r.bitmap]
  }

  function RuleRow(r: Rule): Row { [r.tag, r.flags] }

  function EnumRow(r: EnumRec): Row { [r.tag, r.value, r.name] }

  function FieldOf(row: Row): FieldRec {
    if |row| != 7 then FieldRec(0, 0, 0, 0, 0, 0) else FieldRec(row[0], row[1], row[2], row[3], row[4], row[5])
  }

  function MessageOf(row: Row): MessageRec {
    if |row| != 6 then MessageRec(0, 0, 0, 0, 0) else MessageRec(row[0], row[1], row[2], row[3], row[4])
  }

  function GroupOf(row: Row): GroupRec {
    if |row| != 7 then GroupRec(0, 0, 0, 0, 0, 0, 0)
    else GroupRec(row[0], row[1], row[2], row[3], row[4], row[5], row[6])
  }

  function RuleOf(row: Row): Rule {
    if |row| != 2 then Rule(0, 0) else Rule(row[0], row[1])
  }

  function EnumOf(row: Row): EnumRec {
    if |row| != 3 then EnumRec(0, 0, 0) else EnumRec(row[0], row[1], row[2])
  }

  function Each<A, B>(f: A -> B, xs: seq<A>): (ys: seq<B>)
    ensures |ys| == |xs| && forall i :: 0 <= i < |xs| ==> ys[i] == f(xs[i])
  {
    seq(|xs|, i requires 0 <= i < |xs| => f(xs[i]))
  }

  lemma EachBack<A, B>(f: A -> B, g: B -> A, xs: seq<A>)
    requires forall i :: 0 <= i < |xs| ==> g(f(xs[i])) == xs[i]
    ensures Each(g, Each(f, xs)) == xs
  { }

  function ByteRow(b: Byte): Row { [b] }

  // ---- sections

  const STRING_TABLE: nat := 1
  const FIELD_DEFS: nat := 2
  const MESSAGE_DEFS: nat := 3
  const GROUP_DEFS: nat := 4
  const ADMIN_RULES: nat := 5
  const VALIDATION_RULES: nat := 6
  const LOOKUP_TABLES: nat := 7
  const TEMPLATE_DESCRIPTORS: nat := 8
  const MESSAGE_FIELD_RULES: nat := 9
  const GROUP_FIELD_RULES: nat := 10
  const HEADER_FIELD_RULES: nat := 11
  const TRAILER_FIELD_RULES: nat := 12
  const ENUM_VALUES: nat := 13

  function Pendings(t: Tables): (ps: seq<Pending>)
    ensures |ps| == 13
  {
    [Pending(STRING_TABLE, BYTE_WIDTHS, Each(ByteRow, t.strings)),
     Pending(FIELD_DEFS, FIELD_WIDTHS, Each(FieldRow, t.fields)),
     Pending(MESSAGE_DEFS, MESSAGE_WIDTHS, Each(MessageRow, t.messages)),
     Pending(GROUP_DEFS, GROUP_WIDTHS, Each(GroupRow, t.groups)),
     Pending(MESSAGE_FIELD_RULES, RULE_WIDTHS, Each(RuleRow, t.messageRules)),
     Pending(GROUP_FIELD_RULES, RULE_WIDTHS, Each(RuleRow, t.groupRules)),
     Pending(ADMIN_RULES, RULE_WIDTHS, t.admin),
     Pending(VALIDATION_RULES, TRIPLE_WIDTHS, t.validation),
     Pending(LOOKUP_TABLES, LOOKUP_WIDTHS, t.lookup),
     Pending(TEMPLATE_DESCRIPTORS, TEMPLATE_WIDTHS, t.templates),
     Pending(HEADER_FIELD_RULES, RULE_WIDTHS, Each(RuleRow, t.headerRules)),
     Pending(TRAILER_FIELD_RULES, RULE_WIDTHS, Each(RuleRow, t.trailerRules)),
     Pending(ENUM_VALUES, TRIPLE_WIDTHS, Each(EnumRow, t.enums))]
  }

  /** The bytes of a section, whatever its entries are. */
  function RawSection(data: Text, ss: seq<Section>, kind: nat): Option<Text> {
    var s := FindSection(ss, kind);
    if s.None? || s.value.offset + s.value.size > |data| then None
    else Some(data[s.value.offset..s.value.offset + s.value.size])
  }

  /** A missing or foreign section reads as no rows. */
  function OptionalRows(data: Text, ss: seq<Section>, kind: nat, widths: seq<nat>): seq<Row> {
    var rows := FixedSection(data, ss, kind, widths);
    if rows.Some? then rows.value else []
  }

  /** Definitions without the section of their rules. */
  predicate LacksRules(data: Text, ss: seq<Section>, defs: nat, widths: seq<nat>, rules: nat) {
    OptionalRows(data, ss, defs, widths) != [] && FixedSection(data, ss, rules, RULE_WIDTHS).None?
  }

  /**
   * The tables a view reads from an accepted artifact: strings and fields must be there, and rules if there are
   * messages or groups.
   */
  function ReadTables(data: Text, ss: seq<Section>): Option<Tables> {
    var strings := RawSection(data, ss, STRING_TABLE);
    var fields := FixedSection(data, ss, FIELD_DEFS, FIELD_WIDTHS);
    if strings.None? || fields.None? then None
    else if LacksRules(data, ss, MESSAGE_DEFS, MESSAGE_WIDTHS, MESSAGE_FIELD_RULES) then None
    else if LacksRules(data, ss, GROUP_DEFS, GROUP_WIDTHS, GROUP_FIELD_RULES) then None
    else
      Some(Tables(
        strings.value, Each(FieldOf, fields.value),
        Each(MessageOf, OptionalRows(data, ss, MESSAGE_DEFS, MESSAGE_WIDTHS)),
        Each(GroupOf, OptionalRows(data, ss, GROUP_DEFS, GROUP_WIDTHS)),
        Each(RuleOf, OptionalRows(data, ss, MESSAGE_FIELD_RULES, RULE_WIDTHS)),
        Each(RuleOf, OptionalRows(data, ss, GROUP_FIELD_RULES, RULE_WIDTHS)),
        Each(RuleOf, OptionalRows(data, ss, HEADER_FIELD_RULES, RULE_WIDTHS)),
        Each(RuleOf, OptionalRows(data, ss, TRAILER_FIELD_RULES, RULE_WIDTHS)),
        Each(EnumOf, OptionalRows(data, ss, ENUM_VALUES, TRIPLE_WIDTHS)),
        OptionalRows(data, ss, ADMIN_RULES, RULE_WIDTHS),
        OptionalRows(data, ss, VALIDATION_RULES, TRIPLE_WIDTHS),
        OptionalRows(data, ss, LOOKUP_TABLES, LOOKUP_WIDTHS),
        OptionalRows(data, ss, TEMPLATE_DESCRIPTORS, TEMPLATE_WIDTHS)))
  }

  // ---- what fits the records

  const WORD: nat := 0x1_0000_0000

  predicate FieldFits(r: FieldRec) {
    r.tag < WORD && r.name < WORD && r.valueType < WORD && r.flags < WORD && r.enumOffset < WORD
        && r.enumCount < 0x1_0000
  }

  predicate MessageFits(r: MessageRec) {
    r.msgType < WORD && r.name < WORD && r.firstRule < WORD && r.ruleCount < WORD && r.flags < WORD
  }

  predicate GroupFits(r: GroupRec) {
    && r.countTag < WORD && r.delimiter < WORD && r.name < WORD && r.firstRule < WORD && r.ruleCount < WORD
    && r.flags < WORD && r.bitmap < TWO_TO_64
  }

  predicate RuleFits(r: Rule) {
    r.tag < WORD && r.flags < WORD
  }

  predicate EnumFits(r: EnumRec) {
    r.tag < WORD && r.value < WORD && r.name < WORD
  }

  predicate All<A>(ok: A -> bool, xs: seq<A>) {
    forall i :: 0 <= i < |xs| ==> ok(xs[i])
  }

  predicate TablesFit(t: Tables) {
    && All(FieldFits, t.fields) && All(MessageFits, t.messages) && All(GroupFits, t.groups)
    && All(RuleFits, t.messageRules) && All(RuleFits, t.groupRules) && All(RuleFits, t.headerRules)
    && All(RuleFits, t.trailerRules) && All(EnumFits, t.enums)
    && AllFit(RULE_WIDTHS, t.admin) && AllFit(TRIPLE_WIDTHS, t.validation) && AllFit(LOOKUP_WIDTHS, t.lookup)
    && AllFit(TEMPLATE_WIDTHS, t.templates)
  }

  lemma FieldRowFits(r: FieldRec)
    requires FieldFits(r)
    ensures Fits(FIELD_WIDTHS, FieldRow(r))
  {
    Powers();
    hide Power;
  }

  lemma MessageRowFits(r: MessageRec)
    requires MessageFits(r)
    ensures Fits(MESSAGE_WIDTHS, MessageRow(r))
  {
    Powers();
    hide Power;
  }

  lemma GroupRowFits(r: GroupRec)
    requires GroupFits(r)
    ensures Fits(GROUP_WIDTHS, GroupRow(r))
  {
    Powers();
    hide Power;
  }

  lemma RuleRowFits(r: Rule)
    requires RuleFits(r)
    ensures Fits(RULE_WIDTHS, RuleRow(r))
  {
    Powers();
    hide Power;
  }

  lemma EnumRowFits(r: EnumRec)
    requires EnumFits(r)
    ensures Fits(TRIPLE_WIDTHS, EnumRow(r))
  {
    Powers();
    hide Power;
  }

  lemma ByteRowFits(b: Byte)
    ensures Fits(BYTE_WIDTHS, ByteRow(b))
  {
    Powers();
    hide Power;
  }

  lemma RowsFit<A(!new)>(f: A -> Row, widths: seq<nat>, xs: seq<A>)
    requires forall i :: 0 <= i < |xs| ==> Fits(widths, f(xs[i]))
    ensures AllFit(widths, Each(f, xs))
  {
    hide Fits;
    var ys := Each(f, xs);
    forall r | r in ys ensures Fits(widths, r) {
      var i :| 0 <= i < |ys| && ys[i] == r;
    }
  }

  lemma Sizes()
    ensures RowSize(BYTE_WIDTHS) == 1 && RowSize(FIELD_WIDTHS) == 24 && RowSize(MESSAGE_WIDTHS) == 24
    ensures RowSize(GROUP_WIDTHS) == 32 && RowSize(RULE_WIDTHS) == 8 && RowSize(TRIPLE_WIDTHS) == 12
    ensures RowSize(LOOKUP_WIDTHS) == 4 && RowSize(TEMPLATE_WIDTHS) == 16
  {
    RowSizeFour(4, 4, 4, 4);
    RowSizeFour(4, 4, 2, 2);
    RowSizeFour(4, 4, 4, 8);
    RowSizeFour(4, 4, 4, 1);
    hide RowSize;
    RowSizeConcat([4], [2, 2]);
    RowSizeConcat([4, 4, 4, 4], [4] + [2, 2]);
    RowSizeConcat([4, 4, 4, 4], [4, 4]);
    RowSizeConcat([4, 4], [8]);
    RowSizeConcat([4, 4, 4, 4], [4, 4] + [8]);
    RowSizeConcat([4], [4, 4]);
  }

  /** Where a kind stands in the order of writing. */
  function Place(kind: nat): nat {
    if kind <= 4 then kind - (if kind == 0 then 0 else 1)
    else if kind <= 8 then kind + 1
    else if kind <= 10 then kind - 5
    else kind - 1
  }

  lemma Placed(t: Tables, i: nat)
    requires i < 13
    ensures Place(Pendings(t)[i].kind) == i && Pendings(t)[i].kind < WORD
  {
    hide Each;
  }
}
