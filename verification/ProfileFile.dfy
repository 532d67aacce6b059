/** Profile tables survive being written to an artifact and read back. */
module ProfileFile {
  import opened Optional
  import opened Bytes
  import opened PackedRows
  import opened ArtifactFile
  import opened ArtifactRoundTrip
  import opened OverlayMerge
  import opened ProfileRecords

  lemma StringsFit(s: Text)
    ensures AllFit(BYTE_WIDTHS, Each(ByteRow, s))
  {
    forall i | 0 <= i < |s| ensures Fits(BYTE_WIDTHS, ByteRow(s[i])) { ByteRowFits(s[i]); }
    hide Fits, ByteRow;
    RowsFit(ByteRow, BYTE_WIDTHS, s);
  }

  lemma FieldsFit(xs: seq<FieldRec>)
    requires All(FieldFits, xs)
    ensures AllFit(FIELD_WIDTHS, Each(FieldRow, xs))
  {
    forall i | 0 <= i < |xs| ensures Fits(FIELD_WIDTHS, FieldRow(xs[i])) { FieldRowFits(xs[i]); }
    hide Fits, FieldRow;
    RowsFit(FieldRow, FIELD_WIDTHS, xs);
  }

  lemma MessagesFit(xs: seq<MessageRec>)
    requires All(MessageFits, xs)
    ensures AllFit(MESSAGE_WIDTHS, Each(MessageRow, xs))
  {
    forall i | 0 <= i < |xs| ensures Fits(MESSAGE_WIDTHS, MessageRow(xs[i])) { MessageRowFits(xs[i]); }
    hide Fits, MessageRow;
    RowsFit(MessageRow, MESSAGE_WIDTHS, xs);
  }

  lemma GroupsFit(xs: seq<GroupRec>)
    requires All(GroupFits, xs)
    ensures AllFit(GROUP_WIDTHS, Each(GroupRow, xs))
  {
    forall i | 0 <= i < |xs| ensures Fits(GROUP_WIDTHS, GroupRow(xs[i])) { GroupRowFits(xs[i]); }
    hide Fits, GroupRow;
    RowsFit(GroupRow, GROUP_WIDTHS, xs);
  }

  lemma RulesFit(xs: seq<Rule>)
    requires All(RuleFits, xs)
    ensures AllFit(RULE_WIDTHS, Each(RuleRow, xs))
  {
    forall i | 0 <= i < |xs| ensures Fits(RULE_WIDTHS, RuleRow(xs[i])) { RuleRowFits(xs[i]); }
    hide Fits, RuleRow;
    RowsFit(RuleRow, RULE_WIDTHS, xs);
  }

  lemma EnumsFit(xs: seq<EnumRec>)
    requires All(EnumFits, xs)
    ensures AllFit(TRIPLE_WIDTHS, Each(EnumRow, xs))
  {
    forall i | 0 <= i < |xs| ensures Fits(TRIPLE_WIDTHS, EnumRow(xs[i])) { EnumRowFits(xs[i]); }
    hide Fits, EnumRow;
    RowsFit(EnumRow, TRIPLE_WIDTHS, xs);
  }

  lemma TablesSound(t: Tables)
    requires TablesFit(t)
    ensures AllSound(Pendings(t)) && DistinctKinds(Pendings(t))
  {
    var ps := Pendings(t);
    hide All, AllFit, Each, RowSize, Place;
    Sizes();
    StringsFit(t.strings);
    FieldsFit(t.fields);
    MessagesFit(t.messages);
    GroupsFit(t.groups);
    RulesFit(t.messageRules);
    RulesFit(t.groupRules);
    RulesFit(t.headerRules);
    RulesFit(t.trailerRules);
    EnumsFit(t.enums);
    assert AllSound(ps);
    hide Pendings, Sound;
    forall i, j | 0 <= i < j < |ps| ensures ps[i].kind != ps[j].kind {
      Placed(t, i);
      Placed(t, j);
    }
  }

  // ---- reading back

  lemma ByteRowBytes(b: Byte)
    ensures RowBytes(BYTE_WIDTHS, ByteRow(b)) == [b]
  {
    assert BYTE_WIDTHS[1..] == [] && ByteRow(b)[1..] == [];
    assert RowBytes([], []) == [];
    assert Little(0, b / 256) == [];
    assert Little(1, b) == [b % 256] + [] == [b];
    assert [b] + [] == [b];
  }

  lemma ByteRowsStep(b: Byte, rest: Text)
    ensures Each(ByteRow, [b] + rest) == [ByteRow(b)] + Each(ByteRow, rest)
  { }

  lemma ByteBodiesStep(b: Byte, rest: Text)
    requires RowsBytesOf(rest) == rest
    ensures RowsBytesOf([b] + rest) == [b] + rest
  {
    hide Each, RowBytes, ByteRow;
    ByteRowsStep(b, rest);
    StringsFit([b] + rest);
    FirstFits(BYTE_WIDTHS, ByteRow(b), Each(ByteRow, rest));
    ByteRowBytes(b);
  }

  function RowsBytesOf(s: Text): Text {
    RowsBytes(BYTE_WIDTHS, Each(ByteRow, s))
  }

  /** A string table's section is its bytes. */
  lemma {:induction false} ByteBodies(s: Text)
    ensures RowsBytesOf(s) == s
  {
    if s == [] {
      assert Each(ByteRow, s) == [];
    } else {
      var b, rest := s[0], s[1..];
      assert s == [b] + rest;
      ByteBodies(rest);
      ByteBodiesStep(b, rest);
    }
  }

  lemma RawReads(data: Text, ss: seq<Section>, s: Section, p: Pending)
    requires FindSection(ss, p.kind) == Some(s) && s == SectionFor(p, s.offset)
    requires Holds(data, s.offset, Body(p))
    ensures RawSection(data, ss, p.kind) == Some(Body(p))
  {
    hide Body, FindSection;
    assert data[s.offset..s.offset + s.size] == Body(p);
  }

  lemma FirstBody(t: Tables)
    requires TablesFit(t)
    ensures Body(Pendings(t)[0]) == t.strings
  {
    ByteBodies(t.strings);
    hide Each, RowsBytes;
  }

  lemma RawReadsBack(schemaHash: nat, profileId: nat, ps: seq<Pending>, i: nat)
    requires Writable(schemaHash, profileId, ps) && i < |ps|
    ensures var data := Assemble(schemaHash, profileId, ps);
            Accepts(data) && RawSection(data, Sections(data), ps[i].kind) == Some(Body(ps[i]))
  {
    hide Body, Sound, BodiesUpTo, Assemble, Holds, Accepts, Sections, FindSection, RawSection;
    var data := Assemble(schemaHash, profileId, ps);
    var start := TableEnd(ps);
    var ss := Layout(ps, start);
    AssembledIsAccepted(schemaHash, profileId, ps);
    KindFound(ps, ss, i);
    BodyInPlace(data, ps, start, i, |ps|);
    RawReads(data, ss, ss[i], ps[i]);
  }

  /** What the sections of an artifact must read as to give back the tables. */
  ghost predicate Reads(data: Text, ss: seq<Section>, ps: seq<Pending>) {
    forall i :: 0 <= i < |ps| ==> FixedSection(data, ss, ps[i].kind, ps[i].widths) == Some(ps[i].rows)
  }

  lemma AllReadBack(schemaHash: nat, profileId: nat, ps: seq<Pending>)
    requires Writable(schemaHash, profileId, ps)
    ensures var data := Assemble(schemaHash, profileId, ps); Accepts(data) && Reads(data, Sections(data), ps)
  {
    hide Assemble, Sections, FixedSection, AllSound, DistinctKinds, Bodies, Layout, Holds;
    hide HeaderAt, HeaderFor, HeaderOk, SectionOk, AllApart, Body;
    AssembledIsAccepted(schemaHash, profileId, ps);
    var data := Assemble(schemaHash, profileId, ps);
    var ss := Sections(data);
    forall i | 0 <= i < |ps| ensures FixedSection(data, ss, ps[i].kind, ps[i].widths) == Some(ps[i].rows) {
      AssembledReadsBack(schemaHash, profileId, ps, i);
    }
  }

  lemma FieldsBack(xs: seq<FieldRec>)
    ensures Each(FieldOf, Each(FieldRow, xs)) == xs
  {
    EachBack(FieldRow, FieldOf, xs);
  }

  lemma MessagesBack(xs: seq<MessageRec>)
    ensures Each(MessageOf, Each(MessageRow, xs)) == xs
  {
    EachBack(MessageRow, MessageOf, xs);
  }

  lemma GroupsBack(xs: seq<GroupRec>)
    ensures Each(GroupOf, Each(GroupRow, xs)) == xs
  {
    EachBack(GroupRow, GroupOf, xs);
  }

  lemma RulesBack(xs: seq<Rule>)
    ensures Each(RuleOf, Each(RuleRow, xs)) == xs
  {
    EachBack(RuleRow, RuleOf, xs);
  }

  lemma EnumsBack(xs: seq<EnumRec>)
    ensures Each(EnumOf, Each(EnumRow, xs)) == xs
  {
    EachBack(EnumRow, EnumOf, xs);
  }

  ghost predicate FileFits(schemaHash: nat, profileId: nat, t: Tables) {
    && TablesFit(t) && schemaHash < TWO_TO_64 && profileId < TWO_TO_64
    && TableEnd(Pendings(t)) + |Bodies(Pendings(t))| < TWO_TO_64
  }

  lemma TablesFrom(data: Text, ss: seq<Section>, t: Tables)
    requires RawSection(data, ss, STRING_TABLE) == Some(t.strings) && Reads(data, ss, Pendings(t))
    ensures ReadTables(data, ss) == Some(t)
  {
    hide FixedSection, RawSection, Each;
    FieldsBack(t.fields);
    MessagesBack(t.messages);
    GroupsBack(t.groups);
    RulesBack(t.messageRules);
    RulesBack(t.groupRules);
    RulesBack(t.headerRules);
    RulesBack(t.trailerRules);
    EnumsBack(t.enums);
    var ps := Pendings(t);
    assert ps[1].rows == Each(FieldRow, t.fields) && ps[2].rows == Each(MessageRow, t.messages);
    assert ps[3].rows == Each(GroupRow, t.groups) && ps[4].rows == Each(RuleRow, t.messageRules);
    assert ps[5].rows == Each(RuleRow, t.groupRules) && ps[6].rows == t.admin && ps[7].rows == t.validation;
    assert ps[8].rows == t.lookup && ps[9].rows == t.templates && ps[10].rows == Each(RuleRow, t.headerRules);
    assert ps[11].rows == Each(RuleRow, t.trailerRules) && ps[12].rows == Each(EnumRow, t.enums);
  }

  lemma FirstKind(t: Tables)
    ensures Pendings(t)[0].kind == STRING_TABLE
  {
    hide Each;
  }

  /** Written tables are accepted and read back unchanged. */
  lemma TablesReadBack(schemaHash: nat, profileId: nat, t: Tables)
    requires FileFits(schemaHash, profileId, t)
    ensures var data := Assemble(schemaHash, profileId, Pendings(t));
            Accepts(data) && HeaderAt(data) == HeaderFor(schemaHash, profileId, Pendings(t))
            && ReadTables(data, Sections(data)) == Some(t)
  {
    TablesSound(t);
    FileWritable(schemaHash, profileId, t);
    FirstBody(t);
    FirstKind(t);
    hide *;
    var ps := Pendings(t);
    AssembledIsAccepted(schemaHash, profileId, ps);
    AllReadBack(schemaHash, profileId, ps);
    RawReadsBack(schemaHash, profileId, ps, 0);
    TablesFrom(Assemble(schemaHash, profileId, ps), Sections(Assemble(schemaHash, profileId, ps)), t);
  }

  lemma FileWritable(schemaHash: nat, profileId: nat, t: Tables)
    requires FileFits(schemaHash, profileId, t) && AllSound(Pendings(t)) && DistinctKinds(Pendings(t))
    ensures Writable(schemaHash, profileId, Pendings(t))
  {
    hide Pendings, TablesFit, Bodies, AllSound, DistinctKinds;
  }
}
