/** An assembled artifact is accepted, and every section reads back as it was written. */
module ArtifactRoundTrip {
  import opened Optional
  import opened Bytes
  import opened PackedRows
  import opened ArtifactFile

  /** Rows whose numbers fit their columns, in columns that take up space. */
  predicate Sound(p: Pending) {
    AllFit(p.widths, p.rows) && 0 < RowSize(p.widths) < TWO_TO_64 && p.kind < 0x1_0000_0000
  }

  predicate AllSound(ps: seq<Pending>) {
    forall i :: 0 <= i < |ps| ==> Sound(ps[i])
  }

  ghost predicate DistinctKinds(ps: seq<Pending>) {
    forall i, j :: 0 <= i < j < |ps| ==> ps[i].kind != ps[j].kind
  }

  // ---- where sections lie

  lemma {:induction false} OffsetsRise(ps: seq<Pending>, start: nat, i: nat, j: nat)
    requires i <= j <= |ps|
    ensures Offset(ps, start, i) <= Offset(ps, start, j)
    ensures i < j ==> Offset(ps, start, i) + |Body(ps[i])| <= Offset(ps, start, j)
    decreases j
  {
    hide Body;
    if i < j { OffsetsRise(ps, start, i, j - 1); }
  }

  lemma {:induction false} OffsetIsLength(ps: seq<Pending>, start: nat, i: nat)
    requires i <= |ps|
    ensures Offset(ps, start, i) == start + |BodiesUpTo(ps, i)|
  {
    hide Body;
    if i > 0 { OffsetIsLength(ps, start, i - 1); }
  }

  /** Each body lies where its section says. */
  lemma {:induction false} BodyInPlace(data: Text, ps: seq<Pending>, start: nat, i: nat, n: nat)
    requires i < n <= |ps| && Holds(data, start, BodiesUpTo(ps, n))
    ensures Holds(data, Offset(ps, start, i), Body(ps[i]))
    decreases n
  {
    hide Holds, Body;
    OffsetIsLength(ps, start, n - 1);
    HoldsParts(data, start, BodiesUpTo(ps, n - 1), Body(ps[n - 1]));
    if i < n - 1 { BodyInPlace(data, ps, start, i, n - 1); }
  }

  // ---- the table and the header read back

  predicate SectionFits(s: Section) {
    Fits(SECTION_WIDTHS, SectionRow(s))
  }

  lemma SectionBack(data: Text, at: nat, s: Section, rest: Text)
    requires SectionFits(s) && Holds(data, at, RowBytes(SECTION_WIDTHS, SectionRow(s)) + rest)
    ensures at + SECTION_SIZE <= |data| && SectionAt(data, at) == s && Holds(data, at + SECTION_SIZE, rest)
  {
    WidthsAdd();
    FirstRowBack(data, at, SECTION_WIDTHS, SectionRow(s), rest);
  }

  lemma SectionRowsStep(s: Section, rest: seq<Section>)
    ensures RowsBytes(SECTION_WIDTHS, SectionRows([s] + rest))
         == RowBytes(SECTION_WIDTHS, SectionRow(s)) + RowsBytes(SECTION_WIDTHS, SectionRows(rest))
  {
    assert ([s] + rest)[1..] == rest;
    var rows := SectionRows([s] + rest);
    assert rows == [SectionRow(s)] + SectionRows(rest);
    assert rows[1..] == SectionRows(rest);
  }

  lemma TableBackStep(data: Text, at: nat, s: Section, rest: seq<Section>)
    requires SectionFits(s) && (forall x :: x in rest ==> SectionFits(x))
    requires Holds(data, at, RowsBytes(SECTION_WIDTHS, SectionRows([s] + rest)))
    ensures at + (|rest| + 1) * 40 <= |data| && SectionsAt(data, at, |rest| + 1) == [s] + rest
    decreases |rest| + 1, 0
  {
    SectionRowsStep(s, rest);
    hide Holds, SectionFits, RowBytes, RowsBytes, SectionRows;
    SectionBack(data, at, s, RowsBytes(SECTION_WIDTHS, SectionRows(rest)));
    TableBack(data, at + SECTION_SIZE, rest);
  }

  lemma {:induction false} TableBack(data: Text, at: nat, ss: seq<Section>)
    requires forall s :: s in ss ==> SectionFits(s)
    requires Holds(data, at, RowsBytes(SECTION_WIDTHS, SectionRows(ss)))
    ensures at + |ss| * 40 <= |data| && SectionsAt(data, at, |ss|) == ss
    decreases |ss|, 1
  {
    if ss != [] {
      var s, rest := ss[0], ss[1..];
      assert s in ss && ss == [s] + rest;
      TableBackStep(data, at, s, rest);
    }
  }

  lemma HeaderFits(h: Header)
    requires h.magic < 0x1_0000_0000 && h.formatVersion < 0x1_0000_0000 && h.headerSize < 0x1_0000_0000
    requires h.sectionEntrySize < 0x1_0000_0000 && h.endianTag < 0x1_0000_0000 && h.fileSize < TWO_TO_64
    requires h.tableOffset < TWO_TO_64 && h.sectionCount < 0x1_0000_0000 && h.flags < 0x1_0000_0000
    requires h.schemaHash < TWO_TO_64 && h.profileId < TWO_TO_64
    ensures Fits(HEADER_WIDTHS, HeaderRow(h))
  {
    Powers();
    hide Power;
  }

  lemma HeaderBack(data: Text, h: Header, rest: Text)
    requires Fits(HEADER_WIDTHS, HeaderRow(h)) && Holds(data, 0, RowBytes(HEADER_WIDTHS, HeaderRow(h)) + rest)
    ensures |data| >= HEADER_SIZE && HeaderAt(data) == h && Holds(data, HEADER_SIZE, rest)
  {
    WidthsAdd();
    FirstRowBack(data, 0, HEADER_WIDTHS, HeaderRow(h), rest);
  }

  // ---- the whole artifact

  /** What fits the widths of the format. */
  ghost predicate Writable(schemaHash: nat, profileId: nat, ps: seq<Pending>) {
    && AllSound(ps) && DistinctKinds(ps) && |ps| < 0x1_0000_0000
    && TableEnd(ps) + |Bodies(ps)| < TWO_TO_64 && schemaHash < TWO_TO_64 && profileId < TWO_TO_64
  }

  lemma Product(n: nat, k: nat)
    requires k > 0
    ensures n <= n * k && (n > 0 ==> k <= n * k)
  { }

  lemma RowsFewerThanBytes(p: Pending)
    requires Sound(p)
    ensures |p.rows| * RowSize(p.widths) == |Body(p)| && |p.rows| <= |Body(p)|
    ensures p.rows != [] ==> RowSize(p.widths) <= |Body(p)|
  {
    var n, k := |p.rows|, RowSize(p.widths);
    assert Body(p) == RowsBytes(p.widths, p.rows);
    hide Fits, AllFit, RowsBytes, RowSize;
    RowsBytesSize(p.widths, p.rows);
    hide Body;
    Product(n, k);
  }

  lemma RowOfSectionFits(s: Section)
    requires s.kind < 0x1_0000_0000 && s.flags == 0 && s.offset < TWO_TO_64 && s.size < TWO_TO_64
    requires s.entryCount < TWO_TO_64 && s.entrySize < TWO_TO_64
    ensures SectionFits(s)
  {
    Powers();
    hide Power;
  }

  lemma SectionBounds(ps: seq<Pending>, start: nat, i: nat)
    requires i < |ps|
    ensures var s := Layout(ps, start)[i];
            start <= s.offset && s.offset + s.size <= start + |Bodies(ps)|
            && s == SectionFor(ps[i], s.offset) && s.size == |Body(ps[i])|
  {
    hide Body;
    OffsetsRise(ps, start, 0, i);
    OffsetsRise(ps, start, i, |ps|);
    OffsetIsLength(ps, start, |ps|);
  }

  /** A section of sound rows passes its checks and fits the table. */
  lemma SectionPasses(p: Pending, s: Section, start: nat, size: nat)
    requires Sound(p) && s == SectionFor(p, s.offset)
    requires start <= s.offset && s.offset + s.size <= size < TWO_TO_64
    ensures SectionFits(s) && SectionOk(s, start, size)
  {
    assert 0 < RowSize(p.widths) < TWO_TO_64 && p.kind < 0x1_0000_0000;
    RowsFewerThanBytes(p);
    assert s.size == |Body(p)|;
    hide Body, Sound, RowSize, SectionFits;
    RowOfSectionFits(s);
  }

  lemma LayoutFits(ps: seq<Pending>, start: nat, i: nat)
    requires AllSound(ps) && i < |ps| && start + |Bodies(ps)| < TWO_TO_64
    ensures SectionFits(Layout(ps, start)[i])
    ensures SectionOk(Layout(ps, start)[i], start, start + |Bodies(ps)|)
  {
    hide Body, Sound, Layout, Bodies, RowSize, SectionFits, SectionOk;
    SectionBounds(ps, start, i);
    SectionPasses(ps[i], Layout(ps, start)[i], start, start + |Bodies(ps)|);
  }

  lemma HoldsItself(data: Text)
    ensures Holds(data, 0, data)
  { }

  lemma AssembledFrom(schemaHash: nat, profileId: nat, ps: seq<Pending>, sections: seq<Section>)
    requires sections == Layout(ps, TableEnd(ps))
    ensures |RowBytes(HEADER_WIDTHS, HeaderRow(HeaderFor(schemaHash, profileId, ps)))| == HEADER_SIZE
    ensures |RowsBytes(SECTION_WIDTHS, SectionRows(sections))| == |ps| * 40
    ensures Assemble(schemaHash, profileId, ps)
         == RowBytes(HEADER_WIDTHS, HeaderRow(HeaderFor(schemaHash, profileId, ps)))
            + (RowsBytes(SECTION_WIDTHS, SectionRows(sections)) + Bodies(ps))
  {
    hide Body, Bodies, Layout, RowsBytes, RowBytes, SectionRows, RowSize, HeaderRow;
    WidthsAdd();
    RowsBytesSize(SECTION_WIDTHS, SectionRows(sections));
  }

  /** Header, table and bodies lie one behind the other. */
  lemma AssembledParts(schemaHash: nat, profileId: nat, ps: seq<Pending>)
    requires Fits(HEADER_WIDTHS, HeaderRow(HeaderFor(schemaHash, profileId, ps)))
    ensures var data := Assemble(schemaHash, profileId, ps);
            |data| >= HEADER_SIZE && HeaderAt(data) == HeaderFor(schemaHash, profileId, ps)
            && |data| == TableEnd(ps) + |Bodies(ps)|
            && Holds(data, HEADER_SIZE, RowsBytes(SECTION_WIDTHS, SectionRows(Layout(ps, TableEnd(ps)))))
            && Holds(data, TableEnd(ps), Bodies(ps))
  {
    hide Body, Bodies, Layout, RowsBytes, RowBytes, SectionRows, HeaderAt, Holds, Fits, HeaderRow, HeaderFor, Assemble;
    var data := Assemble(schemaHash, profileId, ps);
    var ss := Layout(ps, TableEnd(ps));
    AssembledFrom(schemaHash, profileId, ps, ss);
    var table := RowsBytes(SECTION_WIDTHS, SectionRows(ss));
    HoldsItself(data);
    HeaderBack(data, HeaderFor(schemaHash, profileId, ps), table + Bodies(ps));
    HoldsParts(data, HEADER_SIZE, table, Bodies(ps));
  }

  lemma HeaderForOk(schemaHash: nat, profileId: nat, ps: seq<Pending>)
    ensures var h := HeaderFor(schemaHash, profileId, ps);
            HeaderOk(h, TableEnd(ps) + |Bodies(ps)|) && h.tableOffset == HEADER_SIZE && h.sectionCount == |ps|
  {
    hide Bodies;
  }

  lemma HeaderWritable(schemaHash: nat, profileId: nat, ps: seq<Pending>)
    requires Writable(schemaHash, profileId, ps)
    ensures Fits(HEADER_WIDTHS, HeaderRow(HeaderFor(schemaHash, profileId, ps)))
  {
    hide Body, Bodies, Fits, HeaderRow;
    HeaderFits(HeaderFor(schemaHash, profileId, ps));
  }

  lemma LayoutPasses(ps: seq<Pending>, start: nat)
    requires AllSound(ps) && start + |Bodies(ps)| < TWO_TO_64
    ensures forall s :: s in Layout(ps, start) ==> SectionFits(s) && SectionOk(s, start, start + |Bodies(ps)|)
    ensures AllApart(Layout(ps, start))
  {
    hide Body, Sound, Bodies, SectionFits, SectionOk;
    var ss := Layout(ps, start);
    forall s | s in ss ensures SectionFits(s) && SectionOk(s, start, start + |Bodies(ps)|) {
      var i :| 0 <= i < |ss| && ss[i] == s;
      LayoutFits(ps, start, i);
    }
    forall i, j | 0 <= i < j < |ss| ensures Apart(ss[i], ss[j]) {
      OffsetsRise(ps, start, i, j);
    }
  }

  lemma AcceptedWith(data: Text, h: Header, ss: seq<Section>)
    requires |data| >= HEADER_SIZE && HeaderAt(data) == h && HeaderOk(h, |data|) && |ss| == h.sectionCount
    requires SectionsAt(data, h.tableOffset, h.sectionCount) == ss && AllApart(ss)
    requires forall s :: s in ss ==> SectionOk(s, h.tableOffset + h.sectionCount * 40, |data|)
    ensures Accepts(data) && Sections(data) == ss
  {
    hide SectionOk, HeaderAt, SectionsAt, AllApart;
  }

  /** Data that starts with the header and table of ps is accepted. */
  lemma AcceptedWhen(data: Text, h: Header, ps: seq<Pending>)
    requires AllSound(ps) && |data| == TableEnd(ps) + |Bodies(ps)| < TWO_TO_64
    requires HeaderOk(h, |data|) && h.tableOffset == HEADER_SIZE && h.sectionCount == |ps|
    requires |data| >= HEADER_SIZE && HeaderAt(data) == h
    requires Holds(data, HEADER_SIZE, RowsBytes(SECTION_WIDTHS, SectionRows(Layout(ps, TableEnd(ps)))))
    ensures Accepts(data) && Sections(data) == Layout(ps, TableEnd(ps))
  {
    hide Body, AllSound, Bodies, Holds, SectionRows, HeaderAt, HeaderOk, SectionsAt, Accepts, Sections, AllApart;
    hide SectionFits, SectionOk, RowsBytes;
    var ss := Layout(ps, TableEnd(ps));
    hide Layout;
    LayoutPasses(ps, TableEnd(ps));
    TableBack(data, HEADER_SIZE, ss);
    AcceptedWith(data, h, ss);
  }

  /** An assembled artifact is accepted, with the sections it was given. */
  lemma AssembledIsAccepted(schemaHash: nat, profileId: nat, ps: seq<Pending>)
    requires Writable(schemaHash, profileId, ps)
    ensures var data := Assemble(schemaHash, profileId, ps);
            Accepts(data) && HeaderAt(data) == HeaderFor(schemaHash, profileId, ps)
            && Sections(data) == Layout(ps, TableEnd(ps)) && Holds(data, TableEnd(ps), Bodies(ps))
  {
    hide Body, AllSound, Bodies, Layout, Assemble, Fits, HeaderRow, Holds, SectionRows, DistinctKinds, TableEnd;
    hide HeaderAt, HeaderFor, HeaderOk, SectionsAt, Accepts, Sections, RowsBytes;
    HeaderWritable(schemaHash, profileId, ps);
    AssembledParts(schemaHash, profileId, ps);
    HeaderForOk(schemaHash, profileId, ps);
    AcceptedWhen(Assemble(schemaHash, profileId, ps), HeaderFor(schemaHash, profileId, ps), ps);
  }

  lemma {:induction false} KindFound(ps: seq<Pending>, ss: seq<Section>, i: nat)
    requires |ss| == |ps| && i < |ps| && DistinctKinds(ps) && forall k :: 0 <= k < |ps| ==> ss[k].kind == ps[k].kind
    ensures FindSection(ss, ps[i].kind) == Some(ss[i])
    decreases |ps|
  {
    if i > 0 {
      assert forall k :: 0 <= k < |ps| - 1 ==> ss[1..][k].kind == ps[1..][k].kind;
      KindFound(ps[1..], ss[1..], i - 1);
    }
  }

  lemma SectionReads(data: Text, ss: seq<Section>, s: Section, p: Pending)
    requires Sound(p) && FindSection(ss, p.kind) == Some(s) && s == SectionFor(p, s.offset)
    requires Holds(data, s.offset, Body(p))
    ensures FixedSection(data, ss, p.kind, p.widths) == Some(p.rows)
  {
    assert AllFit(p.widths, p.rows) && Body(p) == RowsBytes(p.widths, p.rows);
    hide Body, Sound, AllFit, Holds, FindSection, RowsAt, RowsBytes, RowSize;
    RowsBack(data, s.offset, p.widths, p.rows);
  }

  /** Every section of an assembled artifact reads back as the rows it was written from. */
  lemma AssembledReadsBack(schemaHash: nat, profileId: nat, ps: seq<Pending>, i: nat)
    requires Writable(schemaHash, profileId, ps) && i < |ps|
    ensures var data := Assemble(schemaHash, profileId, ps);
            Accepts(data) && FixedSection(data, Sections(data), ps[i].kind, ps[i].widths) == Some(ps[i].rows)
  {
    var data := Assemble(schemaHash, profileId, ps);
    var start := TableEnd(ps);
    var ss := Layout(ps, start);
    AssembledIsAccepted(schemaHash, profileId, ps);
    hide Body, Sound, BodiesUpTo, Assemble, Holds, Accepts, Sections, FindSection, FixedSection;
    KindFound(ps, ss, i);
    BodyInPlace(data, ps, start, i, |ps|);
    SectionReads(data, ss, ss[i], ps[i]);
  }
}
