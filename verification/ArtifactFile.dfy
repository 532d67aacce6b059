/** The profile artifact: a header, a table of sections, and the sections' rows. */
module ArtifactFile {
  import opened Optional
  import opened Bytes
  import opened PackedRows

  const TWO_TO_64: nat := 0x1_0000_0000_0000_0000

  const HEADER_WIDTHS: seq<nat> := [4, 4, 4, 4] + ([4, 8, 8, 4] + ([4, 8, 8, 8] + [8]))
  const SECTION_WIDTHS: seq<nat> := [4, 4, 8, 8] + [8, 8]
  const HEADER_SIZE: nat := 76
  const SECTION_SIZE: nat := 40
  const FORMAT_VERSION: nat := 1
  const LITTLE_ENDIAN_TAG: nat := 0x01020304
  /** The bytes NFPF, read as a little-endian number. */
  const MAGIC: nat := 0x4650464E

  datatype Header = Header(
    magic: nat, formatVersion: nat, headerSize: nat, sectionEntrySize: nat, endianTag: nat, fileSize: nat,
    tableOffset: nat, sectionCount: nat, flags: nat, schemaHash: nat, profileId: nat)

  datatype Section = Section(kind: nat, flags: nat, offset: nat, size: nat, entryCount: nat, entrySize: nat)

  /** A section about to be written. */
  datatype Pending = Pending(kind: nat, widths: seq<nat>, rows: seq<seq<nat>>)

  function HeaderRow(h: Header): (row: seq<nat>)
    ensures |row| == 13
  {
    [h.magic, h.formatVersion, h.headerSize, h.sectionEntrySize, h.endianTag, h.fileSize, h.tableOffset,
     h.sectionCount, h.flags, h.schemaHash, h.profileId, 0, 0]
  }

  function HeaderOf(row: seq<nat>): Header
    requires |row| == 13
  {
    Header(row[0], row[1], row[2], row[3], row[4], row[5], row[6], row[7], row[8], row[9], row[10])
  }

  function SectionRow(s: Section): seq<nat> {
    [s.kind, s.flags, s.offset, s.size, s.entryCount, s.entrySize]
  }

  function SectionOf(row: seq<nat>): Section
    requires |row| == 6
  {
    Section(row[0], row[1], row[2], row[3], row[4], row[5])
  }

  function SectionRows(ss: seq<Section>): (rows: seq<seq<nat>>)
    ensures |rows| == |ss|
  {
    if ss == [] then [] else [SectionRow(ss[0])] + SectionRows(ss[1..])
  }

  // ---- writing

  function Body(p: Pending): Text
  {
    RowsBytes(p.widths, p.rows)
  }

  function SectionFor(p: Pending, offset: nat): Section
  {
    Section(p.kind, 0, offset, |Body(p)|, |p.rows|, RowSize(p.widths))
  }

  /** Where the i-th body starts when the first starts at start. */
  function Offset(ps: seq<Pending>, start: nat, i: nat): nat
    requires i <= |ps|
  {
    if i == 0 then start else Offset(ps, start, i - 1) + |Body(ps[i - 1])|
  }

  /** The first i bodies one behind the other. */
  function BodiesUpTo(ps: seq<Pending>, i: nat): Text
    requires i <= |ps|
  {
    if i == 0 then [] else BodiesUpTo(ps, i - 1) + Body(ps[i - 1])
  }

  function Bodies(ps: seq<Pending>): Text
  {
    BodiesUpTo(ps, |ps|)
  }

  /** Sections without gaps between them. */
  function Layout(ps: seq<Pending>, start: nat): (ss: seq<Section>)
    ensures |ss| == |ps| && forall i :: 0 <= i < |ps| ==> ss[i] == SectionFor(ps[i], Offset(ps, start, i))
  {
    seq(|ps|, i requires 0 <= i < |ps| => SectionFor(ps[i], Offset(ps, start, i)))
  }

  function TableEnd(ps: seq<Pending>): nat {
    HEADER_SIZE + |ps| * 40
  }

  function HeaderFor(schemaHash: nat, profileId: nat, ps: seq<Pending>): Header
  {
    Header(MAGIC, FORMAT_VERSION, HEADER_SIZE, SECTION_SIZE, LITTLE_ENDIAN_TAG, TableEnd(ps) + |Bodies(ps)|,
        HEADER_SIZE,
           |ps|, 0, schemaHash, profileId)
  }

  function Assemble(schemaHash: nat, profileId: nat, ps: seq<Pending>): Text
  {
    RowBytes(HEADER_WIDTHS, HeaderRow(HeaderFor(schemaHash, profileId, ps)))
    + (RowsBytes(SECTION_WIDTHS, SectionRows(Layout(ps, TableEnd(ps)))) + Bodies(ps))
  }

  // ---- reading

  lemma WidthsAdd()
    ensures RowSize(HEADER_WIDTHS) == HEADER_SIZE && RowSize(SECTION_WIDTHS) == SECTION_SIZE
  {
    RowSizeFour(4, 4, 4, 4);
    RowSizeFour(4, 8, 8, 4);
    RowSizeFour(4, 8, 8, 8);
    RowSizeFour(4, 4, 8, 8);
    hide RowSize;
    RowSizeConcat([4, 8, 8, 8], [8]);
    RowSizeConcat([4, 8, 8, 4], [4, 8, 8, 8] + [8]);
    RowSizeConcat([4, 4, 4, 4], [4, 8, 8, 4] + ([4, 8, 8, 8] + [8]));
    RowSizeConcat([4, 4, 8, 8], [8, 8]);
  }

  function HeaderAt(data: Text): Header
    requires |data| >= HEADER_SIZE
  {
    WidthsAdd();
    HeaderOf(RowAt(data, 0, HEADER_WIDTHS))
  }

  function SectionAt(data: Text, at: nat): Section
    requires at + SECTION_SIZE <= |data|
  {
    WidthsAdd();
    SectionOf(RowAt(data, at, SECTION_WIDTHS))
  }

  function SectionsAt(data: Text, at: nat, count: nat): (ss: seq<Section>)
    requires at + count * 40 <= |data|
    ensures |ss| == count
    ensures forall i :: 0 <= i < count ==> ss[i] == SectionAt(data, at + i * 40)
    decreases count
  {
    if count == 0 then [] else [SectionAt(data, at)] + SectionsAt(data, at + 40, count - 1)
  }

  function Sections(data: Text): seq<Section>
    requires |data| >= HEADER_SIZE && HeaderOk(HeaderAt(data), |data|)
  {
    var h := HeaderAt(data);
    SectionsAt(data, h.tableOffset, h.sectionCount)
  }

  function FindSection(ss: seq<Section>, kind: nat): Option<Section> {
    if ss == [] then None else if ss[0].kind == kind then Some(ss[0]) else FindSection(ss[1..], kind)
  }

  /** The rows of a section, when the section is there with entries of the expected size. */
  function FixedSection(data: Text, ss: seq<Section>, kind: nat, widths: seq<nat>): Option<seq<seq<nat>>> {
    var s := FindSection(ss, kind);
    if s.None? || s.value.entrySize != RowSize(widths) then None
    else if s.value.entryCount == 0 then Some([])
    else Some(RowsAt(data, s.value.offset, widths, s.value.entryCount))
  }

  // ---- checking

  predicate InBounds(offset: nat, length: nat, total: nat) {
    offset <= total && length <= total - offset
  }

  predicate MultiplyWillOverflow(a: nat, b: nat) {
    a != 0 && b != 0 && a > (TWO_TO_64 - 1) / b
  }

  /** The guard is exact. */
  lemma MultiplyGuard(a: nat, b: nat)
    ensures MultiplyWillOverflow(a, b) <==> a * b >= TWO_TO_64
  {
    if a != 0 && b != 0 {
      var q, r := (TWO_TO_64 - 1) / b, (TWO_TO_64 - 1) % b;
      assert q * b + r == TWO_TO_64 - 1;
      if a > q {
        assert a * b >= (q + 1) * b;
      } else {
        assert a * b <= q * b;
      }
    }
  }

  datatype Verdict = Accepted | FormatError | VersionMismatch

  predicate HeaderOk(h: Header, size: nat) {
    && h.magic == MAGIC && h.formatVersion == FORMAT_VERSION && h.headerSize == HEADER_SIZE
    && h.sectionEntrySize == SECTION_SIZE && h.endianTag == LITTLE_ENDIAN_TAG && h.fileSize == size
    && h.tableOffset >= h.headerSize && InBounds(h.tableOffset, h.sectionCount * 40, h.fileSize)
  }

  /** In bounds, behind the table, and as large as its entries. */
  predicate SectionOk(s: Section, tableEnd: nat, size: nat) {
    && InBounds(s.offset, s.size, size) && s.offset >= tableEnd
    && (if s.entrySize == 0 then s.entryCount == 0 && s.size == 0 else s.entryCount * s.entrySize == s.size)
  }

  predicate Apart(a: Section, b: Section) {
    a.offset + a.size <= b.offset || b.offset + b.size <= a.offset
  }

  ghost predicate AllApart(ss: seq<Section>) {
    forall i, j :: 0 <= i < j < |ss| ==> Apart(ss[i], ss[j])
  }

  /** What an artifact must be to be loaded. */
  ghost predicate Accepts(data: Text) {
    && |data| >= HEADER_SIZE && HeaderOk(HeaderAt(data), |data|)
    && (var h, ss := HeaderAt(data), Sections(data);
        (forall s :: s in ss ==> SectionOk(s, h.tableOffset + h.sectionCount * 40, |data|)) && AllApart(ss))
  }
}
