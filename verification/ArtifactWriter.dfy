/** Laying out an artifact with a running offset and copying its parts behind a write cursor. */
module ArtifactWriter {
  import opened Bytes
  import opened PackedRows
  import opened ArtifactFile
  import opened ArtifactRoundTrip

  method PlaceSections(ps: seq<Pending>) returns (sections: seq<Section>, offset: nat)
    ensures sections == Layout(ps, TableEnd(ps))
    ensures offset == TableEnd(ps) + |Bodies(ps)|
  {
    hide Body, SectionFor, Layout, Bodies, Offset;
    sections := [];
    offset := HEADER_SIZE + |ps| * 40;
    ghost var start := offset;
    ghost var all := Layout(ps, start);
    OffsetSteps(ps, start, 0);
    var i := 0;
    while i < |ps|
      invariant i <= |ps| && offset == Offset(ps, start, i)
      invariant |sections| == i && forall k :: 0 <= k < i ==> sections[k] == all[k]
    {
      OffsetSteps(ps, start, i);
      LayoutHas(ps, start, i);
      sections := sections + [SectionFor(ps[i], offset)];
      offset := offset + |Body(ps[i])|;
      i := i + 1;
    }
    OffsetAtEnd(ps, start);
  }

  lemma OffsetSteps(ps: seq<Pending>, start: nat, i: nat)
    requires i <= |ps|
    ensures Offset(ps, start, 0) == start
    ensures i < |ps| ==> Offset(ps, start, i + 1) == Offset(ps, start, i) + |Body(ps[i])|
  {
    hide Body;
  }

  lemma LayoutHas(ps: seq<Pending>, start: nat, i: nat)
    requires i < |ps|
    ensures Layout(ps, start)[i] == SectionFor(ps[i], Offset(ps, start, i))
  {
    hide Body, SectionFor, Offset;
  }

  lemma OffsetAtEnd(ps: seq<Pending>, start: nat)
    ensures Offset(ps, start, |ps|) == start + |Bodies(ps)|
  {
    hide Body;
    OffsetIsLength(ps, start, |ps|);
  }

  /** Copies src to the cursor; what lies before it stays. */
  method CopyTo(bytes: array<Byte>, cursor: nat, src: Text)
    requires cursor + |src| <= bytes.Length
    modifies bytes
    ensures bytes[..cursor + |src|] == old(bytes[..cursor]) + src
  {
    var i := 0;
    while i < |src|
      invariant i <= |src|
      invariant bytes[..cursor] == old(bytes[..cursor])
      invariant forall k :: 0 <= k < i ==> bytes[cursor + k] == src[k]
    {
      bytes[cursor + i] := src[i];
      i := i + 1;
    }
    assert bytes[cursor..cursor + |src|] == src;
    assert bytes[..cursor + |src|] == bytes[..cursor] + bytes[cursor..cursor + |src|];
  }

  method CopyBoth(bytes: array<Byte>, a: Text, b: Text)
    requires |a| + |b| <= bytes.Length
    modifies bytes
    ensures bytes[..|a| + |b|] == a + b
  {
    CopyTo(bytes, 0, a);
    assert bytes[..|a|] == a;
    CopyTo(bytes, |a|, b);
  }

  method CopyBodies(bytes: array<Byte>, from: nat, ps: seq<Pending>)
    requires from + |Bodies(ps)| <= bytes.Length
    modifies bytes
    ensures bytes[..from + |Bodies(ps)|] == old(bytes[..from]) + Bodies(ps)
  {
    hide Body;
    var cursor := from;
    ghost var head := bytes[..from];
    var i := 0;
    assert BodiesUpTo(ps, 0) == [] && head + [] == head;
    while i < |ps|
      invariant i <= |ps| && cursor == from + |BodiesUpTo(ps, i)| <= bytes.Length
      invariant bytes[..cursor] == head + BodiesUpTo(ps, i)
    {
      var body := Body(ps[i]);
      BodiesGrow(ps, i + 1);
      Assoc(head, BodiesUpTo(ps, i), body);
      CopyTo(bytes, cursor, body);
      cursor := cursor + |body|;
      i := i + 1;
    }
  }

  lemma {:induction false} BodiesGrow(ps: seq<Pending>, i: nat)
    requires i <= |ps|
    ensures |BodiesUpTo(ps, i)| <= |Bodies(ps)|
    decreases |ps| - i
  {
    hide Body;
    if i < |ps| { BodiesGrow(ps, i + 1); }
  }

  /** Header, section table and bodies, each copied behind the one before. */
  method WriteArtifact(schemaHash: nat, profileId: nat, ps: seq<Pending>) returns (bytes: array<Byte>)
    ensures fresh(bytes) && bytes[..] == Assemble(schemaHash, profileId, ps)
  {
    hide Body, Bodies, Layout, RowsBytes, RowBytes, Assemble, SectionRows, HeaderRow, RowSize;
    var sections, size := PlaceSections(ps);
    AssembledFrom(schemaHash, profileId, ps, sections);
    var h := Header(MAGIC, FORMAT_VERSION, HEADER_SIZE, SECTION_SIZE, LITTLE_ENDIAN_TAG, size, HEADER_SIZE,
                    |sections|, 0, schemaHash, profileId);
    var header := RowBytes(HEADER_WIDTHS, HeaderRow(h));
    var table := RowsBytes(SECTION_WIDTHS, SectionRows(sections));
    bytes := new Byte[size](_ => 0);
    CopyBoth(bytes, header, table);
    CopyBodies(bytes, |header| + |table|, ps);
    Assoc(header, table, Bodies(ps));
    assert bytes[..] == bytes[..size];
  }
}
