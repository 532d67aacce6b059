/** The artifact validator: it accepts exactly the artifacts whose sections are in bounds, sized and apart. */
module ArtifactCheck {
  import opened Bytes
  import opened CanonicalOrder
  import opened ArtifactFile

  datatype Range = Range(first: nat, last: nat)

  function RangeKey(r: Range): Key {
    Node([Leaf(r.first), Leaf(r.last)])
  }

  function Ranges(ss: seq<Section>): (rs: seq<Range>)
    ensures |rs| == |ss|
    ensures forall i :: 0 <= i < |ss| ==> rs[i] == Range(ss[i].offset, ss[i].offset + ss[i].size)
  {
    if ss == [] then [] else [Range(ss[0].offset, ss[0].offset + ss[0].size)] + Ranges(ss[1..])
  }

  predicate Clear(a: Range, b: Range) {
    a.last <= b.first || b.last <= a.first
  }

  predicate ClearOf(a: Range, rs: seq<Range>) {
    forall b :: b in rs ==> Clear(a, b)
  }

  predicate Pairwise(rs: seq<Range>) {
    rs == [] || (ClearOf(rs[0], rs[1..]) && Pairwise(rs[1..]))
  }

  predicate Forward(rs: seq<Range>) {
    forall r :: r in rs ==> r.first <= r.last
  }

  /** Each range ends before the next one starts. */
  predicate Adjacent(rs: seq<Range>) {
    forall i :: 1 <= i < |rs| ==> rs[i - 1].last <= rs[i].first
  }

  // ---- sorting does not change what overlaps

  lemma {:induction false} InsertPairwise(x: Range, s: seq<Range>)
    ensures Pairwise(Insert(x, s, RangeKey)) <==> ClearOf(x, s) && Pairwise(s)
    ensures forall r :: r in Insert(x, s, RangeKey) <==> r == x || r in s
  {
    hide RangeKey, Clear;
    if s == [] || !Before(RangeKey, s[0], x) {
      assert ([x] + s)[1..] == s;
    } else {
      var t := Insert(x, s[1..], RangeKey);
      InsertPairwise(x, s[1..]);
      assert ([s[0]] + t)[1..] == t;
      assert s == [s[0]] + s[1..];
      ClearSymmetric(x, s[0]);
    }
  }

  lemma ClearSymmetric(a: Range, b: Range)
    ensures Clear(a, b) <==> Clear(b, a)
  { }

  lemma {:induction false} SortPairwise(rs: seq<Range>)
    ensures Pairwise(Sort(rs, RangeKey)) <==> Pairwise(rs)
    ensures forall r :: r in Sort(rs, RangeKey) <==> r in rs
  {
    if rs != [] {
      SortPairwise(rs[1..]);
      InsertPairwise(rs[0], Sort(rs[1..], RangeKey));
      assert rs == [rs[0]] + rs[1..];
      hide Insert;
    }
  }

  lemma Lexicographic(a: Range, b: Range)
    ensures Before(RangeKey, a, b) <==> a.first < b.first || (a.first == b.first && a.last < b.last)
  {
    var x, y := RangeKey(a).kids, RangeKey(b).kids;
    var p, q := [Leaf(a.last)], [Leaf(b.last)];
    assert x[1..] == p && y[1..] == q && p[1..] == [] && q[1..] == [];
    assert !ListLess(p[1..], q[1..]);
    assert ListLess(p, q) <==> Less(p[0], q[0]) || (p[0] == q[0] && ListLess(p[1..], q[1..]));
    assert ListLess(p, q) <==> a.last < b.last;
    assert ListLess(x, y) <==> Less(x[0], y[0]) || (x[0] == y[0] && ListLess(p, q));
    assert Before(RangeKey, a, b) <==> Less(RangeKey(a), RangeKey(b));
    assert Less(RangeKey(a), RangeKey(b)) <==> ListLess(x, y);
  }

  lemma {:induction false} AdjacentChains(rs: seq<Range>, i: nat, j: nat)
    requires Adjacent(rs) && Forward(rs) && i < j < |rs|
    ensures rs[i].last <= rs[j].first
    decreases j
  {
    if i + 1 < j {
      AdjacentChains(rs, i, j - 1);
      assert rs[j - 1] in rs && rs[(j) - 1].last <= rs[j].first;
    } else {
      assert rs[j - 1].last <= rs[j].first;
    }
  }

  lemma {:induction false} PairwiseAt(rs: seq<Range>)
    ensures Pairwise(rs) <==> forall i, j :: 0 <= i < j < |rs| ==> Clear(rs[i], rs[j])
  {
    if rs != [] {
      var rest := rs[1..];
      PairwiseAt(rest);
      if Pairwise(rs) {
        forall i, j | 0 <= i < j < |rs| ensures Clear(rs[i], rs[j]) {
          if i == 0 { assert rs[j] in rest; } else { assert rs[i] == rest[i - 1] && rs[j] == rest[j - 1]; }
        }
      }
      if forall i, j :: 0 <= i < j < |rs| ==> Clear(rs[i], rs[j]) {
        forall b | b in rest ensures Clear(rs[0], b) {
          var j :| 0 <= j < |rest| && rest[j] == b;
          assert rs[j + 1] == b;
        }
        forall i, j | 0 <= i < j < |rest| ensures Clear(rest[i], rest[j]) {
          assert rs[i + 1] == rest[i] && rs[j + 1] == rest[j];
        }
      }
    }
  }

  /** On sorted ranges, looking at neighbours is enough. */
  lemma NeighboursSuffice(rs: seq<Range>)
    requires Sorted(rs, RangeKey) && Forward(rs)
    ensures Adjacent(rs) <==> Pairwise(rs)
  {
    hide Before, RangeKey, Pairwise;
    PairwiseAt(rs);
    if Adjacent(rs) {
      forall i, j | 0 <= i < j < |rs| ensures Clear(rs[i], rs[j]) { AdjacentChains(rs, i, j); }
    }
    if Pairwise(rs) {
      forall i | 1 <= i < |rs| ensures rs[i - 1].last <= rs[i].first {
        assert Clear(rs[i - 1], rs[i]);
        assert !Before(RangeKey, rs[i], rs[i - 1]);
        Lexicographic(rs[i], rs[i - 1]);
        assert rs[i - 1] in rs && rs[i] in rs;
      }
    }
  }

  lemma SectionsApart(ss: seq<Section>)
    ensures Pairwise(Ranges(ss)) <==> AllApart(ss)
  {
    hide Pairwise;
    PairwiseAt(Ranges(ss));
    assert forall i, j :: 0 <= i < j < |ss| ==> (Clear(Ranges(ss)[i], Ranges(ss)[j]) <==> Apart(ss[i], ss[j]));
  }

  // ---- the validator

  method CheckHeader(data: Text) returns (v: Verdict)
    ensures v.Accepted? <==> |data| >= HEADER_SIZE && HeaderOk(HeaderAt(data), |data|)
    ensures v.VersionMismatch? <==>
      && |data| >= HEADER_SIZE
      && (var h := HeaderAt(data);
          h.magic == MAGIC
          && (h.formatVersion != FORMAT_VERSION
              || (h.headerSize == HEADER_SIZE && h.sectionEntrySize == SECTION_SIZE
                  && h.endianTag != LITTLE_ENDIAN_TAG)))
  {
    if |data| < HEADER_SIZE { return FormatError; }
    var h := HeaderAt(data);
    if h.magic != MAGIC { return FormatError; }
    if h.formatVersion != FORMAT_VERSION { return VersionMismatch; }
    if h.headerSize != HEADER_SIZE { return FormatError; }
    if h.sectionEntrySize != SECTION_SIZE { return FormatError; }
    if h.endianTag != LITTLE_ENDIAN_TAG { return VersionMismatch; }
    if h.fileSize != |data| { return FormatError; }
    var tableBytes := h.sectionCount * 40;
    if h.tableOffset < h.headerSize { return FormatError; }
    if !InBounds(h.tableOffset, tableBytes, h.fileSize) { return FormatError; }
    return Accepted;
  }

  /** Sizes are 64-bit numbers, so a product below 2^64 is exact. */
  method CheckSection(s: Section, tableEnd: nat, fileSize: nat) returns (ok: bool)
    requires fileSize < TWO_TO_64
    ensures ok <==> SectionOk(s, tableEnd, fileSize)
  {
    if !InBounds(s.offset, s.size, fileSize) { return false; }
    if s.offset < tableEnd { return false; }
    if s.entrySize == 0 {
      return s.entryCount == 0 && s.size == 0;
    }
    MultiplyGuard(s.entryCount, s.entrySize);
    if MultiplyWillOverflow(s.entryCount, s.entrySize) { return false; }
    return s.entryCount * s.entrySize % TWO_TO_64 == s.size;
  }

  /** Checks the sections one by one and notes where they lie. */
  method CheckSections(sections: seq<Section>, tableEnd: nat, fileSize: nat) returns (ok: bool, ranges: seq<Range>)
    requires fileSize < TWO_TO_64
    ensures ok <==> forall s :: s in sections ==> SectionOk(s, tableEnd, fileSize)
    ensures ok ==> ranges == Ranges(sections)
  {
    ranges := [];
    var i := 0;
    ghost var all := Ranges(sections);
    hide SectionOk, Ranges;
    while i < |sections|
      invariant i <= |sections| && |ranges| == i && forall k :: 0 <= k < i ==> ranges[k] == all[k]
      invariant forall k :: 0 <= k < i ==> SectionOk(sections[k], tableEnd, fileSize)
    {
      var s := sections[i];
      ok := CheckSection(s, tableEnd, fileSize);
      if !ok {
        assert s in sections;
        return;
      }
      ranges := ranges + [Range(s.offset, s.offset + s.size)];
      i := i + 1;
    }
    ok := true;
  }

  lemma NeighboursDecide(sections: seq<Section>)
    ensures Adjacent(Sort(Ranges(sections), RangeKey)) <==> AllApart(sections)
  {
    var ranges := Ranges(sections);
    assert Forward(ranges);
    SortSorts(ranges, RangeKey);
    SortPairwise(ranges);
    SectionsApart(sections);
    hide Sort, Sorted, Pairwise, AllApart, Ranges, Adjacent;
    NeighboursSuffice(Sort(ranges, RangeKey));
  }

  /** Sorts the ranges and compares neighbours. */
  method CheckOverlaps(ranges: seq<Range>) returns (ok: bool)
    ensures ok <==> Adjacent(Sort(ranges, RangeKey))
  {
    var sorted := Sort(ranges, RangeKey);
    hide Sort;
    var i := 1;
    while i < |sorted|
      invariant 1 <= i && forall k :: 1 <= k < i && k < |sorted| ==> sorted[k - 1].last <= sorted[k].first
    {
      if sorted[i - 1].last > sorted[i].first { return false; }
      i := i + 1;
    }
    return true;
  }

  method ValidateArtifact(data: Text) returns (v: Verdict, h: Header, sections: seq<Section>)
    requires |data| < TWO_TO_64
    ensures v.Accepted? <==> Accepts(data)
    ensures v.Accepted? ==> h == HeaderAt(data) && sections == Sections(data)
  {
    h, sections := Header(0, 0, 0, 0, 0, 0, 0, 0, 0, 0, 0), [];
    v := CheckHeader(data);
    if !v.Accepted? { return; }
    h := HeaderAt(data);
    var tableEnd := h.tableOffset + h.sectionCount * 40;
    sections := SectionsAt(data, h.tableOffset, h.sectionCount);
    assert sections == Sections(data);
    hide SectionOk, HeaderAt, SectionsAt, Sections, HeaderOk, AllApart;
    var ok, ranges := CheckSections(sections, tableEnd, |data|);
    if !ok { return FormatError, h, sections; }
    NeighboursDecide(sections);
    ok := CheckOverlaps(ranges);
    if !ok { return FormatError, h, sections; }
  }

  predicate Owns(s: Section, p: nat) {
    s.offset <= p < s.offset + s.size
  }

  /** No byte of an accepted artifact belongs to two sections, or to a section and the table, or lies outside. */
  lemma OneOwner(data: Text, i: nat, j: nat, p: nat)
    requires Accepts(data) && i < |Sections(data)| && j < |Sections(data)|
    ensures Owns(Sections(data)[i], p) ==> HEADER_SIZE + |Sections(data)| * 40 <= p < |data|
    ensures Owns(Sections(data)[i], p) && Owns(Sections(data)[j], p) ==> i == j
  {
    hide HeaderAt, SectionAt;
    assert Sections(data)[i] in Sections(data);
    if i < j {
      assert Apart(Sections(data)[i], Sections(data)[j]);
    } else if j < i {
      assert Apart(Sections(data)[j], Sections(data)[i]);
    }
  }
}
