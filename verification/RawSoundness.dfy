/** Which bytes the pass-through decoder accepts, and what they are: for every frame, offset and delimiter. */
module RawSoundness {
  import opened Optional
  import opened Bytes
  import opened FixTags
  import opened Scanner
  import opened TokenStream
  import opened RawPassThrough

  /** A field as it stands in the bytes: the text of its tag and its value. */
  datatype Piece = Piece(name: Text, text: Text)

  function PieceText(p: Piece, delim: Byte): Text {
    p.name + [EQUALS] + p.text + [delim]
  }

  predicate PieceOk(p: Piece, delim: Byte) {
    && delim != EQUALS && EQUALS !in p.name && delim !in p.name && delim !in p.text
    && p.name != [] && ParseUnsigned(p.name).Some?
  }

  function TagOf(p: Piece): nat {
    ParseOrZero(p.name)
  }

  /** The field stands at the position. */
  predicate Stands(s: Text, pos: nat, p: Piece, delim: Byte) {
    PieceOk(p, delim) && At(s, pos, PieceText(p, delim))
  }

  function Glued(ps: seq<Piece>, delim: Byte): Text {
    if ps == [] then [] else PieceText(ps[0], delim) + Glued(ps[1..], delim)
  }

  /** Text of the last of the fields with the tag. */
  function LastPiece(ps: seq<Piece>, tag: nat): Option<Text>
    decreases |ps|
  {
    if ps == [] then None
    else
      var later := LastPiece(ps[1..], tag);
      if later.Some? then later else if TagOf(ps[0]) == tag then Some(ps[0].text) else None
  }

  // ---------------------------------------------------------------- one field

  /** Where a field's parts stand. */
  lemma PieceLayout(s: Text, pos: nat, p: Piece, delim: Byte)
    requires At(s, pos, PieceText(p, delim))
    ensures
      var q, end := pos + |p.name|, pos + |p.name| + 1 + |p.text|;
      end < |s| && s[pos..q] == p.name && s[q] == EQUALS && s[q + 1..end] == p.text && s[end] == delim
  {
    var f, k := PieceText(p, delim), |p.name|;
    FieldTextParts(p.name, p.text, delim);
    PartOf(s, pos, f, 0, k);
    PartAt(s, pos, f, k);
    PartOf(s, pos, f, k + 1, k + 1 + |p.text|);
    PartAt(s, pos, f, k + 1 + |p.text|);
  }

  lemma PieceScans(s: Text, pos: nat, p: Piece, delim: Byte)
    requires Stands(s, pos, p, delim)
    ensures
      var q := pos + |p.name|;
      && RawScan(s, pos, delim) == Some(RawField(TagOf(p), q + 1, |p.text|, q + |p.text| + 2))
      && ValueAt(s, RawScan(s, pos, delim).value) == p.text
  {
    hide FindByte, ParseUnsigned;
    var q, end := pos + |p.name|, pos + |p.name| + 1 + |p.text|;
    PieceLayout(s, pos, p, delim);
    forall i | pos <= i < q ensures s[i] != EQUALS && s[i] != delim {
      assert s[i] == p.name[i - pos];
    }
    FindByteFirst(s, pos, q, EQUALS);
    forall i | pos <= i < end ensures s[i] != delim {
      if i > q {
        assert s[i] == p.text[i - q - 1];
      }
    }
    FindByteFirst(s, pos, end, delim);
  }

  /** Whatever is scanned is a field that stands there. */
  lemma ScannedStands(s: Text, pos: nat, delim: Byte) returns (p: Piece)
    requires RawScan(s, pos, delim).Some?
    ensures Stands(s, pos, p, delim) && RawScan(s, pos, delim).value.next == pos + |PieceText(p, delim)|
    ensures RawScan(s, pos, delim).value.tag == TagOf(p) && ValueAt(s, RawScan(s, pos, delim).value) == p.text
  {
    hide ParseUnsigned;
    var end, eq := FindByte(s, pos, delim), FindByte(s, pos, EQUALS);
    ByteFound(s, pos, delim);
    ByteFound(s, pos, EQUALS);
    p := Piece(s[pos..eq], s[eq + 1..end]);
    assert s[pos..end + 1] == s[pos..eq] + [s[eq]] + s[eq + 1..end] + [s[end]];
    assert |PieceText(p, delim)| == end + 1 - pos;
  }

  // ---------------------------------------------------------------- the header

  /** A field that is no header field starts here. */
  ghost predicate StartsBody(s: Text, pos: nat, delim: Byte) {
    exists p :: Stands(s, pos, p, delim) && !IsEnvelopeTag(TagOf(p))
  }

  /** Header fields one behind the other from `pos`, up to `end` or, with no known end, to the first other field. */
  ghost predicate HeaderReads(s: Text, pos: nat, end: nat, delim: Byte, known: bool, ps: seq<Piece>)
    decreases |ps|
  {
    if ps == [] then pos >= end || (!known && StartsBody(s, pos, delim))
    else
      && pos < end && Stands(s, pos, ps[0], delim) && IsEnvelopeTag(TagOf(ps[0]))
      && HeaderReads(s, pos + |PieceText(ps[0], delim)|, end, delim, known, ps[1..])
  }

  /** The texts of `h` are the last ones of the fields, on top of `texts`. */
  ghost predicate TextsLast(texts: map<nat, Text>, after: map<nat, Text>, ps: seq<Piece>) {
    forall t :: (if t in after then Some(after[t]) else None)
      == if LastPiece(ps, t).Some? then LastPiece(ps, t) else if t in texts then Some(texts[t]) else None
  }

  lemma TextsNext(texts: map<nat, Text>, after: map<nat, Text>, p: Piece, ps: seq<Piece>)
    requires TextsLast(texts[TagOf(p) := p.text], after, ps)
    ensures TextsLast(texts, after, [p] + ps)
  {
    hide TagOf;
    assert ([p] + ps)[1..] == ps;
  }

  lemma {:induction false} HeaderStands(s: Text, pos: nat, end: nat, delim: Byte, known: bool, texts: map<nat, Text>)
    returns (ps: seq<Piece>)
    requires RawHeader(s, pos, end, delim, known, texts).Some?
    ensures
      var h := RawHeader(s, pos, end, delim, known, texts).value;
      && HeaderReads(s, pos, end, delim, known, ps) && h.pos == pos + |Glued(ps, delim)|
      && TextsLast(texts, h.texts, ps)
    decreases |s| - pos
  {
    hide RawScan, Stands, IsEnvelopeTag, PieceText, TagOf;
    ps := [];
    if pos < end {
      var f := RawScan(s, pos, delim).value;
      var p := ScannedStands(s, pos, delim);
      if IsEnvelopeTag(f.tag) {
        var more := HeaderStands(s, f.next, end, delim, known, texts[f.tag := ValueAt(s, f)]);
        ps := [p] + more;
        assert ps[1..] == more;
        TextsNext(texts, RawHeader(s, pos, end, delim, known, texts).value.texts, p, more);
      }
    }
  }

  /** Fields that stand one behind the other are read, and only one list of fields can be. */
  lemma {:induction false} StandingRead(
      s: Text, pos: nat, end: nat, delim: Byte, known: bool, texts: map<nat, Text>, ps: seq<Piece>)
    requires HeaderReads(s, pos, end, delim, known, ps)
    ensures
      var h := RawHeader(s, pos, end, delim, known, texts);
      h.Some? && h.value.pos == pos + |Glued(ps, delim)| && TextsLast(texts, h.value.texts, ps)
    decreases |ps|
  {
    hide RawScan, IsEnvelopeTag, PieceText, TagOf, Stands;
    if ps == [] {
      if pos < end {
        var p :| Stands(s, pos, p, delim) && !IsEnvelopeTag(TagOf(p));
        PieceScans(s, pos, p, delim);
      }
    } else {
      PieceScans(s, pos, ps[0], delim);
      PieceWidth(ps[0], delim);
      StandingRead(s, pos + |PieceText(ps[0], delim)|, end, delim, known, texts[TagOf(ps[0]) := ps[0].text], ps[1..]);
      assert [ps[0]] + ps[1..] == ps;
      TextsNext(texts, RawHeader(s, pos, end, delim, known, texts).value.texts, ps[0], ps[1..]);
    }
  }

  lemma PieceWidth(p: Piece, delim: Byte)
    ensures |PieceText(p, delim)| == |p.name| + |p.text| + 2
  {
  }

  // ---------------------------------------------------------------- the frame

  /** BeginString, BodyLength and a final CheckSum field, with a right BodyLength and, if asked for, a right sum. */
  predicate FrameStands(s: Text, delim: Byte, verify: bool, begin: Piece, length: Piece) {
    var at, start := |PieceText(begin, delim)|, |PieceText(begin, delim)| + |PieceText(length, delim)|;
    && Stands(s, 0, begin, delim) && TagOf(begin) == 8 && Stands(s, at, length, delim) && TagOf(length) == 9
    && |s| == start + ParseOrZero(length.text) + 7
    && s[|s| - 7] == 49 && s[|s| - 6] == 48 && s[|s| - 5] == EQUALS && s[|s| - 1] == delim
    && (verify ==> Sum(s[..|s| - 7]) % 256 == ParseOrZero(s[|s| - 4..|s| - 1]))
  }

  function StartOf(delim: Byte, begin: Piece, length: Piece): nat {
    |PieceText(begin, delim)| + |PieceText(length, delim)|
  }

  lemma FramedStands(s: Text, delim: Byte, verify: bool) returns (begin: Piece, length: Piece)
    requires Framed(s, delim, verify).Some?
    ensures FrameStands(s, delim, verify, begin, length)
    ensures Framed(s, delim, verify) == Some((begin.text, StartOf(delim, begin, length)))
  {
    hide RawScan, Stands, PieceText, Sum, ParseUnsigned;
    begin := ScannedStands(s, 0, delim);
    length := ScannedStands(s, RawScan(s, 0, delim).value.next, delim);
  }

  lemma StandingFramed(s: Text, delim: Byte, verify: bool, begin: Piece, length: Piece)
    requires FrameStands(s, delim, verify, begin, length)
    ensures Framed(s, delim, verify) == Some((begin.text, StartOf(delim, begin, length)))
  {
    hide RawScan, Stands, PieceText, Sum, ParseUnsigned;
    PieceScans(s, 0, begin, delim);
    PieceWidth(begin, delim);
    PieceScans(s, |PieceText(begin, delim)|, length, delim);
    PieceWidth(length, delim);
  }

  /**
   * What the decoder says of a frame whose opening and header fields these are: the BeginString, the last text of each
   * header field, and the bytes from the known offset, or from behind the header, to the CheckSum field.
   */
  ghost predicate ViewOf(s: Text, known: Option<nat>, delim: Byte, begin: Piece, length: Piece, ps: seq<Piece>,
                         view: RawView)
  {
    var start, end := StartOf(delim, begin, length), |s| - 7;
    var stop := if known.Some? then known.value else end;
    && start <= stop <= end && HeaderReads(s, start, stop, delim, known.Some?, ps)
    && view.beginString == begin.text && TextsLast(map[], view.texts, ps)
    && view.bodyStart == (if known.Some? then known.value else (start + |Glued(ps, delim)|) % 0x1_0000_0000)
    && view.bodyStart <= end && view.body == s[view.bodyStart..end]
  }

  /** Every accepted frame, whatever its bytes, has the parts that the view gives. */
  lemma RawSound(s: Text, known: Option<nat>, delimiter: Byte, verify: bool)
    returns (begin: Piece, length: Piece, ps: seq<Piece>)
    requires DecodeRaw(s, known, delimiter, verify).Raw?
    ensures FrameStands(s, NormalizeDelimiter(delimiter), verify, begin, length)
    ensures ViewOf(s, known, NormalizeDelimiter(delimiter), begin, length, ps,
                   DecodeRaw(s, known, delimiter, verify).view)
  {
    hide Framed, FrameStands, RawHeader, PieceText, Glued, HeaderReads, TextsLast, StartOf;
    var delim := NormalizeDelimiter(delimiter);
    begin, length := FramedStands(s, delim, verify);
    var start := StartOf(delim, begin, length);
    ps := HeaderStands(s, start, if known.Some? then known.value else |s| - 7, delim, known.Some?, map[]);
  }

  lemma TextsUnique(a: map<nat, Text>, b: map<nat, Text>, ps: seq<Piece>)
    requires TextsLast(map[], a, ps) && TextsLast(map[], b, ps)
    ensures a == b
  {
    hide LastPiece;
    forall t ensures t in a <==> t in b {
    }
    forall t | t in a ensures a[t] == b[t] {
    }
  }

  /** And every frame with such parts is accepted with this view: the decoder refuses nothing else. */
  lemma RawComplete(s: Text, known: Option<nat>, delimiter: Byte, verify: bool, begin: Piece, length: Piece,
                    ps: seq<Piece>, view: RawView)
    requires FrameStands(s, NormalizeDelimiter(delimiter), verify, begin, length)
    requires ViewOf(s, known, NormalizeDelimiter(delimiter), begin, length, ps, view)
    ensures DecodeRaw(s, known, delimiter, verify) == Raw(view)
  {
    hide Framed, FrameStands, RawHeader, PieceText, Glued, HeaderReads, TextsLast, StartOf;
    var delim := NormalizeDelimiter(delimiter);
    StandingFramed(s, delim, verify, begin, length);
    var start, stop := StartOf(delim, begin, length), if known.Some? then known.value else |s| - 7;
    StandingRead(s, start, stop, delim, known.Some?, map[], ps);
    TextsUnique(view.texts, RawHeader(s, start, stop, delim, known.Some?, map[]).value.texts, ps);
  }

  /** A wrong CheckSum is refused. */
  lemma WrongSumRefused(s: Text, known: Option<nat>, delimiter: Byte)
    requires |s| >= 7 && Sum(s[..|s| - 7]) % 256 != ParseOrZero(s[|s| - 4..|s| - 1])
    ensures DecodeRaw(s, known, delimiter, true) == Rejected
  {
    hide Sum, ParseOrZero, Framed, Stands;
    if Framed(s, NormalizeDelimiter(delimiter), true).Some? {
      var begin, length := FramedStands(s, NormalizeDelimiter(delimiter), true);
    }
  }

  /** A frame below 4 GiB, or one with a known offset at the end of a field, is its parts put together. */
  lemma RawWhole(s: Text, known: Option<nat>, delimiter: Byte, verify: bool, begin: Piece, length: Piece,
                 ps: seq<Piece>, view: RawView)
    requires FrameStands(s, NormalizeDelimiter(delimiter), verify, begin, length)
    requires ViewOf(s, known, NormalizeDelimiter(delimiter), begin, length, ps, view)
    requires
      var stop := StartOf(NormalizeDelimiter(delimiter), begin, length) + |Glued(ps, NormalizeDelimiter(delimiter))|;
      if known.Some? then stop == known.value else stop < 0x1_0000_0000
    ensures
      var delim := NormalizeDelimiter(delimiter);
      s == PieceText(begin, delim) + PieceText(length, delim) + Glued(ps, delim) + view.body + s[|s| - 7..]
  {
    hide HeaderReads, PieceText, Glued, TextsLast, Sum, ParseOrZero, PieceOk;
    var delim := NormalizeDelimiter(delimiter);
    var a, b, c := PieceText(begin, delim), PieceText(length, delim), Glued(ps, delim);
    GluedStands(s, StartOf(delim, begin, length), if known.Some? then known.value else |s| - 7, delim, known.Some?, ps);
    assert s[..|a|] == a && s[|a|..|a| + |b|] == b && s[|a| + |b|..|a| + |b| + |c|] == c;
    Four(s, |a|, |a| + |b|, |a| + |b| + |c|, |s| - 7);
  }

  lemma Four(s: Text, i: nat, j: nat, k: nat, l: nat)
    requires i <= j <= k <= l <= |s|
    ensures s == s[..i] + s[i..j] + s[j..k] + s[k..l] + s[l..]
  {
  }

  lemma {:induction false} GluedStands(s: Text, pos: nat, end: nat, delim: Byte, known: bool, ps: seq<Piece>)
    requires HeaderReads(s, pos, end, delim, known, ps) && pos <= |s|
    ensures At(s, pos, Glued(ps, delim))
    decreases |ps|
  {
    hide PieceText, PieceOk, IsEnvelopeTag;
    if ps != [] {
      var a, b := PieceText(ps[0], delim), Glued(ps[1..], delim);
      GluedStands(s, pos + |a|, end, delim, known, ps[1..]);
      Joined(s, pos, a, b);
    }
  }

  lemma Joined(s: Text, pos: nat, a: Text, b: Text)
    requires At(s, pos, a) && At(s, pos + |a|, b)
    ensures At(s, pos, a + b)
  {
    assert s[pos..pos + |a| + |b|] == s[pos..pos + |a|] + s[pos + |a|..pos + |a| + |b|];
  }
}
