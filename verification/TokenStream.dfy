/** A frame as a list of fields: the common ground of encoders (printing) and decoders (scanning). */
module TokenStream {
  import opened Optional
  import opened Bytes
  import opened Scanner

  /** A field with the number of bytes it takes on the wire. */
  datatype Tok = Tok(tag: nat, text: Text, width: nat)

  /** Fields up to the end of the frame, or up to the first malformed one. */
  datatype Stream = End(error: Option<ScanError>) | Next(tok: Tok, rest: Stream)

  function Size(st: Stream): nat {
    match st
    case End(_) => 0
    case Next(_, rest) => 1 + Size(rest)
  }

  /** Bytes taken by the fields of a stream. */
  function Width(st: Stream): nat {
    match st
    case End(_) => 0
    case Next(tok, rest) => tok.width + Width(rest)
  }

  /** Scanning a frame field by field. */
  function Tokenize(s: Text, pos: nat, delim: Byte): Stream
    decreases |s| - pos
  {
    if pos >= |s| then End(None)
    else
      match ScanField(s, pos, delim)
      case Fail(e) => End(Some(e))
      case Field(tag, _, offset, length, next) =>
        Next(Tok(tag, s[offset..offset + length], next - pos), Tokenize(s, next, delim))
  }

  /** Why a stream ends. */
  function Tail(st: Stream): Option<ScanError> {
    if st.End? then st.error else Tail(st.rest)
  }

  /** A frame scanned to its end is covered by its fields. */
  lemma {:induction false} TokenizeWidth(s: Text, pos: nat, delim: Byte)
    requires pos <= |s| && Tail(Tokenize(s, pos, delim)).None?
    ensures Width(Tokenize(s, pos, delim)) == |s| - pos
    decreases |s| - pos
  {
    hide TagStop, TagValue, FindByte;
    var st := Tokenize(s, pos, delim);
    if st.Next? {
      TokenizeWidth(s, pos + st.tok.width, delim);
    }
  }

  // ---------------------------------------------------------------- printing

  function MakeTok(tag: nat, text: Text): Tok {
    Tok(tag, text, |Digits(tag)| + |text| + 2)
  }

  /** Wire bytes of a list of fields. */
  function Wire(st: Stream, delim: Byte): Text {
    match st
    case End(_) => []
    case Next(tok, rest) => FieldText(tok.tag, tok.text, delim) + Wire(rest, delim)
  }

  /** `k` in place of the end of `st`. */
  function Append(st: Stream, k: Stream): Stream {
    match st
    case End(_) => k
    case Next(tok, rest) => Next(tok, Append(rest, k))
  }

  lemma {:induction false} AppendAssoc(a: Stream, b: Stream, c: Stream)
    ensures Append(Append(a, b), c) == Append(a, Append(b, c))
  {
    if a.Next? {
      AppendAssoc(a.rest, b, c);
    }
  }

  lemma {:induction false} WireAppend(st: Stream, k: Stream, delim: Byte)
    ensures Wire(Append(st, k), delim) == Wire(st, delim) + Wire(k, delim)
  {
    if st.Next? {
      WireAppend(st.rest, k, delim);
    }
  }

  /** Fields that survive printing: a scannable tag and a value without the delimiter. */
  predicate Printable(st: Stream, delim: Byte) {
    match st
    case End(error) => error.None?
    case Next(tok, rest) =>
      && 1 <= tok.tag < 100000 && delim !in tok.text && tok == MakeTok(tok.tag, tok.text)
      && Printable(rest, delim)
  }

  predicate At(s: Text, pos: nat, t: Text) {
    pos + |t| <= |s| && s[pos..pos + |t|] == t
  }

  lemma AtSplit(s: Text, pos: nat, a: Text, b: Text)
    requires At(s, pos, a + b)
    ensures At(s, pos, a) && At(s, pos + |a|, b)
  {
    var t := s[pos..pos + |a + b|];
    assert t[..|a|] == a && t[|a|..] == b;
    assert s[pos..pos + |a|] == t[..|a|];
    assert s[pos + |a|..pos + |a| + |b|] == t[|a|..];
  }

  lemma TokenizeStep(s: Text, pos: nat, tok: Tok, delim: Byte)
    requires SafeDelimiter(delim) && 1 <= tok.tag < 100000 && delim !in tok.text && tok == MakeTok(tok.tag, tok.text)
    requires At(s, pos, FieldText(tok.tag, tok.text, delim))
    ensures Tokenize(s, pos, delim) == Next(tok, Tokenize(s, pos + tok.width, delim))
  {
    ScanOfFieldText(s, pos, tok.tag, tok.text, delim);
  }

  lemma TokenizeEnd(s: Text, pos: nat, delim: Byte)
    requires pos >= |s|
    ensures Tokenize(s, pos, delim) == End(None)
  {
  }

  lemma FieldTextWidth(tag: nat, text: Text, delim: Byte)
    ensures |FieldText(tag, text, delim)| == MakeTok(tag, text).width
  {
  }

  /** Scanning what was printed gives the printed fields back. */
  lemma {:induction false} TokenizeWire(s: Text, pos: nat, st: Stream, delim: Byte)
    requires SafeDelimiter(delim) && Printable(st, delim)
    requires At(s, pos, Wire(st, delim)) && pos + |Wire(st, delim)| == |s|
    ensures Tokenize(s, pos, delim) == st
    decreases st
  {
    hide FieldText, Digits, At, Tokenize;
    if st.End? {
      TokenizeEnd(s, pos, delim);
    } else {
      FieldTextWidth(st.tok.tag, st.tok.text, delim);
      AtSplit(s, pos, FieldText(st.tok.tag, st.tok.text, delim), Wire(st.rest, delim));
      TokenizeStep(s, pos, st.tok, delim);
      TokenizeWire(s, pos + st.tok.width, st.rest, delim);
    }
  }
}
