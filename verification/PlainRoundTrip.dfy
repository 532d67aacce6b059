/** A message of a type that the dictionary does not list decodes to its lines, groups flattened, in insertion order. */
module PlainRoundTrip {
  import opened Optional
  import opened Bytes
  import opened FixTags
  import opened Dictionary
  import opened Scanner
  import opened TokenStream
  import opened ParsedTree
  import opened Decoder
  import opened OwnedMessage
  import opened Encoder
  import opened EncoderSplit
  import opened RootSoundness
  import opened Reading
  import opened ReadingStored
  import opened DecodeOutcome
  import opened PlainContent
  import F = Framing
  import T = FrameRoundTrip

  /** Each field of a stream on its own. */
  function Flat(st: Stream): seq<Node> {
    match st
    case End(_) => []
    case Next(tok, rest) => [Scalar(tok)] + Flat(rest)
  }

  /** Fields that neither frame nor end a message, nor switch rules on, and whose header values are proper. */
  predicate Loose(d: Dict, st: Stream) {
    match st
    case End(error) => error.None?
    case Next(tok, rest) =>
      && !IsFrameTag(tok.tag) && (tok.tag == MSG_TYPE ==> tok.text !in d.messages) && HeaderRefusal(tok).None?
      && Loose(d, rest)
  }

  lemma {:induction false} FlatReads(d: Dict, st: Stream, k: Stream)
    requires Loose(d, st) && k.Next? && k.tok.tag == CHECK_SUM
    ensures ReadRoot(d, None, Append(st, k)) == Fields(Flat(st), k) && RootRefusal(Flat(st)).None?
  {
    if st.Next? {
      FlatReads(d, st.rest, k);
      RootRefusalFirst(Scalar(st.tok), Flat(st.rest));
    }
  }

  lemma {:induction false} FlatCount(st: Stream, d: Dict, k: Stream)
    requires Loose(d, st) && k.Next? && k.tok.tag == CHECK_SUM && StripRoot(Flat(st), Append(st, k)).Some?
    ensures RootCount(Flat(st), Append(st, k)) == |Flat(st)| + 1
  {
    if st.Next? {
      assert Flat(st)[1..] == Flat(st.rest);
      FlatCount(st.rest, d, k);
    }
  }

  /** A frame of loose fields decodes, and its reading is these fields. */
  lemma LooseDecodes(d: Dict, begin: Text, inner: Stream, delim: Byte, dl: Byte, verify: bool)
    requires SafeDelimiter(dl) && NormalizeDelimiter(delim) == dl && dl !in begin && Printable(inner, dl)
    requires Loose(d, inner) && inner.Next? && |Wire(inner, dl)| < 0x1_0000_0000
    ensures
      var s := T.FrameBytes(begin, inner, dl);
      && Decode(d, s, delim, verify).Done? && OpenFrame(Tokenize(s, 0, dl)).Done?
      && FrameReading(d, s, dl).nodes == Flat(inner) && Decode(d, s, delim, verify).value.beginString == begin
  {
    hide Tokenize, OpenFrame, GenericLoop, ReadRoot, Wire, Printable, CloseFrame, ThreeDigits, StripRoot, RootCount;
    hide RootRefusal, HeaderReads, ParseUnsigned, UpsertAll, StoredGroups, T.FrameBytes, Loose;
    var s, n := T.FrameBytes(begin, inner, dl), T.FrameSum(begin, inner, dl);
    var k := Next(T.SumTok(n), E);
    var f := T.FieldsFramed(begin, inner, dl);
    ThreeDigitsParse(n);
    FlatReads(d, inner, k);
    var r0 := StartRoot(f.rest);
    LoopOutcome(d, r0, None);
    LoopStored(d, r0, None);
    LoopCounts(d, r0, None);
    FlatCount(inner, d, k);
    assert Flat(inner) != [];
    var r := GenericLoop(d, r0, None).value;
    assert Width(k) == k.tok.width;
    assert T.ReadAll(r, n);
    T.DecodeSteps(d, s, delim, verify, f, r);
  }

  // ---------------------------------------------------------------- header and lines

  predicate LineOk(l: Line, delim: Byte) {
    1 <= l.tag < 100000 && !IsEnvelopeTag(l.tag) && delim !in l.text
  }

  predicate LinesOk(lines: seq<Line>, delim: Byte) {
    forall i :: 0 <= i < |lines| ==> LineOk(lines[i], delim)
  }

  function LineNodes(lines: seq<Line>): seq<Node> {
    if lines == [] then [] else [Scalar(MakeTok(lines[0].tag, lines[0].text))] + LineNodes(lines[1..])
  }

  lemma {:induction false} LinesLoose(d: Dict, lines: seq<Line>, delim: Byte)
    requires LinesOk(lines, delim)
    ensures Loose(d, Printed(lines, E)) && Printable(Printed(lines, E), delim)
    ensures Flat(Printed(lines, E)) == LineNodes(lines)
  {
    if lines != [] {
      assert LineOk(lines[0], delim);
      assert LinesOk(lines[1..],
          delim) by { assert forall i :: 0 <= i < |lines| - 1 ==> lines[1..][i] == lines[i + 1]; }
      LinesLoose(d, lines[1..], delim);
    }
  }

  lemma {:induction false} HeaderLoose(d: Dict, st: Stream, lo: nat, delim: Byte)
    requires T.HeaderOk(d, st, lo, delim)
    ensures Loose(d, st) && Printable(st, delim)
    decreases st
  {
    if st.Next? {
      HeaderLoose(d, st.rest, T.HeaderRank(st.tok.tag) + 1, delim);
    }
  }

  lemma {:induction false} LooseBoth(d: Dict, a: Stream, b: Stream, delim: Byte)
    requires Loose(d, a) && Loose(d, b) && Printable(a, delim) && Printable(b, delim)
    ensures Loose(d, Append(a, b)) && Printable(Append(a, b), delim) && Flat(Append(a, b)) == Flat(a) + Flat(b)
  {
    if a.Next? {
      LooseBoth(d, a.rest, b, delim);
    }
  }

  /** The MsgType that is printed. */
  function SentType(msgType: Text): Text {
    if msgType == [] then F.UNKNOWN else msgType
  }

  ghost predicate Unlisted(d: Dict, msgType: Text, m: Message, o: F.Options, now: Text, delim: Byte) {
    && SafeDelimiter(delim) && NormalizeDelimiter(o.delimiter) == delim && delim !in F.BeginString(o)
    && SentType(msgType) !in d.messages && delim !in SentType(msgType)
    && T.OptionsOk(d, msgType, o, now, delim) && LinesOk(Lines(m, true), delim)
  }

  lemma HeaderFlat(d: Dict, msgType: Text, o: F.Options, now: Text, delim: Byte)
    requires SentType(msgType) !in d.messages && delim !in SentType(msgType) && T.OptionsOk(d, msgType, o, now, delim)
    ensures
      var h := F.EmitHeader(msgType, o, now, E);
      h.Next? && Loose(d, h) && Printable(h, delim)
  {
    hide T.OptionsOk, T.HeaderOk, F.EmitParties;
    T.HeaderRestOk(d, msgType, o, now, delim);
    HeaderLoose(d, T.HeaderRest(msgType, o, now), 1, delim);
  }

  /** What the encoder writes around an unlisted message. */
  lemma UnlistedStream(d: Dict, msgType: Text, m: Message, o: F.Options, now: Text, delim: Byte)
    requires Unlisted(d, msgType, m, o, now, delim)
    ensures
      var inner := F.EmitHeader(msgType, o, now, F.EmitMessage(d, msgType, m, E));
      && inner.Next? && Loose(d, inner) && Printable(inner, delim)
      && Flat(inner) == Flat(F.EmitHeader(msgType, o, now, E)) + LineNodes(Lines(m, true))
  {
    hide T.OptionsOk, F.EmitHeader, Lines, LinesOk, PlainBody, Loose, Printable, Flat, Printed;
    var h, body := F.EmitHeader(msgType, o, now, E), Printed(Lines(m, true), E);
    PlainPrints(m, true, E);
    LinesLoose(d, Lines(m, true), delim);
    HeaderFlat(d, msgType, o, now, delim);
    LooseBoth(d, h, body, delim);
    T.SplitHeader(msgType, o, now, body);
  }

  /**
   * Every printable message of an unlisted type decodes: the header fields, then the message's lines in insertion
   * order, with the fields of groups behind their counts.
   */
  lemma DecodeOfUnlisted(d: Dict, msgType: Text, m: Message, o: F.Options, now: Text, delim: Byte, verify: bool)
    requires Unlisted(d, msgType, m, o, now, delim) && F.GenericFrame(d, msgType, m, o, now).Encoded?
    requires |Wire(F.EmitHeader(msgType, o, now, F.EmitMessage(d, msgType, m, E)), delim)| < 0x1_0000_0000
    ensures
      var s := F.GenericFrame(d, msgType, m, o, now).bytes;
      && Decode(d, s, o.delimiter, verify).Done? && OpenFrame(Tokenize(s, 0, delim)).Done?
      && Decode(d, s, o.delimiter, verify).value.beginString == F.BeginString(o)
      && FrameReading(d, s, delim).nodes == Flat(F.EmitHeader(msgType, o, now, E)) + LineNodes(Lines(m, true))
  {
    hide Wire, F.EmitHeader, F.EmitMessage, Tokenize, Decode, FrameReading, Lines, LinesOk, Digits, Loose, Printable;
    hide F.Opened, F.CheckSumField, T.OptionsOk;
    var inner := F.EmitHeader(msgType, o, now, F.EmitMessage(d, msgType, m, E));
    UnlistedStream(d, msgType, m, o, now, delim);
    LooseDecodes(d, F.BeginString(o), inner, o.delimiter, delim, verify);
  }
}
