/** Decoding a frame for pass-through: the session header is read, the body stays raw bytes. */
module RawPassThrough {
  import opened Optional
  import opened Bytes
  import opened FixTags
  import opened Scanner
  import opened TokenStream

  datatype RawField = RawField(tag: nat, offset: nat, length: nat, next: nat)

  /** A header as the last text of each envelope tag, and the body between header and CheckSum. */
  datatype RawView = RawView(beginString: Text, texts: map<nat, Text>, body: Text, bodyStart: nat)

  /** `Overrun` is a body that would end before it starts: a header field runs into the CheckSum field. */
  datatype RawOutcome = Raw(view: RawView) | Rejected | Overrun

  function TextOf(texts: map<nat, Text>, tag: nat): Text {
    if tag in texts then texts[tag] else []
  }

  /** A field from its delimiter back: everything up to the first `=` must be the tag. */
  function RawScan(s: Text, pos: nat, delim: Byte): (r: Option<RawField>)
    ensures r.Some? ==> pos < r.value.next <= |s| && r.value.offset + r.value.length <= |s|
  {
    if pos >= |s| then None
    else
      var end := FindByte(s, pos, delim);
      if end >= |s| || end == pos then None
      else
        var eq := FindByte(s, pos, EQUALS);
        if eq >= end || eq == pos then None
        else
          match ParseUnsigned(s[pos..eq])
          case None => None
          case Some(tag) => Some(RawField(tag, eq + 1, end - eq - 1, end + 1))
  }

  function ParseOrZero(s: Text): nat {
    var n := ParseUnsigned(s);
    if n.Some? then n.value else 0
  }

  function ValueAt(s: Text, f: RawField): Text
    requires f.offset + f.length <= |s|
  {
    s[f.offset..f.offset + f.length]
  }

  datatype HeaderEnd = HeaderEnd(pos: nat, texts: map<nat, Text>)

  /** Header fields from `pos` to `end`; a known end must be met, otherwise the first other field stops the loop. */
  function RawHeader(s: Text, pos: nat, end: nat, delim: Byte, known: bool, texts: map<nat, Text>): Option<HeaderEnd>
    decreases |s| - pos
  {
    if pos >= end then Some(HeaderEnd(pos, texts))
    else
      match RawScan(s, pos, delim)
      case None => None
      case Some(f) =>
        if !IsEnvelopeTag(f.tag) then (if known then None else Some(HeaderEnd(pos, texts)))
        else RawHeader(s, f.next, end, delim, known, texts[f.tag := ValueAt(s, f)])
  }

  /** The last seven bytes are a CheckSum field. */
  predicate EndsInCheckSum(s: Text, delim: Byte) {
    |s| >= 7 && s[|s| - 7] == 49 && s[|s| - 6] == 48 && s[|s| - 5] == EQUALS && s[|s| - 1] == delim
  }

  /** The body starts at the known offset, or behind the header in 32 bits. */
  function Body(s: Text, begin: Text, start: nat, end: nat, known: Option<nat>, delim: Byte): RawOutcome
    requires end <= |s|
  {
    var scanEnd := if known.Some? then known.value else end;
    if scanEnd < start || scanEnd > end then Rejected
    else
      match RawHeader(s, start, scanEnd, delim, known.Some?, map[])
      case None => Rejected
      case Some(h) =>
        var at := if known.Some? then known.value else h.pos % 0x1_0000_0000;
        if at > end then Overrun else Raw(RawView(begin, h.texts, s[at..end], at))
  }

  /** BeginString and the first byte behind BodyLength, once framing, CheckSum and BodyLength are right. */
  function Framed(s: Text, delim: Byte, verify: bool): (r: Option<(Text, nat)>)
    ensures r.Some? ==> EndsInCheckSum(s, delim) && r.value.1 <= |s| - 7
  {
    var f0 := RawScan(s, 0, delim);
    if f0.None? || f0.value.tag != BEGIN_STRING then None
    else
      var f1 := RawScan(s, f0.value.next, delim);
      if f1.None? || f1.value.tag != BODY_LENGTH then None
      else if !EndsInCheckSum(s, delim) then None
      else
        var end := |s| - 7;
        if verify && Sum(s[..end]) % 256 != ParseOrZero(s[|s| - 4..|s| - 1]) then None
        else if ParseOrZero(ValueAt(s, f1.value)) != end - f1.value.next then None
        else Some((ValueAt(s, f0.value), f1.value.next))
  }

  function DecodeRaw(s: Text, known: Option<nat>, delimiter: Byte, verify: bool): RawOutcome {
    var delim := NormalizeDelimiter(delimiter);
    match Framed(s, delim, verify)
    case None => Rejected
    case Some((begin, start)) => Body(s, begin, start, |s| - 7, known, delim)
  }

  // ---------------------------------------------------------------- when the header overruns

  /** Every field that starts before `end` is a header field. */
  predicate OnlyHeader(s: Text, pos: nat, end: nat, delim: Byte)
    decreases |s| - pos
  {
    pos >= end
    || (var f := RawScan(s, pos, delim);
        f.Some? && IsEnvelopeTag(f.value.tag) && OnlyHeader(s, f.value.next, end, delim))
  }

  lemma {:induction false} ByteFound(s: Text, from: nat, b: Byte)
    requires from <= |s|
    ensures from <= FindByte(s, from, b) < |s| ==> s[FindByte(s, from, b)] == b
    ensures forall i :: from <= i < FindByte(s, from, b) ==> s[i] != b
    decreases |s| - from
  {
    if from < |s| && s[from] != b {
      ByteFound(s, from + 1, b);
    }
  }

  /** A scanned field ends with the first delimiter behind its start. */
  lemma ScannedEnd(s: Text, pos: nat, delim: Byte)
    requires RawScan(s, pos, delim).Some?
    ensures
      var next := RawScan(s, pos, delim).value.next;
      s[next - 1] == delim && forall i :: pos <= i < next - 1 ==> s[i] != delim
  {
    ByteFound(s, pos, delim);
  }

  /** The header loop passes `end` exactly when only header fields start before it and none ends there. */
  lemma {:induction false} HeaderOverruns(s: Text, pos: nat, end: nat, delim: Byte, texts: map<nat, Text>)
    requires 0 < pos <= end <= |s| && s[pos - 1] == delim
    ensures
      var h := RawHeader(s, pos, end, delim, false, texts);
      && (h.Some? && h.value.pos > end <==> OnlyHeader(s, pos, end, delim) && s[end - 1] != delim)
      && (h.Some? && h.value.pos > end ==> h.value.pos == FindByte(s, end, delim) + 1)
    decreases |s| - pos
  {
    if pos < end {
      var f := RawScan(s, pos, delim);
      if f.Some? && IsEnvelopeTag(f.value.tag) {
        ScannedEnd(s, pos, delim);
        if f.value.next > end {
          FindByteFirst(s, end, f.value.next - 1, delim);
        } else {
          HeaderOverruns(s, f.value.next, end, delim, texts[f.value.tag := ValueAt(s, f.value)]);
        }
      }
    }
  }

  lemma FramedStart(s: Text, delim: Byte, verify: bool)
    requires Framed(s, delim, verify).Some?
    ensures var start := Framed(s, delim, verify).value.1; 0 < start && s[start - 1] == delim
  {
    ScannedEnd(s, RawScan(s, 0, delim).value.next, delim);
  }

  /**
   * The body of a frame is undefined exactly when no offset is known, every field behind BodyLength is a
   * header field, the byte before the CheckSum field is no delimiter, and the first delimiter from there on lies
   * within 32 bits.
   */
  lemma OverrunExactly(s: Text, known: Option<nat>, delimiter: Byte, verify: bool)
    ensures DecodeRaw(s, known, delimiter, verify) == Overrun
       <==> known.None? && Overrunning(s, NormalizeDelimiter(delimiter), verify)
  {
    hide RawScan, RawHeader, Framed, OnlyHeader, FindByte, Body, EndsInCheckSum;
    var delim := NormalizeDelimiter(delimiter);
    if Framed(s, delim, verify).Some? {
      FramedStart(s, delim, verify);
      HeaderOverruns(s, Framed(s, delim, verify).value.1, |s| - 7, delim, map[]);
      BodyOverruns(s, Framed(s, delim, verify).value.0, Framed(s, delim, verify).value.1, |s| - 7, known, delim);
    }
  }

  predicate Overrunning(s: Text, delim: Byte, verify: bool) {
    && Framed(s, delim, verify).Some?
    && OnlyHeader(s, Framed(s, delim, verify).value.1, |s| - 7, delim) && |s| >= 8 && s[|s| - 8] != delim
    && FindByte(s, |s| - 7, delim) + 1 < 0x1_0000_0000
  }

  lemma BodyOverruns(s: Text, begin: Text, start: nat, end: nat, known: Option<nat>, delim: Byte)
    requires start <= end == |s| - 7
    requires
      var h := RawHeader(s, start, end, delim, false, map[]);
      h.Some? && h.value.pos > end ==> h.value.pos == FindByte(s, end, delim) + 1
    ensures
      var h := RawHeader(s, start, end, delim, false, map[]);
      (Body(s, begin, start, end, known, delim) == Overrun)
      <==> known.None? && h.Some? && h.value.pos > end && FindByte(s, end, delim) + 1 < 0x1_0000_0000
  {
    hide RawHeader;
    var h := RawHeader(s, start, end, delim, false, map[]);
    if known.None? && h.Some? && h.value.pos > end && h.value.pos >= 0x1_0000_0000 {
      Wraps(h.value.pos, end);
    }
  }

  lemma Wraps(pos: nat, end: nat)
    requires end < pos <= end + 8 && pos >= 0x1_0000_0000
    ensures pos % 0x1_0000_0000 <= end
  {
  }

  // ---------------------------------------------------------------- the loop

  method ScanHeader(s: Text, start: nat, end: nat, delim: Byte, known: bool) returns (r: Option<HeaderEnd>)
    ensures r == RawHeader(s, start, end, delim, known, map[])
  {
    var texts: map<nat, Text> := map[];
    var pos := start;
    while pos < end
      invariant RawHeader(s, pos, end, delim, known, texts) == RawHeader(s, start, end, delim, known, map[])
      decreases |s| - pos
    {
      var f := RawScan(s, pos, delim);
      if f.None? {
        return None;
      }
      if !IsEnvelopeTag(f.value.tag) {
        if known {
          return None;
        }
        break;
      }
      texts := texts[f.value.tag := ValueAt(s, f.value)];
      pos := f.value.next;
    }
    r := Some(HeaderEnd(pos, texts));
  }

  method DecodeRawPassThrough(s: Text, known: Option<nat>, delimiter: Byte, verify: bool) returns (r: RawOutcome)
    ensures r == DecodeRaw(s, known, delimiter, verify)
  {
    hide RawScan, RawHeader, Sum;
    var delim := NormalizeDelimiter(delimiter);
    var f0 := RawScan(s, 0, delim);
    if f0.None? || f0.value.tag != BEGIN_STRING {
      return Rejected;
    }
    var f1 := RawScan(s, f0.value.next, delim);
    if f1.None? || f1.value.tag != BODY_LENGTH {
      return Rejected;
    }
    var declared := ParseOrZero(ValueAt(s, f1.value));
    if !EndsInCheckSum(s, delim) {
      return Rejected;
    }
    var end := |s| - 7;
    if verify {
      if Sum(s[..end]) % 256 != ParseOrZero(s[|s| - 4..|s| - 1]) {
        return Rejected;
      }
    }
    if declared != end - f1.value.next {
      return Rejected;
    }
    var scanEnd := if known.Some? then known.value else end;
    if scanEnd < f1.value.next || scanEnd > end {
      return Rejected;
    }
    var header := ScanHeader(s, f1.value.next, scanEnd, delim, known.Some?);
    if header.None? {
      return Rejected;
    }
    var at := if known.Some? then known.value else header.value.pos % 0x1_0000_0000;
    if at > end {
      return Overrun;
    }
    r := Raw(RawView(ValueAt(s, f0.value), header.value.texts, s[at..end], at));
  }

  // ---------------------------------------------------------------- scanning what was printed

  lemma FindByteFirst(s: Text, from: nat, end: nat, b: Byte)
    requires from <= end < |s| && s[end] == b && forall i :: from <= i < end ==> s[i] != b
    ensures FindByte(s, from, b) == end
    decreases end - from
  {
    if from < end {
      FindByteFirst(s, from + 1, end, b);
    }
  }

  lemma RawScanLayout(s: Text, pos: nat, tag: nat, q: nat, end: nat, delim: Byte)
    requires SafeDelimiter(delim) && tag < 0x1_0000_0000 && pos < q < end < |s|
    requires s[pos..q] == Digits(tag) && s[q] == EQUALS && delim !in s[q + 1..end] && s[end] == delim
    ensures RawScan(s, pos, delim) == Some(RawField(tag, q + 1, end - q - 1, end + 1))
  {
    ParseUnsignedOfDigits(tag);
    forall i | pos <= i < q ensures IsDigit(s[i]) {
      assert s[i] == s[pos..q][i - pos];
    }
    FindByteFirst(s, pos, q, EQUALS);
    forall i | pos <= i < end ensures s[i] != delim {
      if i > q {
        assert s[i] == s[q + 1..end][i - q - 1];
      }
    }
    FindByteFirst(s, pos, end, delim);
  }

  lemma RawScanOfField(s: Text, pos: nat, tag: nat, value: Text, delim: Byte)
    requires SafeDelimiter(delim) && tag < 0x1_0000_0000 && delim !in value
    requires At(s, pos, FieldText(tag, value, delim))
    ensures
      var k := |Digits(tag)|;
      && |FieldText(tag, value, delim)| == k + |value| + 2
      && RawScan(s, pos, delim) == Some(RawField(tag, pos + k + 1, |value|, pos + k + |value| + 2))
      && s[pos + k + 1..pos + k + 1 + |value|] == value
  {
    hide RawScan, FindByte, Digits;
    var q := pos + |Digits(tag)|;
    FieldTextLayout(s, pos, tag, value, delim);
    RawScanLayout(s, pos, tag, q, q + 1 + |value|, delim);
  }

  /** Header fields that survive printing. */
  predicate HeaderFields(h: Stream, delim: Byte) {
    match h
    case End(error) => error.None?
    case Next(tok, rest) =>
      && IsEnvelopeTag(tok.tag) && tok.tag < 0x1_0000_0000 && delim !in tok.text && HeaderFields(rest, delim)
  }

  /** Texts after a printed header. */
  function Gathered(h: Stream, texts: map<nat, Text>): map<nat, Text>
    decreases h
  {
    if h.End? then texts else Gathered(h.rest, texts[h.tok.tag := h.tok.text])
  }

  /** The loop passes over a printed header. */
  lemma {:induction false} PassesHeader(s: Text, pos: nat, h: Stream, end: nat, delim: Byte, known: bool,
      texts: map<nat, Text>)
    requires SafeDelimiter(delim) && HeaderFields(h, delim) && At(s, pos, Wire(h, delim))
      && pos + |Wire(h, delim)| <= end
    ensures RawHeader(s, pos, end, delim, known, texts)
         == RawHeader(s, pos + |Wire(h, delim)|, end, delim, known, Gathered(h, texts))
    decreases h
  {
    hide FieldText, RawScan, At, IsEnvelopeTag;
    if h.Next? {
      var f, w := FieldText(h.tok.tag, h.tok.text, delim), Wire(h.rest, delim);
      AtSplit(s, pos, f, w);
      RawScanOfField(s, pos, h.tok.tag, h.tok.text, delim);
      PassesHeader(s, pos + |f|, h.rest, end, delim, known, texts[h.tok.tag := h.tok.text]);
    }
  }

  /** The frame 8=X, 9=4, 49=A with no delimiter in front of its CheckSum field. */
  const OVERRUNNING: Text := [56, 61, 88, 1, 57, 61, 52, 1, 52, 57, 61, 65, 49, 48, 61, 48, 48, 48, 1]

  lemma OverrunningFields(s: Text)
    requires s == OVERRUNNING
    ensures RawScan(s, 0, 1) == Some(RawField(8, 2, 1, 4)) && RawScan(s, 4, 1) == Some(RawField(9, 6, 1, 8))
    ensures RawScan(s, 8, 1) == Some(RawField(49, 11, 7, 19))
  {
    hide RawScan, Digits, FindByte;
    assert RawScan(s, 0, 1) == Some(RawField(8, 2, 1, 4)) by {
      OneDigit(8);
      assert s[0..1] == [s[0]] && s[2..3] == [s[2]];
      RawScanLayout(s, 0, 8, 1, 3, 1);
    }
    assert RawScan(s, 4, 1) == Some(RawField(9, 6, 1, 8)) by {
      OneDigit(9);
      assert s[4..5] == [s[4]] && s[6..7] == [s[6]];
      RawScanLayout(s, 4, 9, 5, 7, 1);
    }
    assert RawScan(s, 8, 1) == Some(RawField(49, 11, 7, 19)) by {
      TwoDigits(49);
      assert s[8..10] == [s[8], s[9]] && s[11..18] == [s[11], s[12], s[13], s[14], s[15], s[16], s[17]];
      RawScanLayout(s, 8, 49, 10, 18, 1);
    }
  }

  lemma OverrunningFramed(s: Text)
    requires s == OVERRUNNING
    ensures Framed(s, 1, false).Some? && Framed(s, 1, false).value.1 == 8
  {
    hide RawScan, Digits, ParseUnsigned, Sum;
    OverrunningFields(s);
    OneDigit(4);
    ParseUnsignedOfDigits(4);
    assert |s| == 19 && s[6] == 52 && s[12] == 49 && s[13] == 48 && s[14] == 61 && s[18] == 1;
    assert s[6..7] == [s[6]] && ValueAt(s, RawField(9, 6, 1, 8)) == [52];
  }

  lemma HeaderRunsIntoCheckSum()
    ensures DecodeRaw(OVERRUNNING, None, 1, false) == Overrun
  {
    hide RawScan, DecodeRaw, Framed;
    var s := OVERRUNNING;
    OverrunningFields(s);
    OverrunningFramed(s);
    OverrunExactly(s, None, 1, false);
    assert |s| == 19 && s[11] == 65;
    assert OnlyHeader(s, 19, 12, 1) && OnlyHeader(s, 8, 12, 1);
    assert FindByte(s, 12, 1) <= 19;
  }

  lemma TwoDigits(n: nat)
    requires 10 <= n < 100
    ensures Digits(n) == [48 + n / 10, 48 + n % 10]
  {
    OneDigit(n / 10);
  }

  lemma OneDigit(n: nat)
    requires n < 10
    ensures Digits(n) == [48 + n]
  {
  }
}
