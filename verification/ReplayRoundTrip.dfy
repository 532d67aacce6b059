/** Decoding a replayed frame: the stored body comes back unchanged, however often it is replayed. */
module ReplayRoundTrip {
  import opened Optional
  import opened Bytes
  import opened FixTags
  import opened Scanner
  import opened TokenStream
  import opened EncoderSplit
  import opened Framing
  import opened RawPassThrough
  import opened Replay
  import opened ReplayInto

  // ---------------------------------------------------------------- scanning behind a prefix

  lemma {:induction false} FindByteBehind(x: Text, t: Text, i: nat, b: Byte)
    requires i <= |t|
    ensures FindByte(x + t, |x| + i, b) == |x| + FindByte(t, i, b)
    decreases |t| - i
  {
    if i < |t| && t[i] != b {
      FindByteBehind(x, t, i + 1, b);
    }
  }

  /** The same field, further on. */
  function Shifted(f: Option<RawField>, n: nat): Option<RawField> {
    if f.None? then None else Some(f.value.(offset := f.value.offset + n, next := f.value.next + n))
  }

  lemma RawScanBehind(x: Text, t: Text, delim: Byte)
    ensures RawScan(x + t, |x|, delim) == Shifted(RawScan(t, 0, delim), |x|)
  {
    hide FindByte, ParseUnsigned;
    if t != [] {
      FindByteBehind(x, t, 0, delim);
      FindByteBehind(x, t, 0, EQUALS);
      var eq := FindByte(t, 0, EQUALS);
      assert (x + t)[|x|..|x| + eq] == t[0..eq];
    }
  }

  // ---------------------------------------------------------------- the header

  lemma OptionalHeader(tag: nat, text: Text, k: Stream, delim: Byte)
    requires IsEnvelopeTag(tag) && tag < 0x1_0000_0000 && delim !in text && HeaderFields(k, delim)
    ensures HeaderFields(EmitText(tag, text, k), delim)
  {
  }

  /** No text that goes into the header holds the delimiter. */
  predicate CleanTexts(v: RawView, o: ReplayOptions, delim: Byte) {
    && delim !in Begin(v, o) && delim !in TextOf(v.texts, MSG_TYPE) && delim !in o.senderCompId
        && delim !in o.targetCompId
    && delim !in Prefer(o.senderSubId, TextOf(v.texts, SENDER_SUB_ID))
    && delim !in Prefer(o.targetSubId, TextOf(v.texts, TARGET_SUB_ID))
    && delim !in o.sendingTime && delim !in DefaultVersion(v, o)
    && delim !in Prefer(o.applVerId, TextOf(v.texts, APPL_VER_ID)) && delim !in o.origSendingTime
    && delim !in Prefer(o.onBehalfOf, TextOf(v.texts, ON_BEHALF_OF_COMP_ID))
    && delim !in Prefer(o.deliverTo, TextOf(v.texts, DELIVER_TO_COMP_ID))
  }

  lemma HeaderIsClean(v: RawView, o: ReplayOptions, delim: Byte)
    requires SafeDelimiter(delim) && delim != YES && CleanTexts(v, o, delim)
    ensures HeaderFields(ReplayHeader(v, o, E), delim)
  {
    hide Digits;
    var k1 := EmitText(DELIVER_TO_COMP_ID, Prefer(o.deliverTo, TextOf(v.texts, DELIVER_TO_COMP_ID)), E);
    OptionalHeader(DELIVER_TO_COMP_ID, Prefer(o.deliverTo, TextOf(v.texts, DELIVER_TO_COMP_ID)), E, delim);
    var k2 := EmitText(ON_BEHALF_OF_COMP_ID, Prefer(o.onBehalfOf, TextOf(v.texts, ON_BEHALF_OF_COMP_ID)), k1);
    OptionalHeader(ON_BEHALF_OF_COMP_ID, Prefer(o.onBehalfOf, TextOf(v.texts, ON_BEHALF_OF_COMP_ID)), k1, delim);
    OptionalHeader(ORIG_SENDING_TIME, o.origSendingTime, k2, delim);
    assert HeaderFields(ReplayRouting(v, o, E), delim);
    TailIsClean(v, o, delim);
  }

  lemma TailIsClean(v: RawView, o: ReplayOptions, delim: Byte)
    requires SafeDelimiter(delim) && CleanTexts(v, o, delim) && HeaderFields(ReplayRouting(v, o, E), delim)
    ensures HeaderFields(ReplayHeader(v, o, E), delim)
  {
    hide ReplayRouting;
    var r := ReplayRouting(v, o, E);
    var k1 := EmitText(APPL_VER_ID, Prefer(o.applVerId, TextOf(v.texts, APPL_VER_ID)), r);
    OptionalHeader(APPL_VER_ID, Prefer(o.applVerId, TextOf(v.texts, APPL_VER_ID)), r, delim);
    OptionalHeader(DEFAULT_APPL_VER_ID, DefaultVersion(v, o), k1, delim);
    var t := ReplayTail(v, o, E);
    assert HeaderFields(t, delim);
    PartiesAreClean(v, o, delim, t);
  }

  lemma PartiesAreClean(v: RawView, o: ReplayOptions, delim: Byte, t: Stream)
    requires SafeDelimiter(delim) && CleanTexts(v, o, delim) && HeaderFields(t, delim) && t == ReplayTail(v, o, E)
    ensures HeaderFields(ReplayHeader(v, o, E), delim)
  {
    hide ReplayTail;
    var k1 := EmitText(TARGET_SUB_ID, Prefer(o.targetSubId, TextOf(v.texts, TARGET_SUB_ID)), t);
    OptionalHeader(TARGET_SUB_ID, Prefer(o.targetSubId, TextOf(v.texts, TARGET_SUB_ID)), t, delim);
    var k2 := Next(MakeTok(TARGET_COMP_ID, o.targetCompId), k1);
    OptionalHeader(SENDER_SUB_ID, Prefer(o.senderSubId, TextOf(v.texts, SENDER_SUB_ID)), k2, delim);
    assert HeaderFields(ReplayParties(v, o, t), delim);
    assert delim !in Digits(o.msgSeqNum);
  }

  // ---------------------------------------------------------------- the frame in parts

  lemma AtPrefix(t: Text, y: Text)
    ensures At(t + y, 0, t)
  {
    assert (t + y)[0..|t|] == t;
  }

  lemma AtBehind(x: Text, s: Text, pos: nat, t: Text)
    requires At(s, pos, t)
    ensures At(x + s, |x| + pos, t)
  {
    assert (x + s)[|x| + pos..|x| + pos + |t|] == s[pos..pos + |t|];
  }

  /** Fields of the frame as the raw scanner meets them. */
  ghost predicate Framed(s: Text, begin: Text, digits: Text, h: Stream, tail: Text, delim: Byte) {
    var a, b := FieldText(BEGIN_STRING, begin, delim), FieldText(BODY_LENGTH, digits, delim);
    s == a + (b + (Wire(h, delim) + tail))
  }

  lemma FramedParts(s: Text, begin: Text, digits: Text, h: Stream, tail: Text, delim: Byte)
    returns (p0: nat, p1: nat, p2: nat)
    requires Framed(s, begin, digits, h, tail, delim)
    ensures p0 == |FieldText(BEGIN_STRING, begin, delim)| && p1 == p0 + |FieldText(BODY_LENGTH, digits, delim)|
    ensures p2 == p1 + |Wire(h, delim)| && |s| == p2 + |tail|
    ensures At(s, 0, FieldText(BEGIN_STRING, begin, delim)) && At(s, p0, FieldText(BODY_LENGTH, digits, delim))
    ensures At(s, p1, Wire(h, delim)) && s[p2..] == tail && s == s[..p2] + tail
  {
    hide FieldText, Wire;
    var a, b, w := FieldText(BEGIN_STRING, begin, delim), FieldText(BODY_LENGTH, digits, delim), Wire(h, delim);
    p0, p1, p2 := |a|, |a| + |b|, |a| + |b| + |w|;
    AtPrefix(a, b + (w + tail));
    AtPrefix(b, w + tail);
    AtPrefix(w, tail);
    AtBehind(a, b + (w + tail), 0, b);
    AtBehind(b, w + tail, 0, w);
    AtBehind(a, b + (w + tail), |b|, w);
    assert s[p2..] == tail;
  }

  /** The two framing fields. */
  lemma FramingScans(s: Text, begin: Text, n: nat, h: Stream, tail: Text, delim: Byte)
    returns (f0: RawField, f1: RawField)
    requires SafeDelimiter(delim) && delim !in begin && n < 0x1_0000_0000 && Framed(s, begin, Digits(n), h, tail, delim)
    ensures RawScan(s, 0, delim) == Some(f0) && f0.tag == BEGIN_STRING && ValueAt(s, f0) == begin
    ensures RawScan(s, f0.next, delim) == Some(f1) && f1.tag == BODY_LENGTH && ParseOrZero(ValueAt(s, f1)) == n
    ensures f1.next == |FieldText(BEGIN_STRING, begin, delim)| + |FieldText(BODY_LENGTH, Digits(n), delim)|
  {
    hide RawScan, Digits, Wire, FieldText, Framed, At;
    var p0, p1, p2 := FramedParts(s, begin, Digits(n), h, tail, delim);
    RawScanOfField(s, 0, BEGIN_STRING, begin, delim);
    NotInDigits(n, delim);
    RawScanOfField(s, p0, BODY_LENGTH, Digits(n), delim);
    ParseUnsignedOfDigits(n);
    f0, f1 := RawScan(s, 0, delim).value, RawScan(s, p0, delim).value;
  }

  lemma NotInDigits(n: nat, delim: Byte)
    requires SafeDelimiter(delim)
    ensures delim !in Digits(n)
  {
  }

  /** The CheckSum field closes the frame and holds the sum of what is before it. */
  lemma CheckSumCloses(s0: Text, delim: Byte)
    requires SafeDelimiter(delim)
    ensures
      var s := s0 + CheckSumField(s0, delim);
      && |s| == |s0| + 7 && EndsInCheckSum(s, delim) && s[..|s| - 7] == s0
      && ParseOrZero(s[|s| - 4..|s| - 1]) == Sum(s0) % 256
  {
    hide Sum;
    var n := Sum(s0) % 256;
    ThreeDigitsParse(n);
    CheckSumText(n, delim);
    var c := CheckSumField(s0, delim);
    var s := s0 + c;
    assert s[..|s| - 7] == s0;
    assert s[|s| - 4..|s| - 1] == c[3..6];
  }

  lemma CheckSumText(n: nat, delim: Byte)
    requires n < 256
    ensures
      var c := FieldText(CHECK_SUM, ThreeDigits(n), delim);
      |c| == 7 && c[0] == 49 && c[1] == 48 && c[2] == EQUALS && c[3..6] == ThreeDigits(n) && c[6] == delim
  {
    assert Digits(CHECK_SUM) == [49, 48];
    assert FieldText(CHECK_SUM, ThreeDigits(n), delim) == [49, 48] + [EQUALS] + ThreeDigits(n) + [delim];
  }

  // ---------------------------------------------------------------- main theorems

  /** The frame both replay encoders produce. */
  function ReplayFrame(v: RawView, o: ReplayOptions): Text {
    var s := Opened(Begin(v, o), ReplayBody(v, o), Delimiter(o));
    s + CheckSumField(s, Delimiter(o))
  }

  /** Options and stored texts that make a well-formed header. */
  predicate Replayable(v: RawView, o: ReplayOptions) {
    && SafeDelimiter(Delimiter(o)) && Delimiter(o) != YES && CleanTexts(v, o, Delimiter(o))
    && CountHeader(v, o) + |v.body| < 0x1_0000_0000
  }

  /** The view of a replayed frame. */
  function ReplayedView(v: RawView, o: ReplayOptions): RawView {
    RawView(Begin(v, o), Gathered(ReplayHeader(v, o, E), map[]), v.body, |Front(v, o)|)
  }

  lemma FrameIsFramed(v: RawView, o: ReplayOptions) returns (c: Text)
    requires Replayable(v, o)
    ensures c == CheckSumField(Opened(Begin(v, o), ReplayBody(v, o), Delimiter(o)), Delimiter(o)) && |c| == 7
    ensures Framed(ReplayFrame(v, o), Begin(v, o), Digits(CountHeader(v, o) + |v.body|), ReplayHeader(v, o, E),
      v.body + c, Delimiter(o))
  {
    hide FieldText, Wire, Sum, ThreeDigits, Digits, CountHeader;
    var delim := Delimiter(o);
    var a, w := FieldText(BEGIN_STRING, Begin(v, o), delim), Wire(ReplayHeader(v, o, E), delim);
    HeaderCounts(v, o, delim);
    var b := FieldText(BODY_LENGTH, Digits(CountHeader(v, o) + |v.body|), delim);
    var s0 := Opened(Begin(v, o), ReplayBody(v, o), delim);
    c := CheckSumField(s0, delim);
    CheckSumWidth(Sum(s0) % 256, delim);
    assert (a + b + (w + v.body)) + c == a + (b + (w + (v.body + c)));
  }

  /** Where header and body start and end in a replayed frame. */
  datatype Places = Places(header: nat, body: nat, end: nat)

  /** The places, and the frame cut at them. */
  ghost predicate Placed(v: RawView, o: ReplayOptions, s: Text, p: Places) {
    && s == ReplayFrame(v, o) && p.header <= p.body == |Front(v, o)| && p.end == p.body + |v.body| && |s| == p.end + 7
    && s[p.body..p.end] == v.body && s[p.body..] == v.body + s[p.end..]
    && At(s, p.header, Wire(ReplayHeader(v, o, E), Delimiter(o)))
        && p.body == p.header + |Wire(ReplayHeader(v, o, E), Delimiter(o))|
  }

  lemma Place(v: RawView, o: ReplayOptions) returns (p: Places)
    requires Replayable(v, o)
    ensures Placed(v, o, ReplayFrame(v, o), p)
    ensures p.header == |FieldText(BEGIN_STRING, Begin(v, o), Delimiter(o))|
                        + |FieldText(BODY_LENGTH, Digits(CountHeader(v, o) + |v.body|), Delimiter(o))|
  {
    hide FieldText, Wire, Sum, Digits, CountHeader, Framed, At, ReplayHeader, CheckSumField, CleanTexts, ReplayFrame;
    var delim, h := Delimiter(o), ReplayHeader(v, o, E);
    var s, n := ReplayFrame(v, o), CountHeader(v, o) + |v.body|;
    var c := FrameIsFramed(v, o);
    var p0, p1, p2 := FramedParts(s, Begin(v, o), Digits(n), h, v.body + c, delim);
    p := Places(p1, p2, p2 + |v.body|);
    assert s[p2..p.end] == s[p2..][..|v.body|];
    assert s[p.end..] == s[p2..][|v.body|..];
  }

  /** Framing, length and checksum are right; the rest is up to the header loop. */
  lemma FramingIsRight(v: RawView, o: ReplayOptions, known: Option<nat>, verify: bool, p: Places)
    requires Replayable(v, o) && Placed(v, o, ReplayFrame(v, o), p)
    requires p.header == |FieldText(BEGIN_STRING, Begin(v, o), Delimiter(o))|
                         + |FieldText(BODY_LENGTH, Digits(CountHeader(v, o) + |v.body|), Delimiter(o))|
    ensures p.end <= |ReplayFrame(v, o)|
    ensures DecodeRaw(ReplayFrame(v, o), known, Delimiter(o), verify)
         == Body(ReplayFrame(v, o), Begin(v, o), p.header, p.end, known, Delimiter(o))
  {
    hide FieldText, Wire, Sum, Digits, CountHeader, RawScan, RawHeader, Framed, Body, At, ReplayHeader, CheckSumField;
    hide CleanTexts, EndsInCheckSum;
    var delim, n := Delimiter(o), CountHeader(v, o) + |v.body|;
    var c := FrameIsFramed(v, o);
    HeaderCounts(v, o, delim);
    BeginIsClean(v, o);
    var f0, f1 := FramingScans(ReplayFrame(v, o), Begin(v, o), n, ReplayHeader(v, o, E), v.body + c, delim);
    CheckSumCloses(Opened(Begin(v, o), ReplayBody(v, o), delim), delim);
  }

  lemma HeaderPasses(v: RawView, o: ReplayOptions, s: Text, p: Places, end: nat, known: bool)
    requires Replayable(v, o) && Placed(v, o, s, p) && p.body <= end
    ensures RawHeader(s, p.header, end, Delimiter(o), known, map[])
         == RawHeader(s, p.body, end, Delimiter(o), known, Gathered(ReplayHeader(v, o, E), map[]))
  {
    hide Wire, RawHeader, At, ReplayHeader, HeaderFields, ReplayFrame, Front, Gathered;
    HeaderIsClean(v, o, Delimiter(o));
    PassesHeader(s, p.header, ReplayHeader(v, o, E), end, Delimiter(o), known, map[]);
  }

  /** With the stored body offset at hand, a replayed frame always gives its body back. */
  lemma KnownOffsetRecovers(v: RawView, o: ReplayOptions, verify: bool)
    requires Replayable(v, o)
    ensures DecodeRaw(ReplayFrame(v, o), Some(|Front(v, o)|), Delimiter(o), verify) == Raw(ReplayedView(v, o))
  {
    hide Wire, FieldText, RawScan, At, ReplayHeader, ReplayFrame, Front, Gathered, CountHeader, DecodeRaw, CleanTexts;
    var p := Place(v, o);
    FramingIsRight(v, o, Some(|Front(v, o)|), verify, p);
    HeaderPasses(v, o, ReplayFrame(v, o), p, p.body, true);
  }

  /** The first field of the body, looked for up to the end of the frame. */
  function Lead(v: RawView, o: ReplayOptions): Option<RawField> {
    RawScan(v.body + CheckSumField(Opened(Begin(v, o), ReplayBody(v, o), Delimiter(o)), Delimiter(o)), 0, Delimiter(o))
  }

  /**
   * A replayed frame gives its body back exactly when that is empty or starts with a field outside the header, and
   * its offset fits in 32 bits.
   */
  lemma ReplayRecoversBody(v: RawView, o: ReplayOptions, verify: bool)
    requires Replayable(v, o)
    ensures
      var r := DecodeRaw(ReplayFrame(v, o), None, Delimiter(o), verify);
      && (r.Raw? && r.view.body == v.body
          <==> && (v.body == [] || (Lead(v, o).Some? && !IsEnvelopeTag(Lead(v, o).value.tag)))
               && |Front(v, o)| < 0x1_0000_0000)
      && (r.Raw? && r.view.body == v.body ==> r.view == ReplayedView(v, o))
  {
    hide Wire, FieldText, RawScan, At, ReplayHeader, Front, Gathered, CountHeader, DecodeRaw, CleanTexts;
    hide CheckSumField, Opened, RawHeader;
    var p := Place(v, o);
    var s, delim := ReplayFrame(v, o), Delimiter(o);
    FramingIsRight(v, o, None, verify, p);
    HeaderPasses(v, o, s, p, p.end, false);
    LeadScans(v, o, p);
    LoopAtBody(s, p.body, p.end, delim, Gathered(ReplayHeader(v, o, E), map[]));
    HeaderIsNotShort(v, o);
    hide Lead, ReplayFrame, IsEnvelopeTag;
    var h := RawHeader(s, p.header, p.end, delim, false, map[]);
    if h.Some? {
      OffsetKept(h.value.pos, p.body, p.end - p.body);
      if h.value.pos % 0x1_0000_0000 <= p.end {
        CutAt(s, h.value.pos % 0x1_0000_0000, p.body, p.end);
      }
    }
  }

  lemma HeaderIsNotShort(v: RawView, o: ReplayOptions)
    ensures CountHeader(v, o) >= 8
  {
    hide Digits;
  }

  /** In 32 bits an offset at or behind the body's start is that start only if it is. */
  lemma OffsetKept(pos: nat, body: nat, length: nat)
    requires body <= pos <= body + length + 7 && length + 8 < 0x1_0000_0000
    ensures pos % 0x1_0000_0000 == body <==> pos == body && body < 0x1_0000_0000
  {
  }

  lemma CutAt(s: Text, at: nat, body: nat, end: nat)
    requires at <= end <= |s| && body <= end
    ensures s[at..end] == s[body..end] <==> at == body
  {
    if s[at..end] == s[body..end] {
      assert |s[at..end]| == end - at && |s[body..end]| == end - body;
    }
  }

  lemma LeadScans(v: RawView, o: ReplayOptions, p: Places)
    requires Replayable(v, o) && Placed(v, o, ReplayFrame(v, o), p)
    ensures RawScan(ReplayFrame(v, o), p.body, Delimiter(o)) == Shifted(Lead(v, o), p.body)
  {
    hide RawScan, At, Wire, FieldText, Sum, Front, ReplayHeader, CountHeader, CleanTexts;
    var s := ReplayFrame(v, o);
    var s0 := Opened(Begin(v, o), ReplayBody(v, o), Delimiter(o));
    CheckSumCloses(s0, Delimiter(o));
    assert s[p.end..] == CheckSumField(s0, Delimiter(o));
    assert s == s[..p.body] + s[p.body..];
    RawScanBehind(s[..p.body], s[p.body..], Delimiter(o));
  }

  /** The header loop at the start of the body. */
  lemma LoopAtBody(s: Text, pos: nat, end: nat, delim: Byte, texts: map<nat, Text>)
    requires pos <= end <= |s|
    ensures
      var h, f := RawHeader(s, pos, end, delim, false, texts), RawScan(s, pos, delim);
      if pos == end then h == Some(HeaderEnd(pos, texts))
      else if f.None? then h.None?
      else if !IsEnvelopeTag(f.value.tag) then h == Some(HeaderEnd(pos, texts))
      else h.Some? ==> pos < h.value.pos <= |s|
  {
    hide RawScan, IsEnvelopeTag;
    if pos < end && RawScan(s, pos, delim).Some? {
      var f := RawScan(s, pos, delim).value;
      if IsEnvelopeTag(f.tag) {
        LoopMovesOn(s, f.next, end, delim, texts[f.tag := ValueAt(s, f)]);
      }
    }
  }

  lemma {:induction false} LoopMovesOn(s: Text, pos: nat, end: nat, delim: Byte, texts: map<nat, Text>)
    ensures RawHeader(s, pos, end, delim, false, texts).Some? && pos <= |s| ==>
      pos <= RawHeader(s, pos, end, delim, false, texts).value.pos <= |s|
    decreases |s| - pos
  {
    hide RawScan, IsEnvelopeTag;
    if pos < end && RawScan(s, pos, delim).Some? && IsEnvelopeTag(RawScan(s, pos, delim).value.tag) {
      var f := RawScan(s, pos, delim).value;
      LoopMovesOn(s, f.next, end, delim, texts[f.tag := ValueAt(s, f)]);
    }
  }

  lemma BeginIsClean(v: RawView, o: ReplayOptions)
    requires Replayable(v, o)
    ensures Delimiter(o) !in Begin(v, o)
  {
  }

  // ---------------------------------------------------------------- any number of replays

  /** The body is empty or its own first field stands outside the header. */
  predicate StartsOutsideHeader(body: Text, delim: Byte) {
    body == [] || (RawScan(body, 0, delim).Some? && !IsEnvelopeTag(RawScan(body, 0, delim).value.tag))
  }

  lemma {:induction false} FindByteInPrefix(t: Text, y: Text, i: nat, b: Byte)
    requires i <= |t| && FindByte(t, i, b) < |t|
    ensures FindByte(t + y, i, b) == FindByte(t, i, b)
    decreases |t| - i
  {
    if i < |t| && t[i] != b {
      FindByteInPrefix(t, y, i + 1, b);
    }
  }

  lemma RawScanInPrefix(t: Text, y: Text, delim: Byte)
    requires RawScan(t, 0, delim).Some?
    ensures RawScan(t + y, 0, delim) == RawScan(t, 0, delim)
  {
    hide FindByte, ParseUnsigned;
    FindByteInPrefix(t, y, 0, delim);
    FindByteInPrefix(t, y, 0, EQUALS);
    var eq := FindByte(t, 0, EQUALS);
    assert (t + y)[0..eq] == t[0..eq];
  }

  /** Options whose texts do not hold the delimiter. */
  predicate CleanOptions(o: ReplayOptions, delim: Byte) {
    && Delimiter(o) == delim && delim !in o.beginString && delim !in o.senderCompId && delim !in o.senderSubId
    && delim !in o.targetCompId && delim !in o.targetSubId && delim !in o.sendingTime && delim !in o.origSendingTime
    && delim !in o.defaultApplVerId && delim !in o.applVerId && delim !in o.onBehalfOf && delim !in o.deliverTo
  }

  ghost predicate CleanView(v: RawView, delim: Byte) {
    delim !in v.beginString && forall t :: t in v.texts ==> delim !in v.texts[t]
  }

  lemma CleanMeansReplayable(v: RawView, o: ReplayOptions, delim: Byte)
    requires SafeDelimiter(delim) && delim != YES && CleanView(v, delim) && CleanOptions(o, delim)
    requires CountHeader(v, o) + |v.body| < 0x1_0000_0000
    ensures Replayable(v, o)
  {
    hide CountHeader;
  }

  lemma {:induction false} GatheredIsClean(h: Stream, texts: map<nat, Text>, delim: Byte)
    requires HeaderFields(h, delim) && forall t :: t in texts ==> delim !in texts[t]
    ensures forall t :: t in Gathered(h, texts) ==> delim !in Gathered(h, texts)[t]
    decreases h
  {
    if h.Next? {
      GatheredIsClean(h.rest, texts[h.tok.tag := h.tok.text], delim);
    }
  }

  /** Each replayed frame is decoded and replayed again. */
  function ReplayAll(v: RawView, os: seq<ReplayOptions>, verify: bool): RawOutcome
    decreases |os|
  {
    if os == [] then Raw(v)
    else
      var r := DecodeRaw(ReplayFrame(v, os[0]), None, Delimiter(os[0]), verify);
      if r.Raw? then ReplayAll(r.view, os[1..], verify) else r
  }

  /** Every frame on the way stays below 4 GiB. */
  ghost predicate SizesFit(v: RawView, os: seq<ReplayOptions>)
    decreases |os|
  {
    || os == []
    || (&& CountHeader(v, os[0]) + |v.body| < 0x1_0000_0000 && |Front(v, os[0])| < 0x1_0000_0000
        && SizesFit(ReplayedView(v, os[0]), os[1..]))
  }

  /** However often a frame is stored and replayed, its body stays what it was. */
  lemma {:induction false} ReplaysKeepBody(v: RawView, os: seq<ReplayOptions>, delim: Byte, verify: bool)
    requires SafeDelimiter(delim) && delim != YES && CleanView(v, delim) && StartsOutsideHeader(v.body, delim)
    requires (forall o :: o in os ==> CleanOptions(o, delim)) && SizesFit(v, os)
    ensures ReplayAll(v, os, verify).Raw? && ReplayAll(v, os, verify).view.body == v.body
    decreases |os|
  {
    hide CountHeader, DecodeRaw, ReplayFrame, Gathered, Front, RawScan, CleanOptions, ReplayHeader, HeaderFields;
    if os != [] {
      var o := os[0];
      CleanMeansReplayable(v, o, delim);
      SameDelimiter(o, delim);
      if v.body != [] {
        RawScanInPrefix(v.body, CheckSumField(Opened(Begin(v, o), ReplayBody(v, o), Delimiter(o)), Delimiter(o)),
            delim);
      }
      ReplayRecoversBody(v, o, verify);
      HeaderIsClean(v, o, delim);
      GatheredIsClean(ReplayHeader(v, o, E), map[], delim);
      BeginIsClean(v, o);
      ReplaysKeepBody(ReplayedView(v, o), os[1..], delim, verify);
    }
  }

  lemma SameDelimiter(o: ReplayOptions, delim: Byte)
    requires CleanOptions(o, delim)
    ensures Delimiter(o) == delim
  {
  }

  /** A body that starts with a header field is cut: here a lone SenderSubID is taken for header. */
  lemma HeaderFieldInBodyIsLost(v: RawView, o: ReplayOptions, verify: bool)
    requires Replayable(v, o) && v.body == FieldText(SENDER_SUB_ID, [65], Delimiter(o)) && Delimiter(o) != 65
    ensures
      var r := DecodeRaw(ReplayFrame(v, o), None, Delimiter(o), verify);
      !(r.Raw? && r.view.body == v.body)
  {
    hide CountHeader, DecodeRaw, ReplayFrame, Front, RawScan, ReplayHeader;
    var delim := Delimiter(o);
    var c := CheckSumField(Opened(Begin(v, o), ReplayBody(v, o), delim), delim);
    AtPrefix(v.body, c);
    RawScanOfField(v.body + c, 0, SENDER_SUB_ID, [65], delim);
    ReplayRecoversBody(v, o, verify);
  }
}
