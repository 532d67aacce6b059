/** When the fixed-layout writer prints the very frame of the generic encoder. */
module FixedGeneric {
  import opened Optional
  import opened Bytes
  import opened FixTags
  import opened Dictionary
  import opened Scanner
  import opened TokenStream
  import opened EncoderSplit
  import opened Framing
  import opened FixedLayout
  import opened FixedLayoutFacts
  import O = OwnedMessage
  import T = FrameRoundTrip

  /** The options with the names of the session that is printed. */
  function Named(o: Options, s: Session): Options {
    o.(beginString := s.beginString, senderCompId := s.senderCompId, targetCompId := s.targetCompId)
  }

  // ---------------------------------------------------------------- the generic header in pieces

  lemma TextPiece(tag: nat, text: Text, k: Stream, delim: Byte)
    ensures Wire(EmitText(tag, text, k), delim) == OptionalText(tag, text, delim) + Wire(k, delim)
  {
    hide FieldText;
    assert [] + Wire(k, delim) == Wire(k, delim);
  }

  /** The header fields between the sequence number and the sending time. */
  function Parties(o: Options, sender: Text, target: Text, rest: Text, delim: Byte): Text {
    sender + (OptionalText(SENDER_SUB_ID, o.senderSubId, delim)
              + (target + (OptionalText(TARGET_SUB_ID, o.targetSubId, delim) + rest)))
  }

  /** The bytes behind BodyLength, for either way of printing MsgType, sender and target. */
  function Behind(o: Options, msgType: Text, sender: Text, target: Text, rest: Text, delim: Byte): Text {
    msgType + (FieldText(MSG_SEQ_NUM, SeqText(o), delim) + Parties(o, sender, target, rest, delim))
  }

  lemma GenericBytes(o: Options, msgType: Text, now: Text, k: Stream, delim: Byte)
    requires msgType != []
    ensures
      var ver := if msgType == LOGON then o.defaultApplVerId else [];
      Wire(EmitHeader(msgType, o, now, k), delim)
        == Behind(o, FieldText(MSG_TYPE, msgType, delim), OptionalText(SENDER_COMP_ID, o.senderCompId, delim),
                  OptionalText(TARGET_COMP_ID, o.targetCompId, delim), Wire(EmitTail(o, now, ver, k), delim), delim)
  {
    hide FieldText, EmitTail, SeqText, OptionalText, EmitText;
    var tail := EmitTail(o, now, if msgType == LOGON then o.defaultApplVerId else [], k);
    var k4 := EmitText(TARGET_SUB_ID, o.targetSubId, tail);
    var k3 := EmitText(TARGET_COMP_ID, o.targetCompId, k4);
    var k2 := EmitText(SENDER_SUB_ID, o.senderSubId, k3);
    TextPiece(TARGET_SUB_ID, o.targetSubId, tail, delim);
    TextPiece(TARGET_COMP_ID, o.targetCompId, k4, delim);
    TextPiece(SENDER_SUB_ID, o.senderSubId, k3, delim);
    TextPiece(SENDER_COMP_ID, o.senderCompId, k2, delim);
    var k1 := EmitText(SENDER_COMP_ID, o.senderCompId, k2);
    assert Wire(Next(MakeTok(MSG_SEQ_NUM, SeqText(o)), k1), delim)
        == FieldText(MSG_SEQ_NUM, SeqText(o), delim) + Wire(k1, delim);
  }

  lemma FixedBytes(o: Options, l: Layout, s: Session, now: Text, body: Text, delim: Byte)
    ensures Head([], l, s.senderCompId, s.targetCompId, o, delim) + HeadTail(l, o, now, delim) + body
         == Behind(o, FieldText(MSG_TYPE, l.msgType, SOH), FieldText(SENDER_COMP_ID, s.senderCompId, delim),
                   FieldText(TARGET_COMP_ID, s.targetCompId, delim), HeadTail(l, o, now, delim) + body, delim)
  {
    hide FieldText, HeadTail, SeqText, OptionalText;
    var a, b := FieldText(MSG_TYPE, l.msgType, SOH), FieldText(MSG_SEQ_NUM, SeqText(o), delim);
    var c, x := FieldText(SENDER_COMP_ID, s.senderCompId, delim), OptionalText(SENDER_SUB_ID, o.senderSubId, delim);
    var e, y := FieldText(TARGET_COMP_ID, s.targetCompId, delim), OptionalText(TARGET_SUB_ID, o.targetSubId, delim);
    Seven(a, b, c, x, e, y, HeadTail(l, o, now, delim), body);
  }

  lemma Seven(a: Text, b: Text, c: Text, x: Text, e: Text, y: Text, t: Text, body: Text)
    ensures [] + a + b + c + x + e + y + t + body == a + (b + (c + (x + (e + (y + (t + body))))))
  {
  }

  /** What stands behind the parties is the same either way. */
  lemma TailBytes(o: Options, s: Session, now: Text, ver: Text, k: Stream, delim: Byte)
    ensures Wire(EmitTail(Named(o, s), now, ver, k), delim) == Wire(EmitTail(o, now, ver, E), delim) + Wire(k, delim)
  {
    hide FieldText, Wire;
    assert EmitTail(Named(o, s), now, ver, k) == EmitTail(o, now, ver, k);
    T.SplitTail(o, now, ver, k);
    WireAppend(EmitTail(o, now, ver, E), k, delim);
  }

  // ---------------------------------------------------------------- telling the ways apart

  lemma TagBytes()
    ensures Digits(MSG_TYPE) == [51, 53] && Digits(SENDER_COMP_ID) == [52, 57] && Digits(SENDER_SUB_ID) == [53, 48]
    ensures Digits(TARGET_COMP_ID) == [53, 54] && Digits(TARGET_SUB_ID) == [53, 55] && Digits(SENDING_TIME) == [53, 50]
  {
    assert Digits(3) == [51] && Digits(4) == [52] && Digits(5) == [53];
  }

  /** The first two bytes of a field with a two-digit tag. */
  lemma FieldStarts(tag: nat, text: Text, rest: Text, delim: Byte)
    requires |Digits(tag)| == 2
    ensures
      var s := FieldText(tag, text, delim) + rest;
      |s| >= 2 && s[0] == Digits(tag)[0] && s[1] == Digits(tag)[1]
  {
    hide Digits;
  }

  /** The tail starts with the sending time. */
  lemma TailStarts(o: Options, now: Text, ver: Text, rest: Text, delim: Byte)
    ensures var s := Wire(EmitTail(o, now, ver, E), delim) + rest; |s| >= 2 && s[0] == 53 && s[1] == 50
  {
    hide FieldText, EmitText, Digits, EmitRouting;
    TagBytes();
    var k := EmitText(DEFAULT_APPL_VER_ID, ver, EmitText(APPL_VER_ID, o.applVerId, EmitRouting(o, E)));
    FieldStarts(SENDING_TIME, TimeText(o, now), Wire(k, delim) + rest, delim);
    Assoc(FieldText(SENDING_TIME, TimeText(o, now), delim), Wire(k, delim), rest);
  }

  /** Parties that print alike are all printed: an empty name leaves no field behind in the generic header. */
  lemma PartiesTold(o: Options, s: Session, x: Text, y: Text, delim: Byte)
    requires |x| >= 2 && x[0] == 53 && x[1] == 50 && |y| >= 2 && y[0] == 53 && y[1] == 50
    requires Parties(o, FieldText(SENDER_COMP_ID, s.senderCompId, delim),
      FieldText(TARGET_COMP_ID, s.targetCompId, delim),
                     x, delim)
          == Parties(o, OptionalText(SENDER_COMP_ID, s.senderCompId, delim),
                     OptionalText(TARGET_COMP_ID, s.targetCompId, delim), y, delim)
    ensures s.senderCompId != [] && s.targetCompId != []
  {
    hide FieldText, Digits;
    TagBytes();
    var q, z := OptionalText(SENDER_SUB_ID, o.senderSubId, delim), OptionalText(TARGET_SUB_ID, o.targetSubId, delim);
    var e, f := FieldText(TARGET_COMP_ID, s.targetCompId, delim), OptionalText(TARGET_COMP_ID, s.targetCompId, delim);
    var u, v := q + (e + (z + x)), q + (f + (z + y));
    StartsFive(o.targetSubId, TARGET_SUB_ID, y, delim);
    StartsFive(s.targetCompId, TARGET_COMP_ID, z + y, delim);
    StartsFive(o.senderSubId, SENDER_SUB_ID, f + (z + y), delim);
    FieldStarts(SENDER_COMP_ID, s.senderCompId, u, delim);
    assert [] + v == v;
    assert s.senderCompId != [];
    SamePrefix(FieldText(SENDER_COMP_ID, s.senderCompId, delim), u, v);
    SamePrefix(q, e + (z + x), f + (z + y));
    TargetTold(o, s, x, y, delim);
  }

  lemma TargetTold(o: Options, s: Session, x: Text, y: Text, delim: Byte)
    requires |y| >= 2 && y[0] == 53 && y[1] == 50
    requires
      var z := OptionalText(TARGET_SUB_ID, o.targetSubId, delim);
      FieldText(TARGET_COMP_ID, s.targetCompId, delim) + (z + x)
        == OptionalText(TARGET_COMP_ID, s.targetCompId, delim) + (z + y)
    ensures s.targetCompId != []
  {
    hide FieldText, Digits;
    TagBytes();
    var z := OptionalText(TARGET_SUB_ID, o.targetSubId, delim);
    FieldStarts(TARGET_COMP_ID, s.targetCompId, z + x, delim);
    if o.targetSubId == [] {
      assert z + y == y;
    } else {
      FieldStarts(TARGET_SUB_ID, o.targetSubId, y, delim);
    }
    assert [] + (z + y) == z + y;
  }

  lemma StartsFive(text: Text, tag: nat, rest: Text, delim: Byte)
    requires |Digits(tag)| == 2 && Digits(tag)[0] == 53 && |rest| >= 2 && rest[0] == 53
    ensures var s := OptionalText(tag, text, delim) + rest; |s| >= 2 && s[0] == 53
  {
    hide FieldText, Digits;
    if text == [] {
      assert [] + rest == rest;
    } else {
      FieldStarts(tag, text, rest, delim);
    }
  }

  /** MsgType fields that print alike end in the same byte. */
  lemma TypeTold(msgType: Text, x: Text, y: Text, delim: Byte)
    requires FieldText(MSG_TYPE, msgType, SOH) + x == FieldText(MSG_TYPE, msgType, delim) + y
    ensures delim == SOH && x == y
  {
    hide Digits;
    var n := |Digits(MSG_TYPE)| + 1 + |msgType|;
    assert (FieldText(MSG_TYPE, msgType, SOH) + x)[n] == SOH && (FieldText(MSG_TYPE, msgType, delim) + y)[n] == delim;
    SamePrefix(FieldText(MSG_TYPE, msgType, SOH), x, y);
  }

  // ---------------------------------------------------------------- frames

  /** Equal frames have equal BeginStrings and the same bytes behind BodyLength. */
  lemma FramesTold(b: Text, x: Text, c: Text, y: Text, delim: Byte)
    requires delim !in b && delim !in c && !IsDigit(delim)
    requires MakeFrame(b, x, delim).Encoded? && MakeFrame(b, x, delim) == MakeFrame(c, y, delim)
    ensures b == c && x + CheckSumField(Opened(b, x, delim), delim) == y + CheckSumField(Opened(c, y, delim), delim)
  {
    hide FieldText, Digits, CheckSumField;
    var m, n := Digits(|x| % 0x1_0000_0000), Digits(|y| % 0x1_0000_0000);
    var u, v := x + CheckSumField(Opened(b, x, delim), delim), y + CheckSumField(Opened(c, y, delim), delim);
    FrameParts(FieldText(BEGIN_STRING, b, delim), FieldText(BODY_LENGTH, m, delim), x,
        CheckSumField(Opened(b, x, delim), delim));
    FrameParts(FieldText(BEGIN_STRING, c, delim), FieldText(BODY_LENGTH, n, delim), y,
        CheckSumField(Opened(c, y, delim), delim));
    FrontField(BEGIN_STRING, b, FieldText(BODY_LENGTH, m, delim) + u, c, FieldText(BODY_LENGTH, n, delim) + v, delim);
    T.DigitsAvoid(|x| % 0x1_0000_0000, delim);
    T.DigitsAvoid(|y| % 0x1_0000_0000, delim);
    FrontField(BODY_LENGTH, m, u, n, v, delim);
  }

  /** A layout, its values and groups, and a message that holds the same. */
  ghost predicate SameMessage(
      d: Dict, l: Layout, latest: map<nat, Text>, groups: seq<GroupEncode>, m: O.Message, delim: Byte)
  {
    && l.msgType != [] && l.msgType in d.messages
    && Follows(l, d, d.messages[l.msgType]) && FieldTagsOf(l.fieldTags, d, d.messages[l.msgType])
    && Holds(d, d.messages[l.msgType], m, latest, groups, l.fieldTags, delim)
  }

  /** Both bodies, in the same pieces. */
  lemma BothBodies(d: Dict, l: Layout, s: Session, latest: map<nat, Text>, groups: seq<GroupEncode>, m: O.Message,
      o: Options, now: Text, delim: Byte)
    requires SameMessage(d, l, latest, groups, m, delim)
    ensures
      var rest := HeadTail(l, o, now, delim) + FixedBody(l, 0, latest, groups, delim);
      && Head([], l, s.senderCompId, s.targetCompId, o, delim) + HeadTail(l, o, now, delim)
           + FixedBody(l, 0, latest, groups, delim)
         == Behind(o, FieldText(MSG_TYPE, l.msgType, SOH), FieldText(SENDER_COMP_ID, s.senderCompId, delim),
                   FieldText(TARGET_COMP_ID, s.targetCompId, delim), rest, delim)
      && Wire(EmitHeader(l.msgType, Named(o, s), now, EmitMessage(d, l.msgType, m, E)), delim)
         == Behind(o, FieldText(MSG_TYPE, l.msgType, delim), OptionalText(SENDER_COMP_ID, s.senderCompId, delim),
                   OptionalText(TARGET_COMP_ID, s.targetCompId, delim), rest, delim)
  {
    hide FieldText, Wire, EmitHeader, EmitTail, FixedBody, Head, OptionalText, SeqText, Follows, Holds, FieldTagsOf;
    var rules := d.messages[l.msgType];
    var ver := if l.msgType == LOGON then o.defaultApplVerId else [];
    BodyIsGeneric(d, rules, l, latest, groups, m, delim);
    FixedBytes(o, l, s, now, FixedBody(l, 0, latest, groups, delim), delim);
    GenericBytes(Named(o, s), l.msgType, now, EmitMessage(d, l.msgType, m, E), delim);
    TailBytes(o, s, now, ver, EmitMessage(d, l.msgType, m, E), delim);
    assert SeqText(Named(o, s)) == SeqText(o) by { SameSeq(o, s); }
  }

  lemma SameSeq(o: Options, s: Session)
    ensures SeqText(Named(o, s)) == SeqText(o)
  {
  }

  /**
   * The fixed layout prints the generic encoder's frame of the same message and names exactly when the delimiter is
   * SOH and the BeginString and both names are not empty.
   */
  lemma FixedAgreesExactly(d: Dict, l: Layout, bound: Option<Session>, latest: map<nat, Text>,
      groups: seq<GroupEncode>, m: O.Message, o: Options, now: Text)
    requires SafeDelimiter(NormalizeDelimiter(o.delimiter))
    requires SameMessage(d, l, latest, groups, m, NormalizeDelimiter(o.delimiter))
    requires
      var s := SessionFor(bound, o, NormalizeDelimiter(o.delimiter));
      && NormalizeDelimiter(o.delimiter) !in s.beginString
      && NormalizeDelimiter(o.delimiter) !in BeginString(Named(o, s))
      && FixedFrame(l, bound, latest, groups, o, now).Encoded?
    ensures
      var s := SessionFor(bound, o, NormalizeDelimiter(o.delimiter));
      (FixedFrame(l, bound, latest, groups, o, now) == GenericFrame(d, l.msgType, m, Named(o, s), now))
        <==> (&& NormalizeDelimiter(o.delimiter) == SOH
              && s.beginString != [] && s.senderCompId != [] && s.targetCompId != [])
  {
    var delim := NormalizeDelimiter(o.delimiter);
    var s := SessionFor(bound, o, delim);
    BothBodies(d, l, s, latest, groups, m, o, now, delim);
    hide FieldText, Wire, EmitHeader, EmitMessage, FixedBody, Head, HeadTail, Behind, Digits, SameMessage, SessionFor;
    hide CheckSumField, Opened;
    var x := Head([], l, s.senderCompId, s.targetCompId, o, delim) + HeadTail(l, o, now, delim)
        + FixedBody(l, 0, latest, groups, delim);
    var y := Wire(EmitHeader(l.msgType, Named(o, s), now, EmitMessage(d, l.msgType, m, E)), delim);
    if FixedFrame(l, bound, latest, groups, o, now) == GenericFrame(d, l.msgType, m, Named(o, s), now) {
      FramesTold(s.beginString, x, BeginString(Named(o, s)), y, delim);
      BodiesTold(l, s, o, now, FixedBody(l, 0, latest, groups, delim), x, y,
          CheckSumField(Opened(s.beginString, x, delim), delim),
          CheckSumField(Opened(s.beginString, y, delim), delim), delim);
    }
  }

  lemma BodiesTold(l: Layout, s: Session, o: Options, now: Text, body: Text, x: Text, y: Text, a: Text, b: Text,
      delim: Byte)
    requires
      var rest := HeadTail(l, o, now, delim) + body;
      && x == Behind(o, FieldText(MSG_TYPE, l.msgType, SOH), FieldText(SENDER_COMP_ID, s.senderCompId, delim),
                     FieldText(TARGET_COMP_ID, s.targetCompId, delim), rest, delim)
      && y == Behind(o, FieldText(MSG_TYPE, l.msgType, delim), OptionalText(SENDER_COMP_ID, s.senderCompId, delim),
                     OptionalText(TARGET_COMP_ID, s.targetCompId, delim), rest, delim)
    requires x + a == y + b
    ensures delim == SOH && s.senderCompId != [] && s.targetCompId != []
  {
    hide FieldText, HeadTail, OptionalText, SeqText, Parties;
    var rest := HeadTail(l, o, now, delim) + body;
    var q := FieldText(MSG_SEQ_NUM, SeqText(o), delim);
    var c, e := FieldText(SENDER_COMP_ID, s.senderCompId, delim), FieldText(TARGET_COMP_ID, s.targetCompId, delim);
    var f, g := OptionalText(SENDER_COMP_ID, s.senderCompId, delim),
        OptionalText(TARGET_COMP_ID, s.targetCompId, delim);
    BehindThen(o, FieldText(MSG_TYPE, l.msgType, SOH), c, e, rest, a, delim);
    BehindThen(o, FieldText(MSG_TYPE, l.msgType, delim), f, g, rest, b, delim);
    TypeTold(l.msgType, q + Parties(o, c, e, rest + a, delim), q + Parties(o, f, g, rest + b, delim), delim);
    SamePrefix(q, Parties(o, c, e, rest + a, delim), Parties(o, f, g, rest + b, delim));
    RestStarts(l, o, now, body, a, delim);
    RestStarts(l, o, now, body, b, delim);
    PartiesTold(o, s, rest + a, rest + b, delim);
  }

  lemma RestStarts(l: Layout, o: Options, now: Text, body: Text, a: Text, delim: Byte)
    ensures var s := HeadTail(l, o, now, delim) + body + a; |s| >= 2 && s[0] == 53 && s[1] == 50
  {
    hide EmitTail, Wire;
    TailStarts(o, now, if l.msgType == LOGON then o.defaultApplVerId else [], body + a, delim);
    Assoc(HeadTail(l, o, now, delim), body, a);
  }

  lemma BehindThen(o: Options, t: Text, c: Text, e: Text, rest: Text, a: Text, delim: Byte)
    ensures Behind(o, t, c, e, rest, delim) + a
         == t + (FieldText(MSG_SEQ_NUM, SeqText(o), delim) + Parties(o, c, e, rest + a, delim))
  {
    hide FieldText, OptionalText, SeqText;
    var q := FieldText(MSG_SEQ_NUM, SeqText(o), delim);
    Six(t, q, c, OptionalText(SENDER_SUB_ID, o.senderSubId, delim), e,
        OptionalText(TARGET_SUB_ID, o.targetSubId, delim), rest, a);
  }

  lemma Six(t: Text, q: Text, c: Text, x: Text, e: Text, z: Text, rest: Text, a: Text)
    ensures (t + (q + (c + (x + (e + (z + rest)))))) + a == t + (q + (c + (x + (e + (z + (rest + a))))))
  {
  }
}
