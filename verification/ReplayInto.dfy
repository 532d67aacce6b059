/** The one-pass replay encoder: exact size first, then writes through a fixed buffer with a running checksum. */
module ReplayInto {
  import opened Bytes
  import opened FixTags
  import opened Scanner
  import opened TokenStream
  import opened EncoderSplit
  import opened Framing
  import opened RawPassThrough
  import opened Replay

  // ---------------------------------------------------------------- sizes

  /** Bytes of a field behind a prefix such as `35=`. */
  function CountField(tag: nat, value: Text): nat {
    (|Digits(tag)| + 1) + |value| + 1
  }

  function CountOptional(tag: nat, value: Text): nat {
    if value == [] then 0 else CountField(tag, value)
  }

  /** Bytes of the fresh header. */
  function CountHeader(v: RawView, o: ReplayOptions): nat {
    CountField(MSG_TYPE, TextOf(v.texts, MSG_TYPE)) + CountField(MSG_SEQ_NUM, Digits(o.msgSeqNum))
    + CountField(SENDER_COMP_ID, o.senderCompId)
    + CountOptional(SENDER_SUB_ID, Prefer(o.senderSubId, TextOf(v.texts, SENDER_SUB_ID)))
    + CountField(TARGET_COMP_ID, o.targetCompId)
    + CountOptional(TARGET_SUB_ID, Prefer(o.targetSubId, TextOf(v.texts, TARGET_SUB_ID)))
    + CountField(SENDING_TIME, o.sendingTime)
    + CountOptional(DEFAULT_APPL_VER_ID, DefaultVersion(v, o))
    + CountOptional(APPL_VER_ID, Prefer(o.applVerId, TextOf(v.texts, APPL_VER_ID)))
    + CountField(POSS_DUP_FLAG, [YES]) + (if o.possResend then CountField(POSS_RESEND, [YES]) else 0)
    + CountOptional(ORIG_SENDING_TIME, o.origSendingTime)
    + CountOptional(ON_BEHALF_OF_COMP_ID, Prefer(o.onBehalfOf, TextOf(v.texts, ON_BEHALF_OF_COMP_ID)))
    + CountOptional(DELIVER_TO_COMP_ID, Prefer(o.deliverTo, TextOf(v.texts, DELIVER_TO_COMP_ID)))
  }

  /** Bytes the encoder's own buffer needs. */
  function BufferSize(v: RawView, o: ReplayOptions): nat {
    CountField(BEGIN_STRING, Begin(v, o)) + CountField(BODY_LENGTH, Digits(CountHeader(v, o) + |v.body|))
    + CountHeader(v, o) + (if o.zeroCopy then 0 else |v.body|) + 7
  }

  lemma WireNext(tok: Tok, k: Stream, delim: Byte)
    ensures Wire(Next(tok, k), delim) == FieldText(tok.tag, tok.text, delim) + Wire(k, delim)
    ensures |Wire(Next(tok, k), delim)| == CountField(tok.tag, tok.text) + |Wire(k, delim)|
    ensures |FieldText(tok.tag, tok.text, delim)| == CountField(tok.tag, tok.text)
  {
  }

  lemma CountRouting(v: RawView, o: ReplayOptions, delim: Byte)
    ensures |Wire(ReplayRouting(v, o, E), delim)|
         == CountField(POSS_DUP_FLAG, [YES]) + (if o.possResend then CountField(POSS_RESEND, [YES]) else 0)
          + CountOptional(ORIG_SENDING_TIME, o.origSendingTime)
          + CountOptional(ON_BEHALF_OF_COMP_ID, Prefer(o.onBehalfOf, TextOf(v.texts, ON_BEHALF_OF_COMP_ID)))
          + CountOptional(DELIVER_TO_COMP_ID, Prefer(o.deliverTo, TextOf(v.texts, DELIVER_TO_COMP_ID)))
  {
    hide Wire, FieldText, Digits, CountField;
    var behalf := Prefer(o.onBehalfOf, TextOf(v.texts, ON_BEHALF_OF_COMP_ID));
    var deliver := Prefer(o.deliverTo, TextOf(v.texts, DELIVER_TO_COMP_ID));
    EmptyWire(delim);
    var k1 := OptionalCounts(DELIVER_TO_COMP_ID, deliver, E, delim);
    var k2 := OptionalCounts(ON_BEHALF_OF_COMP_ID, behalf, k1, delim);
    var k3 := OptionalCounts(ORIG_SENDING_TIME, o.origSendingTime, k2, delim);
    WireNext(MakeTok(POSS_RESEND, [YES]), k3, delim);
    WireNext(MakeTok(POSS_DUP_FLAG, [YES]), EmitFlag(POSS_RESEND, o.possResend, k3), delim);
  }

  lemma EmptyWire(delim: Byte)
    ensures Wire(E, delim) == []
  {
  }

  lemma OptionalCounts(tag: nat, text: Text, k: Stream, delim: Byte) returns (st: Stream)
    ensures st == EmitText(tag, text, k) && |Wire(st, delim)| == CountOptional(tag, text) + |Wire(k, delim)|
  {
    st := EmitText(tag, text, k);
    WireNext(MakeTok(tag, text), k, delim);
  }

  /** The counted bytes are the bytes printed. */
  lemma HeaderCounts(v: RawView, o: ReplayOptions, delim: Byte)
    ensures |Wire(ReplayHeader(v, o, E), delim)| == CountHeader(v, o)
  {
    hide Wire, FieldText, Digits, CountField, ReplayRouting;
    CountRouting(v, o, delim);
    var r := ReplayRouting(v, o, E);
    var k1 := OptionalCounts(APPL_VER_ID, Prefer(o.applVerId, TextOf(v.texts, APPL_VER_ID)), r, delim);
    var k2 := OptionalCounts(DEFAULT_APPL_VER_ID, DefaultVersion(v, o), k1, delim);
    WireNext(MakeTok(SENDING_TIME, o.sendingTime), k2, delim);
    var t := ReplayTail(v, o, E);
    var k3 := OptionalCounts(TARGET_SUB_ID, Prefer(o.targetSubId, TextOf(v.texts, TARGET_SUB_ID)), t, delim);
    WireNext(MakeTok(TARGET_COMP_ID, o.targetCompId), k3, delim);
    var k4 := Next(MakeTok(TARGET_COMP_ID, o.targetCompId), k3);
    var k5 := OptionalCounts(SENDER_SUB_ID, Prefer(o.senderSubId, TextOf(v.texts, SENDER_SUB_ID)), k4, delim);
    WireNext(MakeTok(SENDER_COMP_ID, o.senderCompId), k5, delim);
    var k6 := ReplayParties(v, o, t);
    WireNext(MakeTok(MSG_SEQ_NUM, Digits(o.msgSeqNum)), k6, delim);
    WireNext(MakeTok(MSG_TYPE, TextOf(v.texts, MSG_TYPE)), Next(MakeTok(MSG_SEQ_NUM, Digits(o.msgSeqNum)), k6), delim);
  }

  // ---------------------------------------------------------------- writing

  class Writer {
    const buf: array<Byte>
    var pos: nat
    var checksum: nat

    ghost predicate Valid()
      reads this
    {
      pos <= buf.Length
    }

    ghost function Written(): Text
      requires Valid()
      reads this, buf
    {
      buf[..pos]
    }

    /** The running checksum is the sum of what has been written. */
    ghost predicate Sums()
      requires Valid()
      reads this, buf
    {
      checksum == Sum(Written()) % 0x1_0000_0000
    }

    constructor (buf: array<Byte>)
      ensures this.buf == buf && pos == 0 && Valid() && Sums() && Written() == []
    {
      this.buf := buf;
      pos := 0;
      checksum := 0;
    }

    /** A copy into the buffer, without the checksum. */
    method Copy(text: Text)
      requires Valid() && pos + |text| <= buf.Length
      modifies this`pos, buf
      ensures Valid() && pos == old(pos) + |text| && Written() == old(Written()) + text
    {
      for i := 0 to |text|
        invariant pos == old(pos) + i && pos <= buf.Length && buf[..pos] == old(buf[..pos]) + text[..i]
      {
        buf[pos] := text[i];
        pos := pos + 1;
      }
    }

    method Append(text: Text)
      requires Valid() && Sums() && pos + |text| <= buf.Length
      modifies this, buf
      ensures Valid() && Sums() && pos == old(pos) + |text| && Written() == old(Written()) + text
    {
      hide Sum;
      ghost var before := Written();
      Copy(text);
      AddUp(text);
      SumEmpty();
      SumConcat(before, text);
      WrapAdd(Sum(before), Sum(text));
    }

    method AddUp(text: Text)
      modifies this`checksum
      ensures checksum == (old(checksum) + Sum(text)) % 0x1_0000_0000 || (text == [] && checksum == old(checksum))
    {
      hide Sum;
      SumEmpty();
      for i := 0 to |text|
        invariant i > 0 ==> checksum == (old(checksum) + Sum(text[..i])) % 0x1_0000_0000
        invariant i == 0 ==> checksum == old(checksum)
      {
        SumGrows(text, i);
        WrapAdd(old(checksum) + Sum(text[..i]), text[i]);
        checksum := (checksum + text[i]) % 0x1_0000_0000;
      }
      assert text[..|text|] == text;
    }

    /** One field; what is left to print keeps its room. */
    method AppendField(tag: nat, text: Text, delim: Byte, ghost k: Stream, ghost spare: nat)
      requires Valid() && Sums() && pos + |Wire(Next(MakeTok(tag, text), k), delim)| + spare <= buf.Length
      modifies this, buf
      ensures Valid() && Sums() && pos + |Wire(k, delim)| + spare <= buf.Length
      ensures Written() + Wire(k, delim) == old(Written()) + Wire(Next(MakeTok(tag, text), k), delim)
    {
      hide Wire, Sum, Digits;
      WireNext(MakeTok(tag, text), k, delim);
      ghost var before := Written();
      Append(Digits(tag) + [EQUALS]);
      Append(text);
      Append([delim]);
      assert Written() == before + FieldText(tag, text, delim);
      Assoc(before, FieldText(tag, text, delim), Wire(k, delim));
    }

    method AppendText(tag: nat, text: Text, delim: Byte, ghost k: Stream, ghost spare: nat)
      requires Valid() && Sums() && pos + |Wire(EmitText(tag, text, k), delim)| + spare <= buf.Length
      modifies this, buf
      ensures Valid() && Sums() && pos + |Wire(k, delim)| + spare <= buf.Length
      ensures Written() + Wire(k, delim) == old(Written()) + Wire(EmitText(tag, text, k), delim)
    {
      if text != [] {
        AppendField(tag, text, delim, k, spare);
      }
    }
  }

  lemma WrapAdd(a: nat, b: nat)
    ensures (a % 0x1_0000_0000 + b) % 0x1_0000_0000 == (a + b) % 0x1_0000_0000
  {
  }

  lemma SumEmpty()
    ensures Sum([]) == 0
  {
  }

  lemma SumGrows(text: Text, i: nat)
    requires i < |text|
    ensures Sum(text[..i + 1]) == Sum(text[..i]) + text[i]
    ensures i == 0 ==> Sum(text[..i]) == 0
  {
    assert text[..i + 1][..i] == text[..i];
  }

  // ---------------------------------------------------------------- finished frames

  /** Storage of a finished frame: small ones inline, large ones apart, a body that was not copied spliced in. */
  class FrameBytes {
    const inlineStorage: array<Byte>
    var inlineSize: nat
    var overflow: array<Byte>
    var external: Text
    var splice: nat

    ghost predicate Valid()
      reads this
    {
      inlineStorage.Length == INLINE_CAPACITY && inlineSize <= INLINE_CAPACITY
    }

    /** The bytes the frame owns. */
    function Owned(): Text
      requires Valid()
      reads this, inlineStorage, overflow
    {
      if overflow.Length > 0 then overflow[..] else inlineStorage[..inlineSize]
    }

    /** The bytes that go on the wire. */
    function Gather(): Text
      requires Valid() && splice <= |Owned()|
      reads this, inlineStorage, overflow
    {
      Owned()[..splice] + external + Owned()[splice..]
    }
  }

  /** Header fields in order, then whatever else needs room. */
  method WriteHeader(w: Writer, v: RawView, o: ReplayOptions, delim: Byte, ghost spare: nat)
    requires w.Valid() && w.Sums() && w.pos + |Wire(ReplayHeader(v, o, E), delim)| + spare <= w.buf.Length
    modifies w, w.buf
    ensures w.Valid() && w.Sums() && w.pos + spare <= w.buf.Length
    ensures w.Written() == old(w.Written()) + Wire(ReplayHeader(v, o, E), delim)
  {
    hide FieldText, Digits, Wire, Sum;
    ghost var k1 := ReplayTail(v, o, E);
    ghost var k2 := ReplayParties(v, o, k1);
    w.AppendField(MSG_TYPE, TextOf(v.texts, MSG_TYPE), delim, Next(MakeTok(MSG_SEQ_NUM, Digits(o.msgSeqNum)), k2),
        spare);
    w.AppendField(MSG_SEQ_NUM, Digits(o.msgSeqNum), delim, k2, spare);
    WriteParties(w, v, o, delim, k1, spare);
    WriteTail(w, v, o, delim, spare);
  }

  method WriteParties(w: Writer, v: RawView, o: ReplayOptions, delim: Byte, ghost k: Stream, ghost spare: nat)
    requires w.Valid() && w.Sums() && w.pos + |Wire(ReplayParties(v, o, k), delim)| + spare <= w.buf.Length
    modifies w, w.buf
    ensures w.Valid() && w.Sums() && w.pos + |Wire(k, delim)| + spare <= w.buf.Length
    ensures w.Written() + Wire(k, delim) == old(w.Written()) + Wire(ReplayParties(v, o, k), delim)
  {
    hide FieldText, Digits, Wire, Sum;
    var senderSub := Prefer(o.senderSubId, TextOf(v.texts, SENDER_SUB_ID));
    var targetSub := Prefer(o.targetSubId, TextOf(v.texts, TARGET_SUB_ID));
    ghost var k1 := EmitText(TARGET_SUB_ID, targetSub, k);
    ghost var k2 := Next(MakeTok(TARGET_COMP_ID, o.targetCompId), k1);
    w.AppendField(SENDER_COMP_ID, o.senderCompId, delim, EmitText(SENDER_SUB_ID, senderSub, k2), spare);
    w.AppendText(SENDER_SUB_ID, senderSub, delim, k2, spare);
    w.AppendField(TARGET_COMP_ID, o.targetCompId, delim, k1, spare);
    w.AppendText(TARGET_SUB_ID, targetSub, delim, k, spare);
  }

  method WriteTail(w: Writer, v: RawView, o: ReplayOptions, delim: Byte, ghost spare: nat)
    requires w.Valid() && w.Sums() && w.pos + |Wire(ReplayTail(v, o, E), delim)| + spare <= w.buf.Length
    modifies w, w.buf
    ensures w.Valid() && w.Sums() && w.pos + spare <= w.buf.Length
    ensures w.Written() == old(w.Written()) + Wire(ReplayTail(v, o, E), delim)
  {
    hide FieldText, Digits, Wire, Sum;
    var version, applVer := DefaultVersion(v, o), Prefer(o.applVerId, TextOf(v.texts, APPL_VER_ID));
    ghost var k1 := ReplayRouting(v, o, E);
    ghost var k2 := EmitText(APPL_VER_ID, applVer, k1);
    w.AppendField(SENDING_TIME, o.sendingTime, delim, EmitText(DEFAULT_APPL_VER_ID, version, k2), spare);
    w.AppendText(DEFAULT_APPL_VER_ID, version, delim, k2, spare);
    w.AppendText(APPL_VER_ID, applVer, delim, k1, spare);
    WriteRouting(w, v, o, delim, spare);
  }

  method WriteRouting(w: Writer, v: RawView, o: ReplayOptions, delim: Byte, ghost spare: nat)
    requires w.Valid() && w.Sums() && w.pos + |Wire(ReplayRouting(v, o, E), delim)| + spare <= w.buf.Length
    modifies w, w.buf
    ensures w.Valid() && w.Sums() && w.pos + spare <= w.buf.Length
    ensures w.Written() == old(w.Written()) + Wire(ReplayRouting(v, o, E), delim)
  {
    hide FieldText, Digits, Wire, Sum;
    var behalf := Prefer(o.onBehalfOf, TextOf(v.texts, ON_BEHALF_OF_COMP_ID));
    var deliver := Prefer(o.deliverTo, TextOf(v.texts, DELIVER_TO_COMP_ID));
    ghost var k1 := EmitText(DELIVER_TO_COMP_ID, deliver, E);
    ghost var k2 := EmitText(ON_BEHALF_OF_COMP_ID, behalf, k1);
    ghost var k3 := EmitText(ORIG_SENDING_TIME, o.origSendingTime, k2);
    w.AppendField(POSS_DUP_FLAG, [YES], delim, EmitFlag(POSS_RESEND, o.possResend, k3), spare);
    if o.possResend {
      w.AppendField(POSS_RESEND, [YES], delim, k3, spare);
    }
    w.AppendText(ORIG_SENDING_TIME, o.origSendingTime, delim, k2, spare);
    w.AppendText(ON_BEHALF_OF_COMP_ID, behalf, delim, k1, spare);
    w.AppendText(DELIVER_TO_COMP_ID, deliver, delim, E, spare);
    EmptyWire(delim);
  }

  // ---------------------------------------------------------------- the encoder

  /** What goes before the body: BeginString, BodyLength and the header. */
  function Front(v: RawView, o: ReplayOptions): Text {
    FieldText(BEGIN_STRING, Begin(v, o), Delimiter(o))
    + FieldText(BODY_LENGTH, Digits(CountHeader(v, o) + |v.body|), Delimiter(o))
    + Wire(ReplayHeader(v, o, E), Delimiter(o))
  }

  /** The front and the body are the opened frame, and their sizes add up. */
  lemma FrontOpens(v: RawView, o: ReplayOptions)
    requires CountHeader(v, o) + |v.body| < 0x1_0000_0000
    ensures Front(v, o) + v.body == Opened(Begin(v, o), ReplayBody(v, o), Delimiter(o))
    ensures |Front(v, o)| + (if o.zeroCopy then 0 else |v.body|) + 7 == BufferSize(v, o)
  {
    hide Wire, FieldText, Digits, CountHeader, CountField;
    var delim := Delimiter(o);
    HeaderCounts(v, o, delim);
    WireNext(MakeTok(BEGIN_STRING, Begin(v, o)), E, delim);
    WireNext(MakeTok(BODY_LENGTH, Digits(CountHeader(v, o) + |v.body|)), E, delim);
    var p := FieldText(BEGIN_STRING, Begin(v, o), delim)
        + FieldText(BODY_LENGTH, Digits(CountHeader(v, o) + |v.body|), delim);
    Assoc(p, Wire(ReplayHeader(v, o, E), delim), v.body);
  }

  method WriteFront(w: Writer, v: RawView, o: ReplayOptions, ghost spare: nat)
    requires w.Valid() && w.Sums() && w.pos == 0 && |Front(v, o)| + spare <= w.buf.Length
    modifies w, w.buf
    ensures w.Valid() && w.Sums() && w.pos + spare <= w.buf.Length && w.Written() == Front(v, o)
  {
    hide FieldText, Digits, Wire, Sum, CountHeader, ReplayHeader;
    var delim := Delimiter(o);
    var bodyLength := CountHeader(v, o) + |v.body|;
    ghost var h := ReplayHeader(v, o, E);
    ghost var k := Next(MakeTok(BODY_LENGTH, Digits(bodyLength)), h);
    WireNext(MakeTok(BODY_LENGTH, Digits(bodyLength)), h, delim);
    WireNext(MakeTok(BEGIN_STRING, Begin(v, o)), k, delim);
    Assoc(FieldText(BEGIN_STRING, Begin(v, o), delim), FieldText(BODY_LENGTH, Digits(bodyLength), delim),
        Wire(h, delim));
    w.AppendField(BEGIN_STRING, Begin(v, o), delim, k, spare);
    w.AppendField(BODY_LENGTH, Digits(bodyLength), delim, h, spare);
    WriteHeader(w, v, o, delim, spare);
  }

  /** Sum of the front and the body, each reduced to 32 bits. */
  lemma CheckSumOfParts(front: Text, body: Text)
    ensures (Sum(front) % 0x1_0000_0000 + Sum(body) % 0x1_0000_0000) % 0x1_0000_0000 % 256 == Sum(front + body) % 256
  {
    hide Sum;
    SumConcat(front, body);
    WrapAdd(Sum(front), Sum(body) % 0x1_0000_0000);
    WrapAdd(Sum(body), Sum(front));
    WrappedSum(Sum(front) + Sum(body));
  }

  /** Everything behind the front: the body unless it is left in place, then the CheckSum field. */
  method WriteBack(w: Writer, v: RawView, o: ReplayOptions)
    requires w.Valid() && w.Sums() && w.Written() == Front(v, o)
    requires w.pos + (if o.zeroCopy then 0 else |v.body|) + 7 <= w.buf.Length
    modifies w, w.buf
    ensures w.Valid() && w.pos == old(w.pos) + (if o.zeroCopy then 0 else |v.body|) + 7
    ensures w.Written() == Front(v, o) + (if o.zeroCopy then [] else v.body)
      + CheckSumField(Front(v, o) + v.body, Delimiter(o))
  {
    hide Sum, Front, Digits;
    ghost var front := w.Written();
    var bodySum := Sum(v.body) % 0x1_0000_0000;
    if !o.zeroCopy {
      w.Copy(v.body);
    }
    ghost var mid := w.Written();
    var checksum := (w.checksum + bodySum) % 0x1_0000_0000 % 256;
    CheckSumOfParts(front, v.body);
    CheckSumWidth(checksum, Delimiter(o));
    w.Copy(FieldText(CHECK_SUM, ThreeDigits(checksum), Delimiter(o)));
  }

  lemma CheckSumWidth(n: nat, delim: Byte)
    requires n < 256
    ensures |FieldText(CHECK_SUM, ThreeDigits(n), delim)| == 7
  {
    assert Digits(CHECK_SUM) == [49, 48];
  }

  /**
   * The one-pass encoder fills exactly the size it worked out, and in every storage mode gathers to the
   * frame that the simple encoder appends.
   */
  method EncodeReplayInto(frame: FrameBytes, v: RawView, o: ReplayOptions)
    requires frame.inlineStorage.Length == INLINE_CAPACITY && CountHeader(v, o) + |v.body| < 0x1_0000_0000
    modifies frame, frame.inlineStorage
    ensures frame.Valid() && frame.splice <= |frame.Owned()| == BufferSize(v, o)
    ensures
      var s := Opened(Begin(v, o), ReplayBody(v, o), Delimiter(o));
      frame.Gather() == s + CheckSumField(s, Delimiter(o))
    ensures o.zeroCopy && v.body != [] ==> frame.external == v.body
  {
    hide Sum, Front, Opened, BufferSize, CountHeader, CheckSumField, Digits;
    FrontOpens(v, o);
    SizeIsPositive(v, o);
    var size := BufferSize(v, o);
    var buf := ChooseStorage(frame, size);
    var splice, end := FillBuffer(buf, v, o);
    if size <= INLINE_CAPACITY {
      frame.inlineSize := end;
    }
    if o.zeroCopy && v.body != [] {
      frame.external, frame.splice := v.body, splice;
    } else {
      frame.external, frame.splice := [], 0;
    }
    assert frame.Owned() == buf[..end];
    GathersTo(Front(v, o), v.body, CheckSumField(Front(v, o) + v.body, Delimiter(o)), o.zeroCopy, buf[..end],
        frame.splice);
  }

  /** Writes the frame through the buffer; `splice` is where the body goes if it is not copied. */
  method FillBuffer(buf: array<Byte>, v: RawView, o: ReplayOptions) returns (splice: nat, end: nat)
    requires CountHeader(v, o) + |v.body| < 0x1_0000_0000 && BufferSize(v, o) <= buf.Length
    modifies buf
    ensures splice == |Front(v, o)| && end == BufferSize(v, o)
    ensures buf[..end] == Front(v, o) + (if o.zeroCopy then [] else v.body)
      + CheckSumField(Front(v, o) + v.body, Delimiter(o))
  {
    hide Sum, Front, Opened, BufferSize, CountHeader, CheckSumField, Digits;
    FrontOpens(v, o);
    var w := new Writer(buf);
    WriteFront(w, v, o, (if o.zeroCopy then 0 else |v.body|) + 7);
    splice := w.pos;
    WriteBack(w, v, o);
    end := w.pos;
  }

  /** Inline storage if the frame fits, storage of its own otherwise. */
  method ChooseStorage(frame: FrameBytes, size: nat) returns (buf: array<Byte>)
    requires frame.inlineStorage.Length == INLINE_CAPACITY
    modifies frame
    ensures buf.Length >= size
    ensures if size <= INLINE_CAPACITY then buf == frame.inlineStorage && frame.overflow.Length == 0
            else buf == frame.overflow && fresh(buf) && buf.Length == size && frame.inlineSize == 0
  {
    buf := frame.inlineStorage;
    if size <= INLINE_CAPACITY {
      frame.overflow := new Byte[0];
    } else {
      frame.inlineSize := 0;
      frame.overflow := new Byte[size];
      buf := frame.overflow;
    }
  }

  lemma SizeIsPositive(v: RawView, o: ReplayOptions)
    ensures BufferSize(v, o) > 0
  {
  }

  /** Splicing the body back in gives front, body and CheckSum in order. */
  lemma GathersTo(front: Text, body: Text, sum: Text, zeroCopy: bool, owned: Text, splice: nat)
    requires owned == front + (if zeroCopy then [] else body) + sum
    requires splice == if zeroCopy && body != [] then |front| else 0
    ensures splice <= |owned|
    ensures owned[..splice] + (if zeroCopy && body != [] then body else []) + owned[splice..] == front + body + sum
  {
    if zeroCopy && body != [] {
      assert owned == front + sum;
      assert owned[..splice] == front && owned[splice..] == sum;
    } else {
      assert owned[..0] == [] && owned[0..] == owned;
    }
  }
}
