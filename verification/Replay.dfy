/**
 * Replaying a stored frame under a fresh header: the simple encoder appends and backfills; the one-pass
 * encoder works out its size first, writes through a fixed buffer and may leave the body where it is.
 */
module Replay {
  import opened Bytes
  import opened FixTags
  import opened Scanner
  import opened TokenStream
  import opened EncoderSplit
  import opened EncodeBuffer
  import opened Framing
  import opened RawPassThrough

  const INLINE_CAPACITY: nat := 768

  datatype ReplayOptions = ReplayOptions(
    beginString: Text, senderCompId: Text, senderSubId: Text, targetCompId: Text, targetSubId: Text,
    sendingTime: Text, origSendingTime: Text, defaultApplVerId: Text, applVerId: Text,
    onBehalfOf: Text, deliverTo: Text, msgSeqNum: nat, possResend: bool, delimiter: Byte, zeroCopy: bool)

  function Prefer(a: Text, b: Text): Text {
    if a == [] then b else a
  }

  /** A stored default version counts on Logon messages only. */
  function DefaultVersion(v: RawView, o: ReplayOptions): Text {
    if o.defaultApplVerId != [] then o.defaultApplVerId
    else if TextOf(v.texts, MSG_TYPE) == LOGON then TextOf(v.texts, DEFAULT_APPL_VER_ID)
    else []
  }

  function ReplayRouting(v: RawView, o: ReplayOptions, k: Stream): Stream {
    Next(MakeTok(POSS_DUP_FLAG, [YES]),
    EmitFlag(POSS_RESEND, o.possResend,
    EmitText(ORIG_SENDING_TIME, o.origSendingTime,
    EmitText(ON_BEHALF_OF_COMP_ID, Prefer(o.onBehalfOf, TextOf(v.texts, ON_BEHALF_OF_COMP_ID)),
    EmitText(DELIVER_TO_COMP_ID, Prefer(o.deliverTo, TextOf(v.texts, DELIVER_TO_COMP_ID)), k)))))
  }

  function ReplayTail(v: RawView, o: ReplayOptions, k: Stream): Stream {
    Next(MakeTok(SENDING_TIME, o.sendingTime),
    EmitText(DEFAULT_APPL_VER_ID, DefaultVersion(v, o),
    EmitText(APPL_VER_ID, Prefer(o.applVerId, TextOf(v.texts, APPL_VER_ID)), ReplayRouting(v, o, k))))
  }

  function ReplayParties(v: RawView, o: ReplayOptions, k: Stream): Stream {
    Next(MakeTok(SENDER_COMP_ID, o.senderCompId),
    EmitText(SENDER_SUB_ID, Prefer(o.senderSubId, TextOf(v.texts, SENDER_SUB_ID)),
    Next(MakeTok(TARGET_COMP_ID, o.targetCompId),
    EmitText(TARGET_SUB_ID, Prefer(o.targetSubId, TextOf(v.texts, TARGET_SUB_ID)), k))))
  }

  /** The fresh header in front of `k`. */
  function ReplayHeader(v: RawView, o: ReplayOptions, k: Stream): Stream {
    Next(MakeTok(MSG_TYPE, TextOf(v.texts, MSG_TYPE)),
    Next(MakeTok(MSG_SEQ_NUM, Digits(o.msgSeqNum)),
    ReplayParties(v, o, ReplayTail(v, o, k))))
  }

  function Delimiter(o: ReplayOptions): Byte {
    NormalizeDelimiter(o.delimiter)
  }

  function Begin(v: RawView, o: ReplayOptions): Text {
    Prefer(o.beginString, v.beginString)
  }

  /** Header and body of the replayed frame. */
  function ReplayBody(v: RawView, o: ReplayOptions): Text {
    Wire(ReplayHeader(v, o, E), Delimiter(o)) + v.body
  }

  // ---------------------------------------------------------------- append and backfill

  method AppendReplayHeader(b: Buffer, v: RawView, o: ReplayOptions, delim: Byte)
    requires b.Tracks()
    modifies b
    ensures b.Tracks() && b.out == old(b.out) + Wire(ReplayHeader(v, o, E), delim)
  {
    hide FieldText, Digits;
    ghost var k1 := ReplayTail(v, o, E);
    ghost var k2 := ReplayParties(v, o, k1);
    AppendField(b, MSG_TYPE, TextOf(v.texts, MSG_TYPE), delim, Next(MakeTok(MSG_SEQ_NUM, Digits(o.msgSeqNum)), k2));
    AppendField(b, MSG_SEQ_NUM, Digits(o.msgSeqNum), delim, k2);
    AppendReplayParties(b, v, o, delim, k1);
    AppendReplayTail(b, v, o, delim);
  }

  method AppendReplayParties(b: Buffer, v: RawView, o: ReplayOptions, delim: Byte, ghost k: Stream)
    requires b.Tracks()
    modifies b
    ensures b.Tracks() && b.out + Wire(k, delim) == old(b.out) + Wire(ReplayParties(v, o, k), delim)
  {
    var senderSub := Prefer(o.senderSubId, TextOf(v.texts, SENDER_SUB_ID));
    var targetSub := Prefer(o.targetSubId, TextOf(v.texts, TARGET_SUB_ID));
    ghost var k1 := EmitText(TARGET_SUB_ID, targetSub, k);
    ghost var k2 := Next(MakeTok(TARGET_COMP_ID, o.targetCompId), k1);
    AppendField(b, SENDER_COMP_ID, o.senderCompId, delim, EmitText(SENDER_SUB_ID, senderSub, k2));
    AppendText(b, SENDER_SUB_ID, senderSub, delim, k2);
    AppendField(b, TARGET_COMP_ID, o.targetCompId, delim, k1);
    AppendText(b, TARGET_SUB_ID, targetSub, delim, k);
  }

  method AppendReplayTail(b: Buffer, v: RawView, o: ReplayOptions, delim: Byte)
    requires b.Tracks()
    modifies b
    ensures b.Tracks() && b.out == old(b.out) + Wire(ReplayTail(v, o, E), delim)
  {
    var version, applVer := DefaultVersion(v, o), Prefer(o.applVerId, TextOf(v.texts, APPL_VER_ID));
    ghost var k1 := ReplayRouting(v, o, E);
    ghost var k2 := EmitText(APPL_VER_ID, applVer, k1);
    AppendField(b, SENDING_TIME, o.sendingTime, delim, EmitText(DEFAULT_APPL_VER_ID, version, k2));
    AppendText(b, DEFAULT_APPL_VER_ID, version, delim, k2);
    AppendText(b, APPL_VER_ID, applVer, delim, k1);
    AppendReplayRouting(b, v, o, delim);
  }

  method AppendReplayRouting(b: Buffer, v: RawView, o: ReplayOptions, delim: Byte)
    requires b.Tracks()
    modifies b
    ensures b.Tracks() && b.out == old(b.out) + Wire(ReplayRouting(v, o, E), delim)
  {
    var behalf := Prefer(o.onBehalfOf, TextOf(v.texts, ON_BEHALF_OF_COMP_ID));
    var deliver := Prefer(o.deliverTo, TextOf(v.texts, DELIVER_TO_COMP_ID));
    ghost var k1 := EmitText(DELIVER_TO_COMP_ID, deliver, E);
    ghost var k2 := EmitText(ON_BEHALF_OF_COMP_ID, behalf, k1);
    ghost var k3 := EmitText(ORIG_SENDING_TIME, o.origSendingTime, k2);
    AppendFlag(b, POSS_DUP_FLAG, true, delim, EmitFlag(POSS_RESEND, o.possResend, k3));
    AppendFlag(b, POSS_RESEND, o.possResend, delim, k3);
    AppendText(b, ORIG_SENDING_TIME, o.origSendingTime, delim, k2);
    AppendText(b, ON_BEHALF_OF_COMP_ID, behalf, delim, k1);
    AppendText(b, DELIVER_TO_COMP_ID, deliver, delim, E);
  }

  /** The simple encoder: header, raw body, BodyLength backfilled, CheckSum over the finished buffer. */
  method EncodeReplay(b: Buffer, v: RawView, o: ReplayOptions) returns (ok: bool)
    modifies b
    ensures
      var r := MakeFrame(Begin(v, o), ReplayBody(v, o), Delimiter(o));
      ok == r.Encoded? && (ok ==> b.out == r.bytes)
  {
    hide FieldText, Digits, Wire, MakeFrame;
    var delim := Delimiter(o);
    OpenTracked(b, Begin(v, o), delim);
    var bodyStart := |b.out|;
    AppendReplayHeader(b, v, o, delim);
    b.Append(v.body);
    BlankGrows(Begin(v, o), ReplayBody(v, o), delim);
    Assoc(OpenedBlank(Begin(v, o), [], delim), Wire(ReplayHeader(v, o, E), delim), v.body);
    ok := CloseUntracked(b, Begin(v, o), bodyStart, delim, ReplayBody(v, o));
  }
}
