/** Frames: session header, BodyLength and CheckSum around the body, on both encode paths. */
module Framing {
  import opened Bytes
  import opened FixTags
  import opened Dictionary
  import opened Scanner
  import opened TokenStream
  import opened OwnedMessage
  import opened Encoder
  import opened TemplateEncoder
  import opened EncoderSplit
  import opened EncodeBuffer

  const FIX44: Text := [70, 73, 88, 46, 52, 46, 52]
  const UNKNOWN: Text := [85, 78, 75, 78, 79, 87, 78]
  const LOGON: Text := [65]
  const BODY_LENGTH_WIDTH: nat := 7
  const PLACEHOLDER: Text := [48, 48, 48, 48, 48, 48, 48]

  datatype Options = Options(
    beginString: Text, senderCompId: Text, senderSubId: Text, targetCompId: Text, targetSubId: Text,
    onBehalfOf: Text, deliverTo: Text, defaultApplVerId: Text, applVerId: Text,
    sendingTime: Text, origSendingTime: Text, msgSeqNum: nat, possDup: bool, possResend: bool, delimiter: Byte)

  datatype Encoded = Encoded(bytes: Text) | BodyTooLong | Mismatch

  /** A text field that is left out when empty. */
  function EmitText(tag: nat, text: Text, k: Stream): Stream {
    if text == [] then k else Next(MakeTok(tag, text), k)
  }

  function EmitFlag(tag: nat, on: bool, k: Stream): Stream {
    if on then Next(MakeTok(tag, [YES]), k) else k
  }

  function SeqText(o: Options): Text {
    Digits(if o.msgSeqNum == 0 then 1 else o.msgSeqNum)
  }

  /** `now` is the clock reading that stands in for an empty sending time. */
  function TimeText(o: Options, now: Text): Text {
    if o.sendingTime == [] then now else o.sendingTime
  }

  /** Replay flags and routing fields, which close the header. */
  function EmitRouting(o: Options, k: Stream): Stream {
    EmitFlag(POSS_DUP_FLAG, o.possDup,
    EmitFlag(POSS_RESEND, o.possResend,
    EmitText(ORIG_SENDING_TIME, o.origSendingTime,
    EmitText(ON_BEHALF_OF_COMP_ID, o.onBehalfOf,
    EmitText(DELIVER_TO_COMP_ID, o.deliverTo, k)))))
  }

  /** Header fields behind TargetSubID; the same on both paths except for the default version. */
  function EmitTail(o: Options, now: Text, defaultVer: Text, k: Stream): Stream {
    Next(MakeTok(SENDING_TIME, TimeText(o, now)),
    EmitText(DEFAULT_APPL_VER_ID, defaultVer,
    EmitText(APPL_VER_ID, o.applVerId, EmitRouting(o, k))))
  }

  function EmitParties(o: Options, sender: Text, target: Text, k: Stream): Stream {
    EmitText(SENDER_COMP_ID, sender,
    EmitText(SENDER_SUB_ID, o.senderSubId,
    EmitText(TARGET_COMP_ID, target,
    EmitText(TARGET_SUB_ID, o.targetSubId, k))))
  }

  function EmitHeader(msgType: Text, o: Options, now: Text, k: Stream): Stream {
    Next(MakeTok(MSG_TYPE, if msgType == [] then UNKNOWN else msgType),
    Next(MakeTok(MSG_SEQ_NUM, SeqText(o)),
    EmitParties(o, o.senderCompId, o.targetCompId,
    EmitTail(o, now, if msgType == LOGON then o.defaultApplVerId else [], k))))
  }

  /** The body goes by the rules of its message type when the dictionary has them. */
  function EmitMessage(d: Dict, msgType: Text, m: Message, k: Stream): Stream {
    if msgType != [] && msgType in d.messages then EmitBody(d, d.messages[msgType], m, true, k)
    else PlainBody(m, true, k)
  }

  function BeginString(o: Options): Text {
    if o.beginString == [] then FIX44 else o.beginString
  }

  /** BeginString and BodyLength in front of a body. */
  function Opened(begin: Text, body: Text, delim: Byte): Text {
    FieldText(BEGIN_STRING, begin, delim) + FieldText(BODY_LENGTH, Digits(|body| % 0x1_0000_0000), delim) + body
  }

  /** The CheckSum field of the bytes before it. */
  function CheckSumField(s: Text, delim: Byte): Text {
    FieldText(CHECK_SUM, ThreeDigits(Sum(s) % 256), delim)
  }

  function MakeFrame(begin: Text, body: Text, delim: Byte): Encoded {
    if |Digits(|body| % 0x1_0000_0000)| > BODY_LENGTH_WIDTH then BodyTooLong
    else
      var s := Opened(begin, body, delim);
      Encoded(s + CheckSumField(s, delim))
  }

  /** What the generic encoder produces. */
  function GenericFrame(d: Dict, msgType: Text, m: Message, o: Options, now: Text): Encoded {
    var delim := NormalizeDelimiter(o.delimiter);
    MakeFrame(BeginString(o), Wire(EmitHeader(msgType, o, now, EmitMessage(d, msgType, m, E)), delim), delim)
  }

  // ---------------------------------------------------------------- template

  datatype Config = Config(
    msgType: Text, beginString: Text, senderCompId: Text, targetCompId: Text, defaultApplVerId: Text, delimiter: Byte)

  function ConfigBegin(c: Config): Text {
    if c.beginString == [] then FIX44 else c.beginString
  }

  /** An option may be left empty or must repeat what the template was compiled with. */
  predicate Compatible(option: Text, compiled: Text) {
    option == [] || option == compiled
  }

  predicate Accepts(c: Config, msgType: Text, o: Options) {
    && Compatible(msgType, c.msgType) && NormalizeDelimiter(o.delimiter) == NormalizeDelimiter(c.delimiter)
    && Compatible(o.beginString, ConfigBegin(c)) && Compatible(o.senderCompId, c.senderCompId)
    && Compatible(o.targetCompId, c.targetCompId) && Compatible(o.defaultApplVerId, c.defaultApplVerId)
  }

  function TemplateHeader(c: Config, o: Options, now: Text, k: Stream): Stream {
    Next(MakeTok(MSG_TYPE, c.msgType),
    Next(MakeTok(MSG_SEQ_NUM, SeqText(o)),
    EmitParties(o, c.senderCompId, c.targetCompId,
    EmitTail(o, now, if c.msgType == LOGON then c.defaultApplVerId else [], k))))
  }

  /** What the precompiled template produces. */
  function TemplateFrame(c: Config, t: Template, msgType: Text, m: Message, o: Options, now: Text): Encoded {
    if !Accepts(c, msgType, o) then Mismatch
    else
      var delim := NormalizeDelimiter(c.delimiter);
      MakeFrame(ConfigBegin(c), Wire(TemplateHeader(c, o, now, EmitScope(t, m, true, E)), delim), delim)
  }

  /** Template first, and the generic encoder whenever the template does not succeed. */
  function DispatchedFrame(d: Dict, c: Config, t: Template, m: Message, o: Options, now: Text): Encoded {
    var r := TemplateFrame(c, t, c.msgType, m, o, now);
    if r.Encoded? then r else GenericFrame(d, c.msgType, m, o, now)
  }

  /** The options name the identities the template was compiled with. */
  predicate SameIdentity(c: Config, o: Options) {
    && o.senderCompId == c.senderCompId && o.targetCompId == c.targetCompId
    && (c.msgType == LOGON ==> o.defaultApplVerId == c.defaultApplVerId)
  }

  /** Once a template accepts its options, the two headers agree exactly for the same identities. */
  lemma HeadersAgree(c: Config, o: Options, now: Text, k: Stream)
    requires c.msgType != [] && Accepts(c, c.msgType, o)
    ensures TemplateHeader(c, o, now, k) == EmitHeader(c.msgType, o, now, k) <==> SameIdentity(c, o)
  {
    if !SameIdentity(c, o) {
      PartiesDiffer(c, o, now, k);
    }
  }

  lemma PartiesDiffer(c: Config, o: Options, now: Text, k: Stream)
    requires Accepts(c, c.msgType, o) && !SameIdentity(c, o)
    ensures
      var gen := EmitTail(o, now, if c.msgType == LOGON then o.defaultApplVerId else [], k);
      var tem := EmitTail(o, now, if c.msgType == LOGON then c.defaultApplVerId else [], k);
      EmitParties(o, c.senderCompId, c.targetCompId, tem) != EmitParties(o, o.senderCompId, o.targetCompId, gen)
  {
    var gen := EmitTail(o, now, if c.msgType == LOGON then o.defaultApplVerId else [], k);
    var tem := EmitTail(o, now, if c.msgType == LOGON then c.defaultApplVerId else [], k);
    if o.senderCompId == c.senderCompId && o.targetCompId == c.targetCompId {
      assert gen.Next? && tem.Next? && tem.rest != gen.rest by {
        var k1 := EmitText(APPL_VER_ID, o.applVerId, EmitRouting(o, k));
        assert gen.rest == k1 && tem.rest == Next(MakeTok(DEFAULT_APPL_VER_ID, c.defaultApplVerId), k1);
        SizeDiffers(k1, tem.rest);
      }
      assert tem != gen;
    } else if o.senderCompId == c.senderCompId {
      assert TARGET_COMP_ID != TARGET_SUB_ID && TARGET_COMP_ID != SENDING_TIME;
    }
  }

  lemma SizeDiffers(a: Stream, b: Stream)
    requires b.Next? && b.rest == a
    ensures a != b
  {
    assert Size(b) == Size(a) + 1;
  }

  /**
   * Falling back from the template to the generic encoder cannot be observed: for every message that
   * fits, both give the same bytes, and so does the dispatcher. TemplateExact and TemplateRoundTrip show
   * that messages with a scalar that does not fit are told apart.
   */
  lemma TemplateIsUnobservable(
      d: Dict, rank: map<nat, nat>, bound: nat, c: Config, m: Message, o: Options, now: Text)
    requires c.msgType != [] && c.msgType in d.messages
    requires Ranked(d, rank) && Below(d, rank, d.messages[c.msgType], bound)
    requires GroupsFit(d, d.messages[c.msgType], m, true) && ScalarsFit(d, d.messages[c.msgType], m, true)
    requires SameIdentity(c, o) && BeginString(o) == ConfigBegin(c)
    ensures
      var t := CompileFrom(d, rank, bound, d.messages[c.msgType], 0, true);
      && DispatchedFrame(d, c, t, m, o, now) == GenericFrame(d, c.msgType, m, o, now)
      && (Accepts(c, c.msgType, o) ==>
            TemplateFrame(c, t, c.msgType, m, o, now) == GenericFrame(d, c.msgType, m, o, now))
  {
    ScopeAgrees(d, rank, bound, d.messages[c.msgType], m, true, E);
  }

  /** A scalar under a group's count tag is printed by the generic encoder and lost by the template. */
  lemma ScalarUnderCountTagIsLost()
    ensures
      var d := Dict(map[453 := TInt], map[[68] := [453]], map[453 := GroupDef(453, 448, [448])]);
      var m := Message([OwnedMessage.Field(453, VInt(2))], []);
      var t := CompileFrom(d, map[453 := 0], 1, [453], 0, true);
      && Ranked(d, map[453 := 0]) && Below(d, map[453 := 0], [453], 1)
      && EmitScope(t, m, true, E) == E
      && EmitBody(d, [453], m, true, E) == Next(MakeTok(453, Digits(2)), E)
  {
    var d := Dict(map[453 := TInt], map[[68] := [453]], map[453 := GroupDef(453, 448, [448])]);
    var m := Message([OwnedMessage.Field(453, VInt(2))], []);
    var t := CompileFrom(d, map[453 := 0], 1, [453], 0, true);
    assert CompileFrom(d, map[453 := 0], 1, [453], 1, true) == Template([], [], []);
    assert t.groupTags == [453] && t.scalarTags == [] && |t.steps| == 1 && t.steps[0].GroupStep?;
    assert EmitSteps(t, 1, m, E) == E;
    assert RulePass(d, [453], 1, m, true, E) == E;
  }

  /** A scalar under a framing tag of the rules is printed by the template and dropped by the generic encoder. */
  lemma ScalarUnderFrameTagIsPrinted()
    ensures
      var d := Dict(map[CHECK_SUM := TInt], map[[68] := [CHECK_SUM]], map[]);
      var m := Message([OwnedMessage.Field(CHECK_SUM, VInt(2))], []);
      var t := CompileFrom(d, map[], 0, [CHECK_SUM], 0, true);
      && Ranked(d, map[]) && Below(d, map[], [CHECK_SUM], 0) && GroupsFit(d, [CHECK_SUM], m, true)
      && EmitScope(t, m, true, E) == Next(MakeTok(CHECK_SUM, Digits(2)), E)
      && EmitBody(d, [CHECK_SUM], m, true, E) == E
  {
    var d := Dict(map[CHECK_SUM := TInt], map[[68] := [CHECK_SUM]], map[]);
    var m := Message([OwnedMessage.Field(CHECK_SUM, VInt(2))], []);
    var t := CompileFrom(d, map[], 0, [CHECK_SUM], 0, true);
    assert CompileFrom(d, map[], 0, [CHECK_SUM], 1, true) == Template([], [], []);
    assert t.scalarTags == [CHECK_SUM] && t.groupTags == [] && t.steps == [ScalarStep(CHECK_SUM)];
    assert FieldIndex(m.fields, CHECK_SUM) == 0 && !HasGroup(m, CHECK_SUM);
    assert SweepGroups(t, m.groups, 0, E) == E && ExtraGroups(d, [CHECK_SUM], m.groups, 0, E) == E;
    assert SweepFields(t, m, 1, true, E) == E && SweepFields(t, m, 0, true, E) == E;
    assert ExtraFields([CHECK_SUM], m, 1, true, E) == E && ExtraFields([CHECK_SUM], m, 0, true, E) == E;
    assert EmitSteps(t, 1, m, E) == E;
    assert RulePass(d, [CHECK_SUM], 1, m, true, E) == E;
    assert RulePass(d, [CHECK_SUM], 0, m, true, E) == EmitRule(d, m, CHECK_SUM, true, E);
  }

  // ---------------------------------------------------------------- the encoders at work

  /** The frame opened with a placeholder of seven zeros for BodyLength. */
  function OpenedBlank(begin: Text, body: Text, delim: Byte): Text {
    FieldText(BEGIN_STRING, begin, delim) + FieldText(BODY_LENGTH, PLACEHOLDER, delim) + body
  }

  /** Offset of the BodyLength digits. */
  function LengthOffset(begin: Text, delim: Byte): nat {
    |FieldText(BEGIN_STRING, begin, delim)| + |Digits(BODY_LENGTH)| + 1
  }

  lemma BackfillLength(begin: Text, body: Text, delim: Byte)
    ensures
      var s, at := OpenedBlank(begin, body, delim), LengthOffset(begin, delim);
      && at + BODY_LENGTH_WIDTH <= |s|
      && s[..at] + Digits(|body| % 0x1_0000_0000) + s[at + BODY_LENGTH_WIDTH..] == Opened(begin, body, delim)
  {
    var head := FieldText(BEGIN_STRING, begin, delim) + (Digits(BODY_LENGTH) + [EQUALS]);
    var s, at := OpenedBlank(begin, body, delim), LengthOffset(begin, delim);
    assert s == head + PLACEHOLDER + ([delim] + body);
    assert s[..at] == head;
    assert s[at + BODY_LENGTH_WIDTH..] == [delim] + body;
    assert Opened(begin, body, delim) == head + Digits(|body| % 0x1_0000_0000) + ([delim] + body);
  }

  method AppendText(b: Buffer, tag: nat, text: Text, delim: Byte, ghost k: Stream)
    requires b.Tracks()
    modifies b
    ensures b.Tracks()
    ensures b.out + Wire(k, delim) == old(b.out) + Wire(EmitText(tag, text, k), delim)
  {
    if text != [] {
      AppendField(b, tag, text, delim, k);
    }
  }

  method AppendField(b: Buffer, tag: nat, text: Text, delim: Byte, ghost k: Stream)
    requires b.Tracks()
    modifies b
    ensures b.Tracks()
    ensures b.out + Wire(k, delim) == old(b.out) + Wire(Next(MakeTok(tag, text), k), delim)
  {
    AppendedField(b.out, tag, text, k, b.out + Wire(Next(MakeTok(tag, text), k), delim), delim);
    b.AppendPrefixedField(Digits(tag) + [EQUALS], text, delim, tag);
  }

  method AppendFlag(b: Buffer, tag: nat, on: bool, delim: Byte, ghost k: Stream)
    requires b.Tracks()
    modifies b
    ensures b.Tracks()
    ensures b.out + Wire(k, delim) == old(b.out) + Wire(EmitFlag(tag, on, k), delim)
  {
    if on {
      AppendField(b, tag, [YES], delim, k);
    }
  }

  method AppendParties(b: Buffer, o: Options, sender: Text, target: Text, delim: Byte, ghost k: Stream)
    requires b.Tracks()
    modifies b
    ensures b.Tracks()
    ensures b.out + Wire(k, delim) == old(b.out) + Wire(EmitParties(o, sender, target, k), delim)
  {
    ghost var k1 := EmitText(TARGET_SUB_ID, o.targetSubId, k);
    ghost var k2 := EmitText(TARGET_COMP_ID, target, k1);
    ghost var k3 := EmitText(SENDER_SUB_ID, o.senderSubId, k2);
    AppendText(b, SENDER_COMP_ID, sender, delim, k3);
    AppendText(b, SENDER_SUB_ID, o.senderSubId, delim, k2);
    AppendText(b, TARGET_COMP_ID, target, delim, k1);
    AppendText(b, TARGET_SUB_ID, o.targetSubId, delim, k);
  }

  method AppendTail(b: Buffer, o: Options, now: Text, defaultVer: Text, delim: Byte, ghost k: Stream)
    requires b.Tracks()
    modifies b
    ensures b.Tracks()
    ensures b.out + Wire(k, delim) == old(b.out) + Wire(EmitTail(o, now, defaultVer, k), delim)
  {
    ghost var k1 := EmitRouting(o, k);
    ghost var k2 := EmitText(APPL_VER_ID, o.applVerId, k1);
    AppendField(b, SENDING_TIME, TimeText(o, now), delim, EmitText(DEFAULT_APPL_VER_ID, defaultVer, k2));
    AppendText(b, DEFAULT_APPL_VER_ID, defaultVer, delim, k2);
    AppendText(b, APPL_VER_ID, o.applVerId, delim, k1);
    AppendRouting(b, o, delim, k);
  }

  method AppendRouting(b: Buffer, o: Options, delim: Byte, ghost k: Stream)
    requires b.Tracks()
    modifies b
    ensures b.Tracks()
    ensures b.out + Wire(k, delim) == old(b.out) + Wire(EmitRouting(o, k), delim)
  {
    ghost var k1 := EmitText(DELIVER_TO_COMP_ID, o.deliverTo, k);
    ghost var k2 := EmitText(ON_BEHALF_OF_COMP_ID, o.onBehalfOf, k1);
    ghost var k3 := EmitText(ORIG_SENDING_TIME, o.origSendingTime, k2);
    AppendFlag(b, POSS_DUP_FLAG, o.possDup, delim, EmitFlag(POSS_RESEND, o.possResend, k3));
    AppendFlag(b, POSS_RESEND, o.possResend, delim, k3);
    AppendText(b, ORIG_SENDING_TIME, o.origSendingTime, delim, k2);
    AppendText(b, ON_BEHALF_OF_COMP_ID, o.onBehalfOf, delim, k1);
    AppendText(b, DELIVER_TO_COMP_ID, o.deliverTo, delim, k);
  }

  /** Starts a frame; the checksum follows from the first byte on. */
  method OpenTracked(b: Buffer, begin: Text, delim: Byte)
    modifies b
    ensures b.Tracks() && b.out == OpenedBlank(begin, [], delim)
  {
    b.out, b.checksum := [], 0;
    b.AppendPrefixedField(Digits(BEGIN_STRING) + [EQUALS], begin, delim, BEGIN_STRING);
    b.AppendPrefixedField(Digits(BODY_LENGTH) + [EQUALS], PLACEHOLDER, delim, BODY_LENGTH);
  }

  /** Replaces the placeholder and appends the CheckSum field from the running checksum. */
  method CloseTracked(b: Buffer, begin: Text, bodyStart: nat, delim: Byte, ghost body: Text) returns (ok: bool)
    requires b.Tracks() && b.out == OpenedBlank(begin, body, delim) && bodyStart == |b.out| - |body|
    modifies b
    ensures
      var r := MakeFrame(begin, body, delim);
      ok == r.Encoded? && (ok ==> b.out == r.bytes)
  {
    var bodyLength := (|b.out| - bodyStart) % 0x1_0000_0000;
    var digits := FormatUint32(bodyLength);
    if |digits| > BODY_LENGTH_WIDTH {
      return false;
    }
    BackfillLength(begin, body, delim);
    b.ReplacePlaceholder(LengthOffset(begin, delim), BODY_LENGTH_WIDTH, bodyLength);
    var sum := b.checksum % 256;
    WrappedSum(Sum(b.out));
    b.Append(FieldText(CHECK_SUM, ThreeDigits(sum), delim));
    return true;
  }

  /** Backfills the length and sums up the finished buffer. */
  method CloseUntracked(b: Buffer, begin: Text, bodyStart: nat, delim: Byte, ghost body: Text) returns (ok: bool)
    requires b.out == OpenedBlank(begin, body, delim) && bodyStart == |b.out| - |body|
    modifies b
    ensures
      var r := MakeFrame(begin, body, delim);
      ok == r.Encoded? && (ok ==> b.out == r.bytes)
  {
    var digits := FormatUint32((|b.out| - bodyStart) % 0x1_0000_0000);
    if |digits| > BODY_LENGTH_WIDTH {
      return false;
    }
    BackfillLength(begin, body, delim);
    var at := LengthOffset(begin, delim);
    b.out := b.out[..at] + digits + b.out[at + BODY_LENGTH_WIDTH..];
    b.AppendField(CHECK_SUM, ThreeDigits(Sum(b.out) % 256), delim);
    return true;
  }

  lemma BlankGrows(begin: Text, body: Text, delim: Byte)
    ensures OpenedBlank(begin, [], delim) + body == OpenedBlank(begin, body, delim)
  {
  }

  /** The template path: one pass with a placeholder, a running checksum and a shrinking replacement. */
  method EncodeWithTemplate(b: Buffer, c: Config, t: Template, msgType: Text, m: Message, o: Options, now: Text)
    returns (ok: bool)
    modifies b
    ensures
      var r := TemplateFrame(c, t, msgType, m, o, now);
      ok == r.Encoded? && (ok ==> b.out == r.bytes)
  {
    if !Accepts(c, msgType, o) {
      return false;
    }
    var delim := NormalizeDelimiter(o.delimiter);
    ghost var body := EmitScope(t, m, true, E);
    ghost var text := Wire(TemplateHeader(c, o, now, body), delim);
    OpenTracked(b, ConfigBegin(c), delim);
    var bodyStart := |b.out|;
    AppendTemplateHeader(b, c, o, now, delim, body);
    EncodeScopeTemplate(b, t, m, delim, true);
    BlankGrows(ConfigBegin(c), text, delim);
    ok := CloseTracked(b, ConfigBegin(c), bodyStart, delim, text);
  }

  method AppendTemplateHeader(b: Buffer, c: Config, o: Options, now: Text, delim: Byte, ghost k: Stream)
    requires b.Tracks()
    modifies b
    ensures b.Tracks()
    ensures b.out + Wire(k, delim) == old(b.out) + Wire(TemplateHeader(c, o, now, k), delim)
  {
    var ver := if c.msgType == LOGON then c.defaultApplVerId else [];
    ghost var k1 := EmitTail(o, now, ver, k);
    ghost var k2 := EmitParties(o, c.senderCompId, c.targetCompId, k1);
    AppendField(b, MSG_TYPE, c.msgType, delim, Next(MakeTok(MSG_SEQ_NUM, SeqText(o)), k2));
    AppendField(b, MSG_SEQ_NUM, SeqText(o), delim, k2);
    AppendParties(b, o, c.senderCompId, c.targetCompId, delim, k1);
    AppendTail(b, o, now, ver, delim, k);
  }

  /** Reducing modulo 2^32 on the way does not change the sum modulo 256. */
  lemma WrappedSum(n: nat)
    ensures n % 0x1_0000_0000 % 256 == n % 256
  {
    var q := n / 0x1_0000_0000;
    assert n == n % 0x1_0000_0000 + 256 * (q * 0x100_0000);
    Mod256(n % 0x1_0000_0000, q * 0x100_0000);
  }

  lemma {:induction false} Mod256(x: nat, q: nat)
    ensures (x + 256 * q) % 256 == x % 256
  {
    if q > 0 {
      Mod256(x, q - 1);
    }
  }

  method AppendGenericHeader(b: Buffer, msgType: Text, o: Options, now: Text, delim: Byte, ghost k: Stream)
    requires b.Tracks()
    modifies b
    ensures b.Tracks()
    ensures b.out + Wire(k, delim) == old(b.out) + Wire(EmitHeader(msgType, o, now, k), delim)
  {
    var ver := if msgType == LOGON then o.defaultApplVerId else [];
    ghost var k1 := EmitTail(o, now, ver, k);
    ghost var k2 := EmitParties(o, o.senderCompId, o.targetCompId, k1);
    AppendField(b, MSG_TYPE, if msgType == [] then UNKNOWN else msgType, delim,
        Next(MakeTok(MSG_SEQ_NUM, SeqText(o)), k2));
    AppendField(b, MSG_SEQ_NUM, SeqText(o), delim, k2);
    AppendParties(b, o, o.senderCompId, o.targetCompId, delim, k1);
    AppendTail(b, o, now, ver, delim, k);
  }

  /** The generic path: placeholder, body, length backfilled, checksum over the finished buffer. */
  method EncodeGeneric(b: Buffer, d: Dict, msgType: Text, m: Message, o: Options, now: Text) returns (ok: bool)
    modifies b
    ensures
      var r := GenericFrame(d, msgType, m, o, now);
      ok == r.Encoded? && (ok ==> b.out == r.bytes)
  {
    var delim := NormalizeDelimiter(o.delimiter);
    ghost var body := EmitMessage(d, msgType, m, E);
    ghost var text := Wire(EmitHeader(msgType, o, now, body), delim);
    OpenTracked(b, BeginString(o), delim);
    var bodyStart := |b.out|;
    AppendGenericHeader(b, msgType, o, now, delim, body);
    if msgType != [] && msgType in d.messages {
      EncodeMessageBody(b, d, d.messages[msgType], m, delim, true);
    } else {
      EncodePlainBody(b, m, delim, true);
    }
    BlankGrows(BeginString(o), text, delim);
    ok := CloseUntracked(b, BeginString(o), bodyStart, delim, text);
  }
}
