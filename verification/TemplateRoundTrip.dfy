/** The template path at the level of frames: when its bytes are the generic ones, and that decoding undoes it too. */
module TemplateRoundTrip {
  import opened Bytes
  import opened FixTags
  import opened Dictionary
  import opened Scanner
  import opened TokenStream
  import opened Decoder
  import opened Encoder
  import opened TemplateEncoder
  import opened TemplateExact
  import opened EncoderSplit
  import opened RoundTrip
  import opened FrameRoundTrip
  import F = Framing
  import O = OwnedMessage

  // ---- equal bytes mean equal fields

  lemma {:induction false} AppendLast(a: Stream, b: Stream, x: Tok, y: Tok)
    requires Append(a, Next(x, E)) == Append(b, Next(y, E)) && Tail(a).None? && Tail(b).None?
    ensures a == b
  {
    if a.Next? && b.Next? {
      AppendLast(a.rest, b.rest, x, y);
    }
  }

  lemma {:induction false} AppendCancels(a: Stream, b: Stream, c: Stream)
    requires Append(a, b) == Append(a, c)
    ensures b == c
  {
    if a.Next? {
      AppendCancels(a.rest, b, c);
    }
  }

  lemma {:induction false} PrintableEnds(st: Stream, delim: Byte)
    requires Printable(st, delim)
    ensures Tail(st).None?
  {
    if st.Next? {
      PrintableEnds(st.rest, delim);
    }
  }

  /** Two frames with the same bytes hold the same fields. */
  lemma SameBytesSameFields(begin: Text, a: Stream, b: Stream, delim: Byte)
    requires SafeDelimiter(delim) && delim !in begin && Printable(a, delim) && Printable(b, delim)
    requires F.MakeFrame(begin, Wire(a, delim), delim).Encoded?
    requires F.MakeFrame(begin, Wire(a, delim), delim) == F.MakeFrame(begin, Wire(b, delim), delim)
    ensures a == b
  {
    var s := F.MakeFrame(begin, Wire(a, delim), delim).bytes;
    FrameIsWire(begin, a, delim);
    FrameIsWire(begin, b, delim);
    FramePrintable(begin, a, delim);
    FramePrintable(begin, b, delim);
    TokenizeWire(s, 0, FrameStream(begin, a, delim), delim);
    TokenizeWire(s, 0, FrameStream(begin, b, delim), delim);
    PrintableEnds(a, delim);
    PrintableEnds(b, delim);
    AppendLast(a, b, MakeTok(CHECK_SUM, ThreeDigits(Sum(F.Opened(begin, Wire(a, delim), delim)) % 256)),
               MakeTok(CHECK_SUM, ThreeDigits(Sum(F.Opened(begin, Wire(b, delim), delim)) % 256)));
  }

  // ---- template and generic frames

  /** A template compiled for the message type, with the parties the options name. */
  ghost predicate Matched(d: Dict, rank: map<nat, nat>, bound: nat, c: F.Config, o: F.Options) {
    && c.msgType != [] && c.msgType in d.messages
    && Ranked(d, rank) && Below(d, rank, d.messages[c.msgType], bound)
    && F.Accepts(c, c.msgType, o) && F.SameIdentity(c, o) && F.BeginString(o) == F.ConfigBegin(c)
  }

  ghost function TemplateOf(d: Dict, rank: map<nat, nat>, bound: nat, c: F.Config): Template
    requires c.msgType in d.messages && Ranked(d, rank) && Below(d, rank, d.messages[c.msgType], bound)
  {
    CompileFrom(d, rank, bound, d.messages[c.msgType], 0, true)
  }

  /** The fields of a frame behind BodyLength, with a body from the template. */
  function TemplateInner(t: Template, msgType: Text, m: O.Message, o: F.Options, now: Text): Stream {
    F.EmitHeader(msgType, o, now, EmitScope(t, m, true, E))
  }

  /**
   * A template frame has the bytes of the generic frame exactly when every scalar fits, provided that no
   * printed value holds the delimiter.
   */
  lemma FramesAgreeExactly(
      d: Dict, rank: map<nat, nat>, bound: nat, c: F.Config, m: O.Message, o: F.Options, now: Text, delim: Byte)
    requires Matched(d, rank, bound, c, o) && GroupsFit(d, d.messages[c.msgType], m, true)
    requires SafeDelimiter(delim) && NormalizeDelimiter(o.delimiter) == delim && delim !in F.BeginString(o)
    requires Printable(Inner(d, c.msgType, m, o, now, E), delim)
    requires Printable(TemplateInner(TemplateOf(d, rank, bound, c), c.msgType, m, o, now), delim)
    requires F.GenericFrame(d, c.msgType, m, o, now).Encoded?
    ensures F.TemplateFrame(c, TemplateOf(d, rank, bound, c), c.msgType, m, o, now)
         == F.GenericFrame(d, c.msgType, m, o, now)
       <==> ScalarsFit(d, d.messages[c.msgType], m, true)
  {
    var t, rules := TemplateOf(d, rank, bound, c), d.messages[c.msgType];
    var tem, gen := EmitScope(t, m, true, E), EmitBody(d, rules, m, true, E);
    AgreesExactly(d, rank, bound, rules, m, true, E);
    F.HeadersAgree(c, o, now, tem);
    if F.TemplateFrame(c, t, c.msgType, m, o, now) == F.GenericFrame(d, c.msgType, m, o, now) {
      SameBytesSameFields(F.BeginString(o), TemplateInner(t, c.msgType, m, o, now), Inner(d, c.msgType, m, o, now, E),
          delim);
      SplitHeader(c.msgType, o, now, tem);
      SplitHeader(c.msgType, o, now, gen);
      AppendCancels(F.EmitHeader(c.msgType, o, now, E), tem, gen);
    }
  }

  // ---- conforming messages

  lemma {:induction false} ConformingGroupsFit(
      d: Dict, rules: seq<nat>, outer: set<nat>, depth: nat, m: O.Message, delim: Byte, skip: bool)
    requires Conforms(d, rules, outer, depth, m, delim)
    requires skip ==> forall g :: g in m.groups ==> !IsHeaderTag(g.countTag)
    ensures GroupsFit(d, rules, m, skip)
    decreases m
  {
    forall g | g in m.groups
      ensures g.countTag in rules && g.countTag in d.groups && !Skipped(g.countTag, skip)
      ensures forall e :: e in g.entries ==> GroupsFit(d, d.groups[g.countTag].rules, e, false)
    {
      assert GroupOk(d, rules, outer, depth, g, delim);
      forall e | e in g.entries ensures GroupsFit(d, d.groups[g.countTag].rules, e, false) {
        ConformingGroupsFit(d, d.groups[g.countTag].rules, outer + TagSet(rules), depth + 1, e, delim, false);
      }
    }
  }

  lemma {:induction false} ConformingScalarsFit(
      d: Dict, rules: seq<nat>, outer: set<nat>, depth: nat, m: O.Message, delim: Byte, skip: bool)
    requires Conforms(d, rules, outer, depth, m, delim)
    ensures ScalarsFit(d, rules, m, skip)
    decreases m
  {
    forall tag | tag in rules && !(skip && IsHeaderTag(tag)) ensures RuleFits(d, m, tag) {
      var gi, fi := O.GroupIndex(m.groups, tag), O.FieldIndex(m.fields, tag);
      if gi >= 0 {
        var g := m.groups[gi];
        assert GroupOk(d, rules, outer, depth, g, delim);
        forall e | e in g.entries ensures ScalarsFit(d, d.groups[tag].rules, e, false) {
          ConformingScalarsFit(d, d.groups[tag].rules, outer + TagSet(rules), depth + 1, e, delim, false);
        }
      } else if fi >= 0 {
        assert FieldOk(d, rules, m.fields[fi], delim);
      }
    }
  }

  /** Decoding undoes the template path, and the dispatcher, as it undoes the generic path. */
  lemma DecodeOfTemplate(
      d: Dict, rank: map<nat, nat>, bound: nat, c: F.Config, m: O.Message, o: F.Options, now: Text, delim: Byte,
      verify: bool)
    requires Matched(d, rank, bound, c, o) && Encodable(d, c.msgType, m, o, now, delim)
    requires F.GenericFrame(d, c.msgType, m, o, now).Encoded?
    requires |Wire(Inner(d, c.msgType, m, o, now, E), delim)| < 0x1_0000_0000
    ensures
      var frame := F.TemplateFrame(c, TemplateOf(d, rank, bound, c), c.msgType, m, o, now);
      && frame.Encoded? && F.DispatchedFrame(d, c, TemplateOf(d, rank, bound, c), m, o, now) == frame
      && var r := Decode(d, frame.bytes, o.delimiter, verify);
      && r.Done? && r.value.issue.NoIssue?
      && r.value.root == ExpectRoot(d, c.msgType, m, o, now) && HeaderSent(r.value.header, c.msgType, o, now)
  {
    var rules := d.messages[c.msgType];
    ConformingGroupsFit(d, rules, {CHECK_SUM}, 0, m, delim, true);
    ConformingScalarsFit(d, rules, {CHECK_SUM}, 0, m, delim, true);
    F.TemplateIsUnobservable(d, rank, bound, c, m, o, now);
    DecodeOfEncode(d, c.msgType, m, o, now, delim, verify);
  }

  // ---------------------------------------------------------------- names in the options

  /** A name that is given and is not the compiled one. */
  predicate Differs(option: Text, compiled: Text) {
    option != [] && option != compiled
  }

  /** The options with the names that the template was compiled with. */
  function CompiledNames(c: F.Config, o: F.Options): F.Options {
    o.(senderCompId := c.senderCompId, targetCompId := c.targetCompId, defaultApplVerId := c.defaultApplVerId)
  }

  lemma HeaderOfNames(c: F.Config, o: F.Options, now: Text)
    requires c.msgType != []
    ensures F.TemplateHeader(c, o, now, E) == F.EmitHeader(c.msgType, CompiledNames(c, o), now, E)
  {
    hide F.EmitText, F.EmitFlag, Digits;
  }

  /**
   * A template refuses options exactly when they give another name, type, version or delimiter than it was compiled
   * with. What it prints otherwise carries every name that they give.
   */
  lemma TemplateHonoursOptions(c: F.Config, t: Template, msgType: Text, m: O.Message, o: F.Options, now: Text, tag: nat)
    requires c.msgType != []
    ensures F.TemplateFrame(c, t, msgType, m, o, now).Mismatch? <==>
      || Differs(msgType, c.msgType) || NormalizeDelimiter(o.delimiter) != NormalizeDelimiter(c.delimiter)
      || Differs(o.beginString, F.ConfigBegin(c)) || Differs(o.senderCompId, c.senderCompId)
      || Differs(o.targetCompId, c.targetCompId) || Differs(o.defaultApplVerId, c.defaultApplVerId)
    ensures !F.TemplateFrame(c, t, msgType, m, o, now).Mismatch? && SentText(c.msgType, o, now, tag).Some? ==>
      StreamText(F.TemplateHeader(c, o, now, E), tag) == SentText(c.msgType, o, now, tag)
  {
    hide F.TemplateHeader, F.EmitHeader, StreamText, Wire, EmitScope, F.Opened, F.CheckSumField, Digits, F.SeqText;
    HeaderOfNames(c, o, now);
    HeaderSays(c.msgType, CompiledNames(c, o), now, tag);
    SameSeqText(c, o);
  }

  lemma SameSeqText(c: F.Config, o: F.Options)
    ensures F.SeqText(CompiledNames(c, o)) == F.SeqText(o)
    ensures forall now :: F.TimeText(CompiledNames(c, o), now) == F.TimeText(o, now)
  {
  }
}
