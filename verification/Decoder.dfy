/** The dictionary-driven decoder: framing, header extraction, root fields and groups. */
module Decoder {
  import opened Optional
  import opened Bytes
  import opened FixTags
  import opened Dictionary
  import opened Scanner
  import opened TokenStream
  import opened ParsedTree
  import opened Validation
  import opened GroupParser

  /** Header values; `texts` maps a text-valued header tag to its last value. */
  datatype Header = Header(texts: map<nat, Text>, seqNum: nat, possDup: bool, possResend: bool)

  const EMPTY_HEADER: Header := Header(map[], 0, false, false)

  /** The CheckSum field: bytes from its first byte to the end of the stream, and its value. */
  datatype CheckSumField = CheckSumField(tail: nat, declared: nat)

  /** State of the decode loop. */
  datatype Root = Root(
    rest: Stream, fields: nat,
    slots: seq<Slot>, groups: seq<Group>, header: Header,
    scope: Scope, issue: Issue, checkSum: Option<CheckSumField>)

  function StartRoot(st: Stream): Root {
    Root(st, 2, [], [], EMPTY_HEADER, EMPTY_SCOPE, NoIssue, None)
  }

  predicate IsTextHeaderTag(tag: nat) {
    || tag == SENDER_COMP_ID || tag == SENDER_SUB_ID || tag == TARGET_COMP_ID || tag == TARGET_SUB_ID
    || tag == ON_BEHALF_OF_COMP_ID || tag == DELIVER_TO_COMP_ID || tag == SENDING_TIME
    || tag == ORIG_SENDING_TIME || tag == DEFAULT_APPL_VER_ID || tag == APPL_VER_ID
  }

  function ExtractHeader(h: Header, tag: nat, text: Text): Outcome<Header> {
    if tag == MSG_SEQ_NUM then
      match ParseUnsigned(text)
      case None => Failed(InvalidNumber)
      case Some(n) => Done(h.(seqNum := n))
    else if tag == POSS_DUP_FLAG then
      match ParseBoolean(text)
      case None => Failed(InvalidBoolean)
      case Some(b) => Done(h.(possDup := b))
    else if tag == POSS_RESEND then
      match ParseBoolean(text)
      case None => Failed(InvalidBoolean)
      case Some(b) => Done(h.(possResend := b))
    else if IsTextHeaderTag(tag) then Done(h.(texts := h.texts[tag := text]))
    else Done(h)
  }

  function ReadCheckSum(r: Root, tok: Tok): Outcome<Root> {
    match ParseUnsigned(tok.text)
    case None => Failed(InvalidNumber)
    case Some(n) => Done(r.(checkSum := Some(CheckSumField(tok.width + Width(r.rest), n))))
  }

  /** The loop state with one more field scanned. */
  function Advance(r: Root, tok: Tok, rest: Stream): Root {
    r.(rest := rest, fields := r.fields + 1)
  }

  function StoreSlot(r: Root, tok: Tok, ftype: FieldType): Root {
    r.(slots := Upsert(r.slots, Slot(tok.tag, ViewText(tok.text), ftype)))
  }

  /** A group behind its count field. */
  function StoreGroup(d: Dict, r: Root, tok: Tok, g: GroupDef): (o: Outcome<Root>)
    ensures o.Done? ==> Size(o.value.rest) <= Size(r.rest)
  {
    var e :- ParseGroup(d, g, 1, tok.text, r.rest, r.issue);
    Done(r.(rest := e.rest, groups := AddEntries(r.groups, g.countTag, 1, e.entries), issue := e.issue))
  }

  // ---------------------------------------------------------------- generic loop

  function RulesOf(rules: Option<seq<nat>>): seq<nat> {
    if rules.Some? then rules.value else []
  }

  function CheckRoot(d: Dict, r: Root, rules: Option<seq<nat>>, tag: nat, order: Order): Root {
    var c := ValidateConsumedField(
      d, tag, RulesOf(rules), RuleIndex(RulesOf(rules), tag), r.scope, r.issue, true, rules.Some?, order);
    r.(scope := c.scope, issue := c.issue)
  }

  function MessageRules(d: Dict, msgType: Text): Option<seq<nat>> {
    if msgType in d.messages then Some(d.messages[msgType]) else None
  }

  function IsGroupRule(d: Dict, rules: Option<seq<nat>>, tag: nat): bool {
    rules.Some? && tag in rules.value && tag in d.groups
  }

  function TakeMsgType(d: Dict, r: Root, tok: Tok, rules: Option<seq<nat>>): Root {
    var r1 := CheckRoot(d, r, rules, MSG_TYPE, Unordered);
    StoreSlot(r1.(header := r1.header.(texts := r1.header.texts[MSG_TYPE := tok.text])), tok, TypeOf(d, MSG_TYPE))
  }

  /** One field other than framing and MsgType. */
  function TakeRootField(d: Dict, r: Root, tok: Tok, rules: Option<seq<nat>>): (o: Outcome<Root>)
    ensures o.Done? ==> Size(o.value.rest) <= Size(r.rest)
  {
    var h :- ExtractHeader(r.header, tok.tag, tok.text);
    var group := IsGroupRule(d, rules, tok.tag);
    var r1 := CheckRoot(d, r.(header := h), rules, tok.tag, if group then Unordered else RootOrder);
    var issue := ValidateScalarValue(tok.tag, tok.text, TypeOf(d, tok.tag), r1.issue);
    var r2 := StoreSlot(r1.(issue := issue), tok, TypeOf(d, tok.tag));
    if group then StoreGroup(d, r2, tok, d.groups[tok.tag]) else Done(r2)
  }

  function GenericLoop(d: Dict, r: Root, rules: Option<seq<nat>>): Outcome<Root>
    decreases Size(r.rest)
  {
    if r.checkSum.Some? then Done(r)
    else
      match r.rest
      case End(None) => Done(r)
      case End(Some(e)) => Failed(Malformed(e))
      case Next(tok, rest) =>
        var r1 := Advance(r, tok, rest);
        if tok.tag == CHECK_SUM then ReadCheckSum(r1, tok)
        else if IsFrameTag(tok.tag) then GenericLoop(d, r1, rules)
        else if tok.tag == MSG_TYPE then
          var found := MessageRules(d, tok.text);
          GenericLoop(d, TakeMsgType(d, r1, tok, found), found)
        else
          var r2 :- TakeRootField(d, r1, tok, rules);
          GenericLoop(d, r2, rules)
  }

  // ---------------------------------------------------------------- framing

  datatype Decoded = Decoded(beginString: Text, bodyLength: nat, checkSum: nat, header: Header, root: Entry,
      issue: Issue)

  datatype Frame = Frame(beginString: Text, bodyLength: nat, bodyStart: nat, rest: Stream)

  function HeadTok(st: Stream): Outcome<Tok> {
    match st
    case End(None) => Failed(Malformed(MissingDelimiter))
    case End(Some(e)) => Failed(Malformed(e))
    case Next(tok, _) => Done(tok)
  }

  /** BeginString and BodyLength, in this order. */
  function OpenFrame(st: Stream): Outcome<Frame> {
    var f0 :- HeadTok(st);
    if f0.tag != BEGIN_STRING then Failed(NotFramed)
    else
      var f1 :- HeadTok(st.rest);
      if f1.tag != BODY_LENGTH then Failed(NotFramed)
      else
        match ParseUnsigned(f1.text)
        case None => Failed(InvalidNumber)
        case Some(n) => Done(Frame(f0.text, n, f0.width + f1.width, st.rest.rest))
  }

  function CloseFrame(s: Text, f: Frame, r: Root, verify: bool): Outcome<Decoded> {
    if r.rest != End(None) then Failed(TrailingData)
    else if r.fields < 4 then Failed(TooShort)
    else
      match r.checkSum
      case None => Failed(NotFramed)
      case Some(c) =>
        var body := Width(f.rest) - c.tail;
        var start := f.bodyStart + body;
        if f.bodyLength != body then Failed(BodyLengthMismatch)
        else if verify && 0 <= start <= |s| && Sum(s[..start]) % 256 != c.declared then Failed(ChecksumMismatch)
        else Done(Decoded(f.beginString, f.bodyLength, c.declared, r.header, Entry(r.slots, r.groups), r.issue))
  }

  function Decode(d: Dict, s: Text, delim: Byte, verify: bool): Outcome<Decoded> {
    var f :- OpenFrame(Tokenize(s, 0, NormalizeDelimiter(delim)));
    var r :- GenericLoop(d, StartRoot(f.rest), None);
    CloseFrame(s, f, r, verify)
  }
}
