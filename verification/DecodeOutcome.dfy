/** Which frames a decode refuses, and why: the first refusal in reading order, then the framing. */
module DecodeOutcome {
  import opened Optional
  import opened Bytes
  import opened FixTags
  import opened Dictionary
  import opened Scanner
  import opened TokenStream
  import opened ParsedTree
  import opened Validation
  import opened GroupParser
  import opened Decoder
  import opened RootSoundness
  import opened Reading
  import opened ReadingStored

  type Refusal = Option<DecodeError>

  function OrElse(a: Refusal, b: Refusal): Refusal {
    if a.Some? then a else b
  }

  /** A count is a number up to 10000, of a group nested less than 16 deep. */
  function CountRefusal(text: Text, depth: nat): Refusal {
    match ParseUnsigned(text)
    case None => Some(InvalidNumber)
    case Some(n) => if n > 10000 then Some(EntryCountExceeded) else if depth >= 16 then Some(NestingExceeded) else None
  }

  function FieldsRefusal(nodes: seq<Node>, depth: nat): Refusal
    decreases nodes, 0
  {
    if nodes == [] then None
    else if nodes[0].Scalar? then FieldsRefusal(nodes[1..], depth)
    else
      OrElse(OrElse(CountRefusal(nodes[0].tok.text, depth), ItemsRefusal(nodes[0].items, depth + 1)),
             FieldsRefusal(nodes[1..], depth))
  }

  function ItemsRefusal(items: seq<Item>, depth: nat): Refusal
    decreases items, 1
  {
    if items == [] then None
    else OrElse(FieldsRefusal(items[0].nodes, depth), ItemsRefusal(items[1..], depth))
  }

  function HeaderRefusal(tok: Tok): Refusal {
    if tok.tag == MSG_SEQ_NUM && ParseUnsigned(tok.text).None? then Some(InvalidNumber)
    else if (tok.tag == POSS_DUP_FLAG || tok.tag == POSS_RESEND)
        && ParseBoolean(tok.text).None? then Some(InvalidBoolean)
    else None
  }

  function RootRefusal(nodes: seq<Node>): Refusal
    decreases |nodes|
  {
    if nodes == [] then None
    else OrElse(OrElse(HeaderRefusal(nodes[0].tok), FieldsRefusal([nodes[0]], 1)), RootRefusal(nodes[1..]))
  }

  // ---------------------------------------------------------------- groups

  /** A parse over a reading that ends at `rest`: refused as told, else where the frame is malformed. */
  ghost predicate Ends<T>(o: Outcome<T>, refusal: Refusal, rest: Stream) {
    match refusal
    case Some(e) => o == Failed(e)
    case None => match rest case End(Some(e)) => o == Failed(Malformed(e)) case _ => o.Done?
  }

  lemma FieldsRefusalFirst(node: Node, more: seq<Node>, depth: nat)
    ensures FieldsRefusal([node] + more, depth)
      == if node.Scalar? then FieldsRefusal(more, depth)
         else OrElse(OrElse(CountRefusal(node.tok.text, depth), ItemsRefusal(node.items, depth + 1)),
                     FieldsRefusal(more, depth))
  {
    assert ([node] + more)[1..] == more;
  }

  lemma {:induction false} FieldsEnd(d: Dict, g: GroupDef, depth: nat, c: Cursor)
    requires |c.deferred| <= MAX_DEFERRED_SLOTS
    ensures
      var r := ReadFields(d, g, !c.any, c.rest);
      Ends(ParseFields(d, g, depth, c), FieldsRefusal(r.nodes, depth + 1), r.rest)
    decreases Size(c.rest), 0, 0
  {
    if c.rest.Next? && !Stops(g, c.any, c.rest.tok.tag) {
      var tok, rest := c.rest.tok, c.rest.rest;
      var c1 := TakeField(d, g, c, tok, rest);
      CutOne(c.deferred, SlotOf(d, tok), []);
      if tok.tag in d.groups {
        var def := d.groups[tok.tag];
        var o, e := ParseGroup(d, def, depth + 1, tok.text, rest, c1.issue),
                    ReadEntries(d, def, Announced(tok.text), rest);
        GroupEnds(d, def, depth + 1, tok.text, rest, c1.issue);
        if o.Done? {
          GroupStored(d, def, depth + 1, tok.text, rest, c1.issue);
          FieldsEnd(d, g, depth, TakeGroup(c1, def, depth + 1, o.value));
        } else {
          NothingBehind(d, g, e.rest);
        }
        FieldsRefusalFirst(CountNode(tok, def, e), ReadFields(d, g, false, e.rest).nodes, depth + 1);
      } else {
        FieldsEnd(d, g, depth, c1);
        FieldsRefusalFirst(Scalar(tok), ReadFields(d, g, false, rest).nodes, depth + 1);
      }
    }
  }

  lemma NothingBehind(d: Dict, g: GroupDef, st: Stream)
    ensures st.End? ==> ReadFields(d, g, false, st) == Fields([], st)
  {
  }

  /** A group with no entry to read leaves a malformed field to what follows it. */
  lemma {:induction false} GroupEnds(d: Dict, g: GroupDef, depth: nat, count: Text, st: Stream, issue: Issue)
    ensures
      var r := ReadEntries(d, g, Announced(count), st);
      Ends(ParseGroup(d, g, depth, count, st, issue),
           OrElse(CountRefusal(count, depth), ItemsRefusal(r.items, depth + 1)),
           if Announced(count) == 0 then End(None) else r.rest)
    decreases Size(st), 2, 0
  {
    if CountRefusal(count, depth).None? {
      EntriesEnd(d, g, depth, ParseUnsigned(count).value, st, issue);
    }
  }

  lemma {:induction false} EntriesEnd(d: Dict, g: GroupDef, depth: nat, n: nat, st: Stream, issue: Issue)
    ensures
      var r := ReadEntries(d, g, n, st);
      Ends(ParseEntries(d, g, depth, n, st, issue), ItemsRefusal(r.items, depth + 1),
           if n == 0 then End(None) else r.rest)
    decreases Size(st), 1, n
  {
    hide ParseFields, ReadFields, FieldsRefusal, FinishEntry, Gathered;
    if n > 0 && st.Next? && st.tok.tag == g.delimiter {
      var c, first := StartEntry(st, issue), ReadFields(d, g, true, st);
      var more := ReadEntries(d, g, n - 1, first.rest);
      FieldsEnd(d, g, depth, c);
      var o := ParseFields(d, g, depth, c);
      if o.Done? {
        FieldsLeave(d, g, depth, c);
        EntriesEnd(d, g, depth, n - 1, o.value.rest, o.value.issue);
      }
      assert ([Item(first.nodes)] + more.items)[1..] == more.items;
    }
  }

  // ---------------------------------------------------------------- the message

  lemma HeaderEnds(h: Header, tok: Tok)
    ensures match HeaderRefusal(tok)
            case Some(e) => ExtractHeader(h, tok.tag, tok.text) == Failed(e)
            case None => ExtractHeader(h, tok.tag, tok.text).Done?
  {
  }

  lemma AloneRefusal(node: Node)
    ensures FieldsRefusal([node], 1)
      == if node.Scalar? then None else OrElse(CountRefusal(node.tok.text, 1), ItemsRefusal(node.items, 2))
  {
    assert [node] + [] == [node];
    FieldsRefusalFirst(node, [], 1);
  }

  /** The node that a field of the message reads as. */
  function NodeOf(d: Dict, rules: Option<seq<nat>>, tok: Tok, rest: Stream): Node {
    if IsGroupRule(d, rules, tok.tag)
    then CountNode(tok, d.groups[tok.tag], ReadEntries(d, d.groups[tok.tag], Announced(tok.text), rest))
    else Scalar(tok)
  }

  /** One field: refused by its header value or its group; a malformed group ends the reading. */
  lemma FieldEnds(d: Dict, r: Root, tok: Tok, rules: Option<seq<nat>>)
    requires tok.tag != MSG_TYPE
    ensures
      var node := NodeOf(d, rules, tok, r.rest);
      Ends(TakeRootField(d, r, tok, rules), OrElse(HeaderRefusal(tok), FieldsRefusal([node], 1)),
           if node.Scalar? || Announced(tok.text) == 0 then End(None)
           else ReadEntries(d, d.groups[tok.tag], Announced(tok.text), r.rest).rest)
  {
    hide ParseGroup, ReadEntries, HeaderRefusal, ExtractHeader, FieldsRefusal, CountRefusal, ItemsRefusal;
    HeaderEnds(r.header, tok);
    AloneRefusal(NodeOf(d, rules, tok, r.rest));
    if HeaderRefusal(tok).None? && IsGroupRule(d, rules, tok.tag) {
      var h := ExtractHeader(r.header, tok.tag, tok.text).value;
      var r1 := CheckRoot(d, r.(header := h), rules, tok.tag, Unordered);
      GroupEnds(d, d.groups[tok.tag], 1, tok.text, r.rest,
                ValidateScalarValue(tok.tag, tok.text, TypeOf(d, tok.tag), r1.issue));
    }
  }

  /** The loop's end: the first refusal, a malformed field, or a CheckSum that is no number. */
  ghost predicate LoopEnds(o: Outcome<Root>, refusal: Refusal, rest: Stream) {
    match refusal
    case Some(e) => o == Failed(e)
    case None =>
      match rest
      case End(Some(e)) => o == Failed(Malformed(e))
      case End(None) => o.Done?
      case Next(tok, _) => if ParseUnsigned(tok.text).Some? then o.Done? else o == Failed(InvalidNumber)
  }

  lemma RootRefusalFirst(node: Node, more: seq<Node>)
    ensures RootRefusal([node] + more)
      == OrElse(OrElse(HeaderRefusal(node.tok), FieldsRefusal([node], 1)), RootRefusal(more))
  {
    assert ([node] + more)[1..] == more;
  }

  lemma {:induction false} LoopOutcome(d: Dict, r: Root, rules: Option<seq<nat>>)
    requires r.checkSum.None?
    ensures
      var x := ReadRoot(d, rules, r.rest);
      LoopEnds(GenericLoop(d, r, rules), RootRefusal(x.nodes), x.rest)
    decreases Size(r.rest)
  {
    hide TakeRootField, FieldsRefusal, HeaderRefusal, ReadEntries, ParseUnsigned;
    if r.rest.Next? && r.rest.tok.tag != CHECK_SUM {
      var tok := r.rest.tok;
      var r1 := Advance(r, tok, r.rest.rest);
      if IsFrameTag(tok.tag) {
        LoopOutcome(d, r1, rules);
      } else if tok.tag == MSG_TYPE {
        var found := MessageRules(d, tok.text);
        var r2 := TakeMsgType(d, r1, tok, found);
        LoopOutcome(d, r2, found);
        TypeNotRefused(tok);
        RootRefusalFirst(Scalar(tok), ReadRoot(d, found, r1.rest).nodes);
      } else {
        BodyFieldEnds(d, r1, tok, rules);
        var o, node := TakeRootField(d, r1, tok, rules), NodeOf(d, rules, tok, r1.rest);
        var next := if node.Scalar? then r1.rest
                    else ReadEntries(d, d.groups[tok.tag], Announced(tok.text), r1.rest).rest;
        RootRefusalFirst(node, ReadRoot(d, rules, next).nodes);
        if o.Done? {
          LoopOutcome(d, o.value, rules);
        }
      }
    }
  }

  lemma TypeNotRefused(tok: Tok)
    requires tok.tag == MSG_TYPE
    ensures HeaderRefusal(tok) == None && FieldsRefusal([Scalar(tok)], 1) == None
  {
  }

  lemma BodyFieldEnds(d: Dict, r: Root, tok: Tok, rules: Option<seq<nat>>)
    requires tok.tag != MSG_TYPE
    ensures
      var o, node := TakeRootField(d, r, tok, rules), NodeOf(d, rules, tok, r.rest);
      var next := if node.Scalar? then r.rest
                  else ReadEntries(d, d.groups[tok.tag], Announced(tok.text), r.rest).rest;
      match OrElse(HeaderRefusal(tok), FieldsRefusal([node], 1))
      case Some(e) => o == Failed(e)
      case None =>
        if o.Failed? then next.End? && next.error.Some? && o == Failed(Malformed(next.error.value))
        else o.value.rest == next && o.value.checkSum == r.checkSum
  {
    hide TakeRootField, ReadEntries, FieldsRefusal, HeaderRefusal;
    FieldEnds(d, r, tok, rules);
    if TakeRootField(d, r, tok, rules).Done? {
      var node := FieldStored(d, r, tok, rules);
    }
  }

  // ---------------------------------------------------------------- framing

  /** Fields of the message, stray framing fields and the CheckSum included, those of groups not. */
  function RootCount(nodes: seq<Node>, st: Stream): nat
    requires StripRoot(nodes, st).Some?
    decreases |nodes|, Size(st)
  {
    if st.End? then 0
    else if st.tok.tag == CHECK_SUM then 1
    else if IsFrameTag(st.tok.tag) then 1 + RootCount(nodes, st.rest)
    else 1 + RootCount(nodes[1..], StripItems(ItemsOf(nodes[0]), st.rest).value)
  }

  lemma CountFirst(node: Node, more: seq<Node>, st: Stream, rest: Stream)
    requires st.Next? && st.tok == node.tok && !IsFrameTag(st.tok.tag)
    requires StripItems(ItemsOf(node), st.rest) == Some(rest) && StripRoot(more, rest).Some?
    ensures StripRoot([node] + more, st).Some? && RootCount([node] + more, st) == 1 + RootCount(more, rest)
  {
    assert ([node] + more)[1..] == more;
  }

  lemma {:induction false} LoopCounts(d: Dict, r: Root, rules: Option<seq<nat>>)
    requires GenericLoop(d, r, rules).Done? && r.checkSum.None?
    ensures
      var x := ReadRoot(d, rules, r.rest);
      && StripRoot(x.nodes, r.rest) == Some(x.rest)
      && GenericLoop(d, r, rules).value.fields == r.fields + RootCount(x.nodes, r.rest)
    decreases Size(r.rest)
  {
    hide TakeRootField, ReadEntries, StripRoot, RootCount, Strip, StripItems;
    var x := ReadRoot(d, rules, r.rest);
    RootWhole(d, rules, r.rest);
    CountEnd(x.nodes, r.rest);
    if r.rest.Next? && r.rest.tok.tag != CHECK_SUM {
      var tok := r.rest.tok;
      var r1 := Advance(r, tok, r.rest.rest);
      if IsFrameTag(tok.tag) {
        LoopCounts(d, r1, rules);
      } else if tok.tag == MSG_TYPE {
        var found := MessageRules(d, tok.text);
        LoopCounts(d, TakeMsgType(d, r1, tok, found), found);
        NoItems(r1.rest);
        CountFirst(Scalar(tok), ReadRoot(d, found, r1.rest).nodes, r.rest, r1.rest);
      } else {
        var r2 := TakeRootField(d, r1, tok, rules).value;
        FieldCounts(d, r1, tok, rules);
        LoopCounts(d, r2, rules);
        CountFirst(NodeOf(d, rules, tok, r1.rest), ReadRoot(d, rules, r2.rest).nodes, r.rest, r2.rest);
      }
    }
  }

  lemma NoItems(st: Stream)
    ensures StripItems([], st) == Some(st)
  {
  }

  lemma CountEnd(nodes: seq<Node>, st: Stream)
    requires StripRoot(nodes, st).Some?
    ensures st.End? ==> RootCount(nodes, st) == 0
    ensures st.Next? && st.tok.tag == CHECK_SUM ==> RootCount(nodes, st) == 1
    ensures st.Next? && st.tok.tag != CHECK_SUM && IsFrameTag(st.tok.tag) ==>
      StripRoot(nodes, st.rest).Some? && RootCount(nodes, st) == 1 + RootCount(nodes, st.rest)
  {
  }

  lemma FieldCounts(d: Dict, r: Root, tok: Tok, rules: Option<seq<nat>>)
    requires TakeRootField(d, r, tok, rules).Done? && tok.tag != MSG_TYPE
    ensures
      var r1, node := TakeRootField(d, r, tok, rules).value, NodeOf(d, rules, tok, r.rest);
      && r1.fields == r.fields && r1.checkSum == r.checkSum && StripItems(ItemsOf(node), r.rest) == Some(r1.rest)
      && r1.rest == if node.Scalar? then r.rest
                    else ReadEntries(d, d.groups[tok.tag], Announced(tok.text), r.rest).rest
  {
    hide ReadEntries, StripItems, ParseGroup, Upsert, AddEntries, HeaderReads, ExtractHeader;
    var node := FieldStored(d, r, tok, rules);
    if IsGroupRule(d, rules, tok.tag) {
      EntriesWhole(d, d.groups[tok.tag], Announced(tok.text), r.rest);
    } else {
      NoItems(r.rest);
    }
  }

  /** BeginString and a numeric BodyLength stand first. */
  predicate Opened(st: Stream) {
    && st.Next? && st.tok.tag == 8 && st.rest.Next? && st.rest.tok.tag == 9
    && ParseUnsigned(st.rest.tok.text).Some?
  }

  /** The frame's bytes: the fields up to BodyLength, as many as that says, and the CheckSum field. */
  predicate LengthRight(s: Text, st: Stream, checkSum: Tok)
    requires Opened(st)
  {
    st.tok.width + st.rest.tok.width + ParseUnsigned(st.rest.tok.text).value + checkSum.width == |s|
  }

  predicate SumRight(s: Text, checkSum: Tok) {
    && ParseUnsigned(checkSum.text).Some? && checkSum.width <= |s|
    && Sum(s[..|s| - checkSum.width]) % 256 == ParseUnsigned(checkSum.text).value
  }

  /** What a frame has to be to decode, for a reading `x` of it that nothing in it refuses. */
  predicate Acceptable(s: Text, st: Stream, x: Fields, verify: bool)
    requires Opened(st)
  {
    && RootRefusal(x.nodes).None? && st.rest.rest != x.rest
    && x.rest.Next? && x.rest.rest == End(None) && ParseUnsigned(x.rest.tok.text).Some?
    && LengthRight(s, st, x.rest.tok) && (verify ==> SumRight(s, x.rest.tok))
  }

  /** The reason given is true of the frame. */
  ghost predicate Reason(s: Text, st: Stream, x: Fields, verify: bool, e: DecodeError)
    requires Opened(st) && StripRoot(x.nodes, st.rest.rest) == Some(x.rest)
  {
    match e
    case Malformed(scan) => x.rest == End(Some(scan))
    case NotFramed => x.rest == End(None)
    case InvalidNumber =>
      RootRefusal(x.nodes) == Some(e) || (x.rest.Next? && ParseUnsigned(x.rest.tok.text).None?)
    case TrailingData => x.rest.Next? && x.rest.rest != End(None)
    case TooShort => RootCount(x.nodes, st.rest.rest) < 2
    case BodyLengthMismatch => x.rest.Next? && x.rest.rest == End(None) && !LengthRight(s, st, x.rest.tok)
    case ChecksumMismatch => x.rest.Next? && x.rest.rest == End(None) && verify && !SumRight(s, x.rest.tok)
    case _ => RootRefusal(x.nodes) == Some(e)
  }

  function ScanReason(st: Stream): ScanError
    requires st.End?
  {
    if st.error.Some? then st.error.value else MissingDelimiter
  }

  predicate OpenReason(st: Stream, e: DecodeError) {
    match e
    case Malformed(scan) => (st.End? && scan == ScanReason(st))
        || (st.Next? && st.rest.End? && scan == ScanReason(st.rest))
    case NotFramed => st.Next? && (st.tok.tag != 8 || (st.rest.Next? && st.rest.tok.tag != 9))
    case InvalidNumber => st.Next? && st.rest.Next? && ParseUnsigned(st.rest.tok.text).None?
    case _ => false
  }

  lemma OpenExactly(st: Stream)
    ensures OpenFrame(st).Done? <==> Opened(st)
    ensures Opened(st) ==> OpenFrame(st) == Done(FrameOf(st))
    ensures !Opened(st) ==> OpenFrame(st).Failed? && OpenReason(st, OpenFrame(st).error)
  {
  }

  lemma {:induction false} CountPositive(nodes: seq<Node>, st: Stream)
    requires StripRoot(nodes, st).Some? && StripRoot(nodes, st).value.Next?
    ensures RootCount(nodes, st) > 0
    ensures RootCount(nodes, st) == 1 <==> st == StripRoot(nodes, st).value
    decreases |nodes|, Size(st)
  {
    StripEnd(nodes, st);
    if st.tok.tag != CHECK_SUM {
      if IsFrameTag(st.tok.tag) {
        CountPositive(nodes, st.rest);
      } else {
        CountPositive(nodes[1..], StripItems(ItemsOf(nodes[0]), st.rest).value);
      }
    }
  }

  lemma {:induction false} StripEnd(nodes: seq<Node>, st: Stream)
    requires StripRoot(nodes, st).Some?
    ensures var rest := StripRoot(nodes, st).value; rest.Next? ==> st.Next? && rest.tok.tag == CHECK_SUM
    decreases |nodes|, Size(st)
  {
    if st.Next? && st.tok.tag != CHECK_SUM {
      if IsFrameTag(st.tok.tag) {
        StripEnd(nodes, st.rest);
      } else {
        StripEnd(nodes[1..], StripItems(ItemsOf(nodes[0]), st.rest).value);
      }
    }
  }

  /** A refusal is a bad number or flag, too many entries, or too deep a group. */
  predicate InBody(r: Refusal) {
    r.None? || r.value in {InvalidNumber, InvalidBoolean, EntryCountExceeded, NestingExceeded}
  }

  lemma {:induction false} FieldsRefuseInBody(nodes: seq<Node>, depth: nat)
    ensures InBody(FieldsRefusal(nodes, depth))
    decreases nodes, 0
  {
    if nodes != [] {
      FieldsRefuseInBody(nodes[1..], depth);
      if nodes[0].Counter? {
        ItemsRefuseInBody(nodes[0].items, depth + 1);
      }
    }
  }

  lemma {:induction false} ItemsRefuseInBody(items: seq<Item>, depth: nat)
    ensures InBody(ItemsRefusal(items, depth))
    decreases items, 1
  {
    if items != [] {
      FieldsRefuseInBody(items[0].nodes, depth);
      ItemsRefuseInBody(items[1..], depth);
    }
  }

  lemma {:induction false} RootRefusesInBody(nodes: seq<Node>)
    ensures InBody(RootRefusal(nodes))
    decreases |nodes|
  {
    if nodes != [] {
      FieldsRefuseInBody([nodes[0]], 1);
      RootRefusesInBody(nodes[1..]);
    }
  }

  function FrameOf(st: Stream): Frame
    requires Opened(st)
  {
    Frame(st.tok.text, ParseUnsigned(st.rest.tok.text).value, st.tok.width + st.rest.tok.width, st.rest.rest)
  }

  /** A loop that ends without a CheckSum. */
  lemma ClosesBare(s: Text, st: Stream, x: Fields, r: Root, verify: bool)
    requires Opened(st) && StripRoot(x.nodes, st.rest.rest) == Some(x.rest) && RootRefusal(x.nodes).None?
    requires x.rest == End(None) && StopsAt(r, x.rest) && r.fields == 2 + RootCount(x.nodes, st.rest.rest)
    ensures
      var o := CloseFrame(s, FrameOf(st), r, verify);
      o.Failed? && Reason(s, st, x, verify, o.error) && !Acceptable(s, st, x, verify)
  {
    hide StripRoot, RootCount, Sum, ParseUnsigned, RootRefusal;
  }

  /** A loop that ends behind a CheckSum, with more to come. */
  lemma ClosesEarly(s: Text, st: Stream, x: Fields, r: Root, verify: bool)
    requires Opened(st) && StripRoot(x.nodes, st.rest.rest) == Some(x.rest) && RootRefusal(x.nodes).None?
    requires x.rest.Next? && x.rest.rest != End(None) && StopsAt(r, x.rest)
    ensures
      var o := CloseFrame(s, FrameOf(st), r, verify);
      o.Failed? && Reason(s, st, x, verify, o.error) && !Acceptable(s, st, x, verify)
  {
    hide StripRoot, RootCount, Sum, ParseUnsigned, RootRefusal;
  }

  /** A loop that ends behind the final CheckSum. */
  lemma ClosesLast(s: Text, st: Stream, x: Fields, r: Root, verify: bool)
    requires Opened(st) && StripRoot(x.nodes, st.rest.rest) == Some(x.rest) && RootRefusal(x.nodes).None?
    requires x.rest.Next? && x.rest.rest == End(None) && StopsAt(r, x.rest)
    requires r.fields == 2 + RootCount(x.nodes, st.rest.rest) && RootCount(x.nodes, st.rest.rest) > 0
    requires RootCount(x.nodes, st.rest.rest) == 1 <==> st.rest.rest == x.rest
    requires FrameOf(st).bodyStart + Width(st.rest.rest) == |s|
    ensures
      var o := CloseFrame(s, FrameOf(st), r, verify);
      && (o.Done? <==> Acceptable(s, st, x, verify))
      && (o.Failed? ==> Reason(s, st, x, verify, o.error))
  {
    assert Width(x.rest) == x.rest.tok.width + Width(End(None));
    hide StripRoot, RootCount, Sum, ParseUnsigned, RootRefusal, Width;
  }

  /** The loop's end and the closing checks, by cases of where the reading ends. */
  lemma ClosesExactly(d: Dict, s: Text, delim: Byte, verify: bool, st: Stream, x: Fields)
    requires st == Tokenize(s, 0, delim) && Opened(st) && x == ReadRoot(d, None, st.rest.rest)
    requires StripRoot(x.nodes, st.rest.rest) == Some(x.rest) && OpenFrame(st) == Done(FrameOf(st))
    ensures
      var loop := GenericLoop(d, StartRoot(st.rest.rest), None);
      var o := if loop.Failed? then Failed(loop.error) else CloseFrame(s, FrameOf(st), loop.value, verify);
      && (o.Done? <==> Acceptable(s, st, x, verify))
      && (o.Failed? ==> Reason(s, st, x, verify, o.error))
  {
    hide Tokenize, GenericLoop, ReadRoot, RootRefusal, StripRoot, RootCount, Sum, OpenFrame, ParseUnsigned, HeaderReads;
    hide UpsertAll, StoredGroups, CloseFrame, Width, Tail, StopsAt;
    var r0 := StartRoot(st.rest.rest);
    RootRefusesInBody(x.nodes);
    LoopOutcome(d, r0, None);
    var loop := GenericLoop(d, r0, None);
    if loop.Done? {
      LoopStored(d, r0, None);
      LoopCounts(d, r0, None);
      if x.rest.End? {
        ClosesBare(s, st, x, loop.value, verify);
      } else if x.rest.rest != End(None) {
        ClosesEarly(s, st, x, loop.value, verify);
      } else {
        CountPositive(x.nodes, st.rest.rest);
        StripRootTail(x.nodes, st.rest.rest);
        assert Tail(x.rest) == None by { LastTail(x.rest); }
        BodyWidth(s, st, delim, OpenFrame(st).value);
        ClosesLast(s, st, x, loop.value, verify);
      }
    }
  }

  lemma LastTail(st: Stream)
    requires st.Next? && st.rest == End(None)
    ensures Tail(st) == None
  {
  }

  /**
   * A frame decodes exactly when it opens with BeginString and BodyLength, nothing in it is refused, it ends in its
   * only CheckSum behind at least one field, and BodyLength and CheckSum are right. A refusal's reason is true.
   */
  lemma DecodesExactly(d: Dict, s: Text, delim: Byte, verify: bool)
    ensures
      var st := Tokenize(s, 0, NormalizeDelimiter(delim));
      var o := Decode(d, s, delim, verify);
      if !Opened(st) then o.Failed? && OpenReason(st, o.error)
      else
        var x := ReadRoot(d, None, st.rest.rest);
        && StripRoot(x.nodes, st.rest.rest) == Some(x.rest)
        && (o.Done? <==> Acceptable(s, st, x, verify))
        && (o.Failed? ==> Reason(s, st, x, verify, o.error))
  {
    hide Tokenize, GenericLoop, ReadRoot, RootRefusal, StripRoot, RootCount, Sum, OpenFrame, ParseUnsigned;
    hide Acceptable, Reason, OpenReason, CloseFrame;
    var st := Tokenize(s, 0, NormalizeDelimiter(delim));
    OpenExactly(st);
    assert Opened(st) || Decode(d, s, delim, verify) == Failed(OpenFrame(st).error);
    if Opened(st) {
      RootWhole(d, None, st.rest.rest);
      ClosesExactly(d, s, NormalizeDelimiter(delim), verify, st, ReadRoot(d, None, st.rest.rest));
    }
  }
}
