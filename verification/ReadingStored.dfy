/** What a decode keeps of any frame, valid or not: the fields, groups and header values of its reading. */
module ReadingStored {
  import opened Optional
  import opened Bytes
  import opened FixTags
  import opened Dictionary
  import opened Scanner
  import opened TokenStream
  import opened ParsedTree
  import opened Validation
  import opened GroupParser
  import opened Decoder
  import opened Soundness
  import opened RootSoundness
  import opened Reading
  import R = RoundTripReads

  function SlotOf(d: Dict, tok: Tok): Slot {
    Slot(tok.tag, ViewText(tok.text), TypeOf(d, tok.tag))
  }

  function Slots(d: Dict, nodes: seq<Node>): (r: seq<Slot>)
    ensures |r| == |nodes|
  {
    if nodes == [] then [] else [SlotOf(d, nodes[0].tok)] + Slots(d, nodes[1..])
  }

  /** The groups behind the count fields among the nodes, on top of those already there. */
  function StoredGroups(d: Dict, depth: nat, groups: seq<Group>, nodes: seq<Node>): seq<Group>
    decreases nodes, 0
  {
    if nodes == [] then groups
    else if nodes[0].Scalar? then StoredGroups(d, depth, groups, nodes[1..])
    else
      var entries := StoredItems(d, depth, nodes[0].items);
      StoredGroups(d, depth, AddEntries(groups, nodes[0].def.countTag, depth, entries), nodes[1..])
  }

  /** An entry keeps its first 128 fields. */
  function StoredItems(d: Dict, depth: nat, items: seq<Item>): seq<Entry>
    decreases items, 1
  {
    if items == [] then []
    else
      var slots := UpsertAll([], CutSlots(Slots(d, items[0].nodes)), 0);
      [Entry(slots, StoredGroups(d, depth + 1, [], items[0].nodes))] + StoredItems(d, depth, items[1..])
  }

  // ---------------------------------------------------------------- entries

  lemma CutOne(full: seq<Slot>, s: Slot, more: seq<Slot>)
    requires |full| <= MAX_DEFERRED_SLOTS
    ensures |Defer(full, s)| <= MAX_DEFERRED_SLOTS
    ensures CutSlots(Defer(full, s) + more) == CutSlots(full + ([s] + more))
  {
    Assoc(full, [s], more);
    if |full| == MAX_DEFERRED_SLOTS {
      assert CutSlots(full + more) == full == CutSlots(full + ([s] + more));
    }
  }

  lemma SlotsFirst(d: Dict, node: Node, more: seq<Node>)
    ensures Slots(d, [node] + more) == [SlotOf(d, node.tok)] + Slots(d, more)
  {
    assert ([node] + more)[1..] == more;
  }

  lemma GroupsFirst(d: Dict, depth: nat, groups: seq<Group>, node: Node, more: seq<Node>)
    ensures StoredGroups(d, depth, groups, [node] + more)
      == StoredGroups(d, depth,
           if node.Scalar? then groups
           else AddEntries(groups, node.def.countTag, depth, StoredItems(d, depth, node.items)), more)
  {
    assert ([node] + more)[1..] == more;
  }

  ghost predicate Gathered(d: Dict, depth: nat, c: Cursor, c1: Cursor, r: Fields) {
    && c1.rest == r.rest && c1.deferred == CutSlots(c.deferred + Slots(d, r.nodes))
    && c1.groups == StoredGroups(d, depth + 1, c.groups, r.nodes)
  }

  lemma {:induction false} FieldsStored(d: Dict, g: GroupDef, depth: nat, c: Cursor)
    requires ParseFields(d, g, depth, c).Done? && |c.deferred| <= MAX_DEFERRED_SLOTS
    ensures Gathered(d, depth, c, ParseFields(d, g, depth, c).value, ReadFields(d, g, !c.any, c.rest))
    decreases Size(c.rest), 0, 0
  {
    if c.rest.End? || Stops(g, c.any, c.rest.tok.tag) {
      assert c.deferred + [] == c.deferred;
    } else {
      var tok, rest := c.rest.tok, c.rest.rest;
      var c1, c2, node := TakeField(d, g, c, tok, rest), TakeField(d, g, c, tok, rest), Scalar(tok);
      if tok.tag in d.groups {
        var def := d.groups[tok.tag];
        GroupStored(d, def, depth + 1, tok.text, rest, c1.issue);
        c2 := TakeGroup(c1, def, depth + 1, ParseGroup(d, def, depth + 1, tok.text, rest, c1.issue).value);
        node := CountNode(tok, def, ReadEntries(d, def, Announced(tok.text), rest));
      }
      var more := ReadFields(d, g, false, c2.rest).nodes;
      CutOne(c.deferred, SlotOf(d, tok), Slots(d, more));
      FieldsStored(d, g, depth, c2);
      SlotsFirst(d, node, more);
      GroupsFirst(d, depth + 1, c.groups, node, more);
    }
  }

  lemma FieldsLeave(d: Dict, g: GroupDef, depth: nat, c: Cursor)
    requires ParseFields(d, g, depth, c).Done? && |c.deferred| <= MAX_DEFERRED_SLOTS
    ensures ParseFields(d, g, depth, c).value.rest == ReadFields(d, g, !c.any, c.rest).rest
  {
    FieldsStored(d, g, depth, c);
  }

  lemma {:induction false} GroupStored(d: Dict, g: GroupDef, depth: nat, count: Text, st: Stream, issue: Issue)
    requires ParseGroup(d, g, depth, count, st, issue).Done?
    ensures
      var e, r := ParseGroup(d, g, depth, count, st, issue).value, ReadEntries(d, g, Announced(count), st);
      e.rest == r.rest && e.entries == StoredItems(d, depth, r.items)
    decreases Size(st), 2, 0
  {
    EntriesStored(d, g, depth, ParseUnsigned(count).value, st, issue);
  }

  /** Entries hold the fields read for them, whether or not there is an issue. */
  lemma {:induction false} EntriesStored(d: Dict, g: GroupDef, depth: nat, n: nat, st: Stream, issue: Issue)
    requires ParseEntries(d, g, depth, n, st, issue).Done?
    ensures
      var e, r := ParseEntries(d, g, depth, n, st, issue).value, ReadEntries(d, g, n, st);
      e.rest == r.rest && e.entries == StoredItems(d, depth, r.items)
    decreases Size(st), 1, n
  {
    if n > 0 && st.Next? && st.tok.tag == g.delimiter {
      var c := StartEntry(st, issue);
      FieldsStored(d, g, depth, c);
      var c1, first := ParseFields(d, g, depth, c).value, ReadFields(d, g, true, st);
      EntriesStored(d, g, depth, n - 1, c1.rest, c1.issue);
      var more := ReadEntries(d, g, n - 1, first.rest).items;
      assert [] + Slots(d, first.nodes) == Slots(d, first.nodes);
      assert ([Item(first.nodes)] + more)[1..] == more;
    }
  }

  // ---------------------------------------------------------------- header values

  /** Header fields whose text is kept as it stands. */
  const TEXT_TAGS: set<nat> := {
    MSG_TYPE, SENDER_COMP_ID, SENDER_SUB_ID, TARGET_COMP_ID, TARGET_SUB_ID, ON_BEHALF_OF_COMP_ID, DELIVER_TO_COMP_ID,
    SENDING_TIME, ORIG_SENDING_TIME, DEFAULT_APPL_VER_ID, APPL_VER_ID}

  /** Text of the last field with the tag. */
  function LastText(nodes: seq<Node>, tag: nat): Option<Text>
    decreases |nodes|
  {
    if nodes == [] then None
    else
      match LastText(nodes[1..], tag)
      case Some(t) => Some(t)
      case None => if nodes[0].tok.tag == tag then Some(nodes[0].tok.text) else None
  }

  /** `h1` is `h` with the last value of each header field in place of its old one. */
  ghost predicate HeaderReads(h: Header, h1: Header, nodes: seq<Node>) {
    && (forall t :: TextReads(h.texts, h1.texts, t, if t in TEXT_TAGS then LastText(nodes, t) else None))
    && (match LastText(nodes, MSG_SEQ_NUM)
        case None => h1.seqNum == h.seqNum
        case Some(t) => ParseUnsigned(t) == Some(h1.seqNum))
    && (match LastText(nodes, POSS_DUP_FLAG)
        case None => h1.possDup == h.possDup
        case Some(t) => ParseBoolean(t) == Some(h1.possDup))
    && (match LastText(nodes, POSS_RESEND)
        case None => h1.possResend == h.possResend
        case Some(t) => ParseBoolean(t) == Some(h1.possResend))
  }

  ghost predicate TextReads(texts: map<nat, Text>, texts1: map<nat, Text>, t: nat, text: Option<Text>) {
    match text
    case Some(x) => t in texts1 && texts1[t] == x
    case None => (t in texts1 <==> t in texts) && (t in texts ==> texts1[t] == texts[t])
  }

  lemma LastFirst(node: Node, more: seq<Node>, t: nat)
    ensures LastText([node] + more, t)
      == if LastText(more, t).Some? then LastText(more, t)
         else if node.tok.tag == t then Some(node.tok.text) else None
  {
    assert ([node] + more)[1..] == more;
  }

  /** One header value, then the others. */
  lemma HeaderThen(h: Header, h1: Header, h2: Header, node: Node, more: seq<Node>)
    requires HeaderReads(h, h1, [node]) && HeaderReads(h1, h2, more)
    ensures HeaderReads(h, h2, [node] + more)
  {
    hide LastText;
    assert LastText([], MSG_SEQ_NUM).None? by { NoText(MSG_SEQ_NUM); }
    forall t
      ensures TextReads(h.texts, h2.texts, t, if t in TEXT_TAGS then LastText([node] + more, t) else None)
    {
      LastAlone(node, t);
      LastFirst(node, more, t);
      assert TextReads(h.texts, h1.texts, t, if t in TEXT_TAGS then LastText([node], t) else None);
      assert TextReads(h1.texts, h2.texts, t, if t in TEXT_TAGS then LastText(more, t) else None);
    }
    forall t | t in {MSG_SEQ_NUM, POSS_DUP_FLAG, POSS_RESEND}
      ensures LastText([node] + more, t)
           == if LastText(more, t).Some? then LastText(more, t) else LastText([node], t)
    {
      LastAlone(node, t);
      LastFirst(node, more, t);
    }
  }

  lemma NoText(t: nat)
    ensures LastText([], t) == None
  {
  }

  lemma LastAlone(node: Node, t: nat)
    ensures LastText([node], t) == if node.tok.tag == t then Some(node.tok.text) else None
  {
  }

  lemma HeaderTaken(h: Header, h1: Header, node: Node)
    requires node.tok.tag != MSG_TYPE && ExtractHeader(h, node.tok.tag, node.tok.text) == Done(h1)
    ensures HeaderReads(h, h1, [node])
  {
    hide LastText;
    forall t ensures LastText([node], t) == if node.tok.tag == t then Some(node.tok.text) else None {
      LastAlone(node, t);
    }
  }

  lemma TypeTaken(h: Header, node: Node)
    requires node.tok.tag == MSG_TYPE
    ensures HeaderReads(h, h.(texts := h.texts[MSG_TYPE := node.tok.text]), [node])
  {
    hide LastText;
    forall t ensures LastText([node], t) == if node.tok.tag == t then Some(node.tok.text) else None {
      LastAlone(node, t);
    }
  }

  // ---------------------------------------------------------------- the message

  lemma {:induction false} UpsertShift(slots: seq<Slot>, x: Slot, more: seq<Slot>, i: nat)
    requires i <= |more|
    ensures UpsertAll(slots, [x] + more, i + 1) == UpsertAll(slots, more, i)
    decreases |more| - i
  {
    if i < |more| {
      UpsertShift(Upsert(slots, more[i]), x, more, i + 1);
    }
  }

  /** What the loop adds to `r`: the fields, groups and header values of the nodes. */
  ghost predicate RootStores(d: Dict, r: Root, r1: Root, x: Fields) {
    && r1.slots == UpsertAll(r.slots, Slots(d, x.nodes), 0) && r1.groups == StoredGroups(d, 1, r.groups, x.nodes)
    && HeaderReads(r.header, r1.header, x.nodes) && StopsAt(r1, x.rest)
  }

  lemma NodeThen(d: Dict, r: Root, r1: Root, r2: Root, node: Node, x: Fields)
    requires r1.slots == Upsert(r.slots, SlotOf(d, node.tok)) && HeaderReads(r.header, r1.header, [node])
    requires
      r1.groups == if node.Scalar? then r.groups
                   else AddEntries(r.groups, node.def.countTag, 1, StoredItems(d, 1, node.items))
    requires RootStores(d, r1, r2, x)
    ensures RootStores(d, r, r2, Fields([node] + x.nodes, x.rest))
  {
    hide HeaderReads, Upsert, StopsAt, StoredItems, AddEntries;
    SlotsFirst(d, node, x.nodes);
    GroupsFirst(d, 1, r.groups, node, x.nodes);
    HeaderThen(r.header, r1.header, r2.header, node, x.nodes);
    UpsertShift(Upsert(r.slots, SlotOf(d, node.tok)), SlotOf(d, node.tok), Slots(d, x.nodes), 0);
  }

  lemma FieldStored(d: Dict, r: Root, tok: Tok, rules: Option<seq<nat>>) returns (node: Node)
    requires TakeRootField(d, r, tok, rules).Done? && tok.tag != MSG_TYPE
    ensures
      var r1 := TakeRootField(d, r, tok, rules).value;
      && r1.slots == Upsert(r.slots, SlotOf(d, tok)) && HeaderReads(r.header, r1.header, [node])
      && r1.groups == (if node.Scalar? then r.groups
                       else AddEntries(r.groups, node.def.countTag, 1, StoredItems(d, 1, node.items)))
      && r1.checkSum == r.checkSum
      && if IsGroupRule(d, rules, tok.tag)
         then
           var e := ReadEntries(d, d.groups[tok.tag], Announced(tok.text), r.rest);
           node == CountNode(tok, d.groups[tok.tag], e) && r1.rest == e.rest
         else node == Scalar(tok) && r1.rest == r.rest
  {
    hide Upsert, AddEntries, HeaderReads, ParseGroup, ReadEntries, StoredItems;
    var h := ExtractHeader(r.header, tok.tag, tok.text).value;
    node := Scalar(tok);
    if IsGroupRule(d, rules, tok.tag) {
      var def := d.groups[tok.tag];
      var r1 := CheckRoot(d, r.(header := h), rules, tok.tag, Unordered);
      GroupStored(d, def, 1, tok.text, r.rest, ValidateScalarValue(tok.tag, tok.text, TypeOf(d, tok.tag), r1.issue));
      node := CountNode(tok, def, ReadEntries(d, def, Announced(tok.text), r.rest));
    }
    HeaderTaken(r.header, h, node);
  }

  lemma {:induction false} LoopStored(d: Dict, r: Root, rules: Option<seq<nat>>)
    requires GenericLoop(d, r, rules).Done? && r.checkSum.None?
    ensures RootStores(d, r, GenericLoop(d, r, rules).value, ReadRoot(d, rules, r.rest))
    decreases Size(r.rest)
  {
    hide HeaderReads, TakeRootField, UpsertAll, StoredGroups, Upsert;
    if r.rest.End? || r.rest.tok.tag == CHECK_SUM {
      NothingStored(d, r);
    } else {
      var tok := r.rest.tok;
      var r1 := Advance(r, tok, r.rest.rest);
      if IsFrameTag(tok.tag) {
        LoopStored(d, r1, rules);
      } else if tok.tag == MSG_TYPE {
        var found := MessageRules(d, tok.text);
        var r2 := TakeMsgType(d, r1, tok, found);
        LoopStored(d, r2, found);
        TypeTaken(r.header, Scalar(tok));
        NodeThen(d, r, r2, GenericLoop(d, r2, found).value, Scalar(tok), ReadRoot(d, found, r2.rest));
      } else {
        var r2 := TakeRootField(d, r1, tok, rules).value;
        var node := FieldStored(d, r1, tok, rules);
        LoopStored(d, r2, rules);
        NodeThen(d, r, r2, GenericLoop(d, r2, rules).value, node, ReadRoot(d, rules, r2.rest));
      }
    }
  }

  lemma NothingStored(d: Dict, r: Root)
    ensures UpsertAll(r.slots, Slots(d, []), 0) == r.slots && StoredGroups(d, 1, r.groups, []) == r.groups
    ensures HeaderReads(r.header, r.header, [])
  {
  }

  // ---------------------------------------------------------------- lookups

  lemma {:induction false} UpsertFrom(slots: seq<Slot>, i: nat, k: nat, s: Slot, t: nat)
    requires k < |slots| && i <= |slots| && slots[k].tag == s.tag
    ensures SlotFrom(slots[k := s], i, t) == SlotFrom(slots, i, t)
    decreases |slots| - i
  {
    if i < |slots| {
      UpsertFrom(slots, i + 1, k, s, t);
    }
  }

  lemma {:induction false} AppendFrom(slots: seq<Slot>, i: nat, s: Slot, t: nat)
    requires i <= |slots|
    ensures SlotFrom(slots + [s], i, t)
         == if SlotFrom(slots, i, t) >= 0 then SlotFrom(slots, i, t) else if s.tag == t then |slots| else -1
    decreases |slots| - i
  {
    if i < |slots| {
      AppendFrom(slots, i + 1, s, t);
    }
  }

  lemma UpsertReads(slots: seq<Slot>, s: Slot, t: nat)
    ensures R.TextOf(Upsert(slots, s), t) == if s.tag == t then Some(s.text) else R.TextOf(slots, t)
  {
    var k := SlotIndex(slots, s.tag);
    if k >= 0 {
      UpsertFrom(slots, 0, k, s, t);
    } else {
      AppendFrom(slots, 0, s, t);
    }
  }

  /** A lookup gives the last text of its tag. */
  lemma {:induction false} LookupIsLast(d: Dict, slots: seq<Slot>, nodes: seq<Node>, t: nat)
    ensures R.TextOf(UpsertAll(slots, Slots(d, nodes), 0), t)
         == match LastText(nodes, t) case Some(x) => Some(ViewText(x)) case None => R.TextOf(slots, t)
    decreases |nodes|
  {
    hide ViewText, R.TextOf, Upsert;
    if nodes != [] {
      var s, more := SlotOf(d, nodes[0].tok), Slots(d, nodes[1..]);
      UpsertShift(Upsert(slots, s), s, more, 0);
      UpsertReads(slots, s, t);
      LookupIsLast(d, Upsert(slots, s), nodes[1..], t);
    }
  }

  // ---------------------------------------------------------------- whole frames

  lemma {:induction false} StripTail(nodes: seq<Node>, st: Stream)
    requires Strip(nodes, st).Some?
    ensures Tail(st) == Tail(Strip(nodes, st).value)
    decreases nodes, 0
  {
    if nodes != [] {
      if nodes[0].Scalar? {
        StripTail(nodes[1..], st.rest);
      } else {
        StripItemsTail(nodes[0].items, st.rest);
        StripTail(nodes[1..], StripItems(nodes[0].items, st.rest).value);
      }
    }
  }

  lemma {:induction false} StripItemsTail(items: seq<Item>, st: Stream)
    requires StripItems(items, st).Some?
    ensures Tail(st) == Tail(StripItems(items, st).value)
    decreases items, 1
  {
    if items != [] {
      StripTail(items[0].nodes, st);
      StripItemsTail(items[1..], Strip(items[0].nodes, st).value);
    }
  }

  lemma {:induction false} StripRootTail(nodes: seq<Node>, st: Stream)
    requires StripRoot(nodes, st).Some?
    ensures Tail(st) == Tail(StripRoot(nodes, st).value)
    decreases |nodes|, Size(st)
  {
    if st.Next? && st.tok.tag != CHECK_SUM {
      if IsFrameTag(st.tok.tag) {
        StripRootTail(nodes, st.rest);
      } else {
        StripItemsTail(ItemsOf(nodes[0]), st.rest);
        StripRootTail(nodes[1..], StripItems(ItemsOf(nodes[0]), st.rest).value);
      }
    }
  }

  /** The reading of a frame's fields, from behind BodyLength on. */
  function FrameReading(d: Dict, s: Text, delim: Byte): Fields
    requires OpenFrame(Tokenize(s, 0, delim)).Done?
  {
    ReadRoot(d, None, OpenFrame(Tokenize(s, 0, delim)).value.rest)
  }

  /**
   * Every frame that decodes, with an issue or without: BodyLength and CheckSum are right, the reading ends at the
   * CheckSum, the last field, and the root and the header hold what was read.
   */
  lemma DecodeStores(d: Dict, s: Text, delim: Byte, verify: bool) returns (f: Frame, x: Fields)
    requires Decode(d, s, delim, verify).Done?
    ensures OpenFrame(Tokenize(s, 0, NormalizeDelimiter(delim))) == Done(f)
    ensures x == FrameReading(d, s, NormalizeDelimiter(delim)) && StripRoot(x.nodes, f.rest) == Some(x.rest)
    ensures x.rest.Next? && x.rest.rest == End(None)
    ensures
      var m := Decode(d, s, delim, verify).value;
      && SoundFrame(s, f, x.rest.tok, m, verify) && m.beginString == f.beginString && m.bodyLength == f.bodyLength
      && m.root == Entry(UpsertAll([], Slots(d, x.nodes), 0), StoredGroups(d, 1, [], x.nodes))
      && HeaderReads(EMPTY_HEADER, m.header, x.nodes)
    ensures forall t ::
      R.TextOf(Decode(d, s, delim, verify).value.root.slots, t)
        == match LastText(x.nodes, t) case Some(text) => Some(ViewText(text)) case None => None
  {
    hide GenericLoop, Tokenize, UpsertAll, StoredGroups, HeaderReads, LastText, ReadRoot, Sum, ParseUnsigned;
    hide R.TextOf, ViewText, StripRoot, SoundFrame;
    f := OpenFrame(Tokenize(s, 0, NormalizeDelimiter(delim))).value;
    x := ReadRoot(d, None, f.rest);
    var r := GenericLoop(d, StartRoot(f.rest), None).value;
    LoopStored(d, StartRoot(f.rest), None);
    RootWhole(d, None, f.rest);
    StripRootTail(x.nodes, f.rest);
    FrameSound(s, NormalizeDelimiter(delim), f, r, x.rest, verify);
    forall t
      ensures R.TextOf(r.slots, t)
           == match LastText(x.nodes, t) case Some(text) => Some(ViewText(text)) case None => None
    {
      LookupIsLast(d, [], x.nodes, t);
      NothingUnder(t);
    }
  }

  lemma NothingUnder(t: nat)
    ensures R.TextOf([], t) == None
  {
  }
}
