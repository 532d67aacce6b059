/** Decoding a frame from bytes into the flat message, field by field, against the decoder's function. */
module FlatDecoder {
  import opened Optional
  import opened Bytes
  import opened FixTags
  import opened Dictionary
  import opened Scanner
  import opened TokenStream
  import opened ParsedTree
  import opened Validation
  import opened GroupParser
  import opened ParserProgress
  import opened Decoder
  import opened RootIndex
  import opened FlatTree
  import opened FlatUpdates
  import opened FlatMessage
  import opened FlatParser
  import opened FlatRoot

  // ---------------------------------------------------------------- storing root fields

  /** The message and its index after a root field: the field of its key is overwritten, or a slot is added. */
  ghost predicate Appended(m: Flat, n: Flat, old_: map<nat, nat>, keys: map<nat, nat>, s: FieldSlot) {
    if Key(s.tag) in old_
    then old_[Key(s.tag)] < |m.slots| && n == SetSlot(m, old_[Key(s.tag)], s) && keys == old_
    else n == PushRootSlot(m, s) && keys == old_[Key(s.tag) := |m.slots|]
  }

  /** Message and index belong together and have room for another slot number. */
  ghost predicate Ready(msg: ParsedMessage, index: Index)
    reads msg, index, index.table, index.quick
  {
    && WellFormed(msg.State()) && index.Valid() && Indexed(msg.State(), index.keys) && |msg.slots| < 0xFFFF
  }

  lemma KeyedSlot(m: Flat, keys: map<nat, nat>, tag: nat)
    requires WellFormed(m) && Indexed(m, keys) && |m.slots| < 0xFFFF
    ensures Key(tag) in keys ==> keys[Key(tag)] < |m.slots| && keys[Key(tag)] % 0x1_0000 == keys[Key(tag)]
  {
  }

  method AppendRootSlot(msg: ParsedMessage, index: Index, s: FieldSlot) returns (existed: bool)
    requires Ready(msg, index) && s.tag < 0x1_0000
    modifies msg, index, index.table, index.quick
    ensures msg.raw == old(msg.raw) && index.Valid()
    ensures existed == (Key(s.tag) in old(index.keys))
    ensures Appended(old(msg.State()), msg.State(), old(index.keys), index.keys, s)
  {
    hide WellFormed, Indexed;
    KeyedSlot(msg.State(), index.keys, s.tag);
    var existing := index.Find(s.tag);
    if existing.Some? {
      msg.ReplaceSlot(existing.value, s);
      return true;
    }
    var slot := |msg.slots|;
    msg.AddRootSlot(s);
    index.Insert(s.tag, slot);
    existed := false;
  }

  /** The same with the search written out: it leaves the same message and the same keys. */
  method AppendRootSlotFast(msg: ParsedMessage, index: Index, s: FieldSlot) returns (existed: bool)
    requires Ready(msg, index) && s.tag < 0x1_0000
    modifies msg, index, index.table, index.quick
    ensures msg.raw == old(msg.raw) && index.Valid()
    ensures existed == (Key(s.tag) in old(index.keys))
    ensures Appended(old(msg.State()), msg.State(), old(index.keys), index.keys, s)
  {
    hide WellFormed, Indexed;
    KeyedSlot(msg.State(), index.keys, s.tag);
    if s.tag < TABLE_SIZE {
      var packed := index.table[s.tag];
      if packed / 0x1_0000 == index.generation {
        msg.ReplaceSlot(packed % 0x1_0000, s);
        return true;
      }
    } else {
      var i := 0;
      while i + 1 < |index.overflow|
        invariant ScanPairs(index.overflow, i, s.tag % 0x1_0000) == ScanPairs(index.overflow, 0, s.tag % 0x1_0000)
        decreases |index.overflow| - i
      {
        if index.overflow[i] == s.tag % 0x1_0000 {
          msg.ReplaceSlot(index.overflow[i + 1], s);
          return true;
        }
        i := i + 2;
      }
    }
    var slot := |msg.slots|;
    msg.AddRootSlot(s);
    index.Insert(s.tag, slot);
    existed := false;
  }

  lemma AppendedShows(m: Flat, n: Flat, raw: Text, old_: map<nat, nat>, keys: map<nat, nat>, s: FieldSlot)
    requires WellFormed(m) && Indexed(m, old_) && s.tag < 0x1_0000 && Appended(m, n, old_, keys, s)
    ensures RootStored(m, n, raw, keys, s)
  {
    if Key(s.tag) in old_ {
      RootSlotReplaced(m, raw, old_, s);
    } else {
      RootSlotPushed(m, raw, old_, s);
    }
  }

  lemma AppendedCounts(m: Flat, n: Flat, old_: map<nat, nat>, keys: map<nat, nat>, s: FieldSlot)
    requires RootCounted(m) && |m.slots| < 0xFFFF && Appended(m, n, old_, keys, s)
    ensures RootCounted(n)
  {
    if Key(s.tag) in old_ {
      CountedReplaced(m, old_[Key(s.tag)], s);
    } else {
      CountedPushed(m, s);
    }
  }

  // ---------------------------------------------------------------- the loop

  /** Local state of the loop over the frame's fields. */
  datatype Loop = Loop(pos: nat, fields: nat, header: Header, scope: Scope, issue: Issue, rules: Option<seq<nat>>)

  /** The loop's state in terms of the tree. */
  ghost function RootOf(m: Flat, raw: Text, delim: Byte, l: Loop): Root
    requires WellFormed(m)
  {
    Root(Tokenize(raw, l.pos, delim), l.fields, RootSlots(m, raw), ViewGroups(m, raw, -1, 0), l.header, l.scope,
        l.issue, None)
  }

  /** Slots and fields left to read do not exceed what 16 bits can number. */
  ghost predicate Fits(m: Flat, raw: Text, delim: Byte, pos: nat) {
    Narrow(Tokenize(raw, pos, delim)) && |m.slots| + Size(Tokenize(raw, pos, delim)) <= 0xFFFF
  }

  /** Message and index belong together, and so do the remaining fields. */
  ghost predicate Consistent(m: Flat, keys: map<nat, nat>, raw: Text, delim: Byte, pos: nat) {
    && WellFormed(m) && RootCounted(m) && Indexed(m, keys)
    && Fits(m, raw, delim, pos) && pos <= |raw| < 0x1_0000_0000
  }

  /** One field at the loop's position. */
  ghost predicate Scanned(raw: Text, delim: Byte, l: Loop, f: Scan) {
    l.pos < |raw| && f == ScanField(raw, l.pos, delim) && f.Field?
  }

  /** The loop behind a MsgType field. */
  function BehindMsgType(d: Dict, l: Loop, f: Scan, value: Text): Loop
    requires f.Field?
  {
    var found := MessageRules(d, value);
    var c := ValidateConsumedField(
      d, MSG_TYPE, RulesOf(found), RuleIndex(RulesOf(found), MSG_TYPE), l.scope, l.issue, true, found.Some?, Unordered);
    Loop(f.next, l.fields + 1, l.header.(texts := l.header.texts[MSG_TYPE := value]), c.scope, c.issue, found)
  }

  /** The loop behind any other field that is stored, and before the group it may count. */
  function BehindField(d: Dict, l: Loop, f: Scan, value: Text, header: Header): Loop
    requires f.Field?
  {
    var group := IsGroupRule(d, l.rules, f.tag);
    var c := ValidateConsumedField(
      d, f.tag, RulesOf(l.rules), RuleIndex(RulesOf(l.rules), f.tag), l.scope, l.issue, true, l.rules.Some?,
      if group then Unordered else RootOrder);
    Loop(f.next, l.fields + 1, header, c.scope, ValidateScalarValue(f.tag, value, TypeOf(d, f.tag), c.issue), l.rules)
  }

  function ValueOf(raw: Text, f: Scan): Text
    requires f.Field? && f.offset + f.length <= |raw|
  {
    raw[f.offset..f.offset + f.length]
  }

  /** The field at the loop's position heads the stream. */
  lemma ScannedHead(raw: Text, delim: Byte, l: Loop, f: Scan) returns (tok: Tok)
    requires Scanned(raw, delim, l, f)
    ensures tok.tag == f.tag && tok.text == ValueOf(raw, f) && tok.width == f.next - l.pos
    ensures Tokenize(raw, l.pos, delim) == Next(tok, Tokenize(raw, f.next, delim))
  {
    tok := Tokenize(raw, l.pos, delim).tok;
  }

  /** A stored MsgType. */
  lemma MsgTypeShows(d: Dict, m: Flat, n: Flat, keys: map<nat, nat>, raw: Text, delim: Byte, l: Loop, f: Scan)
    requires Scanned(raw, delim, l, f) && f.tag == MSG_TYPE && |raw| < 0x1_0000_0000
    requires RootStored(m, n, raw, keys, MakeSlot(f.tag, f.offset, f.length, TypeOf(d, f.tag)))
    ensures GenericLoop(d, RootOf(m, raw, delim, l), l.rules)
         == GenericLoop(d, RootOf(n, raw, delim, BehindMsgType(d, l, f, ValueOf(raw, f))),
             MessageRules(d, ValueOf(raw, f)))
  {
    hide RootViews, ViewGroups, Upsert;
    var tok := ScannedHead(raw, delim, l, f);
    SlotShowsValue(raw, f, TypeOf(d, f.tag));
    var r := RootOf(m, raw, delim, l);
    assert TakeMsgType(d, Advance(r, tok, r.rest.rest), tok, MessageRules(d, tok.text))
        == RootOf(n, raw, delim, BehindMsgType(d, l, f, tok.text));
  }

  /** A stored field outside groups. */
  lemma ScalarShows(d: Dict, m: Flat, n: Flat, keys: map<nat, nat>, raw: Text, delim: Byte, l: Loop, f: Scan, h: Header)
    requires Scanned(raw, delim, l, f) && f.tag != MSG_TYPE && f.tag != CHECK_SUM && !IsFrameTag(f.tag)
    requires |raw| < 0x1_0000_0000 && ExtractHeader(l.header, f.tag, ValueOf(raw, f)) == Done(h)
    requires RootStored(m, n, raw, keys, MakeSlot(f.tag, f.offset, f.length, TypeOf(d, f.tag)))
    requires !IsGroupRule(d, l.rules, f.tag)
    ensures GenericLoop(d, RootOf(m, raw, delim, l), l.rules)
         == GenericLoop(d, RootOf(n, raw, delim, BehindField(d, l, f, ValueOf(raw, f), h)), l.rules)
  {
    hide RootViews, ViewGroups, Upsert, ValidateConsumedField, ValidateScalarValue, TypeOf, RuleIndex, IsEnvelopeTag;
    var tok := ScannedHead(raw, delim, l, f);
    SlotShowsValue(raw, f, TypeOf(d, f.tag));
    var r := RootOf(m, raw, delim, l);
    assert TakeRootField(d, Advance(r, tok, r.rest.rest), tok, l.rules)
        == Done(RootOf(n, raw, delim, BehindField(d, l, f, tok.text, h)));
  }

  /** A stored count field and its group. */
  lemma GroupShows(d: Dict, m: Flat, n: Flat, keys: map<nat, nat>, raw: Text, delim: Byte, l: Loop, f: Scan, h: Header)
    requires Scanned(raw, delim, l, f) && f.tag != MSG_TYPE && f.tag != CHECK_SUM && !IsFrameTag(f.tag)
    requires |raw| < 0x1_0000_0000 && ExtractHeader(l.header, f.tag, ValueOf(raw, f)) == Done(h)
    requires RootStored(m, n, raw, keys, MakeSlot(f.tag, f.offset, f.length, TypeOf(d, f.tag)))
    requires IsGroupRule(d, l.rules, f.tag)
    ensures
      var k := BehindField(d, l, f, ValueOf(raw, f), h);
      var g := d.groups[f.tag];
      var e := ParseGroup(d, g, 1, ValueOf(raw, f), Tokenize(raw, f.next, delim), k.issue);
      var r := RootOf(n, raw, delim, k);
      GenericLoop(d, RootOf(m, raw, delim, l), l.rules)
        == if e.Failed? then Failed(e.error)
           else GenericLoop(d, r.(rest := e.value.rest, issue := e.value.issue,
                                  groups := AddEntries(r.groups, g.countTag, 1, e.value.entries)), l.rules)
  {
    hide RootViews, ViewGroups, Upsert, AddEntries, ValidateConsumedField, ValidateScalarValue, TypeOf, RuleIndex;
    hide IsEnvelopeTag;
    var tok := ScannedHead(raw, delim, l, f);
    SlotShowsValue(raw, f, TypeOf(d, f.tag));
    var r := RootOf(m, raw, delim, l);
    var k := BehindField(d, l, f, ValueOf(raw, f), h);
    assert TakeRootField(d, Advance(r, tok, r.rest.rest), tok, l.rules)
        == StoreGroup(d, RootOf(n, raw, delim, k), tok, d.groups[f.tag]);
  }

  lemma FieldFits(m: Flat, raw: Text, delim: Byte, l: Loop, f: Scan)
    requires Scanned(raw, delim, l, f) && Fits(m, raw, delim, l.pos)
    ensures |m.slots| < 0xFFFF && f.tag < 0x1_0000 && Narrow(Tokenize(raw, f.next, delim))
    ensures |m.slots| + 1 + Size(Tokenize(raw, f.next, delim)) <= 0xFFFF
    ensures Suffix(Tokenize(raw, f.next, delim), Tokenize(raw, l.pos, delim))
  {
    var tok := ScannedHead(raw, delim, l, f);
  }

  lemma IndexedGrown(m: Flat, n: Flat, keys: map<nat, nat>)
    requires Grown(m, n, -1) && Indexed(m, keys)
    ensures Indexed(n, keys)
  {
    forall s | 0 <= s < |n.slots| && n.slotOwner[s] == -1
      ensures n.slots[s].tag < 0x1_0000 && Key(n.slots[s].tag) in keys && keys[Key(n.slots[s].tag)] == s
    {
      assert s >= |m.slots| ==> OwnedFrom(n, s, 0);
    }
  }

  /** What storing one field leaves behind. */
  ghost predicate FieldStored(
      d: Dict, m: Flat, n: Flat, keys: map<nat, nat>, raw: Text, delim: Byte, l: Loop, r: Outcome<Loop>)
  {
    && WellFormed(m)
    && if r.Failed? then GenericLoop(d, RootOf(m, raw, delim, l), l.rules) == Failed(r.error)
       else
         && Consistent(n, keys, raw, delim, r.value.pos) && l.pos < r.value.pos
         && Suffix(Tokenize(raw, r.value.pos, delim), Tokenize(raw, l.pos, delim))
         && GenericLoop(d, RootOf(m, raw, delim, l), l.rules)
             == GenericLoop(d, RootOf(n, raw, delim, r.value), r.value.rules)
  }

  lemma BadHeader(d: Dict, m: Flat, raw: Text, delim: Byte, l: Loop, f: Scan)
    requires WellFormed(m) && Scanned(raw, delim, l, f)
    requires f.tag != MSG_TYPE && f.tag != CHECK_SUM && !IsFrameTag(f.tag)
    requires ExtractHeader(l.header, f.tag, ValueOf(raw, f)).Failed?
    ensures GenericLoop(d, RootOf(m, raw, delim, l), l.rules)
         == Failed(ExtractHeader(l.header, f.tag, ValueOf(raw, f)).error)
  {
    var tok := ScannedHead(raw, delim, l, f);
  }

  method StoreMsgType(msg: ParsedMessage, index: Index, d: Dict, delim: Byte, l: Loop, f: Scan)
    returns (r: Outcome<Loop>)
    requires Consistent(msg.State(), index.keys, msg.raw, delim, l.pos) && index.Valid()
    requires Scanned(msg.raw, delim, l, f) && f.tag == MSG_TYPE
    modifies msg, index, index.table, index.quick
    ensures msg.raw == old(msg.raw) && index.Valid()
    ensures FieldStored(d, old(msg.State()), msg.State(), index.keys, msg.raw, delim, l, r)
  {
    hide WellFormed, RootCounted, GenericLoop, RootSlots, Tokenize, Indexed;
    ghost var m, keys := msg.State(), index.keys;
    var value := ValueOf(msg.raw, f);
    FieldFits(m, msg.raw, delim, l, f);
    var s := MakeSlot(f.tag, f.offset, f.length, TypeOf(d, f.tag));
    var existed := AppendRootSlot(msg, index, s);
    AppendedShows(m, msg.State(), msg.raw, keys, index.keys, s);
    AppendedCounts(m, msg.State(), keys, index.keys, s);
    MsgTypeShows(d, m, msg.State(), index.keys, msg.raw, delim, l, f);
    r := Done(BehindMsgType(d, l, f, value));
  }

  method StoreField(msg: ParsedMessage, index: Index, d: Dict, delim: Byte, l: Loop, f: Scan) returns (r: Outcome<Loop>)
    requires Consistent(msg.State(), index.keys, msg.raw, delim, l.pos) && index.Valid()
    requires Scanned(msg.raw, delim, l, f) && f.tag != MSG_TYPE && f.tag != CHECK_SUM && !IsFrameTag(f.tag)
    modifies msg, index, index.table, index.quick
    ensures msg.raw == old(msg.raw) && index.Valid()
    ensures FieldStored(d, old(msg.State()), msg.State(), index.keys, msg.raw, delim, l, r)
  {
    hide WellFormed, RootCounted, GenericLoop, RootSlots, Tokenize, Indexed;
    ghost var m, keys := msg.State(), index.keys;
    var value := ValueOf(msg.raw, f);
    var header := ExtractHeader(l.header, f.tag, value);
    if header.Failed? {
      BadHeader(d, m, msg.raw, delim, l, f);
      return Failed(header.error);
    }
    FieldFits(m, msg.raw, delim, l, f);
    var s := MakeSlot(f.tag, f.offset, f.length, TypeOf(d, f.tag));
    var existed := AppendRootSlot(msg, index, s);
    AppendedShows(m, msg.State(), msg.raw, keys, index.keys, s);
    AppendedCounts(m, msg.State(), keys, index.keys, s);
    var k := BehindField(d, l, f, value, header.value);
    if !IsGroupRule(d, l.rules, f.tag) {
      ScalarShows(d, m, msg.State(), index.keys, msg.raw, delim, l, f, header.value);
      return Done(k);
    }
    GroupShows(d, m, msg.State(), index.keys, msg.raw, delim, l, f, header.value);
    r := StoreRootGroup(msg, index, d, delim, f, value, k);
    if r.Done? {
      SuffixThen(Tokenize(msg.raw, r.value.pos, delim), Tokenize(msg.raw, f.next, delim),
          Tokenize(msg.raw, l.pos, delim));
    }
  }

  /** The group behind a stored count field. */
  method StoreRootGroup(msg: ParsedMessage, index: Index, d: Dict, delim: Byte, f: Scan, value: Text, k: Loop)
    returns (r: Outcome<Loop>)
    requires Consistent(msg.State(), index.keys, msg.raw, delim, k.pos)
    requires f.Field? && f.next == k.pos && f.tag in d.groups
    modifies msg
    ensures msg.raw == old(msg.raw)
    ensures
      var e := ParseGroup(d, d.groups[f.tag], 1, value, Tokenize(msg.raw, k.pos, delim), k.issue);
      if e.Failed? then r == Failed(e.error)
      else
        && r.Done? && Consistent(msg.State(), index.keys, msg.raw, delim, r.value.pos) && k.pos <= r.value.pos
        && r.value.rules == k.rules && Suffix(e.value.rest, Tokenize(msg.raw, k.pos, delim))
        && RootOf(msg.State(), msg.raw, delim, r.value)
           == var r0 := old(RootOf(msg.State(), msg.raw, delim, k));
              r0.(rest := e.value.rest, issue := e.value.issue,
                  groups := AddEntries(r0.groups, d.groups[f.tag].countTag, 1, e.value.entries))
  {
    hide WellFormed, RootCounted, RootSlots, Tokenize, Indexed, ParseGroup, AddEntries;
    ghost var m, st := msg.State(), Tokenize(msg.raw, k.pos, delim);
    ghost var e := ParseGroup(d, d.groups[f.tag], 1, value, st, k.issue);
    var next := ParseGroupEntries(msg, d, d.groups[f.tag], 1, delim, k.pos, value, -1, k.issue);
    if next.Failed? {
      return Failed(next.error);
    }
    GrownRoot(m, msg.State(), msg.raw);
    IndexedGrown(m, msg.State(), index.keys);
    CountedGrown(m, msg.State());
    GroupSuffix(d, d.groups[f.tag], 1, value, st, k.issue);
    NarrowSuffix(e.value.rest, st);
    r := Done(k.(pos := next.value.pos, issue := next.value.issue));
  }

  // ---------------------------------------------------------------- all fields

  /** The CheckSum field: where it starts and its value. */
  datatype CheckSumAt = CheckSumAt(start: nat, declared: nat)

  datatype Ended = Ended(l: Loop, checkSum: Option<CheckSumAt>)

  lemma FrameTagSkipped(d: Dict, m: Flat, raw: Text, delim: Byte, l: Loop, f: Scan)
    requires WellFormed(m) && Scanned(raw, delim, l, f) && f.tag != CHECK_SUM && IsFrameTag(f.tag)
    ensures GenericLoop(d, RootOf(m, raw, delim, l), l.rules)
         == GenericLoop(d, RootOf(m, raw, delim, l.(pos := f.next, fields := l.fields + 1)), l.rules)
  {
    hide RootViews, ViewGroups, WellFormed, TakeRootField, TakeMsgType;
    var tok := ScannedHead(raw, delim, l, f);
  }

  lemma CheckSumRead(d: Dict, m: Flat, raw: Text, delim: Byte, l: Loop, f: Scan)
    requires WellFormed(m) && Scanned(raw, delim, l, f) && f.tag == CHECK_SUM
    ensures
      var n := ParseUnsigned(ValueOf(raw, f));
      GenericLoop(d, RootOf(m, raw, delim, l), l.rules)
        == if n.None? then Failed(InvalidNumber)
           else Done(RootOf(m, raw, delim, l.(pos := f.next, fields := l.fields + 1)).(
                       checkSum := Some(CheckSumField(Width(Tokenize(raw, l.pos, delim)), n.value))))
  {
    hide RootViews, ViewGroups, WellFormed, TakeRootField, TakeMsgType;
    var tok := ScannedHead(raw, delim, l, f);
  }

  lemma LoopEnds(d: Dict, m: Flat, raw: Text, delim: Byte, l: Loop)
    requires WellFormed(m)
    ensures l.pos >= |raw| ==> GenericLoop(d, RootOf(m, raw, delim, l), l.rules) == Done(RootOf(m, raw, delim, l))
    ensures l.pos < |raw| && ScanField(raw, l.pos, delim).Fail? ==>
      GenericLoop(d, RootOf(m, raw, delim, l), l.rules) == Failed(Malformed(ScanField(raw, l.pos, delim).error))
  {
    hide RootViews, ViewGroups, WellFormed, TakeRootField, TakeMsgType;
  }

  /** How the loop's outcome shows in the tree. */
  ghost predicate LoopLeft(m: Flat, raw: Text, delim: Byte, pos: nat, spec: Outcome<Root>, r: Outcome<Ended>) {
    if spec.Failed? then r == Failed(spec.error)
    else
      && r.Done? && WellFormed(m) && RootCounted(m) && r.value.l.pos <= |raw|
      && Suffix(Tokenize(raw, r.value.l.pos, delim), Tokenize(raw, pos, delim))
      && match r.value.checkSum
         case None => spec.value == RootOf(m, raw, delim, r.value.l)
         case Some(c) =>
           && pos <= c.start < |raw| && Suffix(Tokenize(raw, r.value.l.pos, delim), Tokenize(raw, c.start, delim))
           && spec.value == RootOf(m, raw, delim, r.value.l).(
                              checkSum := Some(CheckSumField(Width(Tokenize(raw, c.start, delim)), c.declared)))
  }

  method DecodeFields(msg: ParsedMessage, index: Index, d: Dict, delim: Byte, start: Loop) returns (r: Outcome<Ended>)
    requires Consistent(msg.State(), index.keys, msg.raw, delim, start.pos) && index.Valid()
    modifies msg, index, index.table, index.quick
    ensures msg.raw == old(msg.raw) && index.Valid()
    ensures LoopLeft(msg.State(), msg.raw, delim, start.pos,
                     GenericLoop(d, old(RootOf(msg.State(), msg.raw, delim, start)), start.rules), r)
  {
    hide WellFormed, RootCounted, GenericLoop, RootSlots, Tokenize, Indexed, Suffix, Narrow, Size;
    ghost var raw := msg.raw;
    ghost var spec := GenericLoop(d, RootOf(msg.State(), raw, delim, start), start.rules);
    var l := start;
    SuffixSelf(Tokenize(raw, start.pos, delim));
    while l.pos < |msg.raw|
      invariant msg.raw == raw && index.Valid() && start.pos <= l.pos
      invariant Consistent(msg.State(), index.keys, raw, delim, l.pos)
      invariant Suffix(Tokenize(raw, l.pos, delim), Tokenize(raw, start.pos, delim))
      invariant spec == GenericLoop(d, RootOf(msg.State(), raw, delim, l), l.rules)
      decreases |raw| - l.pos
    {
      var f := ScanNextField(msg.raw, l.pos, delim);
      LoopEnds(d, msg.State(), raw, delim, l);
      if f.Fail? {
        return Failed(Malformed(f.error));
      }
      FieldFits(msg.State(), raw, delim, l, f);
      if f.tag == CHECK_SUM {
        CheckSumRead(d, msg.State(), raw, delim, l, f);
        var declared := ParseUnsigned(ValueOf(msg.raw, f));
        if declared.None? {
          return Failed(InvalidNumber);
        }
        SuffixThen(Tokenize(raw, f.next, delim), Tokenize(raw, l.pos, delim), Tokenize(raw, start.pos, delim));
        return Done(Ended(l.(pos := f.next, fields := l.fields + 1), Some(CheckSumAt(l.pos, declared.value))));
      }
      ghost var before := Tokenize(raw, l.pos, delim);
      if IsFrameTag(f.tag) {
        FrameTagSkipped(d, msg.State(), raw, delim, l, f);
        l := l.(pos := f.next, fields := l.fields + 1);
      } else {
        var next;
        if f.tag == MSG_TYPE {
          next := StoreMsgType(msg, index, d, delim, l, f);
        } else {
          next := StoreField(msg, index, d, delim, l, f);
        }
        if next.Failed? {
          return Failed(next.error);
        }
        l := next.value;
      }
      SuffixThen(Tokenize(raw, l.pos, delim), before, Tokenize(raw, start.pos, delim));
    }
    LoopEnds(d, msg.State(), raw, delim, l);
    r := Done(Ended(l, None));
  }

  lemma SuffixSelf(st: Stream)
    ensures Suffix(st, st)
  {
  }

  // ---------------------------------------------------------------- a whole frame

  /** What a decode returns beside the message. */
  datatype View = View(beginString: Text, bodyLength: nat, checkSum: nat, header: Header, issue: Issue)

  /** The decoder's result with the message as a reader sees it. */
  ghost function WithMessage(v: View, m: Flat, raw: Text): Decoded
    requires WellFormed(m)
  {
    Decoded(v.beginString, v.bodyLength, v.checkSum, v.header, Entry(RootSlots(m, raw), ViewGroups(m, raw, -1, 0)),
        v.issue)
  }

  /** A cleared message. */
  lemma EmptyMessage(raw: Text, delim: Byte, pos: nat)
    requires Narrow(Tokenize(raw, pos, delim)) && Size(Tokenize(raw, pos, delim)) <= 0xFFFF
    requires pos <= |raw| < 0x1_0000_0000
    ensures Consistent(EMPTY, map[], raw, delim, pos)
    ensures RootOf(EMPTY, raw, delim, Loop(pos, 2, EMPTY_HEADER, EMPTY_SCOPE, NoIssue, None))
         == StartRoot(Tokenize(raw, pos, delim))
  {
    assert ChainOk(EMPTY, -1);
  }

  method PrepareDecodeOutput(msg: ParsedMessage, index: Index, bytes: Text)
    requires index.Valid()
    modifies msg, index, index.table, index.quick
    ensures msg.raw == bytes && msg.State() == EMPTY && index.Valid() && index.keys == map[]
  {
    index.ResetForNewDecode();
    msg.raw, msg.slots, msg.root, msg.entries, msg.groups := bytes, [], NO_ENTRY, [], [];
    msg.slotOwner, msg.groupOwner, msg.entryGroup, msg.chains, msg.kids := [], [], [], [[]], [];
  }

  /** The two framing fields as the scanner sees them. */
  lemma Opens(bytes: Text, delim: Byte, f0: Scan, f1: Scan)
    requires f0 == ScanField(bytes, 0, delim) && (f0.Field? ==> f1 == ScanField(bytes, f0.next, delim))
    ensures
      OpenFrame(Tokenize(bytes, 0, delim))
        == if f0.Fail? then Failed(Malformed(f0.error))
           else if f0.tag != BEGIN_STRING then Failed(NotFramed)
           else if f1.Fail? then Failed(Malformed(f1.error))
           else if f1.tag != BODY_LENGTH then Failed(NotFramed)
           else if ParseUnsigned(ValueOf(bytes, f1)).None? then Failed(InvalidNumber)
           else Done(Frame(ValueOf(bytes, f0), ParseUnsigned(ValueOf(bytes, f1)).value, f1.next,
               Tokenize(bytes, f1.next, delim)))
    ensures f0.Field? && f1.Field? ==> Suffix(Tokenize(bytes, f1.next, delim), Tokenize(bytes, 0, delim))
  {
    hide Tokenize, TagStop, FindByte, TagValue;
    TokenizeHead(bytes, 0, delim);
    if f0.Field? {
      TokenizeHead(bytes, f0.next, delim);
      if f1.Field? {
        assert Suffix(Tokenize(bytes, f1.next, delim), Tokenize(bytes, f0.next, delim));
      }
    }
  }

  lemma EndHasNoWidth()
    ensures Width(End(None)) == 0 && Tail(End(None)).None?
  {
  }

  /** The closing checks on byte positions are those on widths. */
  lemma Closes(bytes: Text, delim: Byte, f: Frame, m: Flat, e: Ended, root: Root, verify: bool)
    requires f.bodyStart <= |bytes| && f.rest == Tokenize(bytes, f.bodyStart, delim)
    requires LoopLeft(m, bytes, delim, f.bodyStart, Done(root), Done(e))
    ensures
      CloseFrame(bytes, f, root, verify)
        == if e.l.pos != |bytes| then Failed(TrailingData)
           else if e.l.fields < 4 then Failed(TooShort)
           else if e.checkSum.None? then Failed(NotFramed)
           else if f.bodyLength != e.checkSum.value.start - f.bodyStart then Failed(BodyLengthMismatch)
           else if verify && Sum(bytes[..e.checkSum.value.start]) % 256 != e.checkSum.value.declared
               then Failed(ChecksumMismatch)
           else Done(WithMessage(View(f.beginString, f.bodyLength, e.checkSum.value.declared, e.l.header, e.l.issue),
               m, bytes))
  {
    hide RootViews, ViewGroups, WellFormed, RootCounted, Sum, Tokenize, Suffix, Tail, Width, ScanField;
    TokenizeHead(bytes, e.l.pos, delim);
    EndHasNoWidth();
    if e.l.pos == |bytes| {
      SuffixTail(Tokenize(bytes, e.l.pos, delim), f.rest);
      TokenizeWidth(bytes, f.bodyStart, delim);
      if e.checkSum.Some? {
        SuffixTail(Tokenize(bytes, e.l.pos, delim), Tokenize(bytes, e.checkSum.value.start, delim));
        TokenizeWidth(bytes, e.checkSum.value.start, delim);
      }
    }
  }

  lemma {:induction false} SuffixSize(a: Stream, b: Stream)
    requires Suffix(a, b)
    ensures Size(a) <= Size(b)
  {
    if a != b {
      SuffixSize(a, b.rest);
    }
  }

  /**
   * Decoding into the flat message yields what the decoder's function says, down to every group entry: for
   * frames below 4 GiB with at most 65535 fields, whose tags fit in 16 bits.
   */
  method DecodeFixMessageView(msg: ParsedMessage, index: Index, d: Dict, bytes: Text, delimiter: Byte, verify: bool)
    returns (r: Outcome<View>)
    requires index.Valid() && |bytes| < 0x1_0000_0000
    requires Narrow(Tokenize(bytes, 0, NormalizeDelimiter(delimiter)))
    requires Size(Tokenize(bytes, 0, NormalizeDelimiter(delimiter))) <= 0xFFFF
    modifies msg, index, index.table, index.quick
    ensures index.Valid()
    ensures r.Failed? ==> Decode(d, bytes, delimiter, verify) == Failed(r.error)
    ensures r.Done? ==>
      && WellFormed(msg.State()) && RootCounted(msg.State()) && msg.raw == bytes
      && Decode(d, bytes, delimiter, verify) == Done(WithMessage(r.value, msg.State(), bytes))
  {
    hide WellFormed, RootCounted, GenericLoop, RootSlots, Tokenize, Indexed, Suffix, Narrow, Size, OpenFrame;
    hide CloseFrame, Sum;
    PrepareDecodeOutput(msg, index, bytes);
    var delim := NormalizeDelimiter(delimiter);
    var f0 := ScanNextField(bytes, 0, delim);
    var f1 := Fail(MissingDelimiter);
    if f0.Field? {
      f1 := ScanNextField(bytes, f0.next, delim);
    }
    Opens(bytes, delim, f0, f1);
    if f0.Fail? {
      return Failed(Malformed(f0.error));
    }
    if f0.tag != BEGIN_STRING {
      return Failed(NotFramed);
    }
    if f1.Fail? {
      return Failed(Malformed(f1.error));
    }
    if f1.tag != BODY_LENGTH {
      return Failed(NotFramed);
    }
    var bodyLength := ParseUnsigned(ValueOf(bytes, f1));
    if bodyLength.None? {
      return Failed(InvalidNumber);
    }
    NarrowSuffix(Tokenize(bytes, f1.next, delim), Tokenize(bytes, 0, delim));
    SuffixSize(Tokenize(bytes, f1.next, delim), Tokenize(bytes, 0, delim));
    EmptyMessage(bytes, delim, f1.next);
    var e := DecodeFields(msg, index, d, delim, Loop(f1.next, 2, EMPTY_HEADER, EMPTY_SCOPE, NoIssue, None));
    if e.Failed? {
      return Failed(e.error);
    }
    r := CloseView(msg, bytes, ValueOf(bytes, f0), bodyLength.value, f1.next, e.value, verify);
    ghost var f := Frame(ValueOf(bytes, f0), bodyLength.value, f1.next, Tokenize(bytes, f1.next, delim));
    ghost var root := GenericLoop(d, StartRoot(f.rest), None).value;
    Closes(bytes, delim, f, msg.State(), e.value, root, verify);
  }

  /** The checks behind the loop. */
  method CloseView(msg: ParsedMessage, bytes: Text, beginString: Text, bodyLength: nat, bodyStart: nat, e: Ended,
      verify: bool)
    returns (r: Outcome<View>)
    requires e.checkSum.Some? ==> e.checkSum.value.start <= |bytes|
    ensures r == if e.l.pos != |bytes| then Failed(TrailingData)
                 else if e.l.fields < 4 then Failed(TooShort)
                 else if e.checkSum.None? then Failed(NotFramed)
                 else if bodyLength != e.checkSum.value.start - bodyStart then Failed(BodyLengthMismatch)
                 else if verify && Sum(bytes[..e.checkSum.value.start]) % 256 != e.checkSum.value.declared
                 then Failed(ChecksumMismatch)
                 else Done(View(beginString, bodyLength, e.checkSum.value.declared, e.l.header, e.l.issue))
  {
    if e.l.pos != |bytes| {
      return Failed(TrailingData);
    }
    if e.l.fields < 4 {
      return Failed(TooShort);
    }
    if e.checkSum.None? {
      return Failed(NotFramed);
    }
    if bodyLength != e.checkSum.value.start - bodyStart {
      return Failed(BodyLengthMismatch);
    }
    if verify {
      var sum := ByteSum(bytes, e.checkSum.value.start);
      if sum % 256 != e.checkSum.value.declared {
        return Failed(ChecksumMismatch);
      }
    }
    r := Done(View(beginString, bodyLength, e.checkSum.value.declared, e.l.header, e.l.issue));
  }

  /** Sum of the first `n` bytes in 32 bits. */
  method ByteSum(bytes: Text, n: nat) returns (sum: nat)
    requires n <= |bytes|
    ensures sum == Sum(bytes[..n]) % 0x1_0000_0000 && sum % 256 == Sum(bytes[..n]) % 256
  {
    hide Sum;
    sum := 0;
    SumStep(bytes, 0);
    for i := 0 to n
      invariant sum == Sum(bytes[..i]) % 0x1_0000_0000
    {
      SumStep(bytes, i);
      WordAdds(Sum(bytes[..i]), bytes[i]);
      sum := (sum + bytes[i]) % 0x1_0000_0000;
    }
    WordKeepsByte(Sum(bytes[..n]));
  }

  lemma WordAdds(a: nat, b: nat)
    ensures (a % 0x1_0000_0000 + b) % 0x1_0000_0000 == (a + b) % 0x1_0000_0000
  {
    var q, r := a / 0x1_0000_0000, a % 0x1_0000_0000;
    var p, s := (r + b) / 0x1_0000_0000, (r + b) % 0x1_0000_0000;
    assert a + b == 0x1_0000_0000 * (q + p) + s;
  }

  lemma WordKeepsByte(a: nat)
    ensures a % 0x1_0000_0000 % 256 == a % 256
  {
    var q, r := a / 0x1_0000_0000, a % 0x1_0000_0000;
    LowByte(0x100_0000 * q + r / 256, r % 256);
  }

  lemma LowByte(x: nat, c: nat)
    requires c < 256
    ensures (256 * x + c) % 256 == c
  {
  }

  lemma SumStep(bytes: Text, i: nat)
    requires i <= |bytes|
    ensures Sum(bytes[..0]) == 0
    ensures i < |bytes| ==> Sum(bytes[..i + 1]) == Sum(bytes[..i]) + bytes[i]
  {
    if i < |bytes| {
      assert bytes[..i + 1][..i] == bytes[..i];
    }
  }
}
