/** Where the root's fields stand in the frame: both decoders map each tag to the same bytes, and these are its text. */
module CompiledPlaces {
  import opened Optional
  import opened Bytes
  import opened FixTags
  import opened Dictionary
  import opened Scanner
  import opened TokenStream
  import opened ParsedTree
  import opened ParserProgress
  import opened Decoder
  import opened CompiledDecoder
  import opened CompiledSimulation
  import opened RoundTripReads

  /** Offset of a value from the start of the frame, and its length in 16 bits. */
  datatype Place = Place(offset: int, length: nat)

  type Places = map<nat, Place>

  /** A field's place in a frame of `n` bytes, told by what follows it. */
  function PlaceOf(n: nat, tok: Tok, rest: Stream): Place {
    Place(n - Width(rest) - 1 - |tok.text|, |tok.text| % 0x1_0000)
  }

  /** The places that the generic loop stores under the root's tags, on top of `p`. */
  ghost function GenericPlaces(d: Dict, n: nat, r: Root, rules: Option<seq<nat>>, p: Places): Places
    decreases Size(r.rest)
  {
    if r.checkSum.Some? || r.rest.End? || r.rest.tok.tag == CHECK_SUM then p
    else
      var tok := r.rest.tok;
      var r1, p1 := Advance(r, tok, r.rest.rest), p[tok.tag := PlaceOf(n, tok, r.rest.rest)];
      if IsFrameTag(tok.tag) then GenericPlaces(d, n, r1, rules, p)
      else if tok.tag == MSG_TYPE then
        GenericPlaces(d, n, TakeMsgType(d, r1, tok, MessageRules(d, tok.text)), MessageRules(d, tok.text), p1)
      else
        match TakeRootField(d, r1, tok, rules)
        case Failed(_) => p
        case Done(r2) => GenericPlaces(d, n, r2, rules, p1)
  }

  ghost function CompiledPlaces(
      d: Dict, decoders: Decoders, n: nat, r: Root, compiled: Option<Compiled>, p: Places): Places
    requires AllShaped(decoders) && (compiled.Some? ==> Shaped(compiled.value))
    decreases Size(r.rest)
  {
    if r.checkSum.Some? || r.rest.End? || r.rest.tok.tag == CHECK_SUM then p
    else
      var tok := r.rest.tok;
      var r1, p1 := Advance(r, tok, r.rest.rest), p[tok.tag := PlaceOf(n, tok, r.rest.rest)];
      if IsFrameTag(tok.tag) then CompiledPlaces(d, decoders, n, r1, compiled, p)
      else if tok.tag == MSG_TYPE then
        var r2 := r1.(header := r1.header.(texts := r1.header.texts[MSG_TYPE := tok.text]));
        CompiledPlaces(d, decoders, n, StoreSlot(r2, tok, TString), Select(decoders, tok.text), p1)
      else
        match TakeField(d, compiled, r1, tok)
        case Failed(_) => p
        case Done(r2) => CompiledPlaces(d, decoders, n, r2, compiled, p1)
  }

  lemma {:induction false} PlacesAlike(
      d: Dict, decoders: Decoders, n: nat, a: Root, b: Root, rules: Option<seq<nat>>, compiled: Option<Compiled>,
      delim: Byte, p: Places)
    requires Alike(a, b) && AllMatch(d, decoders, delim) && Matches(d, rules, compiled) && Scanned(a.rest, delim)
    ensures GenericPlaces(d, n, a, rules, p) == CompiledPlaces(d, decoders, n, b, compiled, p)
    decreases Size(a.rest)
  {
    hide StoreSlot, TakeRootField, TakeField, TakeMsgType, SameFields, PlaceOf, Select, MessageRules, Lookup;
    if a.checkSum.None? && a.rest.Next? && a.rest.tok.tag != CHECK_SUM {
      var tok := a.rest.tok;
      var a1, b1 := Advance(a, tok, a.rest.rest), Advance(b, tok, b.rest.rest);
      var p1 := p[tok.tag := PlaceOf(n, tok, a.rest.rest)];
      if IsFrameTag(tok.tag) {
        PlacesAlike(d, decoders, n, a1, b1, rules, compiled, delim, p);
      } else if tok.tag == MSG_TYPE {
        var found := MessageRules(d, tok.text);
        assert Matches(d, found, Select(decoders, tok.text));
        var b2 := StoreSlot(b1.(header := b1.header.(texts := b1.header.texts[MSG_TYPE := tok.text])), tok, TString);
        MsgTypeAlike(d, a1, b1, tok, found);
        PlacesAlike(d, decoders, n, TakeMsgType(d, a1, tok, found), b2, found, Select(decoders, tok.text), delim, p1);
      } else {
        FieldAlike(d, rules, compiled, a1, b1, tok);
        var ra, rb := TakeRootField(d, a1, tok, rules), TakeField(d, compiled, b1, tok);
        if ra.Done? {
          RootFieldSuffix(d, a1, tok, rules);
          ScannedSuffix(ra.value.rest, a1.rest, delim);
          PlacesAlike(d, decoders, n, ra.value, rb.value, rules, compiled, delim, p1);
        }
      }
    }
  }

  // ---------------------------------------------------------------- the bytes at a place

  /** What is left of a frame starts as many bytes before its end as its fields take. */
  lemma {:induction false} SuffixStands(s: Text, pos: nat, delim: Byte, a: Stream)
    requires pos <= |s| && Suffix(a, Tokenize(s, pos, delim)) && Tail(a).None?
    ensures 0 <= |s| - Width(a) && a == Tokenize(s, |s| - Width(a), delim)
    decreases |s| - pos
  {
    var st := Tokenize(s, pos, delim);
    if a == st {
      TokenizeWidth(s, pos, delim);
    } else {
      SuffixStands(s, ScanField(s, pos, delim).next, delim, a);
    }
  }

  lemma HeadStands(s: Text, pos: nat, delim: Byte) returns (f: Scan)
    requires Tokenize(s, pos, delim).Next?
    ensures f.Field? && f.next == f.offset + f.length + 1 <= |s|
    ensures
      var tok := Tokenize(s, pos, delim).tok;
      tok.text == s[f.offset..f.offset + f.length] && tok.width == f.next - pos
  {
    hide TagStop, FindByte, TagValue;
    f := ScanField(s, pos, delim);
  }

  /** A value stands at its place. */
  lemma TextAtPlace(s: Text, delim: Byte, st: Stream)
    requires Suffix(st, Tokenize(s, 0, delim)) && Tail(st).None? && st.Next?
    ensures
      var p := PlaceOf(|s|, st.tok, st.rest);
      0 <= p.offset <= p.offset + p.length <= |s| && s[p.offset..p.offset + p.length] == ViewText(st.tok.text)
  {
    hide Suffix, Tail, Tokenize, ScanField;
    SuffixStands(s, 0, delim, st);
    var f := HeadStands(s, |s| - Width(st), delim);
    var len := |st.tok.text| % 0x1_0000;
    assert st.tok.text[..len] == s[f.offset..f.offset + len];
  }

  // ---------------------------------------------------------------- places and slots

  /** The places of the root's tags show the texts of its slots. */
  ghost predicate Shows(p: Places, slots: seq<Slot>, s: Text) {
    forall tag :: ShowsTag(p, slots, s, tag)
  }

  ghost predicate ShowsTag(p: Places, slots: seq<Slot>, s: Text, tag: nat) {
    match TextOf(slots, tag)
    case None => tag !in p
    case Some(text) =>
      && tag in p && 0 <= p[tag].offset <= p[tag].offset + p[tag].length <= |s|
      && s[p[tag].offset..p[tag].offset + p[tag].length] == text
  }

  lemma {:induction false} SlotFromSet(slots: seq<Slot>, k: nat, x: Slot, i: nat, tag: nat)
    requires i <= |slots| && k < |slots| && slots[k].tag == x.tag
    ensures SlotFrom(slots[k := x], i, tag) == SlotFrom(slots, i, tag)
    decreases |slots| - i
  {
    if i < |slots| {
      SlotFromSet(slots, k, x, i + 1, tag);
    }
  }

  /** Storing a slot changes the text under its own tag and under no other. */
  lemma UpsertText(slots: seq<Slot>, x: Slot, tag: nat)
    ensures TextOf(Upsert(slots, x), tag) == if tag == x.tag then Some(x.text) else TextOf(slots, tag)
  {
    var k := SlotIndex(slots, x.tag);
    if k >= 0 {
      SlotFromSet(slots, k, x, 0, tag);
    } else {
      TextOfAppended(slots, x, tag);
    }
  }

  lemma TextOfAppended(slots: seq<Slot>, x: Slot, tag: nat)
    ensures TextOf(slots + [x], tag)
         == if TextOf(slots, tag).Some? then TextOf(slots, tag) else if x.tag == tag then Some(x.text) else None
  {
    TextOfJoined(slots, [x], tag);
    TextBehind(x, [], tag);
    assert [x] + [] == [x];
  }

  lemma StoreShows(p: Places, r: Root, s: Text, delim: Byte, tok: Tok, rest: Stream, ftype: FieldType)
    requires Shows(p, r.slots, s) && Suffix(Next(tok, rest), Tokenize(s, 0, delim)) && Tail(rest).None?
    ensures Shows(p[tok.tag := PlaceOf(|s|, tok, rest)], StoreSlot(r, tok, ftype).slots, s)
  {
    TextAtPlace(s, delim, Next(tok, rest));
    hide Tokenize, Suffix, Tail, ViewText, TextOf, Upsert;
    var p1 := p[tok.tag := PlaceOf(|s|, tok, rest)];
    forall tag ensures ShowsTag(p1, StoreSlot(r, tok, ftype).slots, s, tag) {
      UpsertText(r.slots, Slot(tok.tag, ViewText(tok.text), ftype), tag);
      assert ShowsTag(p, r.slots, s, tag);
    }
  }

  lemma FieldStores(d: Dict, r: Root, tok: Tok, rules: Option<seq<nat>>)
    requires TakeRootField(d, r, tok, rules).Done?
    ensures TakeRootField(d, r, tok, rules).value.slots == StoreSlot(r, tok, TypeOf(d, tok.tag)).slots
  {
    hide Upsert;
  }

  lemma {:induction false} PlacesShow(d: Dict, s: Text, delim: Byte, r: Root, rules: Option<seq<nat>>, p: Places)
    requires Shows(p, r.slots, s) && Suffix(r.rest, Tokenize(s, 0, delim)) && Tail(r.rest).None?
    requires GenericLoop(d, r, rules).Done?
    ensures Shows(GenericPlaces(d, |s|, r, rules, p), GenericLoop(d, r, rules).value.slots, s)
    decreases Size(r.rest)
  {
    hide StoreSlot, TakeRootField, PlaceOf, Shows, Tokenize;
    if r.checkSum.None? && r.rest.Next? && r.rest.tok.tag != CHECK_SUM {
      var tok, rest := r.rest.tok, r.rest.rest;
      var r1 := Advance(r, tok, rest);
      var p1 := p[tok.tag := PlaceOf(|s|, tok, rest)];
      SuffixThen(rest, r.rest, Tokenize(s, 0, delim));
      if IsFrameTag(tok.tag) {
        PlacesShow(d, s, delim, r1, rules, p);
      } else if tok.tag == MSG_TYPE {
        var found := MessageRules(d, tok.text);
        var r2 := TakeMsgType(d, r1, tok, found);
        TypeStores(d, r1, tok, found);
        StoreShows(p, r1, s, delim, tok, rest, TypeOf(d, MSG_TYPE));
        PlacesShow(d, s, delim, r2, found, p1);
      } else {
        var r2 := TakeRootField(d, r1, tok, rules).value;
        FieldStores(d, r1, tok, rules);
        StoreShows(p, r1, s, delim, tok, rest, TypeOf(d, tok.tag));
        RootFieldSuffix(d, r1, tok, rules);
        SuffixTail(r2.rest, rest);
        SuffixThen(r2.rest, rest, Tokenize(s, 0, delim));
        PlacesShow(d, s, delim, r2, rules, p1);
      }
    }
  }

  lemma TypeStores(d: Dict, r: Root, tok: Tok, rules: Option<seq<nat>>)
    ensures TakeMsgType(d, r, tok, rules).slots == StoreSlot(r, tok, TypeOf(d, MSG_TYPE)).slots
    ensures TakeMsgType(d, r, tok, rules).rest == r.rest
  {
    hide Upsert;
  }

  // ---------------------------------------------------------------- whole frames

  /** The tail of a stream decides how the loop ends. */
  lemma {:induction false} DoneTail(d: Dict, r: Root, rules: Option<seq<nat>>)
    requires GenericLoop(d, r, rules).Done? && GenericLoop(d, r, rules).value.rest == End(None)
    ensures Tail(r.rest).None?
    decreases Size(r.rest)
  {
    hide StoreSlot, TakeRootField;
    if r.checkSum.None? && r.rest.Next? && r.rest.tok.tag != CHECK_SUM {
      var tok, r1 := r.rest.tok, Advance(r, r.rest.tok, r.rest.rest);
      if IsFrameTag(tok.tag) {
        DoneTail(d, r1, rules);
      } else if tok.tag == MSG_TYPE {
        TypeStores(d, r1, tok, MessageRules(d, tok.text));
        DoneTail(d, TakeMsgType(d, r1, tok, MessageRules(d, tok.text)), MessageRules(d, tok.text));
      } else {
        var r2 := TakeRootField(d, r1, tok, rules).value;
        RootFieldSuffix(d, r1, tok, rules);
        SuffixTail(r2.rest, r1.rest);
        DoneTail(d, r2, rules);
      }
    }
  }

  /**
   * For a frame that decodes, both decoders store the same offset and length under each tag of the root, and the
   * bytes there are the text of that tag.
   */
  lemma PlacesAgree(d: Dict, decoders: Decoders, s: Text, delim: Byte, verify: bool)
    requires BuiltTable(d, decoders) && GroupsIndexed(d, decoders, NormalizeDelimiter(delim))
    requires Decode(d, s, delim, verify).Done?
    ensures AllShaped(decoders)
    ensures
      var r := StartRoot(OpenFrame(Tokenize(s, 0, NormalizeDelimiter(delim))).value.rest);
      && GenericPlaces(d, |s|, r, None, map[]) == CompiledPlaces(d, decoders, |s|, r, None, map[])
      && Shows(GenericPlaces(d, |s|, r, None, map[]), Decode(d, s, delim, verify).value.root.slots, s)
  {
    hide GenericLoop, GenericPlaces, CompiledPlaces, Tokenize, Sum, Width, Scanned, Shows, Tail;
    var dl := NormalizeDelimiter(delim);
    var st := Tokenize(s, 0, dl);
    var f := OpenFrame(st).value;
    var r := StartRoot(f.rest);
    TokensScanned(s, 0, dl);
    assert Suffix(f.rest, st) by { assert Suffix(f.rest, st.rest) && f.rest == st.rest.rest; }
    ScannedSuffix(f.rest, st, dl);
    MatchExactlyWhenIndexed(d, decoders, dl);
    PlacesAlike(d, decoders, |s|, r, r, None, None, dl, map[]);
    DoneTail(d, r, None);
    NothingShows(s);
    PlacesShow(d, s, dl, r, None, map[]);
  }

  lemma NothingShows(s: Text)
    ensures Shows(map[], [], s)
  {
  }
}
