/** A contract survives its own text exactly when the text can carry it. */
module ContractRoundTrip {
  import opened Optional
  import opened EscapedText
  import opened TextLines
  import opened TextNumbers
  import opened CanonicalOrder
  import opened Contract
  import opened ContractForm
  import opened ContractLoads
  import opened ContractLists

  // ---- the text cuts back into its lines

  lemma EntryOnOneLine(key: string, value: string)
    requires OnOneLine(key) && OnOneLine(value)
    ensures OnOneLine(Entry(key, value))
  { }

  lemma IdKeysOnOneLine()
    ensures OnOneLine("contract_id") && OnOneLine("profile_id") && OnOneLine("schema_hash")
  { }

  lemma SourceKeysOnOneLine()
    ensures OnOneLine("source_kind") && OnOneLine("source_name")
  { }

  lemma FormatOnOneLine()
    ensures OnOneLine("contract_format") && OnOneLine(FORMAT)
  { }

  lemma SemanticsKeyOnOneLine()
    ensures OnOneLine("supported_semantics")
  { }

  predicate AllOnOneLine(lines: seq<string>) {
    forall l :: l in lines ==> OnOneLine(l)
  }

  lemma HeadersOnOneLine(c: Contract, id: Word64)
    ensures AllOnOneLine(HeaderLines(c)) && OnOneLine(IdEntry(id))
  {
    IdKeysOnOneLine();
    SourceKeysOnOneLine();
    FormatOnOneLine();
    SemanticsKeyOnOneLine();
    DigitsSettled(c.profileId, 10);
    DigitsSettled(c.schemaHash, 16);
    DigitsSettled(id, 16);
    EscapedOnOneLine(c.sourceKind);
    EscapedOnOneLine(c.sourceName);
    JoinOnOneLine(c.semantics, ',');
    hide OnOneLine, Entry, Print, Hex, Escape, Join;
    EntryOnOneLine("contract_format", FORMAT);
    EntryOnOneLine("profile_id", Print(c.profileId, 10));
    EntryOnOneLine("schema_hash", Hex(c.schemaHash));
    EntryOnOneLine("source_kind", Escape(c.sourceKind));
    EntryOnOneLine("source_name", Escape(c.sourceName));
    EntryOnOneLine("supported_semantics", Join(c.semantics, ','));
    EntryOnOneLine("contract_id", Hex(id));
    NothingOnOneLine();
  }

  lemma NothingOnOneLine()
    ensures OnOneLine("")
  { }

  lemma LineOnOneLine(r: Record, value: string)
    ensures OnOneLine(LineOf(r, value))
  {
    JoinOnOneLine(Fields(r, value), BAR);
  }

  lemma {:induction false} ValueLinesSingle(r: Record, values: seq<string>)
    ensures AllOnOneLine(ValueLines(r, values))
  {
    if values != [] {
      LineOnOneLine(r, values[0]);
      ValueLinesSingle(r, values[1..]);
    }
  }

  lemma {:induction false} RecordsSingle(rs: seq<Record>)
    ensures AllOnOneLine(AllLines(rs))
  {
    if rs != [] {
      if rs[0].EnumRule? { ValueLinesSingle(rs[0], rs[0].allowed); } else { LineOnOneLine(rs[0], ""); }
      RecordsSingle(rs[1..]);
      hide OnOneLine, LineOf;
    }
  }

  function BodyLines(c: Contract): seq<string> {
    HeaderLines(c) + AllLines(Records(c))
  }

  /** The text of a contract under any id. */
  function Labelled(c: Contract, id: Word64): string {
    TextOf([IdEntry(id)]) + BodyText(Canonical(c))
  }

  /** The lines of a contract's text. */
  lemma SerializedLines(c: Contract, id: Word64)
    ensures var k := Canonical(c); Lines(Labelled(c, id)) == [IdEntry(id)] + BodyLines(k)
  {
    var k := Canonical(c);
    var all := [IdEntry(id)] + BodyLines(k);
    HeadersOnOneLine(k, id);
    RecordsSingle(Records(k));
    TextConcat([IdEntry(id)], BodyLines(k));
    assert TextOf(all) == Labelled(c, id);
    hide OnOneLine, IdEntry, HeaderLines, AllLines, Canonical, Records, Labelled;
    LinesOfText(all);
    assert TextOf(all) != [] by { assert TextOf(all) == all[0] + ['\n'] + TextOf(all[1..]); }
  }

  // ---- the headers load

  lemma HeadersLoad(l: Loading, k: Contract)
    requires HeaderSafe(k.sourceKind) && HeaderSafe(k.sourceName) && WordsSafe(k.semantics)
    ensures LoadLines(l, HeaderLines(k))
         == match WordsBack(k.semantics)
            case Ok(ws) =>
              Ok(l.(contract := l.contract.(profileId := k.profileId, schemaHash := k.schemaHash,
                                            sourceKind := k.sourceKind, sourceName := k.sourceName, semantics := ws),
                    sawFormat := true, sawProfile := true))
            case Err(e) => Err(e)
  {
    hide LoadLine, LoadLines, Entry, HeaderSafe, WordsSafe, WordsBack, Print, Hex, Escape, Join;
    var a, b := Entry("contract_format", FORMAT), Entry("profile_id", Print(k.profileId, 10));
    var c, d := Entry("schema_hash", Hex(k.schemaHash)), Entry("source_kind", Escape(k.sourceKind));
    var e, f := Entry("source_name", Escape(k.sourceName)), Entry("supported_semantics", Join(k.semantics, ','));
    FormatLoads(l);
    var l1 := l.(sawFormat := true);
    ProfileLoads(l1, k.profileId);
    var l2 := l1.(contract := l1.contract.(profileId := k.profileId), sawProfile := true);
    HashLoads(l2, k.schemaHash);
    var l3 := l2.(contract := l2.contract.(schemaHash := k.schemaHash));
    KindLoads(l3, k.sourceKind);
    var l4 := l3.(contract := l3.contract.(sourceKind := k.sourceKind));
    NameLoads(l4, k.sourceName);
    var l5 := l4.(contract := l4.contract.(sourceName := k.sourceName));
    SemanticsLoad(l5, k.semantics);
    SixLines(l, l1, l2, l3, l4, l5, a, b, c, d, e, f);
  }

  lemma SixLines(
      l: Loading, l1: Loading, l2: Loading, l3: Loading, l4: Loading, l5: Loading,
      a: string, b: string, c: string, d: string, e: string, f: string)
    requires LoadLine(l, a) == Ok(l1) && LoadLine(l1, b) == Ok(l2) && LoadLine(l2, c) == Ok(l3)
    requires LoadLine(l3, d) == Ok(l4) && LoadLine(l4, e) == Ok(l5)
    ensures LoadLines(l, [a, b, c, d, e, f, ""]) == LoadLine(l5, f)
  {
    hide LoadLine, LoadLines;
    assert [a, b, c, d, e, f, ""] == [a] + [b, c, d, e, f, ""];
    LoadFirst(l, a, [b, c, d, e, f, ""]);
    assert [b, c, d, e, f, ""] == [b] + [c, d, e, f, ""];
    LoadFirst(l1, b, [c, d, e, f, ""]);
    assert [c, d, e, f, ""] == [c] + [d, e, f, ""];
    LoadFirst(l2, c, [d, e, f, ""]);
    assert [d, e, f, ""] == [d] + [e, f, ""];
    LoadFirst(l3, d, [e, f, ""]);
    assert [e, f, ""] == [e] + [f, ""];
    LoadFirst(l4, e, [f, ""]);
    assert [f, ""] == [f] + [""];
    LoadFirst(l5, f, [""]);
    var r := LoadLine(l5, f);
    if r.Ok? {
      LoadOne(r.value, "");
      BlankLoads(r.value);
    }
  }

  // ---- word lists

  function Total(ts: seq<string>): nat {
    if ts == [] then 0 else |ts[0]| + Total(ts[1..])
  }

  lemma {:induction false} TotalInsert(x: string, s: seq<string>)
    ensures Total(Insert(x, s, TextKey)) == |x| + Total(s)
  {
    hide TextKey, Before;
    if s == [] || !Before(TextKey, s[0], x) {
      assert ([x] + s)[1..] == s;
    } else {
      var t := Insert(x, s[1..], TextKey);
      assert ([s[0]] + t)[1..] == t;
      TotalInsert(x, s[1..]);
    }
  }

  lemma {:induction false} TotalSort(s: seq<string>)
    ensures Total(Sort(s, TextKey)) == Total(s) && |Sort(s, TextKey)| == |s|
  {
    if s != [] {
      TotalSort(s[1..]);
      TotalInsert(s[0], Sort(s[1..], TextKey));
      SortSorts(s, TextKey);
      assert |multiset(Sort(s, TextKey))| == |multiset(s)|;
    }
  }

  lemma {:induction false} NothingDropped(s: seq<string>)
    requires |Unique(s)| == |s|
    ensures Unique(s) == s
  {
    if |s| >= 2 {
      NothingDropped(s[1..]);
      assert s == [s[0]] + s[1..];
    }
  }

  lemma {:induction false} TotalLast(ts: seq<string>, w: string)
    requires ts != []
    ensures Total(ts[|ts| - 1 := ts[|ts| - 1] + w]) == Total(ts) + |w|
  {
    var n := |ts| - 1;
    var u := ts[n := ts[n] + w];
    if n == 0 {
      assert u[1..] == [] && ts[1..] == [];
    } else {
      TotalLast(ts[1..], w);
      assert u[1..] == ts[1..][n - 1 := ts[1..][n - 1] + w];
    }
  }

  lemma TotalFirst(u: string, ts: seq<string>)
    requires ts != []
    ensures Total([u + ts[0]] + ts[1..]) == |u| + Total(ts)
  {
    assert ([u + ts[0]] + ts[1..])[1..] == ts[1..];
  }

  /** White space taken off a printed list comes off its words. */
  lemma TrimmedWords(printed: string)
    requires Split(printed, ',').Some?
    ensures var ts, us := Split(printed, ','), Split(Trimmed(printed), ',');
            us.Some? && |us.value| == |ts.value|
            && Total(ts.value) == Total(us.value) + (|printed| - |Trimmed(printed)|)
  {
    var before, behind := TrimmedShape(printed);
    var core := Trimmed(printed);
    hide Split, Trimmed, Total;
    assert printed == before + (core + behind);
    SplitBehindBlank(before, core + behind, ',');
    SplitBeforeBlank(core, behind, ',');
    var us := Split(core, ',').value;
    TotalLast(us, behind);
    TotalFirst(before, us[|us| - 1 := us[|us| - 1] + behind]);
  }

  lemma PrintsNothing(ws: seq<string>)
    ensures Join(ws, ',') == [] <==> ws == [] || ws == [""]
  {
    if |ws| == 1 {
      assert ws == [ws[0]];
      assert ws[0] != [] ==> Escape(ws[0]) != [];
    }
  }

  lemma SeparatesWords(ws: seq<string>)
    requires WordsSafe(ws)
    ensures forall w :: w in ws ==> Separates(',', w)
  { }

  /** A printed list reads back when trimming leaves it alone. */
  lemma WordsReadBack(ws: seq<string>)
    requires WordsSafe(ws) && PrintedWordsSafe(ws)
    ensures WordsBack(ws) == Ok(ws)
  {
    PrintsNothing(ws);
    TightIsTrimmed(Join(ws, ','));
    SeparatesWords(ws);
    hide Join, Split, Trimmed, WordsSafe, Separates;
    if ws != [] { SplitOfJoin(ws, ','); }
  }

  /** And only then. */
  lemma OnlySafeWordsReadBack(ws: seq<string>, back: seq<string>)
    requires WordsSafe(ws) && WordsBack(ws) == Ok(back) && TidyWords(back) == ws
    ensures PrintedWordsSafe(ws)
  {
    var printed := Join(ws, ',');
    var core := Trimmed(printed);
    var before, behind := TrimmedShape(printed);
    TightIsTrimmed(core);
    TightIsTrimmed(printed);
    PrintsNothing(ws);
    hide Join, Trimmed, Tight;
    if core == [] {
      assert back == [];
      assert TidyWords([]) == [];
    } else {
      SeparatesWords(ws);
      SplitOfJoin(ws, ',');
      TrimmedWords(printed);
      assert Split(core, ',') == Some(back);
      NothingDropped(Sort(back, TextKey)) by { TotalSort(back); }
      TotalSort(back);
    }
  }

  // ---- whatever is loaded is clean

  lemma {:induction false} UnescapedWithoutBar(s: string)
    requires BAR !in s && Unescape(s).Some?
    ensures BAR !in Unescape(s).value
  {
    if s != [] { UnescapedWithoutBar(s[if s[0] == BACKSLASH then 2 else 1..]); }
  }

  lemma LoadedHeaderSafe(value: string)
    requires Settled(value) && OnOneLine(value) && Unescape(value).Some?
    ensures HeaderSafe(Unescape(value).value)
  {
    UnescapedWithoutBar(value);
    EscapeOfUnescape(value);
  }

  lemma LoadedWordsSafe(value: string)
    requires BAR !in value
    ensures ParseSemantics(value).Ok? ==> WordsSafe(ParseSemantics(value).value)
  {
    PartsAvoid(value, ',');
    PartsWithoutBar(value, ',');
    hide Split, Trimmed;
  }

  lemma TrimmedFrom(s: string)
    ensures Tight(Trimmed(s)) && (forall c :: c in Trimmed(s) ==> c in s)
  {
    var before, behind := TrimmedShape(s);
    assert forall c :: c in Trimmed(s) ==> c in before + Trimmed(s) + behind;
  }

  /** Loading a header entry changes nothing but headers, and leaves them safe. */
  predicate HeadersMove(c: Contract, d: Contract) {
    && d == c.(profileId := d.profileId, schemaHash := d.schemaHash, sourceKind := d.sourceKind,
               sourceName := d.sourceName, semantics := d.semantics)
    && HeaderSafe(d.sourceKind) && HeaderSafe(d.sourceName) && WordsSafe(d.semantics)
  }

  lemma MovedClean(c: Contract, d: Contract)
    requires Clean(c) && HeadersMove(c, d)
    ensures Clean(d)
  {
    hide HeaderSafe, WordsSafe, AllKeep, DistinctRules;
  }

  lemma EntryMoves(l: Loading, key: string, value: string)
    requires HeaderSafe(l.contract.sourceKind) && HeaderSafe(l.contract.sourceName) && WordsSafe(l.contract.semantics)
    requires Unescape(value).Some? ==> HeaderSafe(Unescape(value).value)
    requires ParseSemantics(value).Ok? ==> WordsSafe(ParseSemantics(value).value)
    ensures LoadEntry(l, key, value).Ok? ==> HeadersMove(l.contract, LoadEntry(l, key, value).value.contract)
  {
    hide HeaderSafe, WordsSafe, Unescape, ParseSemantics, ParseWord64, HeadersMove;
    var r := LoadEntry(l, key, value);
    if r.Ok? {
      var c := l.contract;
      MovesNumber(c, r.value.contract.profileId, r.value.contract.schemaHash);
      if Unescape(value).Some? {
        MovesText(c, Unescape(value).value);
      }
      if ParseSemantics(value).Ok? {
        MovesWords(c, ParseSemantics(value).value);
      }
    }
  }

  predicate HeadersSafe(c: Contract) {
    HeaderSafe(c.sourceKind) && HeaderSafe(c.sourceName) && WordsSafe(c.semantics)
  }

  lemma MovesNumber(c: Contract, n: Word64, m: Word64)
    requires HeadersSafe(c)
    ensures HeadersMove(c, c.(profileId := n)) && HeadersMove(c, c.(schemaHash := m)) && HeadersMove(c, c)
  {
    hide HeaderSafe, WordsSafe;
  }

  lemma MovesText(c: Contract, v: string)
    requires HeadersSafe(c) && HeaderSafe(v)
    ensures HeadersMove(c, c.(sourceKind := v)) && HeadersMove(c, c.(sourceName := v))
  {
    hide HeaderSafe, WordsSafe;
  }

  lemma MovesWords(c: Contract, ws: seq<string>)
    requires HeadersSafe(c) && WordsSafe(ws)
    ensures HeadersMove(c, c.(semantics := ws))
  {
    hide HeaderSafe, WordsSafe;
  }

  lemma EntryClean(l: Loading, key: string, value: string)
    requires Clean(l.contract) && Settled(value) && OnOneLine(value)
    ensures LoadEntry(l, key, value).Ok? ==> Clean(LoadEntry(l, key, value).value.contract)
  {
    if Unescape(value).Some? { LoadedHeaderSafe(value); }
    LoadedWordsSafe(value);
    EntryMoves(l, key, value);
    var r := LoadEntry(l, key, value);
    hide *;
    if r.Ok? { MovedClean(l.contract, r.value.contract); }
  }

  lemma HeaderClean(l: Loading, line: string)
    requires Clean(l.contract) && BAR !in line && OnOneLine(line)
    ensures LoadHeader(l, line).Ok? ==> Clean(LoadHeader(l, line).value.contract)
  {
    var eq := IndexOf(line, '=', 0);
    if eq < |line| {
      var value := Trimmed(line[eq + 1..]);
      TrimmedFrom(line[eq + 1..]);
      assert Settled(value) && OnOneLine(value);
      hide Clean, LoadEntry, Trimmed, Settled;
      EntryClean(l, Trimmed(line[..eq]), value);
    }
  }

  lemma ParsedKeeps(t: seq<string>)
    requires t != [] && ParseRecord(t).Ok?
    ensures LastField(ParseRecord(t).value) == t[|t| - 1]
    ensures ParseRecord(t).value.EnumRule? ==> ParseRecord(t).value.allowed != []
  {
    hide ParseRole, ParseDirection, ParseCondition, ParseWord32;
  }

  lemma {:induction false} AddEnumKeeps(rules: seq<Record>, r: Record)
    requires r.EnumRule? && LineKeeps(r) && AllKeep(rules) && DistinctRules(rules)
    ensures AllKeep(AddEnum(rules, r)) && DistinctRules(AddEnum(rules, r))
    ensures forall x :: NoRule(rules, x) && !SameRule(r, x) ==> NoRule(AddEnum(rules, r), x)
  {
    var out := AddEnum(rules, r);
    if rules == [] {
      assert out == [r] && out[1..] == [];
    } else {
      var first, rest := rules[0], rules[1..];
      assert rules == [first] + rest && first in rules;
      if SameRule(first, r) {
        var merged := first.(allowed := first.allowed + r.allowed);
        assert LineKeeps(merged);
        assert out[1..] == rest && out == [merged] + rest;
        assert forall x :: SameRule(merged, x) <==> SameRule(first, x);
        assert forall x :: SameRule(x, merged) <==> SameRule(x, first);
        hide SameRule, LineKeeps;
      } else {
        AddEnumKeeps(rest, r);
        assert out[1..] == AddEnum(rest, r) && out == [first] + AddEnum(rest, r);
        RuleSymmetric(first, r);
        hide SameRule, LineKeeps;
      }
    }
  }

  lemma AddRecordClean(c: Contract, r: Record)
    requires Clean(c) && LineKeeps(r)
    ensures Clean(AddRecord(c, r))
  {
    if r.EnumRule? { AddEnumKeeps(c.enums, r); }
    hide LineKeeps, HeaderSafe, WordsSafe, DistinctRules, AddEnum;
  }

  lemma FieldsClean(l: Loading, line: string)
    requires Clean(l.contract) && line != [] && Tight(line) && OnOneLine(line)
    ensures var r := LoadFields(l, Split(line, BAR)); r.Ok? ==> Clean(r.value.contract)
  {
    hide Clean, LineKeeps, ParseRecord, AddRecord, Split, Tight, OnOneLine;
    var ts := Split(line, BAR);
    if ts.Some? && ParseRecord(ts.value).Ok? {
      LineKept(line);
      AddRecordClean(l.contract, ParseRecord(ts.value).value);
    }
  }

  lemma LineKept(line: string)
    requires line != [] && Tight(line) && OnOneLine(line)
    requires Split(line, BAR).Some? && ParseRecord(Split(line, BAR).value).Ok?
    ensures LineKeeps(ParseRecord(Split(line, BAR).value).value)
  {
    hide ParseRecord, Split, Join, OnOneLine, Escape;
    var ts := Split(line, BAR).value;
    JoinOfSplit(line, BAR);
    JoinEnds(ts, BAR);
    ParsedKeeps(ts);
  }

  lemma LineClean(l: Loading, raw: string)
    requires Clean(l.contract) && OnOneLine(raw)
    ensures LoadLine(l, raw).Ok? ==> Clean(LoadLine(l, raw).value.contract)
  {
    var line := Trimmed(raw);
    TrimmedFrom(raw);
    assert OnOneLine(line);
    hide Clean, Trimmed, LoadHeader, LoadFields, Split, OnOneLine, Tight;
    if line != [] {
      if BAR !in line { HeaderClean(l, line); } else { FieldsClean(l, line); }
    }
  }

  lemma {:induction false} LinesClean(l: Loading, lines: seq<string>)
    requires Clean(l.contract) && AllOnOneLine(lines)
    ensures LoadLines(l, lines).Ok? ==> Clean(LoadLines(l, lines).value.contract)
    decreases |lines|
  {
    if lines != [] {
      LineClean(l, lines[0]);
      var r := LoadLine(l, lines[0]);
      hide Clean, LoadLine, OnOneLine;
      if r.Ok? { LinesClean(r.value, lines[1..]); }
    }
  }

  lemma NothingIsClean()
    ensures Clean(NOTHING.contract)
  { }

  // ---- the round trip

  lemma CanonicalProper(c: Contract)
    requires Proper(c)
    ensures Proper(Canonical(c))
  {
    ArrangedHolds(c.warnings);
    ArrangedHolds(c.messages);
    ArrangedHolds(c.conditionals);
    ArrangedHolds(TidyEnums(c.enums));
    ArrangedHolds(c.services);
    ArrangedHolds(c.flows);
    forall r | r in TidyEnums(c.enums) ensures r.EnumRule? {
      var i :| 0 <= i < |c.enums| && TidyEnums(c.enums)[i] == r;
      assert c.enums[i] in c.enums;
    }
    hide Arranged, TidyEnums;
  }

  lemma CanonicalIds(c: Contract)
    ensures ContractId(Canonical(c)) == ContractId(c)
  {
    CanonicalTwice(c);
  }

  /** What the text of a clean contract loads as, before the id is compared. */
  lemma CleanLoads(c: Contract, id: Word64)
    requires Proper(c) && Clean(c)
    ensures var k := Canonical(c);
            LoadLines(NOTHING, Lines(Labelled(c, id)))
            == match WordsBack(k.semantics)
               case Ok(ws) => Ok(Loading(k.(semantics := ws), id, true, true, true))
               case Err(e) => Err(e)
  {
    var k := Canonical(c);
    CanonicalProper(c);
    CanonicalClean(c);
    SerializedLines(c, id);
    var l0 := NOTHING.(id := id, sawId := true);
    IdLoads(NOTHING, id);
    hide Canonical, LoadLine, LoadLines, HeaderLines, AllLines, Records, WordsBack, Lines, Labelled;
    LoadFirst(NOTHING, IdEntry(id), BodyLines(k));
    LoadConcat(l0, HeaderLines(k), AllLines(Records(k)));
    HeadersLoad(l0, k);
    var h := LoadLines(l0, HeaderLines(k));
    if h.Ok? { RecordsLoad(h.value, k); }
  }

  lemma SerializedIsLabelled(c: Contract)
    ensures Serialize(c) == Labelled(c, ContractId(c))
  {
    CanonicalIds(c);
  }

  /**
   * Loading what a contract serializes to gives its canonical form, under its own id, exactly when the text
   * can carry the contract.
   */
  lemma LoadOfSerialize(c: Contract)
    requires Proper(c)
    ensures Load(Serialize(c)) == Ok(Sidecar(Canonical(c), ContractId(c))) <==> Survives(c)
  {
    var k := Canonical(c);
    CanonicalTwice(c);
    SerializedIsLabelled(c);
    if Survives(c) {
      CleanLoads(c, ContractId(c));
      CanonicalClean(c);
      WordsReadBack(k.semantics);
      assert k.(semantics := k.semantics) == k;
      CanonicalIds(c);
    }
    if Load(Serialize(c)) == Ok(Sidecar(k, ContractId(c))) {
      LoadedIsClean(Serialize(c));
      CanonicalClean(c);
      CleanLoads(c, ContractId(c));
      OnlySafeWordsReadBack(k.semantics, WordsBack(k.semantics).value);
    }
  }

  /** Any text that loads gives a clean contract. */
  lemma LoadedIsClean(text: string)
    ensures Load(text).Ok? ==> Clean(Load(text).value.contract)
  {
    LinesAreSingle(text, []);
    assert AllOnOneLine(Lines(text));
    NothingIsClean();
    LinesClean(NOTHING, Lines(text));
    var l := LoadLines(NOTHING, Lines(text));
    hide Clean, LoadLines, Lines, Canonical;
    if l.Ok? { CanonicalClean(l.value.contract); }
  }

  /** A comma in a word and a bar in a header value are lost. */
  lemma CommaAndBarAreLost()
    ensures var c := NOTHING.contract.(semantics := ["a,b"]);
            Load(Serialize(c)) != Ok(Sidecar(Canonical(c), ContractId(c)))
    ensures var c := NOTHING.contract.(sourceKind := "a|b");
            Load(Serialize(c)) != Ok(Sidecar(Canonical(c), ContractId(c)))
  {
    var comma := NOTHING.contract.(semantics := ["a,b"]);
    assert "a,b" in comma.semantics && "a,b"[1] == ',';
    assert !Survives(comma);
    var bar := NOTHING.contract.(sourceKind := "a|b");
    assert bar.sourceKind[1] == BAR;
    assert !Survives(bar);
    hide *;
    LoadOfSerialize(comma);
    LoadOfSerialize(bar);
  }
}
