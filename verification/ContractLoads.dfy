/** Loading the lines a contract prints. */
module ContractLoads {
  import opened Optional
  import opened EscapedText
  import opened TextLines
  import opened TextNumbers
  import opened Contract
  import opened ContractForm

  // ---- folding over lines

  function Then(r: Result<Loading>, lines: seq<string>): Result<Loading> {
    if r.Ok? then LoadLines(r.value, lines) else r
  }

  lemma {:induction false} LoadConcat(l: Loading, a: seq<string>, b: seq<string>)
    ensures LoadLines(l, a + b) == Then(LoadLines(l, a), b)
    decreases |a|
  {
    if a == [] {
      assert a + b == b;
    } else {
      assert (a + b)[1..] == a[1..] + b;
      var r := LoadLine(l, a[0]);
      if r.Ok? { LoadConcat(r.value, a[1..], b); }
    }
  }

  lemma LoadFirst(l: Loading, line: string, rest: seq<string>)
    ensures LoadLines(l, [line] + rest) == Then(LoadLine(l, line), rest)
  {
    assert ([line] + rest)[1..] == rest;
  }

  // ---- header lines

  /** A header key as the code compares it. */
  predicate PlainKey(key: string) {
    key != [] && '=' !in key && BAR !in key && Tight(key) && key[0] != '#'
  }

  /** A header line stands for its key and its trimmed value. */
  lemma EntryLine(l: Loading, key: string, value: string)
    requires PlainKey(key) && BAR !in value
    ensures LoadLine(l, Entry(key, value)) == LoadEntry(l, key, Trimmed(value))
  {
    var raw, x := key + "=" + value, key + "=";
    TrimRightBehind(x, value);
    assert raw == x + value;
    var tail := TrimRight(value);
    var line := x + tail;
    assert TrimLeft(line) == line by { assert line[0] == key[0]; }
    assert line == Trimmed(raw);
    var w := TrimRightShape(value);
    assert BAR !in tail by { assert forall c :: c in tail ==> c in value; }
    var eq := IndexOf(line, '=', 0);
    assert line[|key|] == '=' && forall j :: 0 <= j < |key| ==> line[j] == key[j];
    assert eq == |key|;
    assert line[..eq] == key && line[eq + 1..] == tail;
    TightIsTrimmed(key);
    TrimRightTwice(value);
    hide LoadEntry;
  }

  /** A printed value that trimming leaves alone. */
  predicate Settled(v: string) {
    BAR !in v && Tight(v)
  }

  lemma SettledEntry(l: Loading, key: string, value: string)
    requires PlainKey(key) && Settled(value)
    ensures LoadLine(l, Entry(key, value)) == LoadEntry(l, key, value)
  {
    EntryLine(l, key, value);
    TightIsTrimmed(value);
  }

  lemma DigitsSettled(n: nat, base: nat)
    requires base == 10 || base == 16
    ensures Settled(Print(n, base)) && OnOneLine(Print(n, base))
    ensures Settled(Hex(n)) && OnOneLine(Hex(n))
  {
    PrintDigits(n, base);
    PrintDigits(n, 16);
    DigitsPlain(Print(n, base));
    DigitsPlain(Print(n, 16));
  }

  lemma DigitsPlain(s: string)
    requires s != [] && forall c :: c in s ==> IsDigit(c, 16)
    ensures Settled(s) && OnOneLine(s)
    ensures Settled("0x" + s) && OnOneLine("0x" + s)
  {
    var x := "0x" + s;
    assert x[0] == '0' && x[|x| - 1] == s[|s| - 1];
    assert s[0] in s && s[|s| - 1] in s;
    assert !IsDigit(BAR, 16) && !IsDigit('\n', 16) && !IsDigit('\r', 16);
    assert forall c :: IsDigit(c, 16) ==> !IsSpace(c);
  }

  lemma NumbersRead(n: Word64)
    ensures ParseWord64(Print(n, 10)) == Ok(n) && ParseWord64(Hex(n)) == Ok(n)
  {
    DecimalReads(n);
    HexReads(n);
    hide ParseInteger, Print, Hex;
  }

  lemma FormatLoads(l: Loading)
    ensures LoadLine(l, Entry("contract_format", FORMAT)) == Ok(l.(sawFormat := true))
  {
    assert PlainKey("contract_format");
    assert Settled(FORMAT);
    hide LoadLine, Entry, PlainKey, Settled;
    SettledEntry(l, "contract_format", FORMAT);
  }

  lemma IdLoads(l: Loading, id: Word64)
    ensures LoadLine(l, Entry("contract_id", Hex(id))) == Ok(l.(id := id, sawId := true))
  {
    assert PlainKey("contract_id");
    DigitsSettled(id, 16);
    NumbersRead(id);
    hide LoadLine, Entry, PlainKey, Settled, Hex, Print, ParseWord64;
    SettledEntry(l, "contract_id", Hex(id));
  }

  lemma ProfileLoads(l: Loading, n: Word64)
    ensures LoadLine(l, Entry("profile_id", Print(n, 10)))
         == Ok(l.(contract := l.contract.(profileId := n), sawProfile := true))
  {
    assert PlainKey("profile_id");
    DigitsSettled(n, 10);
    NumbersRead(n);
    hide LoadLine, Entry, PlainKey, Settled, Hex, Print, ParseWord64;
    SettledEntry(l, "profile_id", Print(n, 10));
  }

  lemma HashLoads(l: Loading, n: Word64)
    ensures LoadLine(l, Entry("schema_hash", Hex(n))) == Ok(l.(contract := l.contract.(schemaHash := n)))
  {
    assert PlainKey("schema_hash");
    DigitsSettled(n, 16);
    NumbersRead(n);
    hide LoadLine, Entry, PlainKey, Settled, Hex, Print, ParseWord64;
    SettledEntry(l, "schema_hash", Hex(n));
  }

  lemma SourceKeys()
    ensures PlainKey("source_kind") && PlainKey("source_name")
  { }

  lemma SemanticsKey()
    ensures PlainKey("supported_semantics")
  { }

  lemma EscapedSettled(v: string)
    requires HeaderSafe(v)
    ensures Settled(Escape(v)) && Unescape(Escape(v)) == Some(v)
  {
    EscapedBars(v);
    UnescapeOfEscape(v);
  }

  lemma KindLoads(l: Loading, v: string)
    requires HeaderSafe(v)
    ensures LoadLine(l, Entry("source_kind", Escape(v))) == Ok(l.(contract := l.contract.(sourceKind := v)))
  {
    hide LoadLine, Entry, PlainKey, Settled, HeaderSafe, Escape, Unescape;
    SourceKeys();
    EscapedSettled(v);
    SettledEntry(l, "source_kind", Escape(v));
  }

  lemma NameLoads(l: Loading, v: string)
    requires HeaderSafe(v)
    ensures LoadLine(l, Entry("source_name", Escape(v))) == Ok(l.(contract := l.contract.(sourceName := v)))
  {
    hide LoadLine, Entry, PlainKey, Settled, HeaderSafe, Escape, Unescape;
    SourceKeys();
    EscapedSettled(v);
    SettledEntry(l, "source_name", Escape(v));
  }

  lemma {:induction false} JoinedBars(ws: seq<string>)
    requires WordsSafe(ws)
    ensures BAR !in Join(ws, ',')
  {
    if ws != [] {
      EscapedBars(ws[0]);
      if |ws| > 1 { JoinedBars(ws[1..]); }
    }
  }

  /** The words loaded from what a word list prints. */
  function WordsBack(ws: seq<string>): Result<seq<string>> {
    ParseSemantics(Trimmed(Join(ws, ',')))
  }

  lemma SemanticsLoad(l: Loading, ws: seq<string>)
    requires WordsSafe(ws)
    ensures LoadLine(l, Entry("supported_semantics", Join(ws, ',')))
         == match WordsBack(ws)
            case Ok(back) => Ok(l.(contract := l.contract.(semantics := back)))
            case Err(e) => Err(e)
  {
    SemanticsKey();
    JoinedBars(ws);
    hide LoadLine, Entry, PlainKey, WordsSafe, Join, Trimmed, ParseSemantics;
    EntryLine(l, "supported_semantics", Join(ws, ','));
  }

  lemma BlankLoads(l: Loading)
    ensures LoadLine(l, "") == Ok(l)
  { }

  // ---- record lines

  lemma {:induction false} JoinEnds(ts: seq<string>, delimiter: char)
    requires ts != [] && !IsSpace(delimiter)
    ensures EndTight(Join(ts, delimiter)) <==> EndTight(Escape(ts[|ts| - 1]))
    ensures |ts| > 1 ==> Join(ts, delimiter) != [] && delimiter in Join(ts, delimiter)
  {
    if |ts| > 1 {
      var rest := Join(ts[1..], delimiter);
      JoinEnds(ts[1..], delimiter);
      var line := Join(ts, delimiter);
      assert line == Escape(ts[0]) + [delimiter] + rest;
      assert line[|Escape(ts[0])|] == delimiter;
      assert rest != [] ==> line[|line| - 1] == rest[|rest| - 1];
      assert rest == [] ==> line[|line| - 1] == delimiter;
      assert ts[1..][|ts| - 2] == ts[|ts| - 1];
    }
  }

  predicate PlainHead(t: string) {
    t != [] && !IsSpace(t[0]) && t[0] != '#' && EscapeChar(t[0]) == [t[0]]
  }

  /** A record line whose last field keeps its end reads back as its fields. */
  lemma FieldsBack(l: Loading, ts: seq<string>)
    requires |ts| >= 2 && PlainHead(ts[0]) && EndTight(Escape(ts[|ts| - 1]))
    ensures LoadLine(l, Join(ts, BAR)) == LoadFields(l, Some(ts))
  {
    var line := Join(ts, BAR);
    JoinEnds(ts, BAR);
    assert line[0] == ts[0][0] by {
      var e := Escape(ts[0]);
      assert e[0] == ts[0][0];
      assert line == e + [BAR] + Join(ts[1..], BAR);
    }
    SplitOfJoin(ts, BAR);
    TightIsTrimmed(line);
    hide LoadFields, Join, Escape, Split, Trimmed;
  }

  lemma HeadsPlain(r: Record, value: string)
    ensures PlainHead(Fields(r, value)[0])
    ensures var ts := Fields(r, value); ts[|ts| - 1] == LastField(r)
  {
    hide Print;
  }

  lemma NamesRead(r: Role, d: Direction, c: Condition)
    ensures ParseRole(RoleName(r)) == Ok(r)
    ensures ParseDirection(DirectionName(d)) == Ok(d)
    ensures ParseCondition(ConditionName(c)) == Ok(c)
  {
    TightIsTrimmed(RoleName(r));
    TightIsTrimmed(DirectionName(d));
    TightIsTrimmed(ConditionName(c));
    hide Trimmed;
  }

  lemma TagReads(n: Word32)
    ensures ParseWord32(Print(n, 10)) == Ok(n)
  {
    DecimalReads(n);
    assert Low32(n) == n;
    hide ParseInteger, Print, Low32;
  }

  /** What a printed record parses as: itself, an enumeration with the one value on the line. */
  function Reread(r: Record, value: string): Record {
    if r.EnumRule? then r.(allowed := [value]) else r
  }

  lemma FieldsParse(r: Record, value: string)
    ensures ParseRecord(Fields(r, value)) == Ok(Reread(r, value))
  {
    hide Print, RoleName, DirectionName, ConditionName, ParseRole, ParseDirection, ParseCondition, ParseWord32;
    match r
    case Warning(_, _) =>
    case Message(_, _, _, i, a, _) =>
      NamesRead(Unknown, i, Required);
      NamesRead(Unknown, a, Required);
    case Conditional(_, _, f, c, w, _, _) =>
      NamesRead(Unknown, Send, c);
      TagReads(f);
      TagReads(w);
    case EnumRule(_, _, f, _, _) =>
      TagReads(f);
    case Service(_, role, d, _, _) =>
      NamesRead(role, d, Required);
    case Flow(_, a, _, b, _, _, _) =>
      NamesRead(a, Send, Required);
      NamesRead(b, Send, Required);
  }
}
