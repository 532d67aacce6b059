/** Printing and loading of contract sidecars, loop by loop. */
module ContractText {
  import opened EscapedText
  import opened TextLines
  import opened TextNumbers
  import opened Contract
  import opened ContractLists

  lemma JoinStep(ts: seq<string>, i: nat, delimiter: char)
    requires i < |ts|
    ensures Join(ts[i..], delimiter) == Escape(ts[i]) + Following(ts[i + 1..], delimiter)
  {
    hide Join, Escape;
    JoinHead(ts[i], ts[i + 1..], delimiter);
    assert [ts[i]] + ts[i + 1..] == ts[i..];
  }

  /** Tokens escaped one by one, with the delimiter before every token but the first. */
  lemma FollowingStep(ts: seq<string>, i: nat, delimiter: char)
    requires i < |ts|
    ensures Following(ts[i..], delimiter) == [delimiter] + (Escape(ts[i]) + Following(ts[i + 1..], delimiter))
  {
    JoinStep(ts, i, delimiter);
    hide Join, Escape;
  }

  lemma NothingFollows(delimiter: char)
    ensures Following([], delimiter) == []
  {
  }

  lemma Regroup(a: string, b: string, c: string, d: string)
    ensures a + c + d == a + (c + d) && a + b + c + d == a + (b + (c + d))
  {
  }

  method AppendJoined(stream: string, tokens: seq<string>, delimiter: char) returns (out: string)
    ensures out == stream + Join(tokens, delimiter)
  {
    out := stream;
    hide Join, Escape, Following;
    var i := 0;
    ghost var rest := Join(tokens, delimiter);
    JoinOfNone(delimiter);
    NothingFollows(delimiter);
    assert tokens[0..] == tokens;
    while i < |tokens|
      invariant i <= |tokens| && out + rest == stream + Join(tokens, delimiter)
      invariant rest == if i == 0 then Join(tokens[i..], delimiter) else Following(tokens[i..], delimiter)
    {
      JoinStep(tokens, i, delimiter);
      FollowingStep(tokens, i, delimiter);
      ghost var before, next := out, Following(tokens[i + 1..], delimiter);
      if i != 0 {
        out := out + [delimiter];
      }
      var token := EscapeToken(tokens[i]);
      out := out + token;
      Regroup(before, [delimiter], token, next);
      rest := next;
      i := i + 1;
    }
    assert tokens[i..] == [];
    assert out + [] == out;
  }

  lemma JoinOfNone(delimiter: char)
    ensures Join([], delimiter) == []
  { }

  method AppendRecord(stream: string, fields: seq<string>) returns (out: string)
    ensures out == stream + (Join(fields, BAR) + ['\n'])
  {
    out := AppendJoined(stream, fields, BAR);
    out := out + ['\n'];
  }

  lemma TextStep(line: string, lines: seq<string>)
    ensures TextOf([line] + lines) == (line + ['\n']) + TextOf(lines)
    ensures TextOf([line]) == line + ['\n']
  {
    assert ([line] + lines)[1..] == lines;
    assert [line][1..] == [];
    assert line + ['\n'] + [] == line + ['\n'];
  }

  /** The lines of a list of records; an enumeration prints a line for each value. */
  method AppendRecords(stream: string, rs: seq<Record>) returns (out: string)
    ensures out == stream + TextOf(AllLines(rs))
  {
    out := stream;
    var i := 0;
    assert rs[0..] == rs;
    hide TextOf, Join;
    while i < |rs|
      invariant i <= |rs| && out + TextOf(AllLines(rs[i..])) == stream + TextOf(AllLines(rs))
    {
      var r := rs[i];
      AllLinesStep(rs[i..]);
      assert rs[i..][1..] == rs[i + 1..];
      TextConcat(RecordLines(r), AllLines(rs[i + 1..]));
      ghost var before := out;
      if r.EnumRule? {
        out := AppendValues(out, r, r.allowed);
      } else {
        out := AppendRecord(out, Fields(r, ""));
        TextStep(LineOf(r, ""), []);
      }
      Assoc(before, TextOf(RecordLines(r)), TextOf(AllLines(rs[i + 1..])));
      i := i + 1;
    }
    assert rs[i..] == [];
    TextOfNone();
    assert out + [] == out;
  }

  lemma TextOfNone()
    ensures TextOf([]) == []
  { }

  method AppendValues(stream: string, r: Record, values: seq<string>) returns (out: string)
    requires r.EnumRule?
    ensures out == stream + TextOf(ValueLines(r, values))
  {
    out := stream;
    var i := 0;
    assert values[0..] == values;
    hide TextOf, Join, Fields;
    while i < |values|
      invariant i <= |values| && out + TextOf(ValueLines(r, values[i..])) == stream + TextOf(ValueLines(r, values))
    {
      ValueLinesStep(r, values[i..]);
      assert values[i..][1..] == values[i + 1..];
      ghost var line, rest := LineOf(r, values[i]), ValueLines(r, values[i + 1..]);
      TextStep(line, rest);
      ghost var before := out;
      out := AppendRecord(out, Fields(r, values[i]));
      Assoc(before, line + ['\n'], TextOf(rest));
      i := i + 1;
    }
    assert values[i..] == [];
    TextOfNone();
    assert out + [] == out;
  }

  /** The text of the records behind done, list after list. */
  lemma MoreRecords(start: string, done: seq<Record>, rs: seq<Record>)
    ensures (start + TextOf(AllLines(done))) + TextOf(AllLines(rs)) == start + TextOf(AllLines(done + rs))
  {
    AllLinesConcat(done, rs);
    TextConcat(AllLines(done), AllLines(rs));
    Assoc(start, TextOf(AllLines(done)), TextOf(AllLines(rs)));
  }

  method SerializeWithoutContractId(c: Contract) returns (out: string)
    ensures out == BodyText(c)
  {
    out := SerializeHeaders(c);
    ghost var head := out;
    TextConcat(HeaderLines(c), AllLines(Records(c)));
    assert BodyText(c) == head + TextOf(AllLines(Records(c)));
    hide TextOf, AllLines, HeaderLines;
    out := AppendRecords(out, c.warnings);
    out := AppendRecords(out, c.messages);
    MoreRecords(head, c.warnings, c.messages);
    out := AppendRecords(out, c.conditionals);
    MoreRecords(head, c.warnings + c.messages, c.conditionals);
    out := AppendRecords(out, c.enums);
    MoreRecords(head, c.warnings + c.messages + c.conditionals, c.enums);
    out := AppendRecords(out, c.services);
    MoreRecords(head, c.warnings + c.messages + c.conditionals + c.enums, c.services);
    out := AppendRecords(out, c.flows);
    MoreRecords(head, c.warnings + c.messages + c.conditionals + c.enums + c.services, c.flows);
  }

  method SerializeHeaders(c: Contract) returns (out: string)
    ensures out == TextOf(HeaderLines(c))
  {
    var kind := EscapeToken(c.sourceKind);
    var name := EscapeToken(c.sourceName);
    var semantics := AppendJoined("", c.semantics, ',');
    assert semantics == Join(c.semantics, ',');
    hide Escape, Join, Print, Hex, Entry;
    var a, b := Entry("contract_format", FORMAT), Entry("profile_id", Print(c.profileId, 10));
    var d, e, f := Entry("schema_hash", Hex(c.schemaHash)), Entry("source_kind", kind), Entry("source_name", name);
    var g := Entry("supported_semantics", semantics);
    out := [];
    ghost var lines := [];
    TextOfNone();
    hide TextOf;
    out, lines := AppendLine(out, lines, a);
    out, lines := AppendLine(out, lines, b);
    out, lines := AppendLine(out, lines, d);
    out, lines := AppendLine(out, lines, e);
    out, lines := AppendLine(out, lines, f);
    out, lines := AppendLine(out, lines, g);
    out, lines := AppendLine(out, lines, "");
    assert lines == [a, b, d, e, f, g, ""];
  }

  method AppendLine(stream: string, ghost lines: seq<string>, line: string)
    returns (out: string, ghost more: seq<string>)
    requires stream == TextOf(lines)
    ensures more == lines + [line] && out == TextOf(more)
  {
    out := stream + (line + ['\n']);
    more := lines + [line];
    TextConcat(lines, [line]);
    TextStep(line, []);
  }

  method SerializeContractSidecar(c: Contract) returns (out: string)
    ensures out == Serialize(c)
  {
    var copy := Canonical(c);
    var canonicalText := SerializeWithoutContractId(Canonical(copy));
    var id := HashText(canonicalText);
    var body := SerializeWithoutContractId(copy);
    out := Entry("contract_id", Hex(id)) + ['\n'] + body;
    TextStep(IdEntry(ContractId(copy)), []);
  }

  /** Finds the first character c, as the library search does. */
  method Find(s: string, c: char) returns (k: nat)
    ensures k == IndexOf(s, c, 0)
  {
    k := 0;
    while k < |s| && s[k] != c
      invariant k <= |s| && IndexOf(s, c, 0) == IndexOf(s, c, k)
    {
      k := k + 1;
    }
  }

  lemma FoundMeansIn(s: string, c: char)
    ensures IndexOf(s, c, 0) < |s| <==> c in s
  { }

  method LoadOneLine(l: Loading, raw: string) returns (r: Result<Loading>)
    ensures r == LoadLine(l, raw)
  {
    var line := Trim(raw);
    if line == [] || line[0] == '#' { return Ok(l); }
    var bar := Find(line, BAR);
    FoundMeansIn(line, BAR);
    if bar == |line| {
      var eq := Find(line, '=');
      if eq == |line| { return Err(FormatError); }
      var key := Trim(line[..eq]);
      var value := Trim(line[eq + 1..]);
      return LoadEntry(l, key, value);
    }
    var parts := SplitEscaped(line, BAR);
    return LoadFields(l, parts);
  }

  method LoadContractSidecarText(text: string) returns (r: Result<Sidecar>)
    ensures r == Load(text)
  {
    var lines := SplitLines(text);
    var l := NOTHING;
    var i := 0;
    assert lines[0..] == lines;
    hide LoadLine, Lines, Finish;
    while i < |lines|
      invariant i <= |lines| && LoadLines(NOTHING, lines) == LoadLines(l, lines[i..])
    {
      var next := LoadOneLine(l, lines[i]);
      assert lines[i..][1..] == lines[i + 1..];
      if next.Err? { return Err(next.error); }
      l := next.value;
      i := i + 1;
    }
    assert lines[i..] == [];
    return Finish(l);
  }
}
