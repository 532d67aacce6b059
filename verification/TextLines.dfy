/** Lines of the contract sidecar text and the white space around them. */
module TextLines {
  import opened Optional
  import opened EscapedText

  // ---- white space around a line

  predicate IsSpace(c: char) {
    c == ' ' || c == '\t' || c == '\n' || c == 11 as char || c == 12 as char || c == '\r'
  }

  predicate Blank(s: string) {
    forall i :: 0 <= i < |s| ==> IsSpace(s[i])
  }

  function TrimLeft(s: string): string {
    if s != [] && IsSpace(s[0]) then TrimLeft(s[1..]) else s
  }

  function TrimRight(s: string): string {
    if s != [] && IsSpace(s[|s| - 1]) then TrimRight(s[..|s| - 1]) else s
  }

  function Trimmed(s: string): string {
    TrimLeft(TrimRight(s))
  }

  /** No white space at either end. */
  predicate Tight(s: string) {
    s == [] || (!IsSpace(s[0]) && !IsSpace(s[|s| - 1]))
  }

  lemma {:induction false} TrimLeftShape(s: string) returns (w: string)
    ensures Blank(w) && s == w + TrimLeft(s) && (TrimLeft(s) == [] || !IsSpace(TrimLeft(s)[0]))
  {
    if s != [] && IsSpace(s[0]) {
      w := TrimLeftShape(s[1..]);
      w := [s[0]] + w;
    } else {
      w := [];
    }
  }

  lemma {:induction false} TrimRightShape(s: string) returns (w: string)
    ensures Blank(w) && s == TrimRight(s) + w
    ensures TrimRight(s) == [] || !IsSpace(TrimRight(s)[|TrimRight(s)| - 1])
  {
    if s != [] && IsSpace(s[|s| - 1]) {
      w := TrimRightShape(s[..|s| - 1]);
      w := w + [s[|s| - 1]];
    } else {
      w := [];
    }
  }

  /** Trimming takes blanks off both ends and leaves none there. */
  lemma TrimmedShape(s: string) returns (before: string, behind: string)
    ensures Blank(before) && Blank(behind) && s == before + Trimmed(s) + behind && Tight(Trimmed(s))
  {
    behind := TrimRightShape(s);
    before := TrimLeftShape(TrimRight(s));
    var core := Trimmed(s);
    if core != [] { assert TrimRight(s)[|TrimRight(s)| - 1] == core[|core| - 1]; }
  }

  lemma {:induction false} TrimRightBehind(x: string, v: string)
    requires x != [] && !IsSpace(x[|x| - 1])
    ensures TrimRight(x + v) == x + TrimRight(v)
  {
    if v == [] {
      assert x + v == x;
    } else if IsSpace(v[|v| - 1]) {
      assert (x + v)[..|x + v| - 1] == x + v[..|v| - 1];
      TrimRightBehind(x, v[..|v| - 1]);
    }
  }

  lemma {:induction false} TrimRightTwice(s: string)
    ensures TrimRight(TrimRight(s)) == TrimRight(s)
  {
    if s != [] && IsSpace(s[|s| - 1]) { TrimRightTwice(s[..|s| - 1]); }
  }

  lemma TightIsTrimmed(s: string)
    ensures Tight(s) <==> Trimmed(s) == s
  {
    if Trimmed(s) == s { var b, e := TrimmedShape(s); }
  }

  /** Trimming keeps s[b..e] when blanks surround it. */
  lemma {:induction false} TrimmedAt(s: string, b: nat, e: nat)
    requires b <= e <= |s| && Blank(s[..b]) && Blank(s[e..])
    requires b < e ==> !IsSpace(s[b]) && !IsSpace(s[e - 1])
    ensures Trimmed(s) == s[b..e]
  {
    if e < |s| {
      var n := |s| - 1;
      assert s[e..][n - e] == s[n];
      assert s[..n][e..] == s[e..][..n - e] && s[..n][..b] == s[..b];
      TrimmedAt(s[..n], b, e);
      assert s[..n][b..e] == s[b..e];
    } else if b < e {
      assert TrimRight(s) == s;
      TrimLeftAt(s, b);
    } else {
      assert s[..b] == s;
      BlankTrims(s);
    }
  }

  lemma {:induction false} TrimLeftAt(s: string, b: nat)
    requires b < |s| && Blank(s[..b]) && !IsSpace(s[b])
    ensures TrimLeft(s) == s[b..]
  {
    if b > 0 {
      assert s[..b][0] == s[0];
      assert s[1..][..b - 1] == s[..b][1..];
      TrimLeftAt(s[1..], b - 1);
    }
  }

  lemma {:induction false} BlankTrims(s: string)
    requires Blank(s)
    ensures TrimRight(s) == []
  {
    if s != [] { BlankTrims(s[..|s| - 1]); }
  }

  method Trim(input: string) returns (r: string)
    ensures r == Trimmed(input)
  {
    var begin := 0;
    while begin < |input| && IsSpace(input[begin])
      invariant begin <= |input| && Blank(input[..begin])
    {
      assert input[..begin + 1] == input[..begin] + [input[begin]];
      begin := begin + 1;
    }
    var end := |input|;
    while end > begin && IsSpace(input[end - 1])
      invariant begin <= end <= |input| && Blank(input[end..])
    {
      assert input[end - 1..] == [input[end - 1]] + input[end..];
      end := end - 1;
    }
    TrimmedAt(input, begin, end);
    return input[begin..end];
  }

  // ---- blanks around a delimited list

  /** Puts w behind the last part. */
  function IntoLast(ts: Option<seq<string>>, w: string): Option<seq<string>> {
    if ts.Some? && ts.value != []
    then var n := |ts.value| - 1; Some(ts.value[n := ts.value[n] + w])
    else None
  }

  lemma {:induction false} SplitBehindBlank(w: string, rest: string, delimiter: char)
    requires Blank(w) && !IsSpace(delimiter) && delimiter != BACKSLASH
    ensures Split(w + rest, delimiter) == IntoFirst(Some(w), Split(rest, delimiter))
  {
    if w == [] {
      assert w + rest == rest;
      IntoFirstNothing(Split(rest, delimiter));
    } else {
      assert (w + rest)[1..] == w[1..] + rest;
      SplitBehindBlank(w[1..], rest, delimiter);
      IntoFirstTwice(Some([w[0]]), Some(w[1..]), Split(rest, delimiter));
      assert [w[0]] + w[1..] == w;
    }
  }

  lemma {:induction false} SplitBeforeBlank(x: string, w: string, delimiter: char)
    requires Blank(w) && !IsSpace(delimiter) && delimiter != BACKSLASH
    ensures Split(x + w, delimiter) == IntoLast(Split(x, delimiter), w)
  {
    if x == [] {
      assert x + w == w + [];
      SplitBehindBlank(w, [], delimiter);
      IntoFirstOfNew(w, []);
      assert "" + w == w && [""] + [] == [""] && [w] + [] == [""][0 := w];
    } else if x == [BACKSLASH] {
      if w != [] { assert (x + w)[1] == w[0]; }
    } else {
      var k := if x[0] == BACKSLASH then 2 else 1;
      assert (x + w)[k..] == x[k..] + w;
      SplitBeforeBlank(x[k..], w, delimiter);
      var u := if k == 2 then One(Meaning(x[1])) else Some([x[0]]);
      var rest := Split(x[k..], delimiter);
      if k == 1 && x[0] == delimiter {
        NewThenLast(rest, w);
      } else {
        FirstThenLast(u, rest, w);
      }
    }
  }

  lemma NewThenLast(ts: Option<seq<string>>, w: string)
    requires ts.Some? ==> ts.value != []
    ensures IntoLast(NewFirst(ts), w) == NewFirst(IntoLast(ts, w))
  {
    if ts.Some? {
      var n := |ts.value| - 1;
      assert ([""] + ts.value)[n + 1 := ts.value[n] + w] == [""] + ts.value[n := ts.value[n] + w];
    }
  }

  lemma FirstThenLast(u: Option<string>, ts: Option<seq<string>>, w: string)
    requires ts.Some? ==> ts.value != []
    ensures IntoLast(IntoFirst(u, ts), w) == IntoFirst(u, IntoLast(ts, w))
  {
    if u.Some? && ts.Some? {
      var t, n := ts.value, |ts.value| - 1;
      var first := [u.value + t[0]] + t[1..];
      if n == 0 {
        assert (u.value + t[0]) + w == u.value + (t[0] + w);
        assert first[0 := first[0] + w] == [u.value + (t[0] + w)] + t[0 := t[0] + w][1..];
      } else {
        assert first[n := first[n] + w] == [u.value + t[0]] + t[n := t[n] + w][1..];
      }
    }
  }

  // ---- cutting text into lines

  function LinesFrom(text: string, current: string): seq<string> {
    if text == [] then (if current != [] then [current] else [])
    else if text[0] == '\r' then LinesFrom(text[1..], current)
    else if text[0] == '\n' then [current] + LinesFrom(text[1..], [])
    else LinesFrom(text[1..], current + [text[0]])
  }

  function Lines(text: string): seq<string> {
    if text == [] then [""] else LinesFrom(text, [])
  }

  method SplitLines(text: string) returns (lines: seq<string>)
    ensures lines == Lines(text)
  {
    lines := [];
    var current: string := [];
    var i := 0;
    assert text[0..] == text && [] + LinesFrom(text, []) == LinesFrom(text, []);
    while i < |text|
      invariant i <= |text| && lines + LinesFrom(text[i..], current) == LinesFrom(text, [])
      invariant text == [] ==> lines == [] && current == []
    {
      var c := text[i];
      assert text[i..][1..] == text[i + 1..];
      if c == '\n' {
        assert lines + ([current] + LinesFrom(text[i + 1..], [])) == (lines + [current]) + LinesFrom(text[i + 1..], []);
        lines := lines + [current];
        current := [];
      } else if c != '\r' {
        current := current + [c];
      }
      i := i + 1;
    }
    assert text[i..] == [];
    if current != [] || text == [] {
      lines := lines + [current];
    } else {
      assert lines + [] == lines;
    }
  }

  predicate OnOneLine(s: string) {
    '\n' !in s && '\r' !in s
  }

  function TextOf(lines: seq<string>): string {
    if lines == [] then [] else lines[0] + ['\n'] + TextOf(lines[1..])
  }

  lemma {:induction false} EscapedOnOneLine(s: string)
    ensures OnOneLine(Escape(s))
  {
    if s != [] { EscapedOnOneLine(s[1..]); }
  }

  lemma {:induction false} LinesPast(l: string, rest: string, current: string)
    requires OnOneLine(l)
    ensures LinesFrom(l + rest, current) == LinesFrom(rest, current + l)
  {
    if l == [] {
      assert l + rest == rest && current + l == current;
    } else {
      assert (l + rest)[1..] == l[1..] + rest;
      LinesPast(l[1..], rest, current + [l[0]]);
      assert (current + [l[0]]) + l[1..] == current + l;
    }
  }

  /** Cutting into lines undoes printing them. */
  lemma {:induction false} LinesOfText(lines: seq<string>)
    requires forall l :: l in lines ==> OnOneLine(l)
    ensures LinesFrom(TextOf(lines), []) == lines
  {
    if lines != [] {
      var rest := ['\n'] + TextOf(lines[1..]);
      assert TextOf(lines) == lines[0] + rest;
      LinesPast(lines[0], rest, []);
      assert [] + lines[0] == lines[0];
      assert rest[1..] == TextOf(lines[1..]);
      LinesOfText(lines[1..]);
    }
  }

  lemma {:induction false} TextConcat(a: seq<string>, b: seq<string>)
    ensures TextOf(a + b) == TextOf(a) + TextOf(b)
  {
    if a == [] {
      assert a + b == b;
    } else {
      assert (a + b)[1..] == a[1..] + b;
      TextConcat(a[1..], b);
    }
  }

  lemma {:induction false} LinesAreSingle(text: string, current: string)
    requires OnOneLine(current)
    ensures forall l :: l in LinesFrom(text, current) ==> OnOneLine(l)
    decreases |text|
  {
    if text != [] {
      if text[0] == '\r' {
        LinesAreSingle(text[1..], current);
      } else if text[0] == '\n' {
        LinesAreSingle(text[1..], []);
      } else {
        LinesAreSingle(text[1..], current + [text[0]]);
      }
    }
  }

  // ---- joining what was split

  lemma {:induction false} JoinOnOneLine(ts: seq<string>, delimiter: char)
    requires OnOneLine([delimiter])
    ensures OnOneLine(Join(ts, delimiter))
  {
    assert delimiter in [delimiter];
    if ts != [] {
      EscapedOnOneLine(ts[0]);
      if |ts| > 1 { JoinOnOneLine(ts[1..], delimiter); }
    }
  }

  /** Join as a head and what follows it. */
  function Following(ts: seq<string>, delimiter: char): string {
    if ts == [] then [] else [delimiter] + Join(ts, delimiter)
  }

  lemma JoinHead(t: string, ts: seq<string>, delimiter: char)
    ensures Join([t] + ts, delimiter) == Escape(t) + Following(ts, delimiter)
  {
    assert ([t] + ts)[1..] == ts;
    assert ts == [] ==> Escape(t) + [] == Escape(t);
    assert ts != [] ==>
      Escape(t) + [delimiter] + Join(ts, delimiter) == Escape(t) + ([delimiter] + Join(ts, delimiter));
  }

  lemma Assoc(a: string, b: string, c: string)
    ensures (a + b) + c == a + (b + c)
  { }

  lemma JoinIntoFirst(u: string, t: string, ts: seq<string>, delimiter: char)
    ensures Join([u + t] + ts, delimiter) == Escape(u) + Join([t] + ts, delimiter)
  {
    hide *;
    JoinHead(u + t, ts, delimiter);
    JoinHead(t, ts, delimiter);
    EscapeConcat(u, t);
    Assoc(Escape(u), Escape(t), Following(ts, delimiter));
  }

  lemma EscapeNothing()
    ensures Escape([]) == []
  { }

  lemma EscapeOne(c: char)
    ensures Escape([c]) == EscapeChar(c)
  {
    assert [c][1..] == [] && EscapeChar(c) + [] == EscapeChar(c);
  }

  /** Joining undoes splitting, on a line. */
  lemma {:induction false} JoinOfSplit(s: string, delimiter: char)
    requires OnOneLine(s) && delimiter != BACKSLASH && (delimiter == BAR || BAR !in s)
    ensures var ts := Split(s, delimiter); ts.Some? ==> Join(ts.value, delimiter) == s
  {
    hide Join, Escape;
    var ts := Split(s, delimiter);
    if s == [] {
      JoinHead("", [], delimiter);
      assert [""] + [] == [""];
      EscapeNothing();
    } else if ts.Some? {
      var k := if s[0] == BACKSLASH then 2 else 1;
      JoinOfSplit(s[k..], delimiter);
      var rest := Split(s[k..], delimiter).value;
      assert s == s[..k] + s[k..];
      if k == 1 && s[0] == delimiter {
        JoinHead("", rest, delimiter);
        EscapeNothing();
        assert [] + ([delimiter] + s[1..]) == s;
      } else {
        var c := if k == 2 then Meaning(s[1]).value else s[0];
        JoinIntoFirst([c], rest[0], rest[1..], delimiter);
        assert [rest[0]] + rest[1..] == rest;
        EscapeOne(c);
        assert EscapeChar(c) == s[..k];
      }
    }
  }

  /** Escaping undoes unescaping, on a line without bars. */
  lemma {:induction false} EscapeOfUnescape(s: string)
    requires OnOneLine(s) && BAR !in s
    ensures Unescape(s).Some? ==> Escape(Unescape(s).value) == s
  {
    if s != [] && Unescape(s).Some? {
      var k := if s[0] == BACKSLASH then 2 else 1;
      EscapeOfUnescape(s[k..]);
      var c := if k == 2 then Meaning(s[1]).value else s[0];
      var v := Unescape(s[k..]).value;
      assert ([c] + v)[1..] == v;
      assert EscapeChar(c) == s[..k] && s == s[..k] + s[k..];
    }
  }

  lemma {:induction false} EscapedBars(s: string)
    ensures BAR in Escape(s) <==> BAR in s
  {
    if s != [] {
      EscapedBars(s[1..]);
      assert s == [s[0]] + s[1..];
      assert BAR in EscapeChar(s[0]) <==> s[0] == BAR;
    }
  }
}
