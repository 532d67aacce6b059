/** Escaped tokens and delimited lists of the contract sidecar text. */
module EscapedText {
  import opened Optional

  const BACKSLASH: char := '\\'
  const BAR: char := '|'

  // ---- escaping one token

  function EscapeChar(c: char): string {
    if c == '\n' then [BACKSLASH, 'n']
    else if c == '\r' then [BACKSLASH, 'r']
    else if c == BACKSLASH || c == BAR then [BACKSLASH, c]
    else [c]
  }

  function Escape(s: string): string {
    if s == [] then [] else EscapeChar(s[0]) + Escape(s[1..])
  }

  /** The character an escape stands for. */
  function Meaning(c: char): Option<char> {
    if c == 'n' then Some('\n')
    else if c == 'r' then Some('\r')
    else if c == BACKSLASH || c == BAR then Some(c)
    else None
  }

  function PutFirst(c: Option<char>, s: Option<string>): Option<string> {
    if c.Some? && s.Some? then Some([c.value] + s.value) else None
  }

  /** None when an escape is cut off or unknown. */
  function Unescape(s: string): Option<string> {
    if s == [] then Some([])
    else if s[0] != BACKSLASH then PutFirst(Some(s[0]), Unescape(s[1..]))
    else if |s| == 1 then None
    else PutFirst(Meaning(s[1]), Unescape(s[2..]))
  }

  lemma EscapeConcat(a: string, b: string)
    ensures Escape(a + b) == Escape(a) + Escape(b)
  {
    if a == [] {
      assert a + b == b;
    } else {
      assert (a + b)[1..] == a[1..] + b;
      EscapeConcat(a[1..], b);
    }
  }

  lemma {:induction false} UnescapeOfEscape(s: string)
    ensures Unescape(Escape(s)) == Some(s)
  {
    if s != [] {
      UnescapeOfEscape(s[1..]);
      var e := EscapeChar(s[0]);
      assert Escape(s)[|e|..] == Escape(s[1..]);
      assert s == [s[0]] + s[1..];
    }
  }

  /** Escapes in s come in whole pairs. */
  predicate Whole(s: string) {
    s == [] || (if s[0] != BACKSLASH then Whole(s[1..]) else |s| >= 2 && Whole(s[2..]))
  }

  function Joined(a: Option<string>, b: Option<string>): Option<string> {
    if a.Some? && b.Some? then Some(a.value + b.value) else None
  }

  lemma JoinedNothing(b: Option<string>)
    ensures Joined(Some([]), b) == b
  {
    if b.Some? { assert [] + b.value == b.value; }
  }

  lemma PutFirstJoined(c: Option<char>, a: Option<string>, b: Option<string>)
    ensures PutFirst(c, Joined(a, b)) == Joined(PutFirst(c, a), b)
  {
    if c.Some? && a.Some? && b.Some? {
      assert [c.value] + (a.value + b.value) == ([c.value] + a.value) + b.value;
    }
  }

  lemma {:induction false} UnescapeConcat(a: string, b: string)
    requires Whole(a)
    ensures Unescape(a + b) == Joined(Unescape(a), Unescape(b))
    ensures Whole(b) ==> Whole(a + b)
  {
    if a == [] {
      assert a + b == b;
      JoinedNothing(Unescape(b));
    } else {
      var k := if a[0] != BACKSLASH then 1 else 2;
      assert (a + b)[k..] == a[k..] + b;
      UnescapeConcat(a[k..], b);
      PutFirstJoined(if k == 1 then Some(a[0]) else Meaning(a[1]), Unescape(a[k..]), Unescape(b));
    }
  }

  // ---- lists

  /** Puts u in front of the first part. */
  function IntoFirst(u: Option<string>, ts: Option<seq<string>>): Option<seq<string>> {
    if u.Some? && ts.Some? && ts.value != [] then Some([u.value + ts.value[0]] + ts.value[1..]) else None
  }

  function NewFirst(ts: Option<seq<string>>): Option<seq<string>> {
    if ts.Some? then Some([""] + ts.value) else None
  }

  function One(c: Option<char>): Option<string> {
    if c.Some? then Some([c.value]) else None
  }

  /** The parts of s between its bare delimiters, each unescaped. */
  function Split(s: string, delimiter: char): (ts: Option<seq<string>>)
    ensures ts.Some? ==> ts.value != []
  {
    if s == [] then Some([""])
    else if s[0] == BACKSLASH then
      if |s| == 1 then None else IntoFirst(One(Meaning(s[1])), Split(s[2..], delimiter))
    else if s[0] == delimiter then NewFirst(Split(s[1..], delimiter))
    else IntoFirst(Some([s[0]]), Split(s[1..], delimiter))
  }

  function Join(ts: seq<string>, delimiter: char): string {
    if ts == [] then []
    else if |ts| == 1 then Escape(ts[0])
    else Escape(ts[0]) + [delimiter] + Join(ts[1..], delimiter)
  }

  lemma IntoFirstNothing(ts: Option<seq<string>>)
    requires ts.Some? ==> ts.value != []
    ensures IntoFirst(Some([]), ts) == ts
  {
    if ts.Some? {
      assert [] + ts.value[0] == ts.value[0];
      assert [ts.value[0]] + ts.value[1..] == ts.value;
    }
  }

  lemma IntoFirstOfNew(u: string, ts: seq<string>)
    ensures IntoFirst(Some(u), NewFirst(Some(ts))) == Some([u] + ts)
  {
    assert u + "" == u;
    assert ([""] + ts)[1..] == ts;
  }

  lemma IntoFirstTwice(a: Option<string>, b: Option<string>, ts: Option<seq<string>>)
    ensures IntoFirst(a, IntoFirst(b, ts)) == IntoFirst(Joined(a, b), ts)
  {
    if a.Some? && b.Some? && ts.Some? && ts.value != [] {
      assert a.value + (b.value + ts.value[0]) == (a.value + b.value) + ts.value[0];
    }
  }

  predicate Separates(delimiter: char, t: string) {
    delimiter != BACKSLASH && (delimiter == BAR || delimiter !in t)
  }

  lemma SplitOfEscapedChar(c: char, rest: string, delimiter: char)
    requires Separates(delimiter, [c])
    ensures Split(EscapeChar(c) + rest, delimiter) == IntoFirst(Some([c]), Split(rest, delimiter))
  {
    var e := EscapeChar(c);
    assert (e + rest)[|e|..] == rest;
  }

  lemma {:induction false} SplitOfEscaped(t: string, rest: string, delimiter: char)
    requires Separates(delimiter, t)
    ensures Split(Escape(t) + rest, delimiter) == IntoFirst(Some(t), Split(rest, delimiter))
  {
    hide Split;
    if t == [] {
      assert Escape(t) + rest == rest;
      IntoFirstNothing(Split(rest, delimiter));
    } else {
      var e := EscapeChar(t[0]);
      assert Escape(t) + rest == e + (Escape(t[1..]) + rest);
      SplitOfEscapedChar(t[0], Escape(t[1..]) + rest, delimiter);
      SplitOfEscaped(t[1..], rest, delimiter);
      IntoFirstTwice(Some([t[0]]), Some(t[1..]), Split(rest, delimiter));
      assert [t[0]] + t[1..] == t;
    }
  }

  lemma SplitAtDelimiter(rest: string, delimiter: char)
    requires delimiter != BACKSLASH
    ensures Split([delimiter] + rest, delimiter) == NewFirst(Split(rest, delimiter))
    ensures Split([], delimiter) == NewFirst(Some([]))
  {
    assert ([delimiter] + rest)[1..] == rest;
    assert [""] + [] == [""];
  }

  /** Splitting undoes joining. */
  lemma {:induction false} SplitOfJoin(ts: seq<string>, delimiter: char)
    requires ts != [] && forall t :: t in ts ==> Separates(delimiter, t)
    ensures Split(Join(ts, delimiter), delimiter) == Some(ts)
  {
    hide Split, Escape, Separates;
    var first, more := ts[0], ts[1..];
    assert ts == [first] + more;
    if more != [] {
      SplitOfJoin(more, delimiter);
    }
    SplitOfFirst(first, more, delimiter);
  }

  lemma SplitOfFirst(first: string, more: seq<string>, delimiter: char)
    requires Separates(delimiter, first)
    requires more != [] ==> Split(Join(more, delimiter), delimiter) == Some(more)
    ensures Split(Join([first] + more, delimiter), delimiter) == Some([first] + more)
  {
    var rest := if more == [] then [] else [delimiter] + Join(more, delimiter);
    JoinOfFirst(first, more, delimiter);
    assert delimiter != BACKSLASH;
    hide Split, Escape, IntoFirst, NewFirst, Separates, Join;
    SplitOfEscaped(first, rest, delimiter);
    SplitAtDelimiter(Join(more, delimiter), delimiter);
    IntoFirstOfNew(first, more);
  }

  lemma JoinOfFirst(first: string, more: seq<string>, delimiter: char)
    ensures Join([first] + more, delimiter)
         == Escape(first) + if more == [] then [] else [delimiter] + Join(more, delimiter)
  {
    hide Escape;
    var ts := [first] + more;
    assert ts[0] == first && ts[1..] == more;
    assert Escape(first) + [] == Escape(first);
    assert Escape(first) + [delimiter] + Join(more, delimiter) == Escape(first) + ([delimiter] + Join(more, delimiter));
  }

  /** No part holds a delimiter that escapes cannot produce. */
  lemma {:induction false} PartsAvoid(s: string, delimiter: char)
    requires delimiter != '\n' && delimiter != '\r' && delimiter != BACKSLASH && delimiter != BAR
    ensures var ts := Split(s, delimiter); ts.Some? ==> forall t :: t in ts.value ==> delimiter !in t
  {
    if s != [] && !(s == [BACKSLASH]) {
      PartsAvoid(s[if s[0] == BACKSLASH then 2 else 1..], delimiter);
    }
  }

  /** Without a bar in the text there is none in its parts. */
  lemma {:induction false} PartsWithoutBar(s: string, delimiter: char)
    requires BAR !in s
    ensures var ts := Split(s, delimiter); ts.Some? ==> forall t :: t in ts.value ==> BAR !in t
  {
    if s != [] && !(s == [BACKSLASH]) {
      PartsWithoutBar(s[if s[0] == BACKSLASH then 2 else 1..], delimiter);
    }
  }

  // ---- loops over characters

  lemma EscapeStep(before: string, input: string, i: nat)
    requires i < |input|
    ensures before + Escape(input[i..]) == (before + EscapeChar(input[i])) + Escape(input[i + 1..])
  {
    var e, rest := EscapeChar(input[i]), Escape(input[i + 1..]);
    assert input[i..][1..] == input[i + 1..];
    assert Escape(input[i..]) == e + rest;
    hide *;
    assert before + (e + rest) == (before + e) + rest;
  }

  method EscapeToken(input: string) returns (escaped: string)
    ensures escaped == Escape(input)
  {
    escaped := [];
    var i := 0;
    assert Escape([]) == [];
    hide Escape;
    assert input[0..] == input && [] + Escape(input) == Escape(input);
    while i < |input|
      invariant i <= |input| && escaped + Escape(input[i..]) == Escape(input)
    {
      var c := input[i];
      EscapeStep(escaped, input, i);
      ghost var before := escaped;
      if c == BACKSLASH || c == BAR || c == '\n' || c == '\r' {
        escaped := escaped + [BACKSLASH];
        if c == '\n' {
          escaped := escaped + ['n'];
        } else if c == '\r' {
          escaped := escaped + ['r'];
        } else {
          escaped := escaped + [c];
        }
      } else {
        escaped := escaped + [c];
      }
      assert escaped == before + EscapeChar(c);
      i := i + 1;
    }
    assert input[i..] == [] && escaped + [] == escaped;
  }

  method UnescapeToken(input: string) returns (r: Option<string>)
    ensures r == Unescape(input)
  {
    var value: string := [];
    var i := 0;
    JoinedNothing(Unescape(input));
    assert input[0..] == input;
    while i < |input|
      invariant i <= |input|
      invariant Unescape(input) == Joined(Some(value), Unescape(input[i..]))
    {
      var c := input[i];
      if c != BACKSLASH {
        assert input[i..][1..] == input[i + 1..];
        UnescapeStep(value, Some(c), Unescape(input[i + 1..]));
        value := value + [c];
        i := i + 1;
      } else if i + 1 >= |input| {
        return None;
      } else {
        assert input[i..][2..] == input[i + 2..];
        UnescapeStep(value, Meaning(input[i + 1]), Unescape(input[i + 2..]));
        i := i + 1;
        var escaped := input[i];
        if escaped == 'n' {
          value := value + ['\n'];
        } else if escaped == 'r' {
          value := value + ['\r'];
        } else if escaped == BACKSLASH || escaped == BAR {
          value := value + [escaped];
        } else {
          return None;
        }
        i := i + 1;
      }
    }
    assert input[i..] == [] && value + [] == value;
    return Some(value);
  }

  lemma UnescapeStep(value: string, c: Option<char>, rest: Option<string>)
    ensures Joined(Some(value), PutFirst(c, rest))
         == if c.Some? then Joined(Some(value + [c.value]), rest) else None
  {
    if c.Some? && rest.Some? {
      assert value + ([c.value] + rest.value) == (value + [c.value]) + rest.value;
    }
  }

  /** What the parts read so far and the part being read make of the rest. */
  function Assembled(parts: seq<string>, current: Option<string>, rest: Option<seq<string>>): Option<seq<string>> {
    var last := IntoFirst(current, rest);
    if last.Some? then Some(parts + last.value) else None
  }

  lemma AddedToPart(parts: seq<string>, current: string, more: string, rest: Option<seq<string>>)
    requires Whole(current) && Whole(more)
    ensures Whole(current + more)
    ensures Assembled(parts, Unescape(current), IntoFirst(Unescape(more), rest))
         == Assembled(parts, Unescape(current + more), rest)
  {
    UnescapeConcat(current, more);
    IntoFirstTwice(Unescape(current), Unescape(more), rest);
  }

  lemma PairStep(parts: seq<string>, current: string, input: string, from: nat, delimiter: char)
    requires Whole(current) && from + 1 < |input| && input[from] == BACKSLASH
    ensures Whole(current + [BACKSLASH] + [input[from + 1]])
    ensures Assembled(parts, Unescape(current), Split(input[from..], delimiter))
         == Assembled(parts, Unescape(current + [BACKSLASH] + [input[from + 1]]), Split(input[from + 2..], delimiter))
  {
    var pair := [BACKSLASH, input[from + 1]];
    assert input[from..][2..] == input[from + 2..];
    assert pair[2..] == [] && Whole(pair);
    PairMeans(input[from + 1]);
    AddedToPart(parts, current, pair, Split(input[from + 2..], delimiter));
    assert current + pair == current + [BACKSLASH] + [input[from + 1]];
  }

  lemma PairMeans(c: char)
    ensures Unescape([BACKSLASH, c]) == One(Meaning(c))
  {
    assert [BACKSLASH, c][2..] == [];
    if Meaning(c).Some? { assert [Meaning(c).value] + [] == [Meaning(c).value]; }
  }

  lemma PlainStep(parts: seq<string>, current: string, input: string, i: nat, delimiter: char)
    requires Whole(current) && i < |input| && input[i] != BACKSLASH && input[i] != delimiter
    ensures Whole(current + [input[i]])
    ensures Assembled(parts, Unescape(current), Split(input[i..], delimiter))
         == Assembled(parts, Unescape(current + [input[i]]), Split(input[i + 1..], delimiter))
  {
    var one := [input[i]];
    assert input[i..][1..] == input[i + 1..];
    assert one[1..] == [] && one + [] == one;
    assert Unescape(one) == Some(one);
    AddedToPart(parts, current, one, Split(input[i + 1..], delimiter));
  }

  lemma DelimiterStep(parts: seq<string>, last: string, input: string, i: nat, delimiter: char)
    requires i < |input| && input[i] == delimiter && delimiter != BACKSLASH
    ensures Assembled(parts, Some(last), Split(input[i..], delimiter))
         == Assembled(parts + [last], Some([]), Split(input[i + 1..], delimiter))
  {
    var rest := Split(input[i + 1..], delimiter);
    assert input[i..][1..] == input[i + 1..];
    IntoFirstNothing(rest);
    if rest.Some? {
      IntoFirstOfNew(last, rest.value);
      assert parts + ([last] + rest.value) == (parts + [last]) + rest.value;
    }
  }

  method SplitEscaped(input: string, delimiter: char) returns (r: Option<seq<string>>)
    requires delimiter != BACKSLASH
    ensures r == Split(input, delimiter)
  {
    var parts: seq<string> := [];
    var current: string := [];
    var escaping := false;
    var i := 0;
    ghost var from := 0;
    IntoFirstNothing(Split(input, delimiter));
    assert input[0..] == input;
    if Split(input, delimiter).Some? { assert parts + Split(input, delimiter).value == Split(input, delimiter).value; }
    while i < |input|
      invariant i <= |input| && from == (if escaping then i - 1 else i) >= 0 && Whole(current)
      invariant escaping ==> input[from] == BACKSLASH
      invariant Split(input, delimiter) == Assembled(parts, Unescape(current), Split(input[from..], delimiter))
    {
      var c := input[i];
      if escaping {
        PairStep(parts, current, input, from, delimiter);
        current := current + [BACKSLASH];
        current := current + [c];
        escaping := false;
        from := i + 1;
      } else if c == BACKSLASH {
        escaping := true;
      } else if c == delimiter {
        var unescaped := UnescapeToken(current);
        if unescaped.None? { return None; }
        DelimiterStep(parts, unescaped.value, input, i, delimiter);
        parts := parts + [unescaped.value];
        current := [];
        from := i + 1;
      } else {
        PlainStep(parts, current, input, i, delimiter);
        current := current + [c];
        from := i + 1;
      }
      i := i + 1;
    }
    if escaping {
      assert input[from..] == [BACKSLASH];
      return None;
    }
    var unescaped := UnescapeToken(current);
    if unescaped.None? { return None; }
    IntoFirstOfNew(unescaped.value, []);
    assert input[from..] == [] && [""] + [] == [""] && [unescaped.value] + [] == [unescaped.value];
    return Some(parts + [unescaped.value]);
  }
}
