/** Parsing a group consumes fields from the front and touches no others. */
module ParserProgress {
  import opened Bytes
  import opened Dictionary
  import opened TokenStream
  import opened ParsedTree
  import opened GroupParser

  /** `a` is what is left of `b` after some of its fields. */
  predicate Suffix(a: Stream, b: Stream) {
    a == b || (b.Next? && Suffix(a, b.rest))
  }

  lemma {:induction false} SuffixThen(a: Stream, b: Stream, c: Stream)
    requires Suffix(a, b) && Suffix(b, c)
    ensures Suffix(a, c)
  {
    if b != c {
      SuffixThen(a, b, c.rest);
    }
  }

  lemma {:induction false} FieldsSuffix(d: Dict, g: GroupDef, depth: nat, c: Cursor)
    requires ParseFields(d, g, depth, c).Done?
    ensures Suffix(ParseFields(d, g, depth, c).value.rest, c.rest)
    decreases Size(c.rest), 0, 0
  {
    if c.rest.Next? && !Stops(g, c.any, c.rest.tok.tag) {
      var tok, rest := c.rest.tok, c.rest.rest;
      var c1 := TakeField(d, g, c, tok, rest);
      if tok.tag in d.groups {
        var e := ParseGroup(d, d.groups[tok.tag], depth + 1, tok.text, rest, c1.issue).value;
        GroupSuffix(d, d.groups[tok.tag], depth + 1, tok.text, rest, c1.issue);
        var c2 := TakeGroup(c1, d.groups[tok.tag], depth + 1, e);
        FieldsSuffix(d, g, depth, c2);
        SuffixThen(ParseFields(d, g, depth, c2).value.rest, e.rest, rest);
      } else {
        FieldsSuffix(d, g, depth, c1);
      }
    }
  }

  lemma {:induction false} GroupSuffix(d: Dict, g: GroupDef, depth: nat, count: Text, st: Stream, issue: Issue)
    requires ParseGroup(d, g, depth, count, st, issue).Done?
    ensures Suffix(ParseGroup(d, g, depth, count, st, issue).value.rest, st)
    decreases Size(st), 2, 0
  {
    EntriesSuffix(d, g, depth, ParseUnsigned(count).value, st, issue);
  }

  lemma {:induction false} EntriesSuffix(d: Dict, g: GroupDef, depth: nat, n: nat, st: Stream, issue: Issue)
    requires ParseEntries(d, g, depth, n, st, issue).Done?
    ensures Suffix(ParseEntries(d, g, depth, n, st, issue).value.rest, st)
    decreases Size(st), 1, n
  {
    if n > 0 && st.Next? && st.tok.tag == g.delimiter {
      var c := StartEntry(st, issue);
      FieldsSuffix(d, g, depth, c);
      var c1 := ParseFields(d, g, depth, c).value;
      EntriesSuffix(d, g, depth, n - 1, c1.rest, c1.issue);
      SuffixThen(ParseEntries(d, g, depth, n - 1, c1.rest, c1.issue).value.rest, c1.rest, st);
    }
  }

  lemma {:induction false} SuffixTail(a: Stream, b: Stream)
    requires Suffix(a, b)
    ensures Tail(a) == Tail(b)
  {
    if a != b {
      SuffixTail(a, b.rest);
    }
  }

  /** Every tag fits in 16 bits. */
  predicate Narrow(st: Stream) {
    st.Next? ==> st.tok.tag < 0x1_0000 && Narrow(st.rest)
  }

  lemma {:induction false} NarrowSuffix(a: Stream, b: Stream)
    requires Suffix(a, b) && Narrow(b)
    ensures Narrow(a)
  {
    if a != b {
      NarrowSuffix(a, b.rest);
    }
  }
}
