/** The shape of every reading, whatever the dictionary, and what is left of a frame that decodes without an issue. */
module ReadingShape {
  import opened Optional
  import opened Bytes
  import opened FixTags
  import opened Dictionary
  import opened Scanner
  import opened TokenStream
  import opened ParsedTree
  import opened Decoder
  import opened Reading
  import opened ReadingStored
  import opened IssueTruth

  /** An entry starts with its delimiter; it is empty exactly when the delimiter is no rule of the group. */
  predicate StartsRight(g: GroupDef, item: Item) {
    if g.delimiter in g.rules then item.nodes != [] && item.nodes[0].tok.tag == g.delimiter else item.nodes == []
  }

  /** All of an entry's tags are rules of its group, and the delimiter stands first only. */
  predicate Inside(g: GroupDef, item: Item) {
    && (forall i :: 0 <= i < |item.nodes| ==> item.nodes[i].tok.tag in g.rules)
    && forall i :: 0 < i < |item.nodes| ==> item.nodes[i].tok.tag != g.delimiter
  }

  /** Entries and missing entries make up the announced number, and entries have their shape, at every depth. */
  predicate Shaped(nodes: seq<Node>)
    decreases nodes, 0
  {
    nodes == []
    || (&& (nodes[0].Counter? ==>
              |nodes[0].items| + nodes[0].missing == Announced(nodes[0].tok.text)
              && ItemsShaped(nodes[0].def, nodes[0].items))
        && Shaped(nodes[1..]))
  }

  predicate ItemsShaped(g: GroupDef, items: seq<Item>)
    decreases items, 1
  {
    items == []
    || (StartsRight(g, items[0]) && Inside(g, items[0]) && Shaped(items[0].nodes) && ItemsShaped(g, items[1..]))
  }

  lemma ShapedFirst(node: Node, more: seq<Node>)
    requires Shaped(more)
    requires node.Counter? ==>
      |node.items| + node.missing == Announced(node.tok.text) && ItemsShaped(node.def, node.items)
    ensures Shaped([node] + more)
  {
    assert ([node] + more)[1..] == more;
  }

  lemma {:induction false} FieldsShaped(d: Dict, g: GroupDef, first: bool, st: Stream)
    ensures
      var r := ReadFields(d, g, first, st);
      && Shaped(r.nodes) && (forall i :: 0 <= i < |r.nodes| ==> r.nodes[i].tok.tag in g.rules)
      && (forall i :: (if first then 1 else 0) <= i < |r.nodes| ==> r.nodes[i].tok.tag != g.delimiter)
    decreases Size(st), 0, 0
  {
    hide Shaped, ItemsShaped;
    EmptyShaped(g);
    if st.Next? && st.tok.tag in g.rules && (first || st.tok.tag != g.delimiter) {
      var node, next := Scalar(st.tok), st.rest;
      if st.tok.tag in d.groups {
        var def := d.groups[st.tok.tag];
        var e := ReadEntries(d, def, Announced(st.tok.text), st.rest);
        EntriesShaped(d, def, Announced(st.tok.text), st.rest);
        EntriesWhole(d, def, Announced(st.tok.text), st.rest);
        node, next := CountNode(st.tok, def, e), e.rest;
      }
      FieldsShaped(d, g, false, next);
      ShapedFirst(node, ReadFields(d, g, false, next).nodes);
    }
  }

  lemma EmptyShaped(g: GroupDef)
    ensures Shaped([]) && ItemsShaped(g, [])
  {
  }

  lemma {:induction false} EntriesShaped(d: Dict, g: GroupDef, n: nat, st: Stream)
    ensures ItemsShaped(g, ReadEntries(d, g, n, st).items)
    decreases Size(st), 1, n
  {
    hide Shaped;
    if n > 0 && st.Next? && st.tok.tag == g.delimiter {
      var first := ReadFields(d, g, true, st);
      var more := ReadEntries(d, g, n - 1, first.rest);
      FieldsShaped(d, g, true, st);
      EntriesShaped(d, g, n - 1, first.rest);
      assert ([Item(first.nodes)] + more.items)[1..] == more.items;
    }
  }

  lemma {:induction false} RootShaped(d: Dict, rules: Option<seq<nat>>, st: Stream)
    ensures Shaped(ReadRoot(d, rules, st).nodes)
    decreases Size(st)
  {
    hide Shaped, ItemsShaped, ReadEntries;
    EmptyShaped(GroupDef(0, 0, []));
    if st.Next? && st.tok.tag != CHECK_SUM {
      if IsFrameTag(st.tok.tag) {
        RootShaped(d, rules, st.rest);
      } else if st.tok.tag != MSG_TYPE && rules.Some? && st.tok.tag in rules.value && st.tok.tag in d.groups {
        var def := d.groups[st.tok.tag];
        var e := ReadEntries(d, def, Announced(st.tok.text), st.rest);
        EntriesShaped(d, def, Announced(st.tok.text), st.rest);
        EntriesWhole(d, def, Announced(st.tok.text), st.rest);
        RootShaped(d, rules, e.rest);
        ShapedFirst(CountNode(st.tok, def, e), ReadRoot(d, rules, e.rest).nodes);
      } else {
        var next := if st.tok.tag == MSG_TYPE then RulesFor(d, st.tok.text) else rules;
        RootShaped(d, next, st.rest);
        ShapedFirst(Scalar(st.tok), ReadRoot(d, next, st.rest).nodes);
      }
    }
  }

  // ---------------------------------------------------------------- nothing missing

  /** No group ends short of its count, at any depth. */
  predicate Complete(nodes: seq<Node>)
    decreases nodes, 0
  {
    nodes == []
    || ((nodes[0].Counter? ==> nodes[0].missing == 0 && ItemsComplete(nodes[0].items)) && Complete(nodes[1..]))
  }

  predicate ItemsComplete(items: seq<Item>)
    decreases items, 1
  {
    items == [] || (Complete(items[0].nodes) && ItemsComplete(items[1..]))
  }

  ghost predicate NoneMissing(vs: seq<Visit>) {
    forall i :: 0 <= i < |vs| ==> vs[i].Seen?
  }

  lemma Parts(a: seq<Visit>, b: seq<Visit>, c: seq<Visit>)
    requires NoneMissing(a + b + c)
    ensures NoneMissing(a) && NoneMissing(b) && NoneMissing(c)
  {
    var all := a + b + c;
    assert forall i :: 0 <= i < |a| ==> a[i] == all[i];
    assert forall i :: 0 <= i < |b| ==> b[i] == all[|a| + i];
    assert forall i :: 0 <= i < |c| ==> c[i] == all[|a| + |b| + i];
  }

  lemma {:induction false} FieldsComplete(g: GroupDef, before: seq<nat>, nodes: seq<Node>)
    requires NoneMissing(FieldVisits(g, before, nodes))
    ensures Complete(nodes)
    decreases nodes, 0
  {
    hide NoneMissing;
    if nodes != [] {
      Parts([Seen(nodes[0].tok, InEntry(g), before)], CounterVisits(nodes[0]),
          FieldVisits(g, before + [nodes[0].tok.tag], nodes[1..]));
      if nodes[0].Counter? {
        GroupComplete(nodes[0].def, nodes[0].items, nodes[0].missing, nodes[0].found);
      }
      FieldsComplete(g, before + [nodes[0].tok.tag], nodes[1..]);
    }
  }

  lemma MissingShows(g: GroupDef, missing: nat, found: Option<nat>)
    ensures missing > 0 ==> !NoneMissing(GroupVisits(g, [], missing, found))
  {
    if missing > 0 {
      assert GroupVisits(g, [], missing, found)[0] == Missing(g, missing, found);
    }
  }

  lemma {:induction false} GroupComplete(g: GroupDef, items: seq<Item>, missing: nat, found: Option<nat>)
    requires NoneMissing(GroupVisits(g, items, missing, found))
    ensures missing == 0 && ItemsComplete(items)
    decreases items, 1
  {
    if items == [] {
      MissingShows(g, missing, found);
    } else {
      var a, b := FieldVisits(g, [], items[0].nodes), GroupVisits(g, items[1..], missing, found);
      assert a + b + [] == a + b;
      Parts(a, b, []);
      FieldsComplete(g, [], items[0].nodes);
      GroupComplete(g, items[1..], missing, found);
    }
  }

  /** A MsgType of the message counts no group. */
  predicate TypesScalar(nodes: seq<Node>) {
    forall i :: 0 <= i < |nodes| && nodes[i].tok.tag == MSG_TYPE ==> nodes[i].Scalar?
  }

  lemma {:induction false} RootComplete(d: Dict, p: Place, before: seq<nat>, nodes: seq<Node>)
    requires p.InRoot? && NoneMissing(RootVisits(d, p, before, nodes))
    requires TypesScalar(nodes)
    ensures Complete(nodes)
    decreases |nodes|
  {
    hide NoneMissing, GroupVisits;
    if nodes != [] {
      var tok, before1 := nodes[0].tok, before + [nodes[0].tok.tag];
      if tok.tag == MSG_TYPE {
        var now := InRoot(RulesFor(d, tok.text), |before1|);
        var a, b := [Seen(tok, now, before)], RootVisits(d, now, before1, nodes[1..]);
        assert a + [] + b == a + b;
        Parts(a, [], b);
        RootComplete(d, now, before1, nodes[1..]);
      } else {
        Parts([Seen(tok, p, before)], CounterVisits(nodes[0]), RootVisits(d, p, before1, nodes[1..]));
        if nodes[0].Counter? {
          GroupComplete(nodes[0].def, nodes[0].items, nodes[0].missing, nodes[0].found);
        }
        RootComplete(d, p, before1, nodes[1..]);
      }
    }
  }

  lemma {:induction false} TypesAreScalar(d: Dict, rules: Option<seq<nat>>, st: Stream)
    ensures TypesScalar(ReadRoot(d, rules, st).nodes)
    decreases Size(st)
  {
    hide ReadEntries;
    if st.Next? && st.tok.tag != CHECK_SUM {
      if IsFrameTag(st.tok.tag) {
        TypesAreScalar(d, rules, st.rest);
      } else if st.tok.tag != MSG_TYPE && rules.Some? && st.tok.tag in rules.value && st.tok.tag in d.groups {
        var e := ReadEntries(d, d.groups[st.tok.tag], Announced(st.tok.text), st.rest);
        TypesAreScalar(d, rules, e.rest);
      } else {
        TypesAreScalar(d, if st.tok.tag == MSG_TYPE then RulesFor(d, st.tok.text) else rules, st.rest);
      }
    }
  }

  /** A missing entry is always a fault. */
  lemma MissingIsFault(d: Dict, how: Checks, v: Visit)
    requires v.Missing?
    ensures !Faultless(d, how, v)
  {
    assert Fault(d, how, v, GroupOutOfOrder) || Fault(d, how, v, IncorrectNumInGroup);
  }

  /**
   * A frame that decodes with no issue, for any dictionary: no field has a fault, and every group has all its entries,
   * each started by its delimiter, or empty where the delimiter is none of the group's rules.
   */
  lemma CleanFrame(d: Dict, s: Text, delim: Byte, verify: bool)
    requires Decode(d, s, delim, verify).Done? && Decode(d, s, delim, verify).value.issue.NoIssue?
    ensures OpenFrame(Tokenize(s, 0, NormalizeDelimiter(delim))).Done?
    ensures
      var nodes, vs := FrameReading(d, s, NormalizeDelimiter(delim)).nodes,
          FrameVisits(d, s, NormalizeDelimiter(delim));
      && Shaped(nodes) && Complete(nodes)
      && forall i :: 0 <= i < |vs| ==> vs[i].Seen? && Faultless(d, ByRules, vs[i])
  {
    hide Decode, Tokenize, OpenFrame, ReadRoot, RootVisits, Shaped, Complete, Faultless;
    IssueExplained(d, s, delim, verify);
    var vs := FrameVisits(d, s, NormalizeDelimiter(delim));
    forall i | 0 <= i < |vs| ensures vs[i].Seen? {
      if vs[i].Missing? {
        MissingIsFault(d, ByRules, vs[i]);
      }
    }
    var st := OpenFrame(Tokenize(s, 0, NormalizeDelimiter(delim))).value.rest;
    RootShaped(d, None, st);
    TypesAreScalar(d, None, st);
    RootComplete(d, InRoot(None, 0), [], ReadRoot(d, None, st).nodes);
  }
}
