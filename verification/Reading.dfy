/**
 * How a frame reads by the dictionary, before anything is validated: which fields belong to the message, which to
 * which entry of which group, and where a group ends short of its count.
 */
module Reading {
  import opened Optional
  import opened Bytes
  import opened FixTags
  import opened Dictionary
  import opened TokenStream

  /**
   * A field, and the group behind it if it counts one: the entries read, how many of those announced are missing, and
   * the tag that stands in the place of the next.
   */
  datatype Node = Scalar(tok: Tok)
    | Counter(tok: Tok, def: GroupDef, items: seq<Item>, missing: nat, found: Option<nat>)

  /** One entry. */
  datatype Item = Item(nodes: seq<Node>)

  datatype Fields = Fields(nodes: seq<Node>, rest: Stream)

  datatype Entries = Entries(items: seq<Item>, missing: nat, rest: Stream)

  function Announced(text: Text): nat {
    if ParseUnsigned(text).Some? then ParseUnsigned(text).value else 0
  }

  function HeadTag(st: Stream): Option<nat> {
    if st.Next? then Some(st.tok.tag) else None
  }

  function CountNode(tok: Tok, g: GroupDef, e: Entries): Node {
    Counter(tok, g, e.items, e.missing, HeadTag(e.rest))
  }

  /** The fields of one entry: those of the group's rules, up to the next delimiter. */
  function ReadFields(d: Dict, g: GroupDef, first: bool, st: Stream): (r: Fields)
    ensures Size(r.rest) <= Size(st)
    decreases Size(st), 0, 0
  {
    if st.End? || st.tok.tag !in g.rules || (!first && st.tok.tag == g.delimiter) then Fields([], st)
    else if st.tok.tag !in d.groups then
      var more := ReadFields(d, g, false, st.rest);
      Fields([Scalar(st.tok)] + more.nodes, more.rest)
    else
      var def := d.groups[st.tok.tag];
      var e := ReadEntries(d, def, Announced(st.tok.text), st.rest);
      var more := ReadFields(d, g, false, e.rest);
      Fields([CountNode(st.tok, def, e)] + more.nodes, more.rest)
  }

  /** Up to `n` entries, each from its delimiter on. */
  function ReadEntries(d: Dict, g: GroupDef, n: nat, st: Stream): (r: Entries)
    ensures Size(r.rest) <= Size(st)
    decreases Size(st), 1, n
  {
    if n == 0 || st.End? || st.tok.tag != g.delimiter then Entries([], n, st)
    else
      var first := ReadFields(d, g, true, st);
      var more := ReadEntries(d, g, n - 1, first.rest);
      Entries([Item(first.nodes)] + more.items, more.missing, more.rest)
  }

  function RulesFor(d: Dict, msgType: Text): Option<seq<nat>> {
    if msgType in d.messages then Some(d.messages[msgType]) else None
  }

  /** The fields of the message, up to the CheckSum or the end; a MsgType sets the rules that open groups. */
  function ReadRoot(d: Dict, rules: Option<seq<nat>>, st: Stream): Fields
    decreases Size(st)
  {
    if st.End? || st.tok.tag == CHECK_SUM then Fields([], st)
    else if IsFrameTag(st.tok.tag) then ReadRoot(d, rules, st.rest)
    else if st.tok.tag == MSG_TYPE then
      var more := ReadRoot(d, RulesFor(d, st.tok.text), st.rest);
      Fields([Scalar(st.tok)] + more.nodes, more.rest)
    else if rules.Some? && st.tok.tag in rules.value && st.tok.tag in d.groups then
      var def := d.groups[st.tok.tag];
      var e := ReadEntries(d, def, Announced(st.tok.text), st.rest);
      var more := ReadRoot(d, rules, e.rest);
      Fields([CountNode(st.tok, def, e)] + more.nodes, more.rest)
    else
      var more := ReadRoot(d, rules, st.rest);
      Fields([Scalar(st.tok)] + more.nodes, more.rest)
  }

  // ---------------------------------------------------------------- nothing is left out

  function ItemsOf(node: Node): seq<Item> {
    if node.Counter? then node.items else []
  }

  /** What is left of a stream behind exactly these fields, each followed by the entries it counts. */
  function Strip(nodes: seq<Node>, st: Stream): Option<Stream>
    decreases nodes, 0
  {
    if nodes == [] then Some(st)
    else if st.End? || st.tok != nodes[0].tok then None
    else if nodes[0].Scalar? then Strip(nodes[1..], st.rest)
    else
      match StripItems(nodes[0].items, st.rest)
      case None => None
      case Some(rest) => Strip(nodes[1..], rest)
  }

  function StripItems(items: seq<Item>, st: Stream): Option<Stream>
    decreases items, 1
  {
    if items == [] then Some(st)
    else
      match Strip(items[0].nodes, st)
      case None => None
      case Some(rest) => StripItems(items[1..], rest)
  }

  /** The same for the message, whose stray framing fields are passed over. */
  function StripRoot(nodes: seq<Node>, st: Stream): Option<Stream>
    decreases |nodes|, Size(st)
  {
    if st.End? || st.tok.tag == CHECK_SUM then (if nodes == [] then Some(st) else None)
    else if IsFrameTag(st.tok.tag) then StripRoot(nodes, st.rest)
    else if nodes == [] || st.tok != nodes[0].tok then None
    else
      match StripItems(ItemsOf(nodes[0]), st.rest)
      case None => None
      case Some(rest) => StripRoot(nodes[1..], rest)
  }

  lemma StripFirst(node: Node, more: seq<Node>, st: Stream, rest: Stream)
    requires st.Next? && st.tok == node.tok && StripItems(ItemsOf(node), st.rest) == Some(rest)
    ensures Strip([node] + more, st) == Strip(more, rest)
    ensures !IsFrameTag(st.tok.tag) ==> StripRoot([node] + more, st) == StripRoot(more, rest)
  {
    assert ([node] + more)[1..] == more;
  }

  lemma {:induction false} FieldsWhole(d: Dict, g: GroupDef, first: bool, st: Stream)
    ensures var r := ReadFields(d, g, first, st); Strip(r.nodes, st) == Some(r.rest)
    decreases Size(st), 0, 0
  {
    if st.Next? && st.tok.tag in g.rules && (first || st.tok.tag != g.delimiter) {
      if st.tok.tag !in d.groups {
        FieldsWhole(d, g, false, st.rest);
        StripFirst(Scalar(st.tok), ReadFields(d, g, false, st.rest).nodes, st, st.rest);
      } else {
        var e := ReadEntries(d, d.groups[st.tok.tag], Announced(st.tok.text), st.rest);
        EntriesWhole(d, d.groups[st.tok.tag], Announced(st.tok.text), st.rest);
        FieldsWhole(d, g, false, e.rest);
        StripFirst(CountNode(st.tok, d.groups[st.tok.tag], e), ReadFields(d, g, false, e.rest).nodes, st,
            e.rest);
      }
    }
  }

  /** Entries read and entries missing make up the announced number; no delimiter stands where one is missing. */
  lemma {:induction false} EntriesWhole(d: Dict, g: GroupDef, n: nat, st: Stream)
    ensures
      var r := ReadEntries(d, g, n, st);
      && StripItems(r.items, st) == Some(r.rest) && |r.items| + r.missing == n
      && (r.missing > 0 ==> HeadTag(r.rest) != Some(g.delimiter))
    decreases Size(st), 1, n
  {
    if n > 0 && st.Next? && st.tok.tag == g.delimiter {
      var first := ReadFields(d, g, true, st);
      var more := ReadEntries(d, g, n - 1, first.rest);
      FieldsWhole(d, g, true, st);
      EntriesWhole(d, g, n - 1, first.rest);
      assert ([Item(first.nodes)] + more.items)[1..] == more.items;
    }
  }

  /** A reading holds every field of the message, once and in order, up to the CheckSum or the end. */
  lemma {:induction false} RootWhole(d: Dict, rules: Option<seq<nat>>, st: Stream)
    ensures
      var r := ReadRoot(d, rules, st);
      StripRoot(r.nodes, st) == Some(r.rest) && (r.rest.Next? ==> r.rest.tok.tag == CHECK_SUM)
    decreases Size(st)
  {
    if st.Next? && st.tok.tag != CHECK_SUM {
      if IsFrameTag(st.tok.tag) {
        RootWhole(d, rules, st.rest);
      } else if rules.Some? && st.tok.tag in rules.value && st.tok.tag in d.groups && st.tok.tag != MSG_TYPE {
        var e := ReadEntries(d, d.groups[st.tok.tag], Announced(st.tok.text), st.rest);
        EntriesWhole(d, d.groups[st.tok.tag], Announced(st.tok.text), st.rest);
        RootWhole(d, rules, e.rest);
        StripFirst(CountNode(st.tok, d.groups[st.tok.tag], e), ReadRoot(d, rules, e.rest).nodes, st, e.rest);
      } else {
        var next := if st.tok.tag == MSG_TYPE then RulesFor(d, st.tok.text) else rules;
        RootWhole(d, next, st.rest);
        StripFirst(Scalar(st.tok), ReadRoot(d, next, st.rest).nodes, st, st.rest);
      }
    }
  }
}
