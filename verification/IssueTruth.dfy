/**
 * What the recorded validation issue means. A frame's reading is a list of visits: every field with its scope, and
 * every place where an entry of a group is missing. The issue is the first fault among them, and it is true.
 */
module IssueTruth {
  import opened Optional
  import opened Bytes
  import opened FixTags
  import opened Dictionary
  import opened Scanner
  import opened TokenStream
  import opened ParsedTree
  import opened Validation
  import opened GroupParser
  import opened Decoder
  import opened Soundness
  import opened RootSoundness
  import opened CompiledDecoder
  import opened Reading
  import opened ReadingStored

  /** The scope of a field: the message, under the rules of its type from its field number `from` on, or an entry. */
  datatype Place = InRoot(rules: Option<seq<nat>>, from: nat) | InEntry(group: GroupDef)

  datatype Visit =
    | Seen(tok: Tok, place: Place, before: seq<nat>)
    | Missing(group: GroupDef, count: nat, found: Option<nat>)

  /** The fields of an entry in order, the entries of each group behind its count. */
  function FieldVisits(g: GroupDef, before: seq<nat>, nodes: seq<Node>): seq<Visit>
    decreases nodes, 0
  {
    if nodes == [] then []
    else
      [Seen(nodes[0].tok, InEntry(g), before)]
      + (if nodes[0].Counter? then GroupVisits(nodes[0].def, nodes[0].items, nodes[0].missing, nodes[0].found) else [])
      + FieldVisits(g, before + [nodes[0].tok.tag], nodes[1..])
  }

  function GroupVisits(g: GroupDef, items: seq<Item>, missing: nat, found: Option<nat>): seq<Visit>
    decreases items, 1
  {
    if items == [] then (if missing > 0 then [Missing(g, missing, found)] else [])
    else FieldVisits(g, [], items[0].nodes) + GroupVisits(g, items[1..], missing, found)
  }

  function CounterVisits(node: Node): seq<Visit> {
    if node.Counter? then GroupVisits(node.def, node.items, node.missing, node.found) else []
  }

  /** The same for the message; rules apply to the fields behind the MsgType. */
  function RootVisits(d: Dict, place: Place, before: seq<nat>, nodes: seq<Node>): seq<Visit>
    requires place.InRoot?
    decreases |nodes|
  {
    if nodes == [] then []
    else
      var tok, before1 := nodes[0].tok, before + [nodes[0].tok.tag];
      if tok.tag == MSG_TYPE then
        var now := InRoot(RulesFor(d, tok.text), |before1|);
        [Seen(tok, now, before)] + RootVisits(d, now, before1, nodes[1..])
      else [Seen(tok, place, before)] + CounterVisits(nodes[0]) + RootVisits(d, place, before1, nodes[1..])
  }

  // ---------------------------------------------------------------- faults

  /** A field that the rules of its scope have a say in: not before a known MsgType, and no header field. */
  predicate Judged(v: Visit)
    requires v.Seen?
  {
    v.place.InEntry? || (v.place.rules.Some? && !IsEnvelopeTag(v.tok.tag))
  }

  function ScopeRules(p: Place): seq<nat> {
    match p
    case InRoot(rules, _) => if rules.Some? then rules.value else []
    case InEntry(g) => g.rules
  }

  /** Position of a tag in the order of its scope; in a message, header fields and group counts have none. */
  function Rank(d: Dict, p: Place, tag: nat): int {
    if p.InRoot? && (IsEnvelopeTag(tag) || tag in d.groups) then -1 else RuleIndex(ScopeRules(p), tag)
  }

  /** An earlier field of the scope stands higher in the rules. */
  predicate Behind(d: Dict, v: Visit)
    requires v.Seen?
  {
    && Rank(d, v.place, v.tok.tag) >= 0
    && exists i :: (if v.place.InRoot? then v.place.from else 0) <= i < |v.before|
                   && Rank(d, v.place, v.before[i]) > Rank(d, v.place, v.tok.tag)
  }

  predicate ValueChecked(v: Visit)
    requires v.Seen?
  {
    v.place.InEntry? || v.tok.tag != MSG_TYPE
  }

  /** Which checks apply to the fields of the message: the generic loop's, or those of a compiled decoder. */
  datatype Checks = ByRules | ByDecoder

  /** The fault is there. */
  predicate Fault(d: Dict, how: Checks, v: Visit, kind: IssueKind) {
    if how.ByDecoder? && v.Seen? && v.place.InRoot? then DecoderFault(d, v, kind) else RuleFault(d, v, kind)
  }

  predicate RuleFault(d: Dict, v: Visit, kind: IssueKind) {
    match kind
    case DuplicateField => v.Seen? && v.tok.tag in v.before
    case UnknownField =>
      && v.Seen? && Judged(v) && v.tok.tag !in d.fields
      && !(ScopeRules(v.place) == [] && IsCommonAdminTag(v.tok.tag))
    case FieldNotAllowed => v.Seen? && Judged(v) && ScopeRules(v.place) != [] && v.tok.tag !in ScopeRules(v.place)
    case OutOfOrder => v.Seen? && v.place.InRoot? && Behind(d, v)
    case GroupOutOfOrder =>
      if v.Seen? then v.place.InEntry? && Behind(d, v) else v.found.Some? && v.found.value in v.group.rules
    case NoValue => v.Seen? && ValueChecked(v) && v.tok.text == []
    case BadFormat => v.Seen? && ValueChecked(v) && !WellTyped(v.tok.text, TypeOf(d, v.tok.tag))
    case IncorrectNumInGroup => v.Missing? && !(v.found.Some? && v.found.value in v.group.rules)
  }

  /**
   * The checks of a compiled decoder: only its first 128 body rules count, and neither header values nor the MsgType
   * are looked at.
   */
  predicate DecoderFault(d: Dict, v: Visit, kind: IssueKind)
    requires v.Seen?
  {
    match kind
    case DuplicateField => v.tok.tag in v.before && v.tok.tag != MSG_TYPE
    case UnknownField => Judged(v) && v.tok.tag !in Kept(ScopeRules(v.place)) && v.tok.tag !in d.fields
    case FieldNotAllowed => Judged(v) && v.tok.tag !in Kept(ScopeRules(v.place)) && v.tok.tag in d.fields
    case OutOfOrder => Behind(d, v)
    case NoValue => Judged(v) && v.tok.text == []
    case BadFormat => Judged(v) && v.tok.tag in d.fields && !WellTyped(v.tok.text, d.fields[v.tok.tag])
    case GroupOutOfOrder => false
    case IncorrectNumInGroup => false
  }

  /** Which of several faults of one visit is reported. */
  function Priority(how: Checks, v: Visit, kind: IssueKind): nat {
    if how.ByDecoder? && v.Seen? && v.place.InRoot? then DecoderPriority(kind) else RulePriority(kind)
  }

  function DecoderPriority(kind: IssueKind): nat {
    match kind
    case UnknownField => 0
    case FieldNotAllowed => 0
    case NoValue => 1
    case BadFormat => 2
    case OutOfOrder => 3
    case DuplicateField => 4
    case GroupOutOfOrder => 5
    case IncorrectNumInGroup => 5
  }

  function RulePriority(kind: IssueKind): nat {
    match kind
    case DuplicateField => 0
    case UnknownField => 1
    case FieldNotAllowed => 2
    case OutOfOrder => 3
    case GroupOutOfOrder => 3
    case NoValue => 4
    case BadFormat => 5
    case IncorrectNumInGroup => 0
  }

  /** The tag that an issue about a visit names. */
  function Named(v: Visit, kind: IssueKind): nat {
    if v.Seen? then v.tok.tag
    else if kind == GroupOutOfOrder && v.found.Some? then v.found.value else v.group.countTag
  }

  ghost predicate Faultless(d: Dict, how: Checks, v: Visit) {
    forall k :: !Fault(d, how, v, k)
  }

  /** `issue` is the most urgent fault of the visit, or the visit has none. */
  ghost predicate Verdict(d: Dict, how: Checks, v: Visit, issue: Issue) {
    match issue
    case NoIssue => Faultless(d, how, v)
    case Issue(kind, tag) =>
      && Fault(d, how, v, kind) && tag == Named(v, kind)
      && forall k :: Fault(d, how, v, k) ==> Priority(how, v, kind) <= Priority(how, v, k)
  }

  /** `issue` is that of the first faulty visit, or there is none. */
  ghost predicate Explains(d: Dict, how: Checks, vs: seq<Visit>, issue: Issue) {
    match issue
    case NoIssue => forall i :: 0 <= i < |vs| ==> Faultless(d, how, vs[i])
    case Issue(_, _) => exists i :: FirstFault(d, how, vs, i, issue)
  }

  ghost predicate FirstFault(d: Dict, how: Checks, vs: seq<Visit>, i: int, issue: Issue) {
    0 <= i < |vs| && Verdict(d, how, vs[i], issue) && forall j :: 0 <= j < i ==> Faultless(d, how, vs[j])
  }

  function Then(a: Issue, b: Issue): Issue {
    if a.NoIssue? then b else a
  }

  lemma ExplainsOne(d: Dict, how: Checks, v: Visit, issue: Issue)
    requires Verdict(d, how, v, issue)
    ensures Explains(d, how, [v], issue)
  {
    hide Verdict, Faultless;
    assert issue.NoIssue? ==> Faultless(d, how, v) by { VerdictClean(d, how, v, issue); }
    assert issue.Issue? ==> FirstFault(d, how, [v], 0, issue);
  }

  lemma VerdictClean(d: Dict, how: Checks, v: Visit, issue: Issue)
    requires Verdict(d, how, v, issue)
    ensures issue.NoIssue? ==> Faultless(d, how, v)
  {
  }

  lemma ExplainsBoth(d: Dict, how: Checks, a: seq<Visit>, b: seq<Visit>, x: Issue, y: Issue)
    requires Explains(d, how, a, x) && (x.NoIssue? ==> Explains(d, how, b, y))
    ensures Explains(d, how, a + b, Then(x, y))
  {
    hide Verdict, Faultless;
    if x.Issue? {
      var i :| FirstFault(d, how, a, i, x);
      assert FirstFault(d, how, a + b, i, x);
    } else if y.Issue? {
      var i :| FirstFault(d, how, b, i, y);
      assert FirstFault(d, how, a + b, |a| + i, y);
    }
  }

  // ---------------------------------------------------------------- scopes

  function From(p: Place): nat {
    if p.InRoot? then p.from else 0
  }

  /** A scope state stands for the fields before: their tags, and the highest rank among them. */
  ghost predicate Tracks(d: Dict, p: Place, before: seq<nat>, sc: Scope) {
    && (forall t :: t in sc.seen <==> t in before) && From(p) <= |before|
    && (forall i :: From(p) <= i < |before| ==> Rank(d, p, before[i]) <= sc.last)
    && -1 <= sc.last
    && (sc.last >= 0 ==> exists i :: From(p) <= i < |before| && Rank(d, p, before[i]) == sc.last)
  }

  lemma BehindIsLast(d: Dict, p: Place, before: seq<nat>, sc: Scope, tok: Tok)
    requires Tracks(d, p, before, sc)
    ensures Behind(d, Seen(tok, p, before)) <==> 0 <= Rank(d, p, tok.tag) < sc.last
  {
    hide Rank;
  }

  lemma TracksNext(d: Dict, p: Place, before: seq<nat>, sc: Scope, tag: nat, last: int)
    requires Tracks(d, p, before, sc)
    requires last == if Rank(d, p, tag) > sc.last then Rank(d, p, tag) else sc.last
    ensures Tracks(d, p, before + [tag], Scope(sc.seen + {tag}, last))
  {
    hide Rank;
    var more := before + [tag];
    assert forall i :: 0 <= i < |before| ==> more[i] == before[i];
    assert more[|before|] == tag;
    if last >= 0 && last == sc.last {
      var i :| From(p) <= i < |before| && Rank(d, p, before[i]) == sc.last;
      assert Rank(d, p, more[i]) == last;
    }
  }

  // ---------------------------------------------------------------- entries

  /** A field of an entry: what is noted is its most urgent fault. */
  lemma EntryFieldJudged(d: Dict, how: Checks, g: GroupDef, c: Cursor, tok: Tok, rest: Stream, before: seq<nat>)
    requires c.issue.NoIssue? && tok.tag in g.rules && Tracks(d, InEntry(g), before, c.scope)
    ensures
      var c1 := TakeField(d, g, c, tok, rest);
      && Verdict(d, how, Seen(tok, InEntry(g), before), c1.issue)
      && (c1.issue.NoIssue? ==> Tracks(d, InEntry(g), before + [tok.tag], c1.scope))
  {
    hide Behind, Tracks, WellTyped;
    var p := InEntry(g);
    BehindIsLast(d, p, before, c.scope, tok);
    RuleIndexMember(g.rules, tok.tag);
    SeenBefore(d, p, before, c.scope, tok.tag);
    if TakeField(d, g, c, tok, rest).issue.NoIssue? {
      TracksNext(d, p, before, c.scope, tok.tag, RuleIndex(g.rules, tok.tag));
    }
  }

  lemma SeenBefore(d: Dict, p: Place, before: seq<nat>, sc: Scope, t: nat)
    requires Tracks(d, p, before, sc)
    ensures t in sc.seen <==> t in before
  {
  }

  lemma ExplainsAll(d: Dict, how: Checks, a: seq<Visit>, b: seq<Visit>, c: seq<Visit>, x: Issue, y: Issue, z: Issue)
    requires Explains(d, how, a, x) && (x.NoIssue? ==> Explains(d, how, b, y))
    requires x.NoIssue? && y.NoIssue? ==> Explains(d, how, c, z)
    ensures Explains(d, how, a + b + c, Then(Then(x, y), z))
  {
    hide Explains;
    ExplainsBoth(d, how, a, b, x, y);
    ExplainsBoth(d, how, a + b, c, Then(x, y), z);
  }

  lemma VisitsFirst(g: GroupDef, before: seq<nat>, node: Node, more: seq<Node>)
    ensures FieldVisits(g, before, [node] + more)
      == [Seen(node.tok, InEntry(g), before)] + CounterVisits(node) + FieldVisits(g, before + [node.tok.tag], more)
  {
    assert ([node] + more)[1..] == more;
  }

  lemma NothingSeen(d: Dict, how: Checks)
    ensures Explains(d, how, [], NoIssue)
  {
  }

  lemma {:induction false} FieldsExplained(
      d: Dict, how: Checks, g: GroupDef, depth: nat, c: Cursor, before: seq<nat>)
    requires ParseFields(d, g, depth, c).Done? && c.issue.NoIssue? && |c.deferred| <= MAX_DEFERRED_SLOTS
    requires Tracks(d, InEntry(g), before, c.scope) && c.any == (before != [])
    ensures Explains(d, how, FieldVisits(g, before, ReadFields(d, g, !c.any, c.rest).nodes),
                     ParseFields(d, g, depth, c).value.issue)
    decreases Size(c.rest), 0, 0
  {
    hide Explains, Tracks, Verdict;
    NothingSeen(d, how);
    if c.rest.Next? && !Stops(g, c.any, c.rest.tok.tag) {
      var tok, rest := c.rest.tok, c.rest.rest;
      var v, c1 := Seen(tok, InEntry(g), before), TakeField(d, g, c, tok, rest);
      EntryFieldJudged(d, how, g, c, tok, rest, before);
      ExplainsOne(d, how, v, c1.issue);
      CutOne(c.deferred, SlotOf(d, tok), []);
      var node, c2 := Scalar(tok), c1;
      if tok.tag in d.groups {
        node, c2 := GroupTaken(d, how, g, depth, c1, tok);
      }
      var more, z := ReadFields(d, g, false, c2.rest).nodes, ParseFields(d, g, depth, c2).value.issue;
      if c2.issue.NoIssue? {
        FieldsExplained(d, how, g, depth, c2, before + [tok.tag]);
      } else {
        FieldsKeep(d, g, depth, c2);
      }
      ExplainsAll(d, how, [v], CounterVisits(node), FieldVisits(g, before + [tok.tag], more), c1.issue, c2.issue, z);
      VisitsFirst(g, before, node, more);
    }
  }

  /** The group behind a count field of an entry. */
  lemma {:induction false} GroupTaken(d: Dict, how: Checks, g: GroupDef, depth: nat, c1: Cursor, tok: Tok)
    returns (node: Node, c2: Cursor)
    requires tok.tag in d.groups && ParseGroup(d, d.groups[tok.tag], depth + 1, tok.text, c1.rest, c1.issue).Done?
    ensures
      var def := d.groups[tok.tag];
      var e := ReadEntries(d, def, Announced(tok.text), c1.rest);
      && node == CountNode(tok, def, e) && c2.rest == e.rest
      && c2 == TakeGroup(c1, def, depth + 1, ParseGroup(d, def, depth + 1, tok.text, c1.rest, c1.issue).value)
    ensures if c1.issue.NoIssue? then Explains(d, how, CounterVisits(node), c2.issue) else c2.issue == c1.issue
    decreases Size(c1.rest), 3, 0
  {
    hide Explains, ParseGroup, ReadEntries, AddEntries;
    var def := d.groups[tok.tag];
    var e := ParseGroup(d, def, depth + 1, tok.text, c1.rest, c1.issue).value;
    GroupStored(d, def, depth + 1, tok.text, c1.rest, c1.issue);
    node := CountNode(tok, def, ReadEntries(d, def, Announced(tok.text), c1.rest));
    c2 := TakeGroup(c1, def, depth + 1, e);
    if c1.issue.NoIssue? {
      GroupExplained(d, how, def, depth + 1, tok.text, c1.rest);
    } else {
      GroupKeeps(d, def, depth + 1, tok.text, c1.rest, c1.issue);
    }
  }

  lemma {:induction false} GroupExplained(d: Dict, how: Checks, g: GroupDef, depth: nat, count: Text, st: Stream)
    requires ParseGroup(d, g, depth, count, st, NoIssue).Done?
    ensures
      var r := ReadEntries(d, g, Announced(count), st);
      Explains(d, how, GroupVisits(g, r.items, r.missing, HeadTag(r.rest)),
               ParseGroup(d, g, depth, count, st, NoIssue).value.issue)
    decreases Size(st), 2, 0
  {
    EntriesExplained(d, how, g, depth, ParseUnsigned(count).value, st);
  }

  /** Entries: the first fault among their fields, or a missing entry. */
  lemma {:induction false} EntriesExplained(d: Dict, how: Checks, g: GroupDef, depth: nat, n: nat, st: Stream)
    requires ParseEntries(d, g, depth, n, st, NoIssue).Done?
    ensures
      var r := ReadEntries(d, g, n, st);
      Explains(d, how, GroupVisits(g, r.items, r.missing, HeadTag(r.rest)),
               ParseEntries(d, g, depth, n, st, NoIssue).value.issue)
    decreases Size(st), 1, n
  {
    hide Explains, ParseFields, ReadFields, FieldVisits, FinishEntry;
    NothingSeen(d, how);
    if n > 0 {
      if st.End? || st.tok.tag != g.delimiter {
        MissingJudged(d, how, g, n, st);
      } else {
        var c, first := StartEntry(st, NoIssue), ReadFields(d, g, true, st);
        var c1, more := ParseFields(d, g, depth, c).value, ReadEntries(d, g, n - 1, first.rest);
        FieldsLeave(d, g, depth, c);
        FieldsExplained(d, how, g, depth, c, []);
        if c1.issue.NoIssue? {
          EntriesExplained(d, how, g, depth, n - 1, c1.rest);
        } else {
          EntriesKeep(d, g, depth, n - 1, c1.rest, c1.issue);
        }
        ExplainsBoth(d, how, FieldVisits(g, [], first.nodes),
            GroupVisits(g, more.items, more.missing, HeadTag(more.rest)),
            c1.issue, ParseEntries(d, g, depth, n - 1, c1.rest, c1.issue).value.issue);
        assert ([Item(first.nodes)] + more.items)[1..] == more.items;
      }
    }
  }

  lemma MissingJudged(d: Dict, how: Checks, g: GroupDef, n: nat, st: Stream)
    requires n > 0 && (st.Next? ==> st.tok.tag != g.delimiter)
    ensures
      var issue := if st.End? then Issue(IncorrectNumInGroup, g.countTag)
                   else MissingDelimiterIssue(g, st.tok.tag, NoIssue);
      Explains(d, how, [Missing(g, n, HeadTag(st))], issue)
  {
    var issue := if st.End? then Issue(IncorrectNumInGroup, g.countTag)
                 else MissingDelimiterIssue(g, st.tok.tag, NoIssue);
    ExplainsOne(d, how, Missing(g, n, HeadTag(st)), issue);
  }

  // ---------------------------------------------------------------- the message

  /** The scope of the message stands for the fields before, and rules come with a MsgType. */
  ghost predicate RootTracks(d: Dict, p: Place, before: seq<nat>, sc: Scope) {
    p.InRoot? && Tracks(d, p, before, sc) && (p.rules.Some? ==> MSG_TYPE in before)
  }

  lemma NoRulesNoRank(d: Dict, p: Place, before: seq<nat>, sc: Scope)
    requires RootTracks(d, p, before, sc) && p.rules.None?
    ensures sc.last == -1
  {
  }

  lemma TypeJudged(d: Dict, r: Root, tok: Tok, p: Place, before: seq<nat>)
    requires r.issue.NoIssue? && tok.tag == MSG_TYPE && RootTracks(d, p, before, r.scope)
    ensures
      var found := RulesFor(d, tok.text);
      var r1, now := TakeMsgType(d, r, tok, found), InRoot(found, |before| + 1);
      && Verdict(d, ByRules, Seen(tok, now, before), r1.issue)
      && (r1.issue.NoIssue? ==> RootTracks(d, now, before + [MSG_TYPE], r1.scope))
      && (r.issue.NoIssue? && r1.rest == r.rest && r1.checkSum == r.checkSum)
  {
    if MSG_TYPE !in before {
      NoRulesNoRank(d, p, before, r.scope);
    }
  }

  /** Scope and issue behind the checks of one field. */
  function AfterChecks(d: Dict, r: Root, tok: Tok, rules: Option<seq<nat>>): Root {
    var r1 := CheckRoot(d, r, rules, tok.tag, if IsGroupRule(d, rules, tok.tag) then Unordered else RootOrder);
    r1.(issue := ValidateScalarValue(tok.tag, tok.text, TypeOf(d, tok.tag), r1.issue))
  }

  lemma RootFieldJudged(d: Dict, r: Root, tok: Tok, p: Place, before: seq<nat>)
    requires r.issue.NoIssue? && tok.tag != MSG_TYPE && RootTracks(d, p, before, r.scope)
    ensures
      var r1 := AfterChecks(d, r, tok, p.rules);
      && Verdict(d, ByRules, Seen(tok, p, before), r1.issue)
      && (r1.issue.NoIssue? ==> RootTracks(d, p, before + [tok.tag], r1.scope))
  {
    hide Behind, Tracks, WellTyped, IsEnvelopeTag, IsCommonAdminTag;
    BehindIsLast(d, p, before, r.scope, tok);
    RuleIndexMember(ScopeRules(p), tok.tag);
    SeenBefore(d, p, before, r.scope, tok.tag);
    var r1 := AfterChecks(d, r, tok, p.rules);
    if r1.issue.NoIssue? {
      LastIsLow(d, p, before, r.scope);
      TracksNext(d, p, before, r.scope, tok.tag, r1.scope.last);
    }
  }

  lemma LastIsLow(d: Dict, p: Place, before: seq<nat>, sc: Scope)
    requires Tracks(d, p, before, sc)
    ensures -1 <= sc.last
  {
  }

  /** A group behind the count field of the message, in either loop. */
  lemma RootGroupTaken(d: Dict, how: Checks, r: Root, tok: Tok, g: GroupDef) returns (node: Node)
    requires StoreGroup(d, r, tok, g).Done?
    ensures
      var r1, e := StoreGroup(d, r, tok, g).value, ReadEntries(d, g, Announced(tok.text), r.rest);
      && node == CountNode(tok, g, e) && r1.rest == e.rest && r1.scope == r.scope && r1.checkSum == r.checkSum
      && r1.slots == r.slots
      && if r.issue.NoIssue? then Explains(d, how, CounterVisits(node), r1.issue) else r1.issue == r.issue
  {
    hide Explains, ParseGroup, ReadEntries, AddEntries;
    GroupStored(d, g, 1, tok.text, r.rest, r.issue);
    node := CountNode(tok, g, ReadEntries(d, g, Announced(tok.text), r.rest));
    if r.issue.NoIssue? {
      GroupExplained(d, how, g, 1, tok.text, r.rest);
    } else {
      GroupKeeps(d, g, 1, tok.text, r.rest, r.issue);
    }
  }

  lemma RootFieldExplained(d: Dict, r: Root, tok: Tok, p: Place, before: seq<nat>) returns (node: Node)
    requires p.InRoot? && r.issue.NoIssue? && tok.tag != MSG_TYPE && RootTracks(d, p, before, r.scope)
    requires TakeRootField(d, r, tok, p.rules).Done?
    ensures
      var r1 := TakeRootField(d, r, tok, p.rules).value;
      && Explains(d, ByRules, [Seen(tok, p, before)] + CounterVisits(node), r1.issue)
      && (r1.issue.NoIssue? ==> RootTracks(d, p, before + [tok.tag], r1.scope))
      && r1.checkSum == r.checkSum
      && if IsGroupRule(d, p.rules, tok.tag)
         then
           var e := ReadEntries(d, d.groups[tok.tag], Announced(tok.text), r.rest);
           node == CountNode(tok, d.groups[tok.tag], e) && r1.rest == e.rest
         else node == Scalar(tok) && r1.rest == r.rest
  {
    hide Explains, Verdict, RootTracks, ParseGroup, ReadEntries, Upsert, ExtractHeader, GroupVisits;
    var h := ExtractHeader(r.header, tok.tag, tok.text).value;
    var v, r1 := Seen(tok, p, before), AfterChecks(d, r.(header := h), tok, p.rules);
    RootFieldJudged(d, r.(header := h), tok, p, before);
    ExplainsOne(d, ByRules, v, r1.issue);
    node := Scalar(tok);
    if IsGroupRule(d, p.rules, tok.tag) {
      node := RootGroupTaken(d, ByRules, StoreSlot(r1, tok, TypeOf(d, tok.tag)), tok, d.groups[tok.tag]);
      ExplainsBoth(d, ByRules, [v], CounterVisits(node), r1.issue, TakeRootField(d, r, tok, p.rules).value.issue);
    } else {
      assert [v] + [] == [v];
    }
  }

  lemma RootVisitsFirst(d: Dict, p: Place, before: seq<nat>, node: Node, more: seq<Node>)
    requires p.InRoot?
    ensures
      var before1 := before + [node.tok.tag];
      var now := InRoot(RulesFor(d, node.tok.text), |before1|);
      RootVisits(d, p, before, [node] + more)
        == if node.tok.tag == MSG_TYPE then [Seen(node.tok, now, before)] + RootVisits(d, now, before1, more)
           else [Seen(node.tok, p, before)] + CounterVisits(node) + RootVisits(d, p, before1, more)
  {
    assert ([node] + more)[1..] == more;
  }

  lemma {:induction false} LoopExplained(d: Dict, r: Root, p: Place, before: seq<nat>)
    requires p.InRoot? && GenericLoop(d, r, p.rules).Done? && r.checkSum.None?
    requires r.issue.NoIssue? && RootTracks(d, p, before, r.scope)
    ensures Explains(d, ByRules, RootVisits(d, p, before, ReadRoot(d, p.rules, r.rest).nodes),
                     GenericLoop(d, r, p.rules).value.issue)
    decreases Size(r.rest), 0
  {
    hide Explains, Verdict, RootTracks, TakeRootField, ReadEntries, TakeMsgType, GroupVisits;
    NothingSeen(d, ByRules);
    if r.rest.Next? && r.rest.tok.tag != CHECK_SUM {
      var tok := r.rest.tok;
      var r1 := Advance(r, tok, r.rest.rest);
      if IsFrameTag(tok.tag) {
        LoopExplained(d, r1, p, before);
      } else if tok.tag == MSG_TYPE {
        var found := RulesFor(d, tok.text);
        var now, r2 := InRoot(found, |before| + 1), TakeMsgType(d, r1, tok, found);
        TypeJudged(d, r1, tok, p, before);
        ExplainsOne(d, ByRules, Seen(tok, now, before), r2.issue);
        RootVisitsFirst(d, p, before, Scalar(tok), ReadRoot(d, found, r1.rest).nodes);
        LoopGoesOn(d, r2, now, before + [MSG_TYPE], [Seen(tok, now, before)]);
      } else {
        var r2 := TakeRootField(d, r1, tok, p.rules).value;
        var node := RootFieldExplained(d, r1, tok, p, before);
        RootVisitsFirst(d, p, before, node, ReadRoot(d, p.rules, r2.rest).nodes);
        LoopGoesOn(d, r2, p, before + [tok.tag], [Seen(tok, p, before)] + CounterVisits(node));
      }
    }
  }

  /** Behind the visits `vs`, whose issue has been noted. */
  lemma {:induction false} LoopGoesOn(d: Dict, r: Root, p: Place, before: seq<nat>, vs: seq<Visit>)
    requires p.InRoot? && GenericLoop(d, r, p.rules).Done? && r.checkSum.None?
    requires Explains(d, ByRules, vs, r.issue) && (r.issue.NoIssue? ==> RootTracks(d, p, before, r.scope))
    ensures Explains(d, ByRules, vs + RootVisits(d, p, before, ReadRoot(d, p.rules, r.rest).nodes),
                     GenericLoop(d, r, p.rules).value.issue)
    decreases Size(r.rest), 1
  {
    hide Explains, RootTracks, GenericLoop, ReadRoot, RootVisits;
    if r.issue.NoIssue? {
      LoopExplained(d, r, p, before);
    } else {
      LoopKeeps(d, r, p.rules);
    }
    ExplainsBoth(d, ByRules, vs, RootVisits(d, p, before, ReadRoot(d, p.rules, r.rest).nodes), r.issue,
        GenericLoop(d, r, p.rules).value.issue);
  }

  // ---------------------------------------------------------------- whole frames

  /** The visits of a frame, from behind BodyLength on. */
  function FrameVisits(d: Dict, s: Text, delim: Byte): seq<Visit>
    requires OpenFrame(Tokenize(s, 0, delim)).Done?
  {
    RootVisits(d, InRoot(None, 0), [], FrameReading(d, s, delim).nodes)
  }

  /** Every frame that decodes: its issue is the first fault of its reading, or there is no fault. */
  lemma IssueExplained(d: Dict, s: Text, delim: Byte, verify: bool)
    requires Decode(d, s, delim, verify).Done?
    ensures OpenFrame(Tokenize(s, 0, NormalizeDelimiter(delim))).Done?
    ensures Explains(d, ByRules, FrameVisits(d, s, NormalizeDelimiter(delim)), Decode(d, s, delim, verify).value.issue)
  {
    hide Explains, GenericLoop, ReadRoot, RootVisits, Tokenize, Sum;
    var f := OpenFrame(Tokenize(s, 0, NormalizeDelimiter(delim))).value;
    LoopExplained(d, StartRoot(f.rest), InRoot(None, 0), []);
  }
}
