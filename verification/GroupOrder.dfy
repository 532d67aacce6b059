/** The order in which code for repeating groups is emitted: a depth-first visit, nested groups first. */
module GroupOrder {
  import opened Dictionary

  datatype VisitState = Visiting | Visited

  type ByTag = map<nat, GroupDef>

  /** Groups are looked up under their own count tag. */
  predicate Keyed(byTag: ByTag) {
    forall t :: t in byTag ==> byTag[t].countTag == t
  }

  /** One of `a`'s rules is the count of the group `b`. */
  predicate Contains(byTag: ByTag, a: nat, b: nat) {
    a in byTag && b in byTag && b in byTag[a].rules
  }

  /** Each group of the path contains the next. */
  ghost predicate Path(byTag: ByTag, p: seq<nat>) {
    p != [] && forall i :: 0 <= i < |p| - 1 ==> Contains(byTag, p[i], p[i + 1])
  }

  ghost predicate Reaches(byTag: ByTag, a: nat, b: nat) {
    exists p :: Path(byTag, p) && p[0] == a && p[|p| - 1] == b
  }

  ghost predicate Acyclic(byTag: ByTag) {
    forall a, b :: Contains(byTag, a, b) ==> !Reaches(byTag, b, a)
  }

  /** `b` is emitted before position `p`, or contains the group emitted there. */
  ghost predicate Settled(byTag: ByTag, ordered: seq<GroupDef>, p: nat, b: nat)
    requires p < |ordered|
  {
    (exists q :: 0 <= q < p && ordered[q].countTag == b) || Reaches(byTag, b, ordered[p].countTag)
  }

  ghost predicate Emitted(ordered: seq<GroupDef>, tag: nat) {
    exists k :: 0 <= k < |ordered| && ordered[k].countTag == tag
  }

  /** What the group emitted at `k` contains is settled. */
  ghost predicate NestedSettled(byTag: ByTag, ordered: seq<GroupDef>, k: nat)
    requires k < |ordered|
  {
    forall b :: b in ordered[k].rules && b in byTag ==> Settled(byTag, ordered, k, b)
  }

  lemma SettledStays(byTag: ByTag, ordered: seq<GroupDef>, more: seq<GroupDef>, k: nat)
    requires ordered <= more && k < |ordered| && NestedSettled(byTag, ordered, k)
    ensures NestedSettled(byTag, more, k)
  {
    forall b | b in more[k].rules && b in byTag ensures Settled(byTag, more, k, b) {
      assert Settled(byTag, ordered, k, b);
      if q :| 0 <= q < k && ordered[q].countTag == b {
        assert more[q].countTag == b;
      }
    }
  }

  /** Emitting a group after everything it contains, save what contains it. */
  lemma EmitKeeps(byTag: ByTag, ordered: seq<GroupDef>, g: GroupDef)
    requires forall k :: 0 <= k < |ordered| ==> NestedSettled(byTag, ordered, k)
    requires forall b :: b in g.rules && b in byTag ==> Emitted(ordered, b) || Reaches(byTag, b, g.countTag)
    ensures forall k :: 0 <= k < |ordered + [g]| ==> NestedSettled(byTag, ordered + [g], k)
    ensures forall t :: Emitted(ordered + [g], t) <==> Emitted(ordered, t) || t == g.countTag
  {
    var more := ordered + [g];
    forall k | 0 <= k < |more| ensures NestedSettled(byTag, more, k) {
      if k < |ordered| {
        SettledStays(byTag, ordered, more, k);
      } else {
        forall b | b in g.rules && b in byTag ensures Settled(byTag, more, k, b) {
          if q :| 0 <= q < |ordered| && ordered[q].countTag == b {
            assert more[q].countTag == b;
          }
        }
      }
    }
    forall t ensures Emitted(more, t) <==> Emitted(ordered, t) || t == g.countTag {
      assert more[|ordered|] == g;
      if q :| 0 <= q < |ordered| && ordered[q].countTag == t {
        assert more[q].countTag == t;
      }
    }
  }

  /** Emitted groups are those visited, each once and with what it contains settled. */
  ghost predicate Consistent(byTag: ByTag, visited: map<nat, VisitState>, ordered: seq<GroupDef>) {
    && Keyed(byTag) && visited.Keys <= byTag.Keys
    && (forall k :: 0 <= k < |ordered| ==>
          && ordered[k].countTag in visited && visited[ordered[k].countTag].Visited?
          && byTag[ordered[k].countTag] == ordered[k])
    && (forall k :: 0 <= k < |ordered| ==> NestedSettled(byTag, ordered, k))
    && (forall t :: t in visited && visited[t].Visited? ==> Emitted(ordered, t))
    && (forall j, k :: 0 <= j < k < |ordered| ==> ordered[j].countTag != ordered[k].countTag)
  }

  /** The groups being visited form a path. */
  ghost predicate OnStack(byTag: ByTag, visited: map<nat, VisitState>, stack: seq<nat>) {
    && (stack != [] ==> Path(byTag, stack))
    && forall t :: t in visited && visited[t].Visiting? <==> t in stack
  }

  ghost predicate Grows(v0: map<nat, VisitState>, v1: map<nat, VisitState>) {
    forall t :: t in v0 ==> t in v1 && v1[t] == v0[t]
  }

  lemma BeginVisit(byTag: ByTag, visited: map<nat, VisitState>, ordered: seq<GroupDef>, stack: seq<nat>, tag: nat)
    requires Consistent(byTag, visited, ordered) && OnStack(byTag, visited, stack)
    requires tag in byTag && tag !in visited && (stack != [] ==> Contains(byTag, stack[|stack| - 1], tag))
    ensures Consistent(byTag, visited[tag := Visiting], ordered)
    ensures OnStack(byTag, visited[tag := Visiting], stack + [tag])
  {
  }

  /** The nested group has been emitted or contains the group being visited. */
  ghost predicate Handled(byTag: ByTag, visited: map<nat, VisitState>, tag: nat, nested: nat) {
    nested in byTag ==> nested in visited && (visited[nested].Visited? || Reaches(byTag, nested, tag))
  }

  lemma EndVisit(byTag: ByTag, visited: map<nat, VisitState>, ordered: seq<GroupDef>, stack: seq<nat>, g: GroupDef)
    requires Consistent(byTag, visited, ordered) && OnStack(byTag, visited, stack + [g.countTag])
    requires g.countTag !in stack && g.countTag in byTag && byTag[g.countTag] == g
    requires forall k :: 0 <= k < |g.rules| ==> Handled(byTag, visited, g.countTag, g.rules[k])
    ensures Consistent(byTag, visited[g.countTag := Visited], ordered + [g])
    ensures OnStack(byTag, visited[g.countTag := Visited], stack)
  {
    forall b | b in g.rules && b in byTag ensures Emitted(ordered, b) || Reaches(byTag, b, g.countTag) {
      var k :| 0 <= k < |g.rules| && g.rules[k] == b;
      assert Handled(byTag, visited, g.countTag, g.rules[k]);
    }
    EmitKeeps(byTag, ordered, g);
    EndStack(byTag, visited, stack, g.countTag);
  }

  lemma EndStack(byTag: ByTag, visited: map<nat, VisitState>, stack: seq<nat>, tag: nat)
    requires OnStack(byTag, visited, stack + [tag]) && tag !in stack
    ensures OnStack(byTag, visited[tag := Visited], stack)
  {
    var path := stack + [tag];
    assert forall i :: 0 <= i < |stack| ==> path[i] == stack[i];
    forall t ensures t in path <==> t in stack || t == tag {
      assert path[|stack|] == tag;
    }
  }

  /** Every group being visited reaches the innermost one. */
  lemma StackReaches(byTag: ByTag, visited: map<nat, VisitState>, path: seq<nat>, t: nat)
    requires OnStack(byTag, visited, path) && t in path
    ensures Reaches(byTag, t, path[|path| - 1])
  {
    var i :| 0 <= i < |path| && path[i] == t;
    var p := path[i..];
    assert Path(byTag, p) && p[0] == t && p[|p| - 1] == path[|path| - 1];
  }

  lemma Fewer(byTag: ByTag, v0: map<nat, VisitState>, v1: map<nat, VisitState>, tag: nat)
    requires tag in byTag && tag !in v0 && tag in v1 && Grows(v0, v1)
    ensures byTag.Keys - v1.Keys < byTag.Keys - v0.Keys
  {
    assert tag in byTag.Keys - v0.Keys && tag !in byTag.Keys - v1.Keys;
  }

  lemma NoMore(byTag: ByTag, v0: map<nat, VisitState>, v1: map<nat, VisitState>)
    requires Grows(v0, v1)
    ensures byTag.Keys - v1.Keys < byTag.Keys - v0.Keys || byTag.Keys - v1.Keys == byTag.Keys - v0.Keys
  {
  }

  class Visitor {
    const byTag: ByTag
    var visited: map<nat, VisitState>
    var ordered: seq<GroupDef>

    constructor (byTag: ByTag)
      requires Keyed(byTag)
      ensures this.byTag == byTag && ordered == [] && visited == map[]
    {
      this.byTag := byTag;
      visited := map[];
      ordered := [];
    }

    method VisitGroup(group: GroupDef, ghost stack: seq<nat>)
      requires Consistent(byTag, visited, ordered) && OnStack(byTag, visited, stack)
      requires group.countTag in byTag && (group.countTag !in visited ==> group == byTag[group.countTag])
      requires stack != [] ==> Contains(byTag, stack[|stack| - 1], group.countTag)
      modifies this
      ensures Consistent(byTag, visited, ordered) && OnStack(byTag, visited, stack)
      ensures Grows(old(visited), visited) && old(ordered) <= ordered
      ensures group.countTag in visited && (group.countTag !in stack ==> visited[group.countTag].Visited?)
      decreases byTag.Keys - visited.Keys, 0
    {
      var tag := group.countTag;
      if tag in visited {
        return;
      }
      BeginVisit(byTag, visited, ordered, stack, tag);
      visited := visited[tag := Visiting];
      Fewer(byTag, old(visited), visited, tag);
      VisitRules(group, stack + [tag]);
      EndVisit(byTag, visited, ordered, stack, group);
      visited := visited[tag := Visited];
      ordered := ordered + [group];
    }

    /** The rules of the innermost group being visited. */
    method VisitRules(group: GroupDef, ghost path: seq<nat>)
      requires Consistent(byTag, visited, ordered) && OnStack(byTag, visited, path)
      requires path != [] && path[|path| - 1] == group.countTag && group.countTag in byTag
        && byTag[group.countTag] == group
      modifies this
      ensures Consistent(byTag, visited, ordered) && OnStack(byTag, visited, path)
      ensures Grows(old(visited), visited) && old(ordered) <= ordered
      ensures forall k :: 0 <= k < |group.rules| ==> Handled(byTag, visited, group.countTag, group.rules[k])
      decreases byTag.Keys - visited.Keys, 2
    {
      for i := 0 to |group.rules|
        invariant Consistent(byTag, visited, ordered) && OnStack(byTag, visited, path)
        invariant Grows(old(visited), visited) && old(ordered) <= ordered
        invariant forall k :: 0 <= k < i ==> Handled(byTag, visited, group.countTag, group.rules[k])
      {
        ghost var before := visited;
        NoMore(byTag, old(visited), visited);
        VisitRule(group.rules[i], path);
        HandledStays(byTag, before, visited, group.countTag, group.rules, i);
      }
    }

    /** One rule of the innermost group being visited. */
    method VisitRule(nested: nat, ghost path: seq<nat>)
      requires Consistent(byTag, visited, ordered) && OnStack(byTag, visited, path)
      requires path != [] && (nested in byTag ==> Contains(byTag, path[|path| - 1], nested))
      modifies this
      ensures Consistent(byTag, visited, ordered) && OnStack(byTag, visited, path)
      ensures Grows(old(visited), visited) && old(ordered) <= ordered
      ensures Handled(byTag, visited, path[|path| - 1], nested)
      decreases byTag.Keys - visited.Keys, 1
    {
      if nested !in byTag {
        return;
      }
      if nested in visited && visited[nested].Visiting? {
        StackReaches(byTag, visited, path, nested);
        return;
      }
      VisitGroup(byTag[nested], path);
    }
  }

  lemma HandledStays(byTag: ByTag, v0: map<nat, VisitState>, v1: map<nat, VisitState>, tag: nat, rules: seq<nat>,
      i: nat)
    requires Grows(v0, v1) && i < |rules| && forall k :: 0 <= k < i ==> Handled(byTag, v0, tag, rules[k])
    ensures forall k :: 0 <= k < i ==> Handled(byTag, v1, tag, rules[k])
  {
    forall k | 0 <= k < i ensures Handled(byTag, v1, tag, rules[k]) {
      assert Handled(byTag, v0, tag, rules[k]);
    }
  }

  // ---------------------------------------------------------------- the whole dictionary

  /** The first group of each count tag. */
  function IndexByTag(groups: seq<GroupDef>): (m: ByTag)
    ensures Keyed(m)
    decreases |groups|
  {
    if groups == [] then map[]
    else
      var last := |groups| - 1;
      var m := IndexByTag(groups[..last]);
      if groups[last].countTag in m then m else m[groups[last].countTag := groups[last]]
  }

  /** Every count tag is indexed, by the first group that has it. */
  lemma {:induction false} IndexFinds(groups: seq<GroupDef>, i: nat)
    requires i < |groups|
    ensures groups[i].countTag in IndexByTag(groups)
    ensures (forall j :: 0 <= j < i ==> groups[j].countTag != groups[i].countTag) ==>
              IndexByTag(groups)[groups[i].countTag] == groups[i]
    decreases |groups|
  {
    var last := |groups| - 1;
    if i < last {
      IndexFinds(groups[..last], i);
    } else if groups[i].countTag in IndexByTag(groups[..last]) {
      var j := IndexHas(groups[..last], groups[i].countTag);
    }
  }

  lemma {:induction false} IndexHas(groups: seq<GroupDef>, tag: nat) returns (j: nat)
    requires tag in IndexByTag(groups)
    ensures j < |groups| && groups[j].countTag == tag && groups[j] == IndexByTag(groups)[tag]
    decreases |groups|
  {
    var last := |groups| - 1;
    if tag in IndexByTag(groups[..last]) {
      j := IndexHas(groups[..last], tag);
    } else {
      j := last;
    }
  }

  /**
   * Every group is emitted once, and each group it contains comes before it unless the nesting is cyclic
   * there; on acyclic nesting, contained groups always come first.
   */
  method OrderedGroupsByNesting(groups: seq<GroupDef>) returns (ordered: seq<GroupDef>)
    ensures forall j, k :: 0 <= j < k < |ordered| ==> ordered[j].countTag != ordered[k].countTag
    ensures forall t :: Emitted(ordered, t) <==> t in IndexByTag(groups)
    ensures forall k :: 0 <= k < |ordered| ==>
      ordered[k].countTag in IndexByTag(groups) && ordered[k] == IndexByTag(groups)[ordered[k].countTag]
    ensures forall k :: 0 <= k < |ordered| ==> NestedSettled(IndexByTag(groups), ordered, k)
    ensures Acyclic(IndexByTag(groups)) ==> NestedFirst(IndexByTag(groups), ordered)
  {
    hide Reaches, NestedSettled, NestedFirst, Path;
    var visitor := new Visitor(IndexByTag(groups));
    for i := 0 to |groups|
      invariant fresh(visitor) && visitor.byTag == IndexByTag(groups)
      invariant Consistent(visitor.byTag, visitor.visited, visitor.ordered)
        && OnStack(visitor.byTag, visitor.visited, [])
      invariant forall j :: 0 <= j < i ==> groups[j].countTag in visitor.visited
    {
      IndexFinds(groups, i);
      visitor.VisitGroup(groups[i], []);
    }
    ordered := visitor.ordered;
    forall t | t in IndexByTag(groups) ensures Emitted(ordered, t) {
      var j := IndexHas(groups, t);
    }
    if Acyclic(IndexByTag(groups)) {
      SettledMeansFirst(IndexByTag(groups), ordered);
    }
  }

  ghost predicate NestedFirst(byTag: ByTag, ordered: seq<GroupDef>) {
    forall k, b :: 0 <= k < |ordered| && b in ordered[k].rules && b in byTag ==>
      exists q :: 0 <= q < k && ordered[q].countTag == b
  }

  lemma SettledMeansFirst(byTag: ByTag, ordered: seq<GroupDef>)
    requires Acyclic(byTag) && forall k :: 0 <= k < |ordered| ==> NestedSettled(byTag, ordered, k)
    requires forall k :: 0 <= k < |ordered| ==>
      ordered[k].countTag in byTag && ordered[k] == byTag[ordered[k].countTag]
    ensures NestedFirst(byTag, ordered)
  {
    forall k, b | 0 <= k < |ordered| && b in ordered[k].rules && b in byTag
      ensures exists q :: 0 <= q < k && ordered[q].countTag == b
    {
      assert NestedSettled(byTag, ordered, k) && Settled(byTag, ordered, k, b);
      assert Contains(byTag, ordered[k].countTag, b);
    }
  }
}
