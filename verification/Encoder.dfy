/**
 * The generic body encoder: rule order first, then whatever the rules do not cover.
 * Every function emits its fields in front of a continuation.
 */
module Encoder {
  import opened Bytes
  import opened FixTags
  import opened Dictionary
  import opened TokenStream
  import opened OwnedMessage

  function EmitField(f: Field, k: Stream): Stream {
    Next(MakeTok(f.tag, ValueText(f.value)), k)
  }

  function EmitCount(g: GroupData, k: Stream): Stream {
    Next(MakeTok(g.countTag, Digits(|g.entries|)), k)
  }

  predicate Skipped(tag: nat, skipHeader: bool) {
    IsFrameTag(tag) || (skipHeader && IsHeaderTag(tag))
  }

  // ---------------------------------------------------------------- without a dictionary

  function PlainFields(m: Message, i: nat, skipHeader: bool, k: Stream): Stream
    requires i <= |m.fields|
    decreases |m.fields| - i
  {
    if i == |m.fields| then k
    else
      var more := PlainFields(m, i + 1, skipHeader, k);
      if Skipped(m.fields[i].tag, skipHeader) || HasGroup(m, m.fields[i].tag) then more
      else EmitField(m.fields[i], more)
  }

  function PlainBody(m: Message, skipHeader: bool, k: Stream): Stream
    decreases m, 0, 0
  {
    PlainFields(m, 0, skipHeader, PlainGroups(m.groups, 0, k))
  }

  function PlainGroups(groups: seq<GroupData>, i: nat, k: Stream): Stream
    requires i <= |groups|
    decreases groups, 0, |groups| - i
  {
    if i == |groups| then k else PlainGroup(groups[i], PlainGroups(groups, i + 1, k))
  }

  function PlainGroup(g: GroupData, k: Stream): Stream
    decreases g, 1, 0
  {
    EmitCount(g, PlainEntries(g.entries, 0, k))
  }

  function PlainEntries(entries: seq<Message>, i: nat, k: Stream): Stream
    requires i <= |entries|
    decreases entries, 0, |entries| - i
  {
    if i == |entries| then k else PlainBody(entries[i], false, PlainEntries(entries, i + 1, k))
  }

  // ---------------------------------------------------------------- with dictionary rules

  /** One rule: the group with that count tag, else the field with that tag, else nothing. */
  function EmitRule(d: Dict, m: Message, tag: nat, skipHeader: bool, k: Stream): Stream
    decreases m, 1, 0
  {
    if Skipped(tag, skipHeader) then k
    else
      var gi := GroupIndex(m.groups, tag);
      if gi >= 0 then EmitGroup(d, m.groups[gi], k)
      else
        var fi := FieldIndex(m.fields, tag);
        if fi >= 0 then EmitField(m.fields[fi], k) else k
  }

  /** Everything the rules from position `i` on emit. */
  function RulePass(d: Dict, rules: seq<nat>, i: nat, m: Message, skipHeader: bool, k: Stream): Stream
    requires i <= |rules|
    decreases m, 2, |rules| - i
  {
    if i == |rules| then k
    else EmitRule(d, m, rules[i], skipHeader, RulePass(d, rules, i + 1, m, skipHeader, k))
  }

  function ExtraFields(rules: seq<nat>, m: Message, i: nat, skipHeader: bool, k: Stream): Stream
    requires i <= |m.fields|
    decreases |m.fields| - i
  {
    if i == |m.fields| then k
    else
      var more := ExtraFields(rules, m, i + 1, skipHeader, k);
      var tag := m.fields[i].tag;
      if Skipped(tag, skipHeader) || HasGroup(m, tag) || tag in rules then more else EmitField(m.fields[i], more)
  }

  function ExtraGroups(d: Dict, rules: seq<nat>, groups: seq<GroupData>, i: nat, k: Stream): Stream
    requires i <= |groups|
    decreases groups, 0, |groups| - i
  {
    if i == |groups| then k
    else
      var more := ExtraGroups(d, rules, groups, i + 1, k);
      if groups[i].countTag in rules then more else EmitGroup(d, groups[i], more)
  }

  function EmitBody(d: Dict, rules: seq<nat>, m: Message, skipHeader: bool, k: Stream): Stream
    decreases m, 3, 0
  {
    RulePass(d, rules, 0, m, skipHeader,
             ExtraFields(rules, m, 0, skipHeader, ExtraGroups(d, rules, m.groups, 0, k)))
  }

  function EmitGroup(d: Dict, g: GroupData, k: Stream): Stream
    decreases g, 2, 0
  {
    EmitCount(g, if g.countTag in d.groups then EmitEntries(d, d.groups[g.countTag].rules, g.entries, 0, k)
                 else PlainEntries(g.entries, 0, k))
  }

  function EmitEntries(d: Dict, rules: seq<nat>, entries: seq<Message>, i: nat, k: Stream): Stream
    requires i <= |entries|
    decreases entries, 1, |entries| - i
  {
    if i == |entries| then k
    else EmitBody(d, rules, entries[i], false, EmitEntries(d, rules, entries, i + 1, k))
  }
}
