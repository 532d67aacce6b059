/** Per-scope field validation: duplicates, unknown and disallowed tags, rule order, value syntax. */
module Validation {
  import opened Bytes
  import opened FixTags
  import opened Dictionary
  import opened ParsedTree

  /** Tags seen in the current scope and the highest rule position reached. */
  datatype Scope = Scope(seen: set<nat>, last: int)

  const EMPTY_SCOPE: Scope := Scope({}, -1)

  datatype Order = Unordered | RootOrder | EntryOrder

  datatype Checked = Checked(scope: Scope, issue: Issue)

  function TrackRuleOrder(sc: Scope, ruleIndex: int, issue: Issue, tag: nat, order: Order): Checked {
    if order.Unordered? || ruleIndex < 0 then Checked(sc, issue)
    else if sc.last > ruleIndex then
      Checked(sc, Note(issue, if order.EntryOrder? then GroupOutOfOrder else OutOfOrder, tag))
    else Checked(sc.(last := ruleIndex), issue)
  }

  function ValidateConsumedField(
      d: Dict, tag: nat, rules: seq<nat>, ruleIndex: int, sc: Scope, issue: Issue,
      allowEnvelope: bool, known: bool, order: Order): Checked
  {
    if tag in sc.seen then Checked(sc, Note(issue, DuplicateField, tag))
    else
      var sc1 := sc.(seen := sc.seen + {tag});
      if allowEnvelope && IsEnvelopeTag(tag) then Checked(sc1, issue)
      else if !known then Checked(sc1, issue)
      else if tag !in d.fields && !(rules == [] && (IsEnvelopeTag(tag) || IsCommonAdminTag(tag))) then
        Checked(sc1, Note(issue, UnknownField, tag))
      else if rules != [] && ruleIndex < 0 then Checked(sc1, Note(issue, FieldNotAllowed, tag))
      else TrackRuleOrder(sc1, ruleIndex, issue, tag, order)
  }

  function ValidateScalarValue(tag: nat, value: Text, ftype: FieldType, issue: Issue): Issue {
    if !issue.NoIssue? then issue
    else if value == [] then Issue(NoValue, tag)
    else if !WellTyped(value, ftype) then Issue(BadFormat, tag)
    else NoIssue
  }
}
