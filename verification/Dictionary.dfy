/** The bound dictionary as the codec sees it: field types, message rules, group rules. */
module Dictionary {
  import opened Optional
  import opened Bytes

  datatype FieldType = TString | TInt | TFloat | TChar | TBool

  datatype GroupDef = GroupDef(countTag: nat, delimiter: nat, rules: seq<nat>)

  /** A scope is the ordered list of tags that its rules allow. */
  datatype Dict = Dict(
    fields: map<nat, FieldType>,
    messages: map<Text, seq<nat>>,
    groups: map<nat, GroupDef>)

  function TagSet(rules: seq<nat>): set<nat> {
    set t | t in rules
  }

  predicate Distinct(s: seq<nat>) {
    forall i, j :: 0 <= i < j < |s| ==> s[i] != s[j]
  }

  /** First position of `tag` at or after `i`, or -1. */
  function RuleFrom(rules: seq<nat>, i: nat, tag: nat): (r: int)
    requires i <= |rules|
    ensures -1 <= r < |rules| && (r >= 0 ==> r >= i && rules[r] == tag)
    decreases |rules| - i
  {
    if i == |rules| then -1 else if rules[i] == tag then i else RuleFrom(rules, i + 1, tag)
  }

  /** Position of `tag` among the rules, or -1. */
  function RuleIndex(rules: seq<nat>, tag: nat): (r: int)
    ensures -1 <= r < |rules| && (r >= 0 ==> rules[r] == tag)
  {
    RuleFrom(rules, 0, tag)
  }

  lemma {:induction false} RuleFromFinds(rules: seq<nat>, i: nat, k: nat)
    requires i <= k < |rules|
    ensures i <= RuleFrom(rules, i, rules[k]) <= k
    decreases k - i
  {
    if rules[i] != rules[k] {
      RuleFromFinds(rules, i + 1, k);
    }
  }

  lemma RuleIndexMember(rules: seq<nat>, tag: nat)
    ensures RuleIndex(rules, tag) >= 0 <==> tag in rules
  {
    if tag in rules {
      var k :| 0 <= k < |rules| && rules[k] == tag;
      RuleFromFinds(rules, 0, k);
    }
  }

  lemma RuleIndexOf(rules: seq<nat>, i: nat)
    requires Distinct(rules) && i < |rules|
    ensures RuleIndex(rules, rules[i]) == i
  {
    RuleFromFinds(rules, 0, i);
    assert rules[RuleIndex(rules, rules[i])] == rules[i];
  }

  /** Types of session and admin fields that the dictionary does not define. */
  function FallbackType(tag: nat): FieldType {
    if tag in {9, 34, 45, 371, 373, 98, 108, 7, 16, 36} then TInt
    else if tag in {141, 43, 97, 123} then TBool
    else TString
  }

  function TypeOf(d: Dict, tag: nat): FieldType {
    if tag in d.fields then d.fields[tag] else FallbackType(tag)
  }

  // ---------------------------------------------------------------- value syntax

  function ParseBoolean(s: Text): Option<bool> {
    if s == [YES] then Some(true) else if s == [NO] then Some(false) else None
  }

  /** Decimal floating-point syntax: sign, digits with an optional point, optional exponent. */
  predicate IsFloatText(s: Text) {
    IsUnsignedFloat(if s != [] && s[0] == MINUS then s[1..] else s)
  }

  predicate IsUnsignedFloat(t: Text) {
    exists k, e ::
      && 0 <= k <= e <= |t|
      && AllDigits(t[..k])
      && IsFraction(t[k..e])
      && (k > 0 || e - k > 1)
      && IsExponent(t[e..])
  }

  predicate IsFraction(s: Text) {
    s == [] || (s[0] == 46 && AllDigits(s[1..]))
  }

  predicate IsExponent(s: Text) {
    || s == []
    || ((s[0] == 101 || s[0] == 69)
        && (var t := if |s| > 1 && (s[1] == 43 || s[1] == 45) then s[2..] else s[1..];
            t != [] && AllDigits(t)))
  }

  predicate WellTyped(s: Text, t: FieldType) {
    match t
    case TInt => ParseSigned(s).Some?
    case TChar => |s| == 1
    case TFloat => IsFloatText(s)
    case TBool => ParseBoolean(s).Some?
    case TString => true
  }
}
