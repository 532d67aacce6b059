/** Owned message data: fields and repeating groups in insertion order. */
module OwnedMessage {
  import opened Bytes

  /** A float carries its printed text. */
  datatype FieldValue =
    | VString(text: Text) | VInt(num: int) | VFloat(repr: Text) | VChar(ch: Byte) | VBool(flag: bool)

  datatype Field = Field(tag: nat, value: FieldValue)
  datatype GroupData = GroupData(countTag: nat, entries: seq<Message>)
  datatype Message = Message(fields: seq<Field>, groups: seq<GroupData>)

  /** Text of a value on the wire. */
  function ValueText(v: FieldValue): Text {
    match v
    case VString(t) => t
    case VInt(n) => SignedDigits(n)
    case VFloat(t) => t
    case VChar(c) => [c]
    case VBool(b) => if b then [YES] else [NO]
  }

  /** First field with the tag at or after `i`, or -1. */
  function FieldFrom(fields: seq<Field>, i: nat, tag: nat): (r: int)
    requires i <= |fields|
    ensures -1 <= r < |fields| && (r >= 0 ==> r >= i && fields[r].tag == tag)
    decreases |fields| - i
  {
    if i == |fields| then -1 else if fields[i].tag == tag then i else FieldFrom(fields, i + 1, tag)
  }

  function FieldIndex(fields: seq<Field>, tag: nat): (r: int)
    ensures -1 <= r < |fields| && (r >= 0 ==> fields[r].tag == tag)
  {
    FieldFrom(fields, 0, tag)
  }

  /** First group with the count tag at or after `i`, or -1. */
  function GroupFrom(groups: seq<GroupData>, i: nat, tag: nat): (r: int)
    requires i <= |groups|
    ensures -1 <= r < |groups| && (r >= 0 ==> r >= i && groups[r].countTag == tag)
    decreases |groups| - i
  {
    if i == |groups| then -1 else if groups[i].countTag == tag then i else GroupFrom(groups, i + 1, tag)
  }

  function GroupIndex(groups: seq<GroupData>, tag: nat): (r: int)
    ensures -1 <= r < |groups| && (r >= 0 ==> groups[r].countTag == tag)
  {
    GroupFrom(groups, 0, tag)
  }

  predicate HasGroup(m: Message, tag: nat) {
    GroupIndex(m.groups, tag) >= 0
  }
}
