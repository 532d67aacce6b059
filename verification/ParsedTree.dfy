/** What a decode produces: field slots, nested groups, the first validation issue. */
module ParsedTree {
  import opened Bytes
  import opened Dictionary
  import opened Scanner

  /** A slot as a reader sees it: its tag, the text it shows and its type. */
  datatype Slot = Slot(tag: nat, text: Text, ftype: FieldType)

  /** The length field of a slot is 16 bits wide, so a reader sees that much of the value. */
  function ViewText(value: Text): Text {
    value[..|value| % 0x1_0000]
  }

  datatype Entry = Entry(slots: seq<Slot>, groups: seq<Group>)
  datatype Group = Group(countTag: nat, depth: nat, entries: seq<Entry>)

  datatype IssueKind =
    | UnknownField | FieldNotAllowed | DuplicateField | IncorrectNumInGroup
    | NoValue | BadFormat | OutOfOrder | GroupOutOfOrder

  datatype Issue = NoIssue | Issue(kind: IssueKind, tag: nat)

  /** Only the first issue is kept. */
  function Note(issue: Issue, kind: IssueKind, tag: nat): Issue {
    if issue.NoIssue? then Issue(kind, tag) else issue
  }

  datatype DecodeError =
    | Malformed(scan: ScanError) | InvalidNumber | InvalidBoolean
    | EntryCountExceeded | NestingExceeded
    | NotFramed | TrailingData | TooShort | BodyLengthMismatch | ChecksumMismatch

  datatype Outcome<+T> = Done(value: T) | Failed(error: DecodeError) {
    predicate IsFailure() {
      Failed?
    }
    function PropagateFailure<U>(): Outcome<U>
      requires Failed?
    {
      Failed(error)
    }
    function Extract(): T
      requires Done?
    {
      value
    }
  }

  // ---------------------------------------------------------------- slots and groups of one container

  /** First slot with the tag at or after `i`, or -1. */
  function SlotFrom(slots: seq<Slot>, i: nat, tag: nat): (r: int)
    requires i <= |slots|
    ensures -1 <= r < |slots| && (r >= 0 ==> r >= i && slots[r].tag == tag)
    decreases |slots| - i
  {
    if i == |slots| then -1 else if slots[i].tag == tag then i else SlotFrom(slots, i + 1, tag)
  }

  function SlotIndex(slots: seq<Slot>, tag: nat): (r: int)
    ensures -1 <= r < |slots| && (r >= 0 ==> slots[r].tag == tag)
  {
    SlotFrom(slots, 0, tag)
  }

  lemma {:induction false} NoSuchSlot(slots: seq<Slot>, i: nat, tag: nat)
    requires i <= |slots| && forall k :: i <= k < |slots| ==> slots[k].tag != tag
    ensures SlotFrom(slots, i, tag) == -1
    decreases |slots| - i
  {
    if i < |slots| {
      NoSuchSlot(slots, i + 1, tag);
    }
  }

  /** A repeated tag overwrites the slot of its first occurrence. */
  function Upsert(slots: seq<Slot>, s: Slot): seq<Slot> {
    var i := SlotIndex(slots, s.tag);
    if i < 0 then slots + [s] else slots[i := s]
  }

  function UpsertAll(slots: seq<Slot>, more: seq<Slot>, i: nat): seq<Slot>
    requires i <= |more|
    decreases |more| - i
  {
    if i == |more| then slots else UpsertAll(Upsert(slots, more[i]), more, i + 1)
  }

  /** Slots with distinct tags are stored as they come. */
  lemma {:induction false} UpsertDistinct(more: seq<Slot>, i: nat)
    requires i <= |more| && forall j, k :: 0 <= j < k < |more| ==> more[j].tag != more[k].tag
    ensures UpsertAll(more[..i], more, i) == more
    decreases |more| - i
  {
    if i < |more| {
      NoSuchSlot(more[..i], 0, more[i].tag);
      assert more[..i] + [more[i]] == more[..i + 1];
      UpsertDistinct(more, i + 1);
    } else {
      assert more[..i] == more;
    }
  }

  /** First group with the count tag at or after `i`, or -1. */
  function GroupFrom(groups: seq<Group>, i: nat, tag: nat): (r: int)
    requires i <= |groups|
    ensures -1 <= r < |groups| && (r >= 0 ==> r >= i && groups[r].countTag == tag)
    decreases |groups| - i
  {
    if i == |groups| then -1 else if groups[i].countTag == tag then i else GroupFrom(groups, i + 1, tag)
  }

  function GroupIndex(groups: seq<Group>, tag: nat): (r: int)
    ensures -1 <= r < |groups| && (r >= 0 ==> groups[r].countTag == tag)
  {
    GroupFrom(groups, 0, tag)
  }

  lemma {:induction false} NoSuchGroup(groups: seq<Group>, i: nat, tag: nat)
    requires i <= |groups| && forall k :: i <= k < |groups| ==> groups[k].countTag != tag
    ensures GroupFrom(groups, i, tag) == -1
    decreases |groups| - i
  {
    if i < |groups| {
      NoSuchGroup(groups, i + 1, tag);
    }
  }

  /** Entries join the container's group with that count tag, which is created if need be. */
  function AddEntries(groups: seq<Group>, tag: nat, depth: nat, entries: seq<Entry>): seq<Group> {
    var i := GroupIndex(groups, tag);
    if i < 0 then groups + [Group(tag, depth, entries)]
    else groups[i := groups[i].(entries := groups[i].entries + entries)]
  }
}
