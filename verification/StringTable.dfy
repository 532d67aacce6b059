/** The table of NUL-terminated strings of a profile artifact. */
module StringTable {
  import opened Optional
  import opened Bytes

  const LIMIT: nat := 0x1_0000_0000

  /** v and a NUL behind it. */
  predicate LiesAt(bytes: Text, at: nat, v: Text) {
    at + |v| < |bytes| && (forall i :: 0 <= i < |v| ==> bytes[at + i] == v[i]) && bytes[at + |v|] == 0
  }

  function NulFrom(bytes: Text, at: nat): (e: nat)
    requires at <= |bytes|
    ensures at <= e <= |bytes| && (e < |bytes| ==> bytes[e] == 0) && forall i :: at <= i < e ==> bytes[i] != 0
    decreases |bytes| - at
  {
    if at == |bytes| || bytes[at] == 0 then at else NulFrom(bytes, at + 1)
  }

  /** The string at an offset, up to its NUL; none beyond the table. */
  function StringAt(bytes: Text, offset: nat): Option<Text> {
    if offset >= |bytes| then None
    else
      var e := NulFrom(bytes, offset);
      if e == |bytes| then None else Some(bytes[offset..e])
  }

  /** A stored string reads back exactly when it holds no NUL itself. */
  lemma ReadsBack(bytes: Text, at: nat, v: Text)
    requires LiesAt(bytes, at, v)
    ensures StringAt(bytes, at).Some? && (StringAt(bytes, at) == Some(v) <==> 0 !in v)
  {
    var e := NulFrom(bytes, at);
    assert e <= at + |v|;
    var s := bytes[at..e];
    forall i | 0 <= i < |s| ensures s[i] == v[i] && s[i] != 0 {
      assert s[i] == bytes[at + i];
    }
    if e < at + |v| {
      assert v[e - at] == bytes[at + (e - at)] == 0;
    } else {
      assert s == v;
    }
  }

  /** Offsets are right as long as the table is within their width. */
  ghost predicate TableOk(bytes: Text, offsets: map<Text, nat>) {
    && [] in offsets && offsets[[]] == 0
    && forall v :: v in offsets ==> offsets[v] < LIMIT && (|bytes| <= LIMIT ==> LiesAt(bytes, offsets[v], v))
  }

  ghost predicate Extends(a: map<Text, nat>, b: map<Text, nat>) {
    forall v :: v in a ==> v in b && b[v] == a[v]
  }

  lemma LiesLonger(bytes: Text, more: Text, at: nat, v: Text)
    requires LiesAt(bytes, at, v)
    ensures LiesAt(bytes + more, at, v)
  { }

  class StringTableBuilder {
    var bytes: Text
    var offsets: map<Text, nat>

    ghost predicate Valid()
      reads this
    {
      TableOk(bytes, offsets)
    }

    constructor ()
      ensures Valid() && bytes == [0] && offsets == map[[] := 0]
    {
      bytes := [0];
      offsets := map[[] := 0];
    }

    /** The offset of a string, the same at every call. */
    method Intern(value: Text) returns (offset: nat)
      requires Valid()
      modifies this
      ensures Valid() && value in offsets && offsets[value] == offset && Extends(old(offsets), offsets)
      ensures value in old(offsets) ==> offsets == old(offsets) && bytes == old(bytes)
    {
      if value == [] { return 0; }
      if value in offsets { return offsets[value]; }
      offset := |bytes| % 0x1_0000_0000;
      ghost var before, known := bytes, offsets;
      ghost var more := value + [0];
      var i := 0;
      while i < |value|
        invariant i <= |value| && bytes == before + value[..i] && offsets == known
      {
        bytes := bytes + [value[i]];
        i := i + 1;
      }
      bytes := bytes + [0];
      assert bytes == before + more;
      assert |before| + |value| < |bytes|;
      assert |bytes| <= LIMIT ==> LiesAt(bytes, offset, value) by {
        if |bytes| <= LIMIT { assert offset == |before|; }
      }
      offsets := offsets[value := offset];
      forall v | v in offsets ensures offsets[v] < LIMIT && (|bytes| <= LIMIT ==> LiesAt(bytes, offsets[v], v)) {
        if v != value && |bytes| <= LIMIT { LiesLonger(before, more, known[v], v); }
      }
    }
  }
}
