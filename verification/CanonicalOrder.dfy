/** Lexicographic order on nested keys, and lists put in that order as a library sort leaves them. */
module CanonicalOrder {

  /** A string is a node of characters, a tuple a node of its fields. */
  datatype Key = Leaf(n: nat) | Node(kids: seq<Key>)

  predicate Less(a: Key, b: Key)
    decreases a
  {
    if a.Leaf? then b.Node? || a.n < b.n else b.Node? && ListLess(a.kids, b.kids)
  }

  predicate ListLess(a: seq<Key>, b: seq<Key>)
    decreases a
  {
    b != [] && (a == [] || Less(a[0], b[0]) || (a[0] == b[0] && ListLess(a[1..], b[1..])))
  }

  lemma {:induction false} Compares(a: Key, b: Key)
    ensures Less(a, b) || a == b || Less(b, a)
    ensures !(Less(a, b) && Less(b, a)) && !Less(a, a)
    decreases a
  {
    if a.Node? {
      ListCompares(a.kids, a.kids);
      if b.Node? { ListCompares(a.kids, b.kids); }
    }
  }

  lemma {:induction false} ListCompares(a: seq<Key>, b: seq<Key>)
    ensures ListLess(a, b) || a == b || ListLess(b, a)
    ensures !(ListLess(a, b) && ListLess(b, a)) && !ListLess(a, a)
    decreases a
  {
    if a != [] {
      Compares(a[0], a[0]);
      ListCompares(a[1..], a[1..]);
      if b != [] {
        Compares(a[0], b[0]);
        ListCompares(a[1..], b[1..]);
        assert a == [a[0]] + a[1..] && b == [b[0]] + b[1..];
      }
    }
  }

  lemma {:induction false} Chains(a: Key, b: Key, c: Key)
    requires Less(a, b) && Less(b, c)
    ensures Less(a, c)
    decreases a
  {
    if a.Node? { ListChains(a.kids, b.kids, c.kids); }
  }

  lemma {:induction false} ListChains(a: seq<Key>, b: seq<Key>, c: seq<Key>)
    requires ListLess(a, b) && ListLess(b, c)
    ensures ListLess(a, c)
    decreases a
  {
    if a != [] {
      if Less(a[0], b[0]) && Less(b[0], c[0]) {
        Chains(a[0], b[0], c[0]);
      } else if a[0] == b[0] == c[0] && ListLess(a[1..], b[1..]) && ListLess(b[1..], c[1..]) {
        ListChains(a[1..], b[1..], c[1..]);
      }
    }
  }

  // ---- sorted lists

  ghost predicate Distinguishes<T(!new)>(key: T -> Key) {
    forall a, b :: key(a) == key(b) ==> a == b
  }

  predicate Before<T>(key: T -> Key, a: T, b: T) {
    Less(key(a), key(b))
  }

  ghost predicate Sorted<T(!new)>(s: seq<T>, key: T -> Key) {
    forall i, j :: 0 <= i < j < |s| ==> !Before(key, s[j], s[i])
  }

  ghost predicate Rising<T(!new)>(s: seq<T>, key: T -> Key) {
    forall i, j :: 0 <= i < j < |s| ==> Before(key, s[i], s[j])
  }

  function Insert<T>(x: T, s: seq<T>, key: T -> Key): seq<T> {
    if s == [] || !Before(key, s[0], x) then [x] + s else [s[0]] + Insert(x, s[1..], key)
  }

  function Sort<T>(s: seq<T>, key: T -> Key): seq<T> {
    if s == [] then [] else Insert(s[0], Sort(s[1..], key), key)
  }

  lemma {:induction false} InsertSorted<T(!new)>(x: T, s: seq<T>, key: T -> Key)
    requires Sorted(s, key)
    ensures Sorted(Insert(x, s, key), key) && multiset(Insert(x, s, key)) == multiset([x] + s)
  {
    var r := Insert(x, s, key);
    if s == [] {
    } else if !Before(key, s[0], x) {
      forall j | 0 <= j < |s| ensures !Before(key, s[j], x) {
        NotBeforeChains(key, x, s[0], s[j]);
      }
    } else {
      InsertSorted(x, s[1..], key);
      var tail := Insert(x, s[1..], key);
      assert s == [s[0]] + s[1..];
      forall j | 0 <= j < |tail| ensures !Before(key, tail[j], s[0]) {
        assert tail[j] in multiset(tail);
        if tail[j] == x {
          Compares(key(s[0]), key(x));
        } else {
          assert tail[j] in s[1..];
        }
      }
    }
  }

  lemma NotBeforeChains<T>(key: T -> Key, a: T, b: T, c: T)
    requires !Before(key, b, a) && (b == c || !Before(key, c, b))
    ensures !Before(key, c, a)
  {
    var ka, kb, kc := key(a), key(b), key(c);
    Compares(ka, kb);
    Compares(kb, kc);
    Compares(ka, kc);
    if Less(kc, ka) {
      if Less(ka, kb) { Chains(kc, ka, kb); }
    }
  }

  /** Sorting orders the same elements. */
  lemma {:induction false} SortSorts<T(!new)>(s: seq<T>, key: T -> Key)
    ensures Sorted(Sort(s, key), key) && multiset(Sort(s, key)) == multiset(s)
  {
    if s != [] {
      SortSorts(s[1..], key);
      InsertSorted(s[0], Sort(s[1..], key), key);
      assert s == [s[0]] + s[1..];
    }
  }

  lemma SameLeast<T(!new)>(a: seq<T>, b: seq<T>, key: T -> Key)
    requires a != [] && b != [] && Sorted(a, key) && Sorted(b, key) && Distinguishes(key)
    requires multiset(a) == multiset(b)
    ensures a[0] == b[0]
  {
    hide Less;
    assert a[0] in multiset(b) && b[0] in multiset(a);
    var i :| 0 <= i < |b| && b[i] == a[0];
    var j :| 0 <= j < |a| && a[j] == b[0];
    Compares(key(a[0]), key(b[0]));
  }

  lemma SortedRest<T(!new)>(a: seq<T>, key: T -> Key)
    requires a != [] && Sorted(a, key)
    ensures Sorted(a[1..], key)
  {
    hide Before;
  }

  lemma WithoutFirst<T>(a: seq<T>)
    requires a != []
    ensures multiset(a[1..]) == multiset(a) - multiset{a[0]}
  {
    assert a == [a[0]] + a[1..];
  }

  /** There is one ordered arrangement of given elements, whichever way a sort reaches it. */
  lemma {:induction false} SortedIsUnique<T(!new)>(a: seq<T>, b: seq<T>, key: T -> Key)
    requires Sorted(a, key) && Sorted(b, key) && multiset(a) == multiset(b) && Distinguishes(key)
    ensures a == b
  {
    hide *;
    assert |multiset(a)| == |multiset(b)|;
    if a != [] {
      SameLeast(a, b, key);
      WithoutFirst(a);
      WithoutFirst(b);
      SortedRest(a, key);
      SortedRest(b, key);
      SortedIsUnique(a[1..], b[1..], key);
      assert a == [a[0]] + a[1..] && b == [b[0]] + b[1..];
    }
  }

  lemma SortIgnoresOrder<T(!new)>(a: seq<T>, b: seq<T>, key: T -> Key)
    requires multiset(a) == multiset(b) && Distinguishes(key)
    ensures Sort(a, key) == Sort(b, key)
  {
    SortSorts(a, key);
    SortSorts(b, key);
    SortedIsUnique(Sort(a, key), Sort(b, key), key);
  }

  lemma SortOfSorted<T(!new)>(a: seq<T>, key: T -> Key)
    requires Sorted(a, key) && Distinguishes(key)
    ensures Sort(a, key) == a
  {
    SortSorts(a, key);
    SortedIsUnique(Sort(a, key), a, key);
  }

  // ---- dropping repeats

  function Unique<T(!new, ==)>(s: seq<T>): (r: seq<T>)
    ensures forall x :: x in r <==> x in s
    ensures |r| <= |s| && (s != [] ==> r != [] && r[0] == s[0])
  {
    if |s| < 2 then s
    else
      assert s == [s[0]] + s[1..];
      if s[0] == s[1] then Unique(s[1..]) else [s[0]] + Unique(s[1..])
  }

  lemma {:induction false} UniqueRises<T(!new)>(s: seq<T>, key: T -> Key)
    requires Sorted(s, key) && Distinguishes(key)
    ensures Rising(Unique(s), key)
  {
    if |s| >= 2 {
      UniqueRises(s[1..], key);
      var tail := Unique(s[1..]);
      if s[0] != s[1] {
        forall j | 0 <= j < |tail| ensures Before(key, s[0], tail[j]) {
          assert tail[j] in s[1..];
          var i :| 1 <= i < |s| && s[i] == tail[j];
          Compares(key(s[0]), key(s[1]));
          Compares(key(s[1]), key(s[i]));
          if i > 1 && Less(key(s[1]), key(s[i])) { Chains(key(s[0]), key(s[1]), key(s[i])); }
        }
      }
    }
  }

  lemma {:induction false} RisingIsUnique<T(!new)>(a: seq<T>, b: seq<T>, key: T -> Key)
    requires Rising(a, key) && Rising(b, key) && forall x :: x in a <==> x in b
    ensures a == b
  {
    assert b != [] ==> b[0] in b;
    if a != [] {
      assert a[0] in b;
      var i :| 0 <= i < |b| && b[i] == a[0];
      assert b[0] in a;
      var j :| 0 <= j < |a| && a[j] == b[0];
      Compares(key(a[0]), key(b[0]));
      assert a[0] == b[0];
      forall x ensures x in a[1..] <==> x in b[1..] {
        RisingTail(a, x, key);
        RisingTail(b, x, key);
      }
      RisingIsUnique(a[1..], b[1..], key);
      assert a == [a[0]] + a[1..] && b == [b[0]] + b[1..];
    }
  }

  lemma RisingTail<T(!new)>(a: seq<T>, x: T, key: T -> Key)
    requires a != [] && Rising(a, key)
    ensures x in a[1..] <==> x in a && x != a[0]
  {
    if x in a[1..] {
      var i :| 1 <= i < |a| && a[i] == x;
      Compares(key(a[0]), key(x));
    }
  }

  function Tidy<T(!new, ==)>(s: seq<T>, key: T -> Key): seq<T> {
    Unique(Sort(s, key))
  }

  /** The tidied list rises and has the same members. */
  lemma TidyRises<T(!new)>(s: seq<T>, key: T -> Key)
    requires Distinguishes(key)
    ensures Rising(Tidy(s, key), key) && forall x :: x in Tidy(s, key) <==> x in s
  {
    SortSorts(s, key);
    UniqueRises(Sort(s, key), key);
    forall x ensures x in Sort(s, key) <==> x in s {
      assert x in Sort(s, key) <==> x in multiset(Sort(s, key));
    }
  }

  /** Only the set of members matters. */
  lemma TidyIgnoresOrder<T(!new)>(a: seq<T>, b: seq<T>, key: T -> Key)
    requires Distinguishes(key) && forall x :: x in a <==> x in b
    ensures Tidy(a, key) == Tidy(b, key)
  {
    TidyRises(a, key);
    TidyRises(b, key);
    RisingIsUnique(Tidy(a, key), Tidy(b, key), key);
  }

  lemma TidyTwice<T(!new)>(s: seq<T>, key: T -> Key)
    requires Distinguishes(key)
    ensures Tidy(Tidy(s, key), key) == Tidy(s, key)
  {
    TidyRises(s, key);
    TidyIgnoresOrder(Tidy(s, key), s, key);
  }

  // ---- keys of texts

  function TextKey(s: string): Key {
    Node(seq(|s|, i requires 0 <= i < |s| => Leaf(s[i] as nat)))
  }

  lemma TextKeysDiffer(a: string, b: string)
    requires TextKey(a) == TextKey(b)
    ensures a == b
  {
    assert |TextKey(a).kids| == |a| && |TextKey(b).kids| == |b|;
    forall i | 0 <= i < |a| ensures a[i] == b[i] {
      assert TextKey(a).kids[i] == TextKey(b).kids[i];
    }
  }

  function ListKey(s: seq<string>): Key {
    Node(seq(|s|, i requires 0 <= i < |s| => TextKey(s[i])))
  }

  lemma ListKeysDiffer(a: seq<string>, b: seq<string>)
    requires ListKey(a) == ListKey(b)
    ensures a == b
  {
    assert |ListKey(a).kids| == |a| && |ListKey(b).kids| == |b|;
    forall i | 0 <= i < |a| ensures a[i] == b[i] {
      assert ListKey(a).kids[i] == ListKey(b).kids[i];
      TextKeysDiffer(a[i], b[i]);
    }
  }
}
