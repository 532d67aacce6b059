/** The canonical form of a contract, and what must hold for a contract to survive its text. */
module ContractForm {
  import opened EscapedText
  import opened TextLines
  import opened CanonicalOrder
  import opened Contract

  // ---- keys tell records apart

  lemma TextKeyDistinguishes()
    ensures Distinguishes(TextKey)
  {
    forall a, b | TextKey(a) == TextKey(b) ensures a == b { TextKeysDiffer(a, b); }
  }

  lemma TraceAlike(a: Trace, b: Trace)
    requires TextKey(a.sourceId) == TextKey(b.sourceId) && TextKey(a.sourcePath) == TextKey(b.sourcePath)
    ensures a == b
  {
    TextKeysDiffer(a.sourceId, b.sourceId);
    TextKeysDiffer(a.sourcePath, b.sourcePath);
  }

  lemma SameKind(a: Record, b: Record)
    requires RecordKey(a) == RecordKey(b)
    ensures (a.Warning? <==> b.Warning?) && (a.Message? <==> b.Message?) && (a.Conditional? <==> b.Conditional?)
    ensures (a.EnumRule? <==> b.EnumRule?) && (a.Service? <==> b.Service?) && (a.Flow? <==> b.Flow?)
  {
    hide TextKey, ListKey;
    assert RecordKey(a).kids[0] == RecordKey(b).kids[0];
  }

  lemma RecordKeysDiffer(a: Record, b: Record)
    requires RecordKey(a) == RecordKey(b)
    ensures a == b
  {
    SameKind(a, b);
    var n := |RecordKey(a).kids|;
    assert |RecordKey(b).kids| == n;
    var x, y := RecordKey(a).kids, RecordKey(b).kids;
    hide TextKey, ListKey;
    assert x[1] == y[1] && x[2] == y[2];
    assert n > 4 ==> x[3] == y[3] && x[4] == y[4];
    assert n > 6 ==> x[5] == y[5] && x[6] == y[6];
    assert n > 7 ==> x[7] == y[7];
    assert n > 8 ==> x[8] == y[8];
    match a
    case Warning(c, m) =>
      TextKeysDiffer(c, b.code);
      TextKeysDiffer(m, b.message);
    case Message(t, n, _, _, _, trace) =>
      TextKeysDiffer(t, b.msgType);
      TextKeysDiffer(n, b.name);
      TraceAlike(trace, b.trace);
    case Conditional(i, t, _, _, _, v, trace) =>
      TextKeysDiffer(i, b.ruleId);
      TextKeysDiffer(t, b.msgType);
      TextKeysDiffer(v, b.whenValue);
      TraceAlike(trace, b.trace);
    case EnumRule(i, t, _, vs, trace) =>
      TextKeysDiffer(i, b.ruleId);
      TextKeysDiffer(t, b.msgType);
      ListKeysDiffer(vs, b.allowed);
      TraceAlike(trace, b.trace);
    case Service(s, _, _, t, trace) =>
      TextKeysDiffer(s, b.serviceName);
      TextKeysDiffer(t, b.msgType);
      TraceAlike(trace, b.trace);
    case Flow(e, _, f, _, t, n, trace) =>
      TextKeysDiffer(e, b.edgeId);
      TextKeysDiffer(f, b.fromMsgType);
      TextKeysDiffer(t, b.toMsgType);
      TextKeysDiffer(n, b.name);
      TraceAlike(trace, b.trace);
  }

  lemma RecordKeyDistinguishes()
    ensures Distinguishes(RecordKey)
  {
    hide RecordKey;
    forall a, b | RecordKey(a) == RecordKey(b) ensures a == b { RecordKeysDiffer(a, b); }
  }

  // ---- the canonical form is a fixed point and forgets order

  lemma ArrangedHolds(rs: seq<Record>)
    ensures multiset(Arranged(rs)) == multiset(rs)
    ensures forall r :: r in Arranged(rs) <==> r in rs
  {
    SortSorts(rs, RecordKey);
    forall r ensures r in Arranged(rs) <==> r in rs {
      assert r in Arranged(rs) <==> r in multiset(Arranged(rs));
    }
  }

  lemma ArrangedTwice(rs: seq<Record>)
    ensures Arranged(Arranged(rs)) == Arranged(rs)
  {
    RecordKeyDistinguishes();
    SortSorts(rs, RecordKey);
    SortOfSorted(Sort(rs, RecordKey), RecordKey);
  }

  lemma ArrangedAlike(a: seq<Record>, b: seq<Record>)
    requires multiset(a) == multiset(b)
    ensures Arranged(a) == Arranged(b)
  {
    RecordKeyDistinguishes();
    SortIgnoresOrder(a, b, RecordKey);
  }

  lemma TidyEnumTwice(r: Record)
    ensures TidyEnum(TidyEnum(r)) == TidyEnum(r)
  {
    if r.EnumRule? {
      TextKeyDistinguishes();
      TidyTwice(r.allowed, TextKey);
    }
  }

  predicate Tidied(rs: seq<Record>) {
    forall r :: r in rs ==> TidyEnum(r) == r
  }

  lemma TidiedStays(rs: seq<Record>)
    requires Tidied(rs)
    ensures TidyEnums(rs) == rs
  {
    forall i | 0 <= i < |rs| ensures TidyEnums(rs)[i] == rs[i] { assert rs[i] in rs; }
  }

  lemma EnumsTidied(rs: seq<Record>)
    ensures Tidied(TidyEnums(rs)) && Tidied(Arranged(TidyEnums(rs)))
  {
    var t := TidyEnums(rs);
    forall r | r in t ensures TidyEnum(r) == r {
      var i :| 0 <= i < |t| && t[i] == r;
      TidyEnumTwice(rs[i]);
    }
    ArrangedHolds(t);
  }

  lemma CanonicalTwice(c: Contract)
    ensures Canonical(Canonical(c)) == Canonical(c)
  {
    hide TidyWords, Arranged, TidyEnums;
    TidyWordsTwice(c.semantics);
    ArrangedTwice(c.warnings);
    ArrangedTwice(c.messages);
    ArrangedTwice(c.conditionals);
    EnumsTidied(c.enums);
    TidiedStays(Arranged(TidyEnums(c.enums)));
    ArrangedTwice(TidyEnums(c.enums));
    ArrangedTwice(c.services);
    ArrangedTwice(c.flows);
  }

  lemma TidyWordsTwice(ws: seq<string>)
    ensures TidyWords(TidyWords(ws)) == TidyWords(ws)
  {
    TextKeyDistinguishes();
    TidyTwice(ws, TextKey);
  }

  /** Equal up to the order of records, repeats among words and the order of allowed values. */
  ghost predicate SameContents(c: Contract, d: Contract) {
    && c.profileId == d.profileId && c.schemaHash == d.schemaHash
    && c.sourceKind == d.sourceKind && c.sourceName == d.sourceName
    && (forall w :: w in c.semantics <==> w in d.semantics)
    && multiset(c.warnings) == multiset(d.warnings) && multiset(c.messages) == multiset(d.messages)
    && multiset(c.conditionals) == multiset(d.conditionals)
    && multiset(TidyEnums(c.enums)) == multiset(TidyEnums(d.enums))
    && multiset(c.services) == multiset(d.services) && multiset(c.flows) == multiset(d.flows)
  }

  /** Text and id do not depend on the order in which a contract lists its records. */
  lemma SerializationIgnoresOrder(c: Contract, d: Contract)
    requires SameContents(c, d)
    ensures Canonical(c) == Canonical(d) && ContractId(c) == ContractId(d) && Serialize(c) == Serialize(d)
  {
    assert Canonical(c) == Canonical(d) by {
      hide Arranged, TidyEnums, Tidy;
      TextKeyDistinguishes();
      TidyIgnoresOrder(c.semantics, d.semantics, TextKey);
      ArrangedAlike(c.warnings, d.warnings);
      ArrangedAlike(c.messages, d.messages);
      ArrangedAlike(c.conditionals, d.conditionals);
      ArrangedAlike(TidyEnums(c.enums), TidyEnums(d.enums));
      ArrangedAlike(c.services, d.services);
      ArrangedAlike(c.flows, d.flows);
    }
  }

  /** The canonical form holds what the contract holds. */
  lemma CanonicalKeeps(c: Contract)
    ensures SameContents(c, Canonical(c))
  {
    TextKeyDistinguishes();
    TidyRises(c.semantics, TextKey);
    EnumsTidied(c.enums);
    TidiedStays(Arranged(TidyEnums(c.enums)));
    hide Arranged, TidyEnums, Tidy, RecordKey;
    ArrangedHolds(c.warnings);
    ArrangedHolds(c.messages);
    ArrangedHolds(c.conditionals);
    ArrangedHolds(TidyEnums(c.enums));
    ArrangedHolds(c.services);
    ArrangedHolds(c.flows);
  }

  /** Contracts have one canonical form exactly when they hold the same. */
  lemma CanonicalExactly(c: Contract, d: Contract)
    ensures Canonical(c) == Canonical(d) <==> SameContents(c, d)
  {
    if SameContents(c, d) { SerializationIgnoresOrder(c, d); }
    CanonicalKeeps(c);
    CanonicalKeeps(d);
    hide Canonical, TidyEnums;
  }

  // ---- what the text can carry

  predicate EndTight(s: string) {
    s == [] || !IsSpace(s[|s| - 1])
  }

  /** The field printed last on a record's line. */
  function LastField(r: Record): string {
    if r.Warning? then r.message else r.trace.sourcePath
  }

  predicate LineKeeps(r: Record) {
    EndTight(Escape(LastField(r))) && (r.EnumRule? ==> r.allowed != [])
  }

  predicate AllKeep(rs: seq<Record>) {
    forall r :: r in rs ==> LineKeeps(r)
  }

  predicate NoRule(rs: seq<Record>, r: Record) {
    forall x :: x in rs ==> !SameRule(x, r)
  }

  predicate DistinctRules(rs: seq<Record>) {
    rs == [] || (NoRule(rs[1..], rs[0]) && DistinctRules(rs[1..]))
  }

  predicate HeaderSafe(v: string) {
    BAR !in v && Tight(Escape(v))
  }

  predicate WordsSafe(ws: seq<string>) {
    forall w :: w in ws ==> ',' !in w && BAR !in w
  }

  predicate Clean(c: Contract) {
    && HeaderSafe(c.sourceKind) && HeaderSafe(c.sourceName) && WordsSafe(c.semantics)
    && AllKeep(c.warnings) && AllKeep(c.messages) && AllKeep(c.conditionals) && AllKeep(c.enums)
    && AllKeep(c.services) && AllKeep(c.flows) && DistinctRules(c.enums)
  }

  predicate PrintedWordsSafe(ws: seq<string>) {
    ws != [""] && Tight(Join(ws, ','))
  }

  /** The contracts the text format can carry. */
  predicate Survives(c: Contract) {
    Clean(c) && PrintedWordsSafe(TidyWords(c.semantics))
  }

  // ---- cleanness does not depend on order

  lemma ArrangedKeeps(rs: seq<Record>)
    ensures AllKeep(Arranged(rs)) <==> AllKeep(rs)
  {
    ArrangedHolds(rs);
  }

  lemma TidyEnumsKeep(rs: seq<Record>)
    ensures AllKeep(TidyEnums(rs)) <==> AllKeep(rs)
  {
    var t := TidyEnums(rs);
    forall i | 0 <= i < |rs| ensures LineKeeps(t[i]) <==> LineKeeps(rs[i]) {
      TextKeyDistinguishes();
      if rs[i].EnumRule? {
        TidyRises(rs[i].allowed, TextKey);
        if rs[i].allowed != [] { assert rs[i].allowed[0] in t[i].allowed; }
        if t[i].allowed != [] { assert t[i].allowed[0] in rs[i].allowed; }
      }
    }
    assert AllKeep(t) <==> forall i :: 0 <= i < |t| ==> LineKeeps(t[i]);
    assert AllKeep(rs) <==> forall i :: 0 <= i < |rs| ==> LineKeeps(rs[i]);
  }

  lemma {:induction false} InsertDistinct(x: Record, s: seq<Record>)
    ensures DistinctRules(Insert(x, s, RecordKey)) <==> NoRule(s, x) && DistinctRules(s)
    ensures forall r :: r in Insert(x, s, RecordKey) <==> r == x || r in s
  {
    hide RecordKey, SameRule;
    if s == [] || !Before(RecordKey, s[0], x) {
      assert ([x] + s)[1..] == s;
    } else {
      var t := Insert(x, s[1..], RecordKey);
      InsertDistinct(x, s[1..]);
      assert ([s[0]] + t)[1..] == t;
      assert s == [s[0]] + s[1..];
      RuleSymmetric(x, s[0]);
    }
  }

  lemma RuleSymmetric(a: Record, b: Record)
    ensures SameRule(a, b) <==> SameRule(b, a)
  { }

  lemma {:induction false} ArrangedDistinct(rs: seq<Record>)
    ensures DistinctRules(Arranged(rs)) <==> DistinctRules(rs)
  {
    if rs != [] {
      ArrangedDistinct(rs[1..]);
      InsertDistinct(rs[0], Arranged(rs[1..]));
      ArrangedHolds(rs[1..]);
    }
  }

  lemma {:induction false} TidyEnumsDistinct(rs: seq<Record>)
    ensures DistinctRules(TidyEnums(rs)) <==> DistinctRules(rs)
  {
    if rs != [] {
      var t := TidyEnums(rs[1..]);
      TidyEnumsDistinct(rs[1..]);
      assert TidyEnums(rs)[1..] == t;
      assert NoRule(t, TidyEnum(rs[0])) <==> NoRule(rs[1..], rs[0]) by {
        assert forall i :: 0 <= i < |t| ==> (SameRule(t[i], TidyEnum(rs[0])) <==> SameRule(rs[1..][i], rs[0]));
      }
    }
  }

  lemma TidyWordsSafe(ws: seq<string>)
    ensures WordsSafe(TidyWords(ws)) <==> WordsSafe(ws)
  {
    TextKeyDistinguishes();
    TidyRises(ws, TextKey);
  }

  /** The condition looks through canonicalization. */
  lemma CanonicalClean(c: Contract)
    ensures Clean(Canonical(c)) <==> Clean(c)
    ensures Survives(Canonical(c)) <==> Survives(c)
  {
    hide HeaderSafe, WordsSafe, AllKeep, DistinctRules, TidyWords, Arranged, TidyEnums, PrintedWordsSafe;
    TidyWordsSafe(c.semantics);
    TidyWordsTwice(c.semantics);
    ArrangedKeeps(c.warnings);
    ArrangedKeeps(c.messages);
    ArrangedKeeps(c.conditionals);
    TidyEnumsKeep(c.enums);
    ArrangedKeeps(TidyEnums(c.enums));
    TidyEnumsDistinct(c.enums);
    ArrangedDistinct(TidyEnums(c.enums));
    ArrangedKeeps(c.services);
    ArrangedKeeps(c.flows);
  }
}
