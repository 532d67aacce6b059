/** Loading the record lines of a contract, list by list. */
module ContractLists {
  import opened EscapedText
  import opened Contract
  import opened ContractForm
  import opened ContractLoads

  datatype Kind = Warnings | Messages | Conditionals | Enums | Services | Flows

  function KindOf(r: Record): Kind {
    match r
    case Warning(_, _) => Warnings
    case Message(_, _, _, _, _, _) => Messages
    case Conditional(_, _, _, _, _, _, _) => Conditionals
    case EnumRule(_, _, _, _, _) => Enums
    case Service(_, _, _, _, _) => Services
    case Flow(_, _, _, _, _, _, _) => Flows
  }

  function ListOf(c: Contract, k: Kind): seq<Record> {
    match k
    case Warnings => c.warnings
    case Messages => c.messages
    case Conditionals => c.conditionals
    case Enums => c.enums
    case Services => c.services
    case Flows => c.flows
  }

  function WithList(c: Contract, k: Kind, rs: seq<Record>): Contract {
    match k
    case Warnings => c.(warnings := rs)
    case Messages => c.(messages := rs)
    case Conditionals => c.(conditionals := rs)
    case Enums => c.(enums := rs)
    case Services => c.(services := rs)
    case Flows => c.(flows := rs)
  }

  function Grown(l: Loading, k: Kind, rs: seq<Record>): Loading {
    l.(contract := WithList(l.contract, k, ListOf(l.contract, k) + rs))
  }

  // ---- one record

  lemma OneLineLoads(l: Loading, r: Record, value: string)
    requires LineKeeps(r)
    ensures LoadLine(l, LineOf(r, value)) == Ok(l.(contract := AddRecord(l.contract, Reread(r, value))))
  {
    HeadsPlain(r, value);
    FieldsBack(l, Fields(r, value));
    FieldsParse(r, value);
    hide Fields, ParseRecord, LoadLine, Join, Escape;
  }

  lemma {:induction false} NewRule(before: seq<Record>, r: Record)
    requires r.EnumRule? && NoRule(before, r)
    ensures AddEnum(before, r) == before + [r]
  {
    if before != [] {
      NewRule(before[1..], r);
      assert before == [before[0]] + before[1..];
    }
  }

  lemma {:induction false} KnownRule(before: seq<Record>, x: Record, r: Record)
    requires r.EnumRule? && x.EnumRule? && NoRule(before, r) && SameRule(x, r)
    ensures AddEnum(before + [x], r) == before + [x.(allowed := x.allowed + r.allowed)]
  {
    var rules := before + [x];
    if before == [] {
      assert rules == [x] && rules[1..] == [];
    } else {
      assert rules[1..] == before[1..] + [x];
      KnownRule(before[1..], x, r);
      assert before == [before[0]] + before[1..];
    }
  }

  /** The rules behind an enumeration whose values so far are vs. */
  function Gathered(before: seq<Record>, r: Record, vs: seq<string>): seq<Record>
    requires r.EnumRule?
  {
    if vs == [] then before else before + [r.(allowed := vs)]
  }

  function WithEnums(l: Loading, rules: seq<Record>): Loading {
    l.(contract := l.contract.(enums := rules))
  }

  lemma AddedValue(before: seq<Record>, r: Record, seen: seq<string>, v: string)
    requires r.EnumRule? && NoRule(before, r)
    ensures AddEnum(Gathered(before, r, seen), r.(allowed := [v])) == Gathered(before, r, seen + [v])
  {
    var one := r.(allowed := [v]);
    assert NoRule(before, one);
    hide AddEnum, NoRule;
    if seen == [] {
      NewRule(before, one);
      assert seen + [v] == [v];
    } else {
      KnownRule(before, r.(allowed := seen), one);
    }
  }

  function AddValues(rules: seq<Record>, r: Record, values: seq<string>): seq<Record>
    requires r.EnumRule?
    decreases |values|
  {
    if values == [] then rules else AddValues(AddEnum(rules, r.(allowed := [values[0]])), r, values[1..])
  }

  /** Adding values one by one gathers them in one rule. */
  lemma {:induction false} ValuesGather(before: seq<Record>, r: Record, seen: seq<string>, values: seq<string>)
    requires r.EnumRule? && NoRule(before, r)
    ensures AddValues(Gathered(before, r, seen), r, values) == Gathered(before, r, seen + values)
    decreases |values|
  {
    hide NoRule, Gathered, AddEnum;
    if values == [] {
      assert seen + values == seen;
    } else {
      AddedValue(before, r, seen, values[0]);
      ValuesGather(before, r, seen + [values[0]], values[1..]);
      assert (seen + [values[0]]) + values[1..] == seen + values;
    }
  }

  lemma RuleGathers(before: seq<Record>, r: Record, none: seq<string>)
    requires r.EnumRule? && NoRule(before, r) && r.allowed != [] && none == []
    ensures AddValues(before, r, r.allowed) == before + [r]
  {
    hide NoRule, AddValues;
    ValuesGather(before, r, none, r.allowed);
    assert none + r.allowed == r.allowed;
  }

  lemma LoadNothing(l: Loading)
    ensures LoadLines(l, []) == Ok(l)
  { }

  lemma LoadOne(l: Loading, line: string)
    ensures LoadLines(l, [line]) == LoadLine(l, line)
  {
    hide LoadLine;
    assert [line][1..] == [];
  }

  lemma ValueLinesStep(r: Record, values: seq<string>)
    requires values != []
    ensures ValueLines(r, values) == [LineOf(r, values[0])] + ValueLines(r, values[1..])
  {
    hide LineOf;
  }

  /** The lines of an enumeration add its values one by one. */
  lemma {:induction false} ValuesLoad(l: Loading, r: Record, values: seq<string>)
    requires r.EnumRule? && LineKeeps(r)
    ensures LoadLines(l, ValueLines(r, values)) == Ok(WithEnums(l, AddValues(l.contract.enums, r, values)))
    decreases |values|
  {
    if values == [] {
      LoadNothing(l);
    } else {
      ValueLinesStep(r, values);
      hide LoadLine, LoadLines, ValueLines, LineOf, LineKeeps, AddEnum;
      OneLineLoads(l, r, values[0]);
      LoadFirst(l, LineOf(r, values[0]), ValueLines(r, values[1..]));
      ValuesLoad(WithEnums(l, AddEnum(l.contract.enums, r.(allowed := [values[0]]))), r, values[1..]);
    }
  }

  lemma RuleLoads(l: Loading, r: Record, none: seq<string>)
    requires r.EnumRule? && LineKeeps(r) && NoRule(l.contract.enums, r) && none == []
    ensures LoadLines(l, RecordLines(r)) == Ok(WithEnums(l, l.contract.enums + [r]))
  {
    assert r.allowed != [];
    hide LoadLines, ValueLines, LineKeeps, NoRule, AddValues;
    ValuesLoad(l, r, r.allowed);
    RuleGathers(l.contract.enums, r, none);
  }

  lemma PlainLoads(l: Loading, r: Record, none: string)
    requires !r.EnumRule? && LineKeeps(r) && none == []
    ensures LoadLines(l, RecordLines(r)) == Ok(l.(contract := AddRecord(l.contract, r)))
  {
    hide LoadLine, LoadLines, LineOf, LineKeeps, AddRecord;
    OneLineLoads(l, r, none);
    LoadOne(l, LineOf(r, none));
  }

  lemma RecordLoads(l: Loading, r: Record)
    requires LineKeeps(r) && (r.EnumRule? ==> NoRule(l.contract.enums, r))
    ensures LoadLines(l, RecordLines(r)) == Ok(Grown(l, KindOf(r), [r]))
  {
    hide LoadLines, RecordLines, LineKeeps, NoRule;
    if r.EnumRule? { RuleLoads(l, r, []); } else { PlainLoads(l, r, []); }
  }

  // ---- lists of records

  lemma {:induction false} DistinctApart(a: seq<Record>, b: seq<Record>)
    requires DistinctRules(a + b)
    ensures forall r :: r in b ==> NoRule(a, r)
  {
    if a != [] {
      assert (a + b)[1..] == a[1..] + b;
      DistinctApart(a[1..], b);
      forall r | r in b ensures NoRule(a, r) {
        RuleSymmetric(a[0], r);
        assert a == [a[0]] + a[1..];
      }
    }
  }

  predicate Ready(c: Contract, rs: seq<Record>, k: Kind) {
    && AllKeep(rs) && (forall r :: r in rs ==> KindOf(r) == k)
    && (k == Enums ==> DistinctRules(c.enums + rs))
  }

  lemma ReadyFirst(c: Contract, rs: seq<Record>, k: Kind)
    requires rs != [] && Ready(c, rs, k)
    ensures LineKeeps(rs[0]) && KindOf(rs[0]) == k && (rs[0].EnumRule? ==> NoRule(c.enums, rs[0]))
    ensures Ready(WithList(c, k, ListOf(c, k) + [rs[0]]), rs[1..], k)
  {
    assert rs[0] in rs;
    if k == Enums {
      DistinctApart(c.enums, rs);
      assert (c.enums + [rs[0]]) + rs[1..] == c.enums + rs;
    }
  }

  lemma AllLinesStep(rs: seq<Record>)
    requires rs != []
    ensures AllLines(rs) == RecordLines(rs[0]) + AllLines(rs[1..])
  { }

  lemma GrownTwice(l: Loading, k: Kind, r: Record, rs: seq<Record>)
    ensures Grown(Grown(l, k, [r]), k, rs) == Grown(l, k, [r] + rs)
  {
    assert (ListOf(l.contract, k) + [r]) + rs == ListOf(l.contract, k) + ([r] + rs);
  }

  lemma {:induction false} ListLoads(l: Loading, rs: seq<Record>, k: Kind)
    requires Ready(l.contract, rs, k)
    ensures LoadLines(l, AllLines(rs)) == Ok(Grown(l, k, rs))
    decreases |rs|
  {
    if rs == [] {
      assert ListOf(l.contract, k) + rs == ListOf(l.contract, k);
      assert AllLines(rs) == [];
      LoadNothing(l);
    } else {
      ReadyFirst(l.contract, rs, k);
      AllLinesStep(rs);
      var next := Grown(l, k, [rs[0]]);
      assert Ready(next.contract, rs[1..], k);
      hide LoadLines, Ready, LineKeeps, RecordLines, AllLines, Grown, NoRule;
      RecordLoads(l, rs[0]);
      LoadConcat(l, RecordLines(rs[0]), AllLines(rs[1..]));
      ListLoads(next, rs[1..], k);
      GrownTwice(l, k, rs[0], rs[1..]);
      assert [rs[0]] + rs[1..] == rs;
    }
  }

  lemma {:induction false} AllLinesConcat(a: seq<Record>, b: seq<Record>)
    ensures AllLines(a + b) == AllLines(a) + AllLines(b)
  {
    if a == [] {
      assert a + b == b;
    } else {
      assert (a + b)[1..] == a[1..] + b;
      AllLinesConcat(a[1..], b);
    }
  }

  predicate NoRecords(c: Contract) {
    c.warnings == [] && c.messages == [] && c.conditionals == [] && c.enums == [] && c.services == [] && c.flows == []
  }

  function WithRecords(c: Contract, d: Contract): Contract {
    c.(warnings := d.warnings, messages := d.messages, conditionals := d.conditionals, enums := d.enums,
       services := d.services, flows := d.flows)
  }

  lemma FirstList(l: Loading, rs: seq<Record>, k: Kind)
    requires Ready(l.contract, rs, k) && ListOf(l.contract, k) == []
    ensures LoadLines(l, AllLines(rs)) == Ok(l.(contract := WithList(l.contract, k, rs)))
  {
    hide LoadLines, AllLines, Ready;
    ListLoads(l, rs, k);
    assert ListOf(l.contract, k) + rs == rs;
  }

  lemma NextList(l: Loading, done: seq<Record>, m: Loading, rs: seq<Record>, k: Kind)
    requires LoadLines(l, AllLines(done)) == Ok(m) && Ready(m.contract, rs, k) && ListOf(m.contract, k) == []
    ensures LoadLines(l, AllLines(done + rs)) == Ok(m.(contract := WithList(m.contract, k, rs)))
  {
    hide LoadLines, AllLines, Ready;
    AllLinesConcat(done, rs);
    LoadConcat(l, AllLines(done), AllLines(rs));
    FirstList(m, rs, k);
  }

  /** A clean list of one kind can follow records of other kinds. */
  lemma ListReady(c: Contract, rs: seq<Record>, k: Kind)
    requires ListOf(c, k) == [] && AllKeep(rs) && (forall r :: r in rs ==> KindOf(r) == k)
    requires k == Enums ==> DistinctRules(rs)
    ensures Ready(c, rs, k)
  {
    hide AllKeep, DistinctRules;
    if k == Enums { assert c.enums + rs == rs; }
  }

  /** The record lines of a clean contract load as its records, in order. */
  lemma RecordsLoad(l: Loading, d: Contract)
    requires NoRecords(l.contract) && Proper(d) && Clean(d)
    ensures LoadLines(l, AllLines(Records(d))) == Ok(l.(contract := WithRecords(l.contract, d)))
  {
    hide LoadLines, AllLines, AllKeep, DistinctRules, Ready, HeaderSafe, WordsSafe;
    var c := l.contract;
    ListReady(c, d.warnings, Warnings);
    FirstList(l, d.warnings, Warnings);
    c := c.(warnings := d.warnings);
    ListReady(c, d.messages, Messages);
    NextList(l, d.warnings, l.(contract := c), d.messages, Messages);
    c := c.(messages := d.messages);
    ListReady(c, d.conditionals, Conditionals);
    NextList(l, d.warnings + d.messages, l.(contract := c), d.conditionals, Conditionals);
    c := c.(conditionals := d.conditionals);
    ListReady(c, d.enums, Enums);
    NextList(l, d.warnings + d.messages + d.conditionals, l.(contract := c), d.enums, Enums);
    c := c.(enums := d.enums);
    ListReady(c, d.services, Services);
    NextList(l, d.warnings + d.messages + d.conditionals + d.enums, l.(contract := c), d.services, Services);
    c := c.(services := d.services);
    ListReady(c, d.flows, Flows);
    NextList(l, d.warnings + d.messages + d.conditionals + d.enums + d.services, l.(contract := c), d.flows, Flows);
  }
}
