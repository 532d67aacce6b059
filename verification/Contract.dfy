/** Contract sidecars: records, canonical form, printed text, and what a text loads as. */
module Contract {
  import opened Optional
  import opened EscapedText
  import opened TextLines
  import opened TextNumbers
  import opened CanonicalOrder

  const FORMAT: string := "nimblefix-contract-v1"

  type Word32 = n: nat | n < TWO_TO_32
  type Word64 = n: nat | n < TWO_TO_64

  datatype Role = Unknown | Initiator | Acceptor | Any
  datatype Direction = Neither | Send | Receive | Both
  datatype Condition = Required | Forbidden
  datatype Trace = Trace(sourceId: string, sourcePath: string)

  datatype Record =
    | Warning(code: string, message: string)
    | Message(
        msgType: string, name: string, admin: bool, initiator: Direction, acceptor: Direction, trace: Trace)
    | Conditional(
        ruleId: string, msgType: string, fieldTag: Word32, condition: Condition, whenTag: Word32, whenValue: string,
        trace: Trace)
    | EnumRule(ruleId: string, msgType: string, fieldTag: Word32, allowed: seq<string>, trace: Trace)
    | Service(serviceName: string, role: Role, direction: Direction, msgType: string, trace: Trace)
    | Flow(
        edgeId: string, fromRole: Role, fromMsgType: string, toRole: Role, toMsgType: string, name: string,
        trace: Trace)

  datatype Contract = Contract(
    profileId: Word64, schemaHash: Word64, sourceKind: string, sourceName: string, semantics: seq<string>,
    warnings: seq<Record>, messages: seq<Record>, conditionals: seq<Record>, enums: seq<Record>,
    services: seq<Record>, flows: seq<Record>)

  datatype Sidecar = Sidecar(contract: Contract, id: Word64)

  /** Each list holds records of its own kind. */
  predicate Proper(c: Contract) {
    && (forall r :: r in c.warnings ==> r.Warning?)
    && (forall r :: r in c.messages ==> r.Message?)
    && (forall r :: r in c.conditionals ==> r.Conditional?)
    && (forall r :: r in c.enums ==> r.EnumRule?)
    && (forall r :: r in c.services ==> r.Service?)
    && (forall r :: r in c.flows ==> r.Flow?)
  }

  // ---- canonical form

  function RoleRank(r: Role): nat {
    match r case Unknown => 0 case Initiator => 1 case Acceptor => 2 case Any => 3
  }

  function DirectionRank(d: Direction): nat {
    match d case Neither => 0 case Send => 1 case Receive => 2 case Both => 3
  }

  function ConditionRank(c: Condition): nat {
    match c case Required => 0 case Forbidden => 1
  }

  function RecordKey(r: Record): Key {
    match r
    case Warning(code, message) => Node([Leaf(0), TextKey(code), TextKey(message)])
    case Message(msgType, name, admin, initiator, acceptor, trace) =>
      Node([Leaf(1), TextKey(msgType), TextKey(name), Leaf(if admin then 1 else 0), Leaf(DirectionRank(initiator)),
            Leaf(DirectionRank(acceptor)), TextKey(trace.sourceId), TextKey(trace.sourcePath)])
    case Conditional(ruleId, msgType, fieldTag, condition, whenTag, whenValue, trace) =>
      Node([Leaf(2), TextKey(ruleId), TextKey(msgType), Leaf(fieldTag), Leaf(ConditionRank(condition)), Leaf(whenTag),
            TextKey(whenValue), TextKey(trace.sourceId), TextKey(trace.sourcePath)])
    case EnumRule(ruleId, msgType, fieldTag, allowed, trace) =>
      Node([Leaf(3), TextKey(ruleId), TextKey(msgType), Leaf(fieldTag), ListKey(allowed), TextKey(trace.sourceId),
            TextKey(trace.sourcePath)])
    case Service(serviceName, role, direction, msgType, trace) =>
      Node([Leaf(4), TextKey(serviceName), Leaf(RoleRank(role)), Leaf(DirectionRank(direction)), TextKey(msgType),
            TextKey(trace.sourceId), TextKey(trace.sourcePath)])
    case Flow(edgeId, fromRole, fromMsgType, toRole, toMsgType, name, trace) =>
      Node([Leaf(5), TextKey(edgeId), Leaf(RoleRank(fromRole)), TextKey(fromMsgType), Leaf(RoleRank(toRole)),
            TextKey(toMsgType), TextKey(name), TextKey(trace.sourceId), TextKey(trace.sourcePath)])
  }

  function Arranged(rs: seq<Record>): seq<Record> {
    Sort(rs, RecordKey)
  }

  function TidyWords(ws: seq<string>): seq<string> {
    Tidy(ws, TextKey)
  }

  function TidyEnum(r: Record): Record {
    if r.EnumRule? then r.(allowed := TidyWords(r.allowed)) else r
  }

  function TidyEnums(rs: seq<Record>): (t: seq<Record>)
    ensures |t| == |rs| && forall i :: 0 <= i < |rs| ==> t[i] == TidyEnum(rs[i])
  {
    if rs == [] then [] else [TidyEnum(rs[0])] + TidyEnums(rs[1..])
  }

  function Canonical(c: Contract): Contract {
    c.(semantics := TidyWords(c.semantics),
       warnings := Arranged(c.warnings), messages := Arranged(c.messages), conditionals := Arranged(c.conditionals),
       enums := Arranged(TidyEnums(c.enums)), services := Arranged(c.services), flows := Arranged(c.flows))
  }

  // ---- printed text

  function RoleName(r: Role): string {
    match r case Unknown => "unknown" case Initiator => "initiator" case Acceptor => "acceptor" case Any => "any"
  }

  function DirectionName(d: Direction): string {
    match d case Neither => "none" case Send => "send" case Receive => "receive" case Both => "both"
  }

  function ConditionName(c: Condition): string {
    match c case Required => "required" case Forbidden => "forbidden"
  }

  /** Fields of a record line; an enumeration prints one line for each allowed value. */
  function Fields(r: Record, value: string): (ts: seq<string>)
    ensures |ts| >= 2
  {
    match r
    case Warning(code, message) => ["warning", code, message]
    case Message(msgType, name, admin, initiator, acceptor, trace) =>
      ["message", msgType, name, if admin then "admin" else "app", DirectionName(initiator), DirectionName(acceptor),
       trace.sourceId, trace.sourcePath]
    case Conditional(ruleId, msgType, fieldTag, condition, whenTag, whenValue, trace) =>
      ["conditional", ruleId, msgType, Print(fieldTag, 10), ConditionName(condition), Print(whenTag, 10), whenValue,
       trace.sourceId, trace.sourcePath]
    case EnumRule(ruleId, msgType, fieldTag, allowed, trace) =>
      ["enum", ruleId, msgType, Print(fieldTag, 10), value, trace.sourceId, trace.sourcePath]
    case Service(serviceName, role, direction, msgType, trace) =>
      ["service", serviceName, RoleName(role), DirectionName(direction), msgType, trace.sourceId, trace.sourcePath]
    case Flow(edgeId, fromRole, fromMsgType, toRole, toMsgType, name, trace) =>
      ["flow", edgeId, RoleName(fromRole), fromMsgType, RoleName(toRole), toMsgType, name, trace.sourceId,
       trace.sourcePath]
  }

  function LineOf(r: Record, value: string): string {
    Join(Fields(r, value), BAR)
  }

  function ValueLines(r: Record, values: seq<string>): seq<string> {
    if values == [] then [] else [LineOf(r, values[0])] + ValueLines(r, values[1..])
  }

  function RecordLines(r: Record): seq<string> {
    if r.EnumRule? then ValueLines(r, r.allowed) else [LineOf(r, "")]
  }

  function AllLines(rs: seq<Record>): seq<string> {
    if rs == [] then [] else RecordLines(rs[0]) + AllLines(rs[1..])
  }

  function Records(c: Contract): seq<Record> {
    c.warnings + c.messages + c.conditionals + c.enums + c.services + c.flows
  }

  function Entry(key: string, value: string): string {
    key + "=" + value
  }

  function HeaderLines(c: Contract): seq<string> {
    [Entry("contract_format", FORMAT), Entry("profile_id", Print(c.profileId, 10)),
     Entry("schema_hash", Hex(c.schemaHash)), Entry("source_kind", Escape(c.sourceKind)),
     Entry("source_name", Escape(c.sourceName)), Entry("supported_semantics", Join(c.semantics, ',')), ""]
  }

  function BodyText(c: Contract): string {
    TextOf(HeaderLines(c) + AllLines(Records(c)))
  }

  function ContractId(c: Contract): Word64 {
    Fnv1a64(BodyText(Canonical(c)))
  }

  function IdEntry(id: Word64): string {
    Entry("contract_id", Hex(id))
  }

  function Serialize(c: Contract): string {
    TextOf([IdEntry(ContractId(Canonical(c)))]) + BodyText(Canonical(c))
  }

  // ---- loading

  datatype Failure = FormatError | VersionMismatch

  datatype Result<+T> = Ok(value: T) | Err(error: Failure) {
    predicate IsFailure() { Err? }

    function PropagateFailure<U>(): Result<U>
      requires Err?
    {
      Err(error)
    }

    function Extract(): T
      requires Ok?
    {
      value
    }
  }

  datatype Loading = Loading(contract: Contract, id: Word64, sawFormat: bool, sawId: bool, sawProfile: bool)

  const NOTHING: Loading :=
    Loading(Contract(0, 0, [], [], [], [], [], [], [], [], []), 0, false, false, false)

  function Given<T>(o: Option<T>): Result<T> {
    if o.Some? then Ok(o.value) else Err(FormatError)
  }

  function ParseRole(token: string): Result<Role> {
    var v := Trimmed(token);
    if v == "initiator" then Ok(Initiator)
    else if v == "acceptor" then Ok(Acceptor)
    else if v == "any" then Ok(Any)
    else if v == "unknown" then Ok(Unknown)
    else Err(FormatError)
  }

  function ParseDirection(token: string): Result<Direction> {
    var v := Trimmed(token);
    if v == "none" then Ok(Neither)
    else if v == "send" then Ok(Send)
    else if v == "receive" then Ok(Receive)
    else if v == "both" then Ok(Both)
    else Err(FormatError)
  }

  function ParseCondition(token: string): Result<Condition> {
    var v := Trimmed(token);
    if v == "required" then Ok(Required)
    else if v == "forbidden" then Ok(Forbidden)
    else Err(FormatError)
  }

  function Low32(n: nat): Word32 {
    n % 0x1_0000_0000
  }

  function ParseWord32(token: string): Result<Word32> {
    var n :- Given(ParseInteger(token));
    Ok(Low32(n))
  }

  function ParseWord64(token: string): Result<Word64> {
    Given(ParseInteger(token))
  }

  function ParseWarning(t: seq<string>): Result<Record> {
    if |t| != 3 then Err(FormatError) else Ok(Warning(t[1], t[2]))
  }

  function ParseMessage(t: seq<string>): Result<Record> {
    if |t| != 8 then Err(FormatError)
    else
      var initiator :- ParseDirection(t[4]);
      var acceptor :- ParseDirection(t[5]);
      Ok(Message(t[1], t[2], t[3] == "admin", initiator, acceptor, Trace(t[6], t[7])))
  }

  function ParseConditional(t: seq<string>): Result<Record> {
    if |t| != 9 then Err(FormatError)
    else
      var fieldTag :- ParseWord32(t[3]);
      var condition :- ParseCondition(t[4]);
      var whenTag :- ParseWord32(t[5]);
      Ok(Conditional(t[1], t[2], fieldTag, condition, whenTag, t[6], Trace(t[7], t[8])))
  }

  function ParseEnum(t: seq<string>): Result<Record> {
    if |t| != 7 then Err(FormatError)
    else
      var fieldTag :- ParseWord32(t[3]);
      Ok(EnumRule(t[1], t[2], fieldTag, [t[4]], Trace(t[5], t[6])))
  }

  function ParseService(t: seq<string>): Result<Record> {
    if |t| != 7 then Err(FormatError)
    else
      var role :- ParseRole(t[2]);
      var direction :- ParseDirection(t[3]);
      Ok(Service(t[1], role, direction, t[4], Trace(t[5], t[6])))
  }

  function ParseFlow(t: seq<string>): Result<Record> {
    if |t| != 9 then Err(FormatError)
    else
      var fromRole :- ParseRole(t[2]);
      var toRole :- ParseRole(t[4]);
      Ok(Flow(t[1], fromRole, t[3], toRole, t[5], t[6], Trace(t[7], t[8])))
  }

  function ParseRecord(t: seq<string>): Result<Record>
    requires t != []
  {
    if t[0] == "warning" then ParseWarning(t)
    else if t[0] == "message" then ParseMessage(t)
    else if t[0] == "conditional" then ParseConditional(t)
    else if t[0] == "enum" then ParseEnum(t)
    else if t[0] == "service" then ParseService(t)
    else if t[0] == "flow" then ParseFlow(t)
    else Err(FormatError)
  }

  predicate SameRule(a: Record, b: Record) {
    a.EnumRule? && b.EnumRule? && a.ruleId == b.ruleId && a.msgType == b.msgType && a.fieldTag == b.fieldTag
  }

  /** Values of a rule seen before are added to it. */
  function AddEnum(rules: seq<Record>, r: Record): seq<Record>
    requires r.EnumRule?
  {
    if rules == [] then [r]
    else if SameRule(rules[0], r) then [rules[0].(allowed := rules[0].allowed + r.allowed)] + rules[1..]
    else [rules[0]] + AddEnum(rules[1..], r)
  }

  function AddRecord(c: Contract, r: Record): Contract {
    match r
    case Warning(_, _) => c.(warnings := c.warnings + [r])
    case Message(_, _, _, _, _, _) => c.(messages := c.messages + [r])
    case Conditional(_, _, _, _, _, _, _) => c.(conditionals := c.conditionals + [r])
    case EnumRule(_, _, _, _, _) => c.(enums := AddEnum(c.enums, r))
    case Service(_, _, _, _, _) => c.(services := c.services + [r])
    case Flow(_, _, _, _, _, _, _) => c.(flows := c.flows + [r])
  }

  function ParseSemantics(token: string): Result<seq<string>> {
    if Trimmed(token) == [] then Ok([]) else Given(Split(token, ','))
  }

  function LoadEntry(l: Loading, key: string, value: string): Result<Loading> {
    if key == "contract_format" then
      if value != FORMAT then Err(VersionMismatch) else Ok(l.(sawFormat := true))
    else if key == "contract_id" then
      var n :- ParseWord64(value);
      Ok(l.(id := n, sawId := true))
    else if key == "profile_id" then
      var n :- ParseWord64(value);
      Ok(l.(contract := l.contract.(profileId := n), sawProfile := true))
    else if key == "schema_hash" then
      var n :- ParseWord64(value);
      Ok(l.(contract := l.contract.(schemaHash := n)))
    else if key == "source_kind" then
      var v :- Given(Unescape(value));
      Ok(l.(contract := l.contract.(sourceKind := v)))
    else if key == "source_name" then
      var v :- Given(Unescape(value));
      Ok(l.(contract := l.contract.(sourceName := v)))
    else if key == "supported_semantics" then
      var ws :- ParseSemantics(value);
      Ok(l.(contract := l.contract.(semantics := ws)))
    else Err(FormatError)
  }

  /** Position of the first c at or after i, |s| when there is none. */
  function IndexOf(s: string, c: char, i: nat): (k: nat)
    requires i <= |s|
    ensures i <= k <= |s| && (k < |s| ==> s[k] == c) && forall j :: i <= j < k ==> s[j] != c
    decreases |s| - i
  {
    if i == |s| || s[i] == c then i else IndexOf(s, c, i + 1)
  }

  function LoadHeader(l: Loading, line: string): Result<Loading> {
    var eq := IndexOf(line, '=', 0);
    if eq == |line| then Err(FormatError)
    else LoadEntry(l, Trimmed(line[..eq]), Trimmed(line[eq + 1..]))
  }

  function LoadFields(l: Loading, fields: Option<seq<string>>): Result<Loading> {
    if fields.None? || fields.value == [] then Err(FormatError)
    else
      var r :- ParseRecord(fields.value);
      Ok(l.(contract := AddRecord(l.contract, r)))
  }

  function LoadLine(l: Loading, raw: string): Result<Loading> {
    var line := Trimmed(raw);
    if line == [] || line[0] == '#' then Ok(l)
    else if BAR !in line then LoadHeader(l, line)
    else LoadFields(l, Split(line, BAR))
  }

  function LoadLines(l: Loading, lines: seq<string>): Result<Loading>
    decreases |lines|
  {
    if lines == [] then Ok(l)
    else
      var next :- LoadLine(l, lines[0]);
      LoadLines(next, lines[1..])
  }

  function Finish(l: Loading): Result<Sidecar> {
    if !l.sawFormat || !l.sawId || !l.sawProfile then Err(FormatError)
    else
      var c := Canonical(l.contract);
      if l.id != ContractId(c) then Err(FormatError) else Ok(Sidecar(c, l.id))
  }

  function Load(text: string): Result<Sidecar> {
    var l :- LoadLines(NOTHING, Lines(text));
    Finish(l)
  }
}
