// What the three parsed files mean together: constants, arrays, the names that
// a program may use, and running its function against arbitrary devices.
module Linking {
  import opened Text
  import opened Lexing
  import opened Grammar

  // ----- hand-written headers -----

  /** Device types declared by the serial module, starting at 1. */
  function DeviceTypeValue(id: string): Option<nat> {
    if id == "SRL_DEVTYPE_I2C" then Some(1)
    else if id == "SRL_DEVTYPE_SPI" then Some(2)
    else if id == "SRL_DEVTYPE_CAN" then Some(3)
    else if id == "SRL_DEVTYPE_UART" then Some(4)
    else if id == "SRL_DEVTYPE_RS422" then Some(5)
    else None
  }

  /** These are the enumerators in their order, and there are no others. */
  lemma DeviceTypesAre(id: string)
    ensures var types := ["SRL_DEVTYPE_I2C", "SRL_DEVTYPE_SPI", "SRL_DEVTYPE_CAN", "SRL_DEVTYPE_UART",
                          "SRL_DEVTYPE_RS422"];
            && (forall i :: 0 <= i < 5 && id == types[i] ==> DeviceTypeValue(id) == Some(i + 1))
            && (id !in types ==> DeviceTypeValue(id) == None)
  {
    assert |"SRL_DEVTYPE_I2C"| == |"SRL_DEVTYPE_SPI"| == |"SRL_DEVTYPE_CAN"| == 15;
    assert |"SRL_DEVTYPE_UART"| == 16 && |"SRL_DEVTYPE_RS422"| == 17;
    assert "SRL_DEVTYPE_I2C"[12] == 'I' && "SRL_DEVTYPE_SPI"[12] == 'S' && "SRL_DEVTYPE_CAN"[12] == 'C';
    var types := ["SRL_DEVTYPE_I2C", "SRL_DEVTYPE_SPI", "SRL_DEVTYPE_CAN", "SRL_DEVTYPE_UART", "SRL_DEVTYPE_RS422"];
    assert types[0] == "SRL_DEVTYPE_I2C" && types[1] == "SRL_DEVTYPE_SPI" && types[2] == "SRL_DEVTYPE_CAN";
    assert types[3] == "SRL_DEVTYPE_UART" && types[4] == "SRL_DEVTYPE_RS422";
  }

  const CFE_SUCCESS: int := 0

  /**
   * The value of `CFE_SERIAL_ERROR(n)` as a 32-bit signed status: severity 3 in the
   * two top bits, mission identifier 1 above a 16-bit code.
   */
  function SerialError(n: nat): int {
    0xC001_0000 + n % 0x1_0000 - 0x1_0000_0000
  }

  /** The X of every `CFE_SRL_X_INIT_ERR` that the core error header already defines. */
  const TAKEN: seq<string> := ["PRIOR", "HANDLE", "CSP_CAN", "CSP_I2C", "CSP", "CSP_ROUTE", "MUTEX_ATTR", "MUTEX"]

  function TakenIds(uppers: seq<string>): seq<string> {
    seq(|uppers|, i requires 0 <= i < |uppers| => "CFE_SRL_" + uppers[i] + "_INIT_ERR")
  }

  // ----- definitions -----

  function Defines(item: Item): seq<string> {
    match item
    case Macro(name, _) => [name]
    case Enumeration(constants, tag) => constants + [tag]
    case ArrayOf(_, _, name, _) => [name]
    case Function(_, name, _) => [name]
    case _ => []
  }

  function Defined(items: seq<Item>): seq<string> {
    if items == [] then [] else Defines(items[0]) + Defined(items[1..])
  }

  ghost predicate NoDuplicates(ids: seq<string>) {
    forall i, j :: 0 <= i < j < |ids| ==> ids[i] != ids[j]
  }

  function IndexOf(ids: seq<string>, id: string): (i: nat)
    requires id in ids
    ensures i < |ids| && ids[i] == id
  {
    if ids[0] == id then 0 else 1 + IndexOf(ids[1..], id)
  }

  /** An enumerator's value is its position in its enumeration. */
  function EnumValue(items: seq<Item>, id: string): Option<nat> {
    if items == [] then None
    else if items[0].Enumeration? && id in items[0].constants then Some(IndexOf(items[0].constants, id))
    else EnumValue(items[1..], id)
  }

  function FindMacro(items: seq<Item>, id: string): Option<MacroBody> {
    if items == [] then None
    else if items[0].Macro? && items[0].name == id then Some(items[0].replacement)
    else FindMacro(items[1..], id)
  }

  function FindArray(items: seq<Item>, name: string): Option<string> {
    if items == [] then None
    else if items[0].ArrayOf? && items[0].name == name then Some(items[0].size)
    else FindArray(items[1..], name)
  }

  // ----- programs -----

  datatype Program = Program(mission: seq<Item>, errors: seq<Item>, source: seq<Item>)

  function MacroValue(p: Program, body: MacroBody): Option<int> {
    match body
    case Empty => None
    case Literal(n) => Some(n)
    case Offset(id, n) =>
      var base := EnumValue(p.mission, id);
      if base.None? then None else Some(base.value + n)
    case Applied(macro, n) => if macro == "CFE_SERIAL_ERROR" then Some(SerialError(n)) else None
  }

  function ConstValue(p: Program, id: string): Option<int> {
    if id == "CFE_SUCCESS" then Some(CFE_SUCCESS)
    else if DeviceTypeValue(id).Some? then Some(DeviceTypeValue(id).value)
    else if EnumValue(p.mission, id).Some? then Some(EnumValue(p.mission, id).value)
    else
      var body := FindMacro(p.mission + p.errors, id);
      if body.None? then None else MacroValue(p, body.value)
  }

  function ArraySize(p: Program, name: string): Option<int> {
    var size := FindArray(p.source, name);
    if size.None? then None else ConstValue(p, size.value)
  }

  // ----- closed programs -----

  predicate ExprResolves(p: Program, e: Expr) {
    match e
    case Number(_) => true
    case Str(_) => true
    case Name(id) => id == "Status" || id == "__func__" || ConstValue(p, id).Some?
    case AddressOf(table, index) => ArraySize(p, table).Some? && ConstValue(p, index).Some?
    case Member(table, index, field) => ArraySize(p, table).Some? && ConstValue(p, index).Some? && field == "FD"
    case CastMember(cast, table, index, field) =>
      cast == "CFE_SRL_Global_Handle_t" && ArraySize(p, table).Some? && ConstValue(p, index).Some? && field == "DevName"
  }

  predicate SimpleResolves(p: Program, s: Simple) {
    match s
    case Declare(_, _) => true
    case Assign(variable, callee, args) =>
      variable == "Status" && callee in ["CFE_SRL_PriorInit", "CFE_SRL_HandleInit", "CFE_SRL_GpioInit"] &&
      forall e :: e in args ==> ExprResolves(p, e)
    case Invoke(callee, args) => callee == "CFE_ES_WriteToSysLog" && forall e :: e in args ==> ExprResolves(p, e)
    case Return(value) => ExprResolves(p, value)
  }

  predicate StmtResolves(p: Program, s: Stmt) {
    match s
    case Do(simple) => SimpleResolves(p, simple)
    case IfNot(variable, expected, body) =>
      variable == "Status" && ConstValue(p, expected).Some? && forall i :: 0 <= i < |body| ==>
        SimpleResolves(p, body[i])
  }

  predicate StmtsResolve(p: Program, ss: seq<Stmt>) {
    forall i :: 0 <= i < |ss| ==> StmtResolves(p, ss[i])
  }

  /** A header is wrapped in an include guard of its own. */
  predicate IsGuarded(items: seq<Item>) {
    |items| >= 3 && items[0].Guard? && items[1] == Macro(items[0].symbol, Empty) && items[|items| - 1] == EndGuard
  }

  /** Nothing is defined twice, not even against the hand-written error names. */
  ghost predicate Unambiguous(p: Program) {
    NoDuplicates(Defined(p.mission) + Defined(p.errors) + Defined(p.source) + TakenIds(TAKEN))
  }

  /** The source's last item is its function, and every name in it resolves. */
  predicate Closed(p: Program) {
    |p.source| > 0 && p.source[|p.source| - 1].Function? && StmtsResolve(p, p.source[|p.source| - 1].body)
  }

  predicate DeclaresType(items: seq<Item>, tag: string) {
    exists i :: 0 <= i < |items| && items[i].Enumeration? && items[i].tag == tag
  }

  /** The program that three texts make, if they parse and fit together. */
  ghost function Build(mission: string, errors: string, source: string): (r: Option<Program>)
    ensures r.Some? ==> Closed(r.value)
  {
    var m, e, s := Parse(mission), Parse(errors), Parse(source);
    if m.None? || e.None? || s.None? then None
    else
      var p := Program(m.value, e.value, s.value);
      if IsGuarded(p.mission) && IsGuarded(p.errors) && Unambiguous(p) && Closed(p) then Some(p) else None
  }

  lemma BuildOf(mission: string, errors: string, source: string, p: Program)
    requires Parse(mission) == Some(p.mission) && Parse(errors) == Some(p.errors) && Parse(source) == Some(p.source)
    requires IsGuarded(p.mission) && IsGuarded(p.errors)
    ensures Build(mission, errors, source) == if Unambiguous(p) && Closed(p) then Some(p) else None
  {
  }

  /** The hand-written headers that the source includes use both index types. */
  predicate DeclaresIndexTypes(p: Program) {
    DeclaresType(p.mission, "CFE_SRL_Handle_Indexer_t") && DeclaresType(p.mission, "CFE_SRL_GPIO_Indexer_t")
  }

  ghost predicate LiteralsValid(args: seq<Expr>) {
    forall i :: 0 <= i < |args| && args[i].Str? ==> EscapesValid(args[i].text)
  }

  ghost predicate SimpleLiteralsValid(s: Simple) {
    match s
    case Assign(_, _, args) => LiteralsValid(args)
    case Invoke(_, args) => LiteralsValid(args)
    case _ => true
  }

  ghost predicate StmtLiteralsValid(s: Stmt) {
    match s
    case Do(simple) => SimpleLiteralsValid(simple)
    case IfNot(_, _, body) => forall i :: 0 <= i < |body| ==> SimpleLiteralsValid(body[i])
  }

  ghost predicate StmtsLiteralsValid(ss: seq<Stmt>) {
    forall i :: 0 <= i < |ss| ==> StmtLiteralsValid(ss[i])
  }

  /**
   * The three texts make a program that also compiles among those headers, with only
   * valid escapes in the string literals of its function.
   */
  ghost predicate Compiles(mission: string, errors: string, source: string) {
    Build(mission, errors, source).Some? &&
    var p := Build(mission, errors, source).value;
    DeclaresIndexTypes(p) && StmtsLiteralsValid(p.source[|p.source| - 1].body)
  }

  // ----- what does not make a program -----

  /** Only the function's one variable, the three initialisers, the log and the two known members are declared. */
  lemma NothingElseResolves(p: Program, variable: string, callee: string, args: seq<Expr>, table: string, index: string,
                            cast: string, field: string)
    ensures variable != "Status" ==> !SimpleResolves(p, Assign(variable, callee, args))
    ensures callee !in ["CFE_SRL_PriorInit", "CFE_SRL_HandleInit", "CFE_SRL_GpioInit"] ==>
              !SimpleResolves(p, Assign(variable, callee, args))
    ensures callee != "CFE_ES_WriteToSysLog" ==> !SimpleResolves(p, Invoke(callee, args))
    ensures field != "FD" ==> !ExprResolves(p, Member(table, index, field))
    ensures cast != "CFE_SRL_Global_Handle_t" || field != "DevName" ==>
              !ExprResolves(p, CastMember(cast, table, index, field))
    ensures ConstValue(p, index).None? ==> !ExprResolves(p, AddressOf(table, index))
    ensures ArraySize(p, table).None? ==> !ExprResolves(p, AddressOf(table, index))
  {
  }

  /** A macro applied to a number has a value only if it is the status macro. */
  lemma OtherMacrosHaveNoValue(p: Program, macro: string, n: nat)
    ensures MacroValue(p, Applied(macro, n)).Some? <==> macro == "CFE_SERIAL_ERROR"
  {
  }

  /** Files that define something twice, or a header without its guard, make no program. */
  lemma RejectedFiles(mission: string, errors: string, source: string, p: Program)
    requires Parse(mission) == Some(p.mission) && Parse(errors) == Some(p.errors) && Parse(source) == Some(p.source)
    requires !Unambiguous(p) || p.mission == [] || !p.mission[0].Guard? || p.errors == [] || !p.errors[0].Guard?
    ensures Build(mission, errors, source) == None
  {
  }

  // ----- running -----

  /**
   * Calls as the callee receives them: C narrows the arguments to its parameter types.
   * Texts are as written between their quotes.
   */
  datatype Call =
    | PriorInit
    | HandleInit(slot: nat, name: string, device: string, deviceType: nat, mutex: nat, rate: nat, mode: nat)
    | GpioInit(pin: nat, device: string, line: nat, name: string, level: bool)

  datatype Event =
    | Called(call: Call, status: int)
    | Logged(text: string, slots: seq<nat>)

  /** The devices answer each call with a status that may depend on all calls so far. */
  type Devices = seq<Call> -> int

  datatype Machine = Machine(calls: seq<Call>, events: seq<Event>, status: Option<int>, live: set<nat>)

  datatype Outcome = Finished(events: seq<Event>, result: int) | Stuck

  datatype Progress = Go(machine: Machine) | Done(outcome: Outcome)

  /** A slot of a table, if the index is a constant inside its bounds. */
  function Slot(p: Program, table: string, index: string): Option<nat> {
    var size, i := ArraySize(p, table), ConstValue(p, index);
    if size.Some? && i.Some? && 0 <= i.value < size.value then Some(i.value) else None
  }

  function IntOf(p: Program, e: Expr): Option<nat> {
    match e
    case Number(n) => Some(n)
    case Name(id) =>
      var v := ConstValue(p, id);
      if v.Some? && v.value >= 0 then Some(v.value) else None
    case _ => None
  }

  function CallOf(p: Program, callee: string, args: seq<Expr>): Option<Call> {
    if callee == "CFE_SRL_PriorInit" && args == [] then Some(PriorInit)
    else if callee == "CFE_SRL_HandleInit" && |args| == 7 then HandleInitOf(p, args)
    else if callee == "CFE_SRL_GpioInit" && |args| == 5 then GpioInitOf(p, args)
    else None
  }

  function HandleInitOf(p: Program, args: seq<Expr>): Option<Call>
    requires |args| == 7
  {
    if !args[0].AddressOf? || args[0].table != "Handles" || !args[1].Str? || !args[2].Str? then None
    else
      var slot := Slot(p, "Handles", args[0].index);
      var deviceType, mutex, rate, mode := IntOf(p, args[3]), IntOf(p, args[4]), IntOf(p, args[5]), IntOf(p, args[6]);
      if slot.None? || deviceType.None? || mutex.None? || rate.None? || mode.None? then None
      else Some(HandleInit(slot.value, args[1].text, args[2].text, deviceType.value % 0x100, mutex.value % 0x100,
                           rate.value % 0x1_0000_0000, mode.value % 0x100))
  }

  function GpioInitOf(p: Program, args: seq<Expr>): Option<Call>
    requires |args| == 5
  {
    if !args[0].AddressOf? || args[0].table != "GPIO" || !args[1].Str? || !args[3].Str? then None
    else
      var pin := Slot(p, "GPIO", args[0].index);
      var line, level := IntOf(p, args[2]), IntOf(p, args[4]);
      if pin.None? || line.None? || level.None? then None
      else Some(GpioInit(pin.value, args[1].text, line.value % 0x1_0000_0000, args[3].text, level.value != 0))
  }

  /** A call that succeeds leaves a handle in its slot. */
  function AfterCall(m: Machine, call: Call, devices: Devices): Machine {
    var calls := m.calls + [call];
    var status := devices(calls);
    var live := if call.HandleInit? && status == CFE_SUCCESS then m.live + {call.slot} else m.live;
    Machine(calls, m.events + [Called(call, status)], Some(status), live)
  }

  /** The handle slots that an argument dereferences; none if a slot holds no handle yet. */
  function Dereferenced(p: Program, m: Machine, args: seq<Expr>): Option<seq<nat>> {
    if args == [] then Some([])
    else
      var rest := Dereferenced(p, m, args[1..]);
      if rest.None? then None
      else match args[0]
        case Name(id) => if id == "Status" && m.status.None? then None else rest
        case Member(table, index, _) => Reading(p, m, table, index, rest.value)
        case CastMember(_, table, index, _) => Reading(p, m, table, index, rest.value)
        case _ => rest
  }

  function Reading(p: Program, m: Machine, table: string, index: string, rest: seq<nat>): Option<seq<nat>> {
    var slot := Slot(p, table, index);
    if table == "Handles" && slot.Some? && slot.value in m.live then Some([slot.value] + rest) else None
  }

  function RunSimple(p: Program, s: Simple, m: Machine, devices: Devices): Progress {
    match s
    case Declare(_, _) => Go(m.(status := None))
    case Assign(_, callee, args) =>
      var call := CallOf(p, callee, args);
      if call.None? then Done(Stuck) else Go(AfterCall(m, call.value, devices))
    case Invoke(_, args) =>
      if args == [] || !args[0].Str? then Done(Stuck)
      else
        var slots := Dereferenced(p, m, args[1..]);
        if slots.None? then Done(Stuck) else Go(m.(events := m.events + [Logged(args[0].text, slots.value)]))
    case Return(value) =>
      if value == Name("Status") then if m.status.None? then Done(Stuck) else Done(Finished(m.events, m.status.value))
      else if value.Name? && ConstValue(p, value.id).Some? then Done(Finished(m.events, ConstValue(p, value.id).value))
      else Done(Stuck)
  }

  function RunBlock(p: Program, ss: seq<Simple>, m: Machine, devices: Devices): Progress
    decreases |ss|
  {
    if ss == [] then Go(m)
    else match RunSimple(p, ss[0], m, devices)
      case Go(next) => RunBlock(p, ss[1..], next, devices)
      case Done(outcome) => Done(outcome)
  }

  function RunStmt(p: Program, s: Stmt, m: Machine, devices: Devices): Progress {
    match s
    case Do(simple) => RunSimple(p, simple, m, devices)
    case IfNot(_, expected, body) =>
      var k := ConstValue(p, expected);
      if m.status.None? || k.None? then Done(Stuck)
      else if m.status.value != k.value then RunBlock(p, body, m, devices)
      else Go(m)
  }

  /** A function that runs off its end returns nothing usable. */
  function RunStmts(p: Program, ss: seq<Stmt>, m: Machine, devices: Devices): Outcome
    decreases |ss|
  {
    if ss == [] then Stuck
    else match RunStmt(p, ss[0], m, devices)
      case Go(next) => RunStmts(p, ss[1..], next, devices)
      case Done(outcome) => outcome
  }

  // ----- what a run does not survive -----

  /** An index outside its table, whatever its name, stops a call. */
  lemma OutOfBoundsIsStuck(p: Program, callee: string, args: seq<Expr>, table: string, index: string, m: Machine,
                           devices: Devices)
    requires args != [] && args[0] == AddressOf(table, index)
    requires ArraySize(p, table).None? || ConstValue(p, index).None? ||
             !(0 <= ConstValue(p, index).value < ArraySize(p, table).value)
    ensures RunSimple(p, Assign("Status", callee, args), m, devices) == Done(Stuck)
  {
    assert Slot(p, table, index) == None;
  }

  /** So does reading a slot, inside its table, that holds no handle. */
  lemma DeadSlotIsStuck(p: Program, text: string, index: string, field: string, m: Machine, devices: Devices)
    requires ConstValue(p, index).Some? && ConstValue(p, index).value !in m.live
    ensures var slots := [Str(text), Member("Handles", index, field)];
            RunSimple(p, Invoke("CFE_ES_WriteToSysLog", slots), m, devices) == Done(Stuck)
    ensures var slots := [Str(text), CastMember("CFE_SRL_Global_Handle_t", "Handles", index, field)];
            RunSimple(p, Invoke("CFE_ES_WriteToSysLog", slots), m, devices) == Done(Stuck)
  {
    var member, cast := Member("Handles", index, field), CastMember("CFE_SRL_Global_Handle_t", "Handles", index, field);
    assert [Str(text), member][1..] == [member] && [Str(text), cast][1..] == [cast];
    assert [member][1..] == [] && [cast][1..] == [];
  }

  /** So does passing the status before it has a value. */
  lemma UnsetArgumentIsStuck(p: Program, text: string, m: Machine, devices: Devices)
    requires m.status.None?
    ensures RunSimple(p, Invoke("CFE_ES_WriteToSysLog", [Str(text), Name("__func__"), Name("Status")]), m, devices) ==
            Done(Stuck)
  {
    var args := [Str(text), Name("__func__"), Name("Status")];
    var rest := [Name("__func__"), Name("Status")];
    assert args[1..] == rest && rest[1..] == [Name("Status")] && [Name("Status")][1..] == [];
    assert Dereferenced(p, m, [Name("Status")]) == None;
    assert Dereferenced(p, m, rest) == None;
  }

  /** And so does using the status before it has a value, and ending without a result. */
  lemma NoStatusIsStuck(p: Program, expected: string, body: seq<Simple>, m: Machine, devices: Devices)
    requires m.status.None?
    ensures RunSimple(p, Return(Name("Status")), m, devices) == Done(Stuck)
    ensures RunStmt(p, IfNot("Status", expected, body), m, devices) == Done(Stuck)
    ensures RunStmts(p, [], m, devices) == Stuck
  {
  }

  /** Only a handle initialisation that succeeds makes its slot readable. */
  lemma LiveIff(m: Machine, call: Call, devices: Devices, slot: nat)
    ensures slot in AfterCall(m, call, devices).live <==>
            slot in m.live || (call.HandleInit? && call.slot == slot && devices(m.calls + [call]) == 0)
  {
  }

  function Run(p: Program, devices: Devices): Outcome
    requires Closed(p)
  {
    RunStmts(p, p.source[|p.source| - 1].body, Machine([], [], None, {}), devices)
  }
}
