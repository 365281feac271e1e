// The generated program, read back from its text and linked, does what the
// configuration means; and exactly when such a program exists.
module Preservation {
  import opened Text
  import opened Lexing
  import opened Grammar
  import opened Interfaces
  import opened Emission
  import opened Reading
  import opened HeaderReading
  import opened SourceReading
  import opened ProgramReading
  import opened Linking
  import opened Naming
  import opened Ambiguity
  import opened Lookup
  import opened Booting

  // ----- single steps -----

  lemma RunCons(p: Program, s: Stmt, rest: seq<Stmt>, ss: seq<Stmt>, m: Machine, devices: Devices)
    requires ss == [s] + rest
    ensures RunStmts(p, ss, m, devices) ==
            match RunStmt(p, s, m, devices)
            case Go(next) => RunStmts(p, rest, next, devices)
            case Done(outcome) => outcome
  {
    assert ss[0] == s && ss[1..] == rest;
  }

  lemma FailureBlockRuns(p: Program, e: Interface, code: int, m: Machine, devices: Devices)
    requires m.status.Some? && ConstValue(p, InitError(Upper(e.name))) == Some(code)
    ensures RunBlock(p, [FailureLog(e), FailureReturn(e)], m, devices) ==
            Done(Finished(m.events + [FailureNote(e)], code))
  {
    var log := FailureLog(e);
    var args := log.args;
    assert args[1..] == [Name("__func__"), Name("Status")];
    assert args[1..][1..] == [Name("Status")];
    assert args[1..][1..][1..] == [];
    assert Dereferenced(p, m, [Name("Status")]) == Some([]);
    assert Dereferenced(p, m, args[1..]) == Some([]);
    var next := m.(events := m.events + [FailureNote(e)]);
    assert RunSimple(p, log, m, devices) == Go(next);
    assert [FailureLog(e), FailureReturn(e)][1..] == [FailureReturn(e)];
    InitErrorEnds(Upper(e.name));
    assert RunSimple(p, FailureReturn(e), next, devices) == Done(Finished(next.events, code));
    assert RunBlock(p, [FailureReturn(e)], next, devices) == Done(Finished(next.events, code));
  }

  lemma SuccessLogRuns(p: Program, e: Interface, slot: nat, m: Machine, devices: Devices)
    requires Slot(p, "Handles", HandleIndexer(Upper(e.name))) == Some(slot) && slot in m.live
    ensures RunSimple(p, SuccessLog(e), m, devices) == Go(m.(events := m.events + [SuccessNote(e, slot)]))
  {
    var id := HandleIndexer(Upper(e.name));
    var args := SuccessLog(e).args;
    var member, cast := Member("Handles", id, "FD"), CastMember("CFE_SRL_Global_Handle_t", "Handles", id, "DevName");
    assert args[1..] == [Name("__func__"), member, cast];
    assert args[1..][1..] == [member, cast];
    assert [member, cast][1..] == [cast];
    assert [cast][1..] == [] && Dereferenced(p, m, [cast][1..]) == Some([]);
    assert [slot] + [] == [slot] && [slot] + [slot] == [slot, slot];
    assert Dereferenced(p, m, [cast]) == Some([slot]);
    assert Dereferenced(p, m, [member, cast]) == Some([slot, slot]);
    assert "__func__"[0] == '_' && "Status"[0] == 'S';
  }

  /** The check after a call: on failure the entry's code, on success the next statements. */
  lemma CheckRuns(p: Program, e: Interface, code: int, m: Machine, rest: seq<Stmt>, devices: Devices)
    requires m.status.Some? && ConstValue(p, InitError(Upper(e.name))) == Some(code)
    ensures var check := IfNot("Status", "CFE_SUCCESS", [FailureLog(e), FailureReturn(e)]);
            RunStmts(p, [check] + rest, m, devices) ==
            if m.status.value != CFE_SUCCESS then Finished(m.events + [FailureNote(e)], code)
            else RunStmts(p, rest, m, devices)
  {
    var check := IfNot("Status", "CFE_SUCCESS", [FailureLog(e), FailureReturn(e)]);
    FailureBlockRuns(p, e, code, m, devices);
    RunCons(p, check, rest, [check] + rest, m, devices);
  }

  lemma HandleInitCall(p: Program, e: Interface, slot: nat, pin: nat)
    requires Supported(e.kind) && IsGeneral(e.kind) && HasKeys(e)
    requires Slot(p, "Handles", HandleIndexer(Upper(e.name))) == Some(slot)
    requires ConstValue(p, HandleIndexer(Upper(e.name))) == Some(slot)
    ensures CallOf(p, "CFE_SRL_HandleInit", HandleInitArgs(e)) == Some(CallFor(e, slot, pin))
  {
    var args := HandleInitArgs(e);
    assert |"CFE_SRL_HandleInit"| == 18 && |"CFE_SRL_PriorInit"| == 17;
    assert HandleInitOf(p, args) == Some(CallFor(e, slot, pin)) by { DeviceTypeNumbers(p, e.kind); }
  }

  function TypeNumber(kind: Kind): nat
    requires Supported(kind) && IsGeneral(kind)
  {
    match kind
    case I2c => 1
    case Spi => 2
    case Can => 3
    case Uart => 4
    case Rs422 => 5
    case Socat => 4
  }

  lemma DeviceTypeNumbers(p: Program, kind: Kind)
    requires Supported(kind) && IsGeneral(kind)
    ensures ConstValue(p, DeviceType(kind)) == Some(TypeNumber(kind))
  {
    var id := DeviceType(kind);
    assert id[0] == 'S' && "CFE_SUCCESS"[0] == 'C';
    match kind
    case I2c =>
    case Spi => assert "SRL_DEVTYPE_SPI"[12] == 'S';
    case Can => assert "SRL_DEVTYPE_CAN"[12] == 'C' && "SRL_DEVTYPE_SPI"[12] == 'S' && "SRL_DEVTYPE_I2C"[12] == 'I';
    case Uart => assert |"SRL_DEVTYPE_UART"| == 16;
    case Rs422 => assert |"SRL_DEVTYPE_RS422"| == 17;
    case Socat => assert |"SRL_DEVTYPE_UART"| == 16;
  }

  lemma GpioInitCall(p: Program, e: Interface, slot: nat, pin: nat)
    requires e.kind.Gpio? && HasKeys(e)
    requires Slot(p, "GPIO", GpioIndexer(Upper(e.name))) == Some(pin)
    ensures CallOf(p, "CFE_SRL_GpioInit", GpioInitArgs(e)) == Some(CallFor(e, slot, pin))
  {
    assert |"CFE_SRL_HandleInit"| == 18 && |"CFE_SRL_PriorInit"| == 17 && |"CFE_SRL_GpioInit"| == 16;
    assert GpioInitOf(p, GpioInitArgs(e)) == Some(CallFor(e, slot, pin));
  }

  // ----- one entry -----

  lemma GeneralEntryRuns(p: Program, e: Interface, slot: nat, pin: nat, code: int, m: Machine, rest: seq<Stmt>,
                         devices: Devices)
    requires Supported(e.kind) && IsGeneral(e.kind) && HasKeys(e)
    requires Slot(p, "Handles", HandleIndexer(Upper(e.name))) == Some(slot)
    requires ConstValue(p, HandleIndexer(Upper(e.name))) == Some(slot)
    requires ConstValue(p, InitError(Upper(e.name))) == Some(code)
    ensures var m' := AfterCall(m, CallFor(e, slot, pin), devices);
            RunStmts(p, CallStmts(e) + CheckStmts(e) + rest, m, devices) ==
            if m'.status.value != CFE_SUCCESS then Finished(m'.events + [FailureNote(e)], code)
            else RunStmts(p, rest, m'.(events := m'.events + [SuccessNote(e, slot)]), devices)
  {
    var call := Do(Assign("Status", "CFE_SRL_HandleInit", HandleInitArgs(e)));
    var check := IfNot("Status", "CFE_SUCCESS", [FailureLog(e), FailureReturn(e)]);
    var log := Do(SuccessLog(e));
    var m' := AfterCall(m, CallFor(e, slot, pin), devices);
    HandleInitCall(p, e, slot, pin);
    assert CallStmts(e) + CheckStmts(e) + rest == [call] + ([check] + ([log] + rest));
    RunCons(p, call, [check] + ([log] + rest), [call] + ([check] + ([log] + rest)), m, devices);
    CheckRuns(p, e, code, m', [log] + rest, devices);
    if m'.status.value == CFE_SUCCESS {
      SuccessLogRuns(p, e, slot, m', devices);
      RunCons(p, log, rest, [log] + rest, m', devices);
    }
  }

  lemma GpioEntryRuns(p: Program, e: Interface, slot: nat, pin: nat, code: int, m: Machine, rest: seq<Stmt>,
                      devices: Devices)
    requires e.kind.Gpio? && HasKeys(e)
    requires Slot(p, "GPIO", GpioIndexer(Upper(e.name))) == Some(pin)
    requires ConstValue(p, InitError(Upper(e.name))) == Some(code)
    ensures var m' := AfterCall(m, CallFor(e, slot, pin), devices);
            RunStmts(p, CallStmts(e) + CheckStmts(e) + rest, m, devices) ==
            if m'.status.value != CFE_SUCCESS then Finished(m'.events + [FailureNote(e)], code)
            else RunStmts(p, rest, m', devices)
  {
    var call := Do(Assign("Status", "CFE_SRL_GpioInit", GpioInitArgs(e)));
    var check := IfNot("Status", "CFE_SUCCESS", [FailureLog(e), FailureReturn(e)]);
    GpioInitCall(p, e, slot, pin);
    assert CallStmts(e) + CheckStmts(e) + rest == [call] + ([check] + rest);
    RunCons(p, call, [check] + rest, [call] + ([check] + rest), m, devices);
    CheckRuns(p, e, code, AfterCall(m, CallFor(e, slot, pin), devices), rest, devices);
  }

  /** The slot of a ready entry lies inside the table of its kind. */
  lemma SlotOf(es: seq<Interface>, done: seq<Interface>, e: Interface, rest: seq<Interface>)
    requires AllHaveKeys(es) && DistinctNames(es)
    requires Splits(es, done, e, rest) && e.ready && IsKnown(e.kind)
    ensures IsGeneral(e.kind) ==>
              Slot(ProgramOf(es), "Handles", HandleIndexer(Upper(e.name))) == Some(GeneralCount(done))
    ensures e.kind.Gpio? ==> Slot(ProgramOf(es), "GPIO", GpioIndexer(Upper(e.name))) == Some(GpioCount(done))
  {
    var p := ProgramOf(es);
    Arrays(es);
    DeviceNumValue(p, es);
    GpioNumValue(p, es);
    CountConcat(done, [e]);
    CountConcat(done + [e], rest);
    assert [e][1..] == [] && GeneralCount([e][1..]) == 0 && GpioCount([e][1..]) == 0;
    if IsGeneral(e.kind) {
      HandleValue(p, es, done, e, rest);
    } else {
      PinValue(p, es, done, e, rest);
    }
  }

  // ----- all entries -----

  function Last(): Stmt {
    Do(Return(Name("CFE_SUCCESS")))
  }

  lemma LastRuns(p: Program, m: Machine, devices: Devices)
    ensures RunStmts(p, [Last()], m, devices) == Finished(m.events, CFE_SUCCESS)
  {
    assert "CFE_SUCCESS"[0] == 'C' && "Status"[0] == 'S';
    RunCons(p, Last(), [], [Last()], m, devices);
  }

  lemma CountStep(done: seq<Interface>, e: Interface)
    requires e.ready
    ensures GeneralCount(done + [e]) == GeneralCount(done) + if IsGeneral(e.kind) then 1 else 0
    ensures GpioCount(done + [e]) == GpioCount(done) + if e.kind.Gpio? then 1 else 0
    ensures |Ready(done + [e])| == |Ready(done)| + 1
  {
    CountConcat(done, [e]);
    ReadyConcat(done, [e]);
    assert [e][1..] == [] && GeneralCount([e][1..]) == 0 && GpioCount([e][1..]) == 0 && Ready([e][1..]) == [];
  }

  lemma CountSkip(done: seq<Interface>, e: Interface)
    requires !e.ready
    ensures GeneralCount(done + [e]) == GeneralCount(done) && GpioCount(done + [e]) == GpioCount(done)
    ensures Ready(done + [e]) == Ready(done)
  {
    CountConcat(done, [e]);
    ReadyConcat(done, [e]);
    assert [e][1..] == [] && GeneralCount([e][1..]) == 0 && GpioCount([e][1..]) == 0 && Ready([e][1..]) == [];
  }

  /** From here on, the generated statements do what the direct boot does. */
  ghost predicate Agree(es: seq<Interface>, done: seq<Interface>, todo: seq<Interface>, m: Machine, devices: Devices)
    requires AllHaveKeys(es) && AllHaveKeys(todo) && AllSupported(todo)
  {
    RunStmts(ProgramOf(es), EntryStmts(todo) + [Last()], m, devices) ==
    BootFrom(todo, GeneralCount(done), GpioCount(done), |Ready(done)|, m.calls, m.events, devices)
  }

  /** What is to be done, and the first entry of it, which is ready. */
  ghost predicate AtReady(es: seq<Interface>, done: seq<Interface>, e: Interface, rest: seq<Interface>) {
    && AllHaveKeys(es) && AllHaveKeys([e] + rest) && DistinctNames(es) && AllSupported([e] + rest)
    && Splits(es, done, e, rest) && e.ready
    && AllHaveKeys(rest) && AllSupported(rest) && HasKeys(e) && Supported(e.kind)
  }

  lemma EntryStmtsStep(e: Interface, rest: seq<Interface>, last: seq<Stmt>)
    requires e.ready && AllHaveKeys([e] + rest) && AllHaveKeys(rest) && HasKeys(e)
    ensures EntryStmts([e] + rest) + last == CallStmts(e) + CheckStmts(e) + (EntryStmts(rest) + last)
  {
    assert ([e] + rest)[1..] == rest;
    Associate(CallStmts(e) + CheckStmts(e), EntryStmts(rest), last);
  }

  /** One step of the direct boot, as a step of the machine. */
  lemma BootStep(e: Interface, rest: seq<Interface>, slot: nat, pin: nat, position: nat, m: Machine, devices: Devices)
    requires e.ready && AllSupported([e] + rest) && AllHaveKeys([e] + rest)
    requires Supported(e.kind) && HasKeys(e) && AllSupported(rest) && AllHaveKeys(rest)
    ensures var m' := AfterCall(m, CallFor(e, slot, pin), devices);
            BootFrom([e] + rest, slot, pin, position, m.calls, m.events, devices) ==
            if m'.status.value != CFE_SUCCESS then
              Finished(m'.events + [FailureNote(e)], SerialError(FIRST_OFFSET + position))
            else if e.kind.Gpio? then BootFrom(rest, slot, pin + 1, position + 1, m'.calls, m'.events, devices)
            else BootFrom(rest, slot + 1, pin, position + 1, m'.calls, m'.events + [SuccessNote(e, slot)], devices)
  {
    assert ([e] + rest)[1..] == rest;
  }

  lemma GpioAgrees(es: seq<Interface>, done: seq<Interface>, e: Interface, rest: seq<Interface>, m: Machine,
                   devices: Devices)
    requires AtReady(es, done, e, rest) && e.kind.Gpio?
    requires var m' := AfterCall(m, CallFor(e, GeneralCount(done), GpioCount(done)), devices);
             m'.status.value == CFE_SUCCESS ==> Agree(es, done + [e], rest, m', devices)
    ensures Agree(es, done, [e] + rest, m, devices)
  {
    var p, slot, pin := ProgramOf(es), GeneralCount(done), GpioCount(done);
    SlotOf(es, done, e, rest);
    ErrorValue(p, es, done, e, rest);
    EntryStmtsStep(e, rest, [Last()]);
    GpioEntryRuns(p, e, slot, pin, SerialError(FIRST_OFFSET + |Ready(done)|), m, EntryStmts(rest) + [Last()], devices);
    BootStep(e, rest, slot, pin, |Ready(done)|, m, devices);
    CountStep(done, e);
  }

  lemma GeneralAgrees(es: seq<Interface>, done: seq<Interface>, e: Interface, rest: seq<Interface>, m: Machine,
                      devices: Devices)
    requires AtReady(es, done, e, rest) && IsGeneral(e.kind)
    requires var slot := GeneralCount(done);
             var m' := AfterCall(m, CallFor(e, slot, GpioCount(done)), devices);
             m'.status.value == CFE_SUCCESS ==>
               Agree(es, done + [e], rest, m'.(events := m'.events + [SuccessNote(e, slot)]), devices)
    ensures Agree(es, done, [e] + rest, m, devices)
  {
    var p, slot, pin := ProgramOf(es), GeneralCount(done), GpioCount(done);
    SlotOf(es, done, e, rest);
    HandleValue(p, es, done, e, rest);
    ErrorValue(p, es, done, e, rest);
    EntryStmtsStep(e, rest, [Last()]);
    GeneralEntryRuns(p, e, slot, pin, SerialError(FIRST_OFFSET + |Ready(done)|), m, EntryStmts(rest) + [Last()],
                     devices);
    BootStep(e, rest, slot, pin, |Ready(done)|, m, devices);
    CountStep(done, e);
  }

  lemma UnreadyAgrees(es: seq<Interface>, done: seq<Interface>, e: Interface, rest: seq<Interface>, m: Machine,
                      devices: Devices)
    requires AllHaveKeys(es) && AllHaveKeys([e] + rest) && AllHaveKeys(rest) && AllSupported([e] + rest) &&
             AllSupported(rest)
    requires !e.ready && Agree(es, done + [e], rest, m, devices)
    ensures Agree(es, done, [e] + rest, m, devices)
  {
    CountSkip(done, e);
    assert ([e] + rest)[1..] == rest;
  }

  lemma {:induction false} EntriesRun(es: seq<Interface>, done: seq<Interface>, todo: seq<Interface>, m: Machine,
                                      devices: Devices)
    requires es == done + todo
    requires AllHaveKeys(es) && AllHaveKeys(todo) && DistinctNames(es) && AllSupported(todo)
    ensures Agree(es, done, todo, m, devices)
    decreases |todo|
  {
    if todo == [] {
      assert EntryStmts(todo) + [Last()] == [Last()];
      LastRuns(ProgramOf(es), m, devices);
    } else {
      var e, rest := todo[0], todo[1..];
      assert todo == [e] + rest && es == done + [e] + rest;
      if !e.ready {
        EntriesRun(es, done + [e], rest, m, devices);
        UnreadyAgrees(es, done, e, rest, m, devices);
      } else {
        var slot := GeneralCount(done);
        var m' := AfterCall(m, CallFor(e, slot, GpioCount(done)), devices);
        if e.kind.Gpio? {
          EntriesRun(es, done + [e], rest, m', devices);
          GpioAgrees(es, done, e, rest, m, devices);
        } else {
          EntriesRun(es, done + [e], rest, m'.(events := m'.events + [SuccessNote(e, slot)]), devices);
          GeneralAgrees(es, done, e, rest, m, devices);
        }
      }
    }
  }

  lemma PriorRuns(p: Program, rest: seq<Stmt>, devices: Devices)
    ensures var status := devices([PriorInit]);
            var events := [Called(PriorInit, status)];
            var m := Machine([PriorInit], events + [Logged("%s: Prior Initialized.", [])], Some(status), {});
            RunStmts(p, PriorStmts() + rest, Machine([], [], None, {}), devices) ==
            if status != CFE_SUCCESS then Finished(events, status) else RunStmts(p, rest, m, devices)
  {
    var start := Machine([], [], None, {});
    var declare, call := Do(Declare("int32", "Status")), Do(Assign("Status", "CFE_SRL_PriorInit", []));
    var check, log := IfNot("Status", "CFE_SUCCESS", [Return(Name("Status"))]),
                      Do(Invoke(LOG, [Str("%s: Prior Initialized."), Name("__func__")]));
    var m1 := AfterCall(start, PriorInit, devices);
    assert [] + [PriorInit] == [PriorInit];
    assert [] + [Called(PriorInit, devices([PriorInit]))] == [Called(PriorInit, devices([PriorInit]))];
    assert PriorStmts() + rest == [declare] + ([call] + ([check] + ([log] + rest)));
    RunCons(p, declare, [call] + ([check] + ([log] + rest)), [declare] + ([call] + ([check] + ([log] + rest))), start,
            devices);
    RunCons(p, call, [check] + ([log] + rest), [call] + ([check] + ([log] + rest)), start, devices);
    RunCons(p, check, [log] + rest, [check] + ([log] + rest), m1, devices);
    if m1.status.value == CFE_SUCCESS {
      PriorLogRuns(p, m1, devices);
      RunCons(p, log, rest, [log] + rest, m1, devices);
    }
  }

  lemma PriorLogRuns(p: Program, m: Machine, devices: Devices)
    ensures RunSimple(p, Invoke(LOG, [Str("%s: Prior Initialized."), Name("__func__")]), m, devices) ==
            Go(m.(events := m.events + [Logged("%s: Prior Initialized.", [])]))
  {
    var args := [Str("%s: Prior Initialized."), Name("__func__")];
    assert args[1..] == [Name("__func__")];
    assert [Name("__func__")][1..] == [] && Dereferenced(p, m, [Name("__func__")][1..]) == Some([]);
    assert "__func__"[0] == '_' && "Status"[0] == 'S';
    assert Dereferenced(p, m, args[1..]) == Some([]);
  }

  // ----- closed programs -----

  lemma ResolveConcat(p: Program, a: seq<Stmt>, b: seq<Stmt>)
    ensures StmtsResolve(p, a + b) <==> StmtsResolve(p, a) && StmtsResolve(p, b)
  {
    if StmtsResolve(p, a + b) {
      forall i | 0 <= i < |a| ensures StmtResolves(p, a[i]) { assert (a + b)[i] == a[i]; }
      forall i | 0 <= i < |b| ensures StmtResolves(p, b[i]) { assert (a + b)[|a| + i] == b[i]; }
    }
  }

  lemma ResolveOne(p: Program, s: Stmt)
    ensures StmtsResolve(p, [s]) <==> StmtResolves(p, s)
  {
    assert [s][0] == s;
  }

  lemma FixedStmtsResolve(p: Program)
    ensures StmtsResolve(p, PriorStmts()) && StmtsResolve(p, [Last()])
  {
    assert StmtResolves(p, PriorStmts()[1]);
    assert StmtResolves(p, PriorStmts()[3]);
  }

  /** Which type an entry's call may name. */
  lemma DeviceTypeResolves(es: seq<Interface>, kind: Kind)
    requires AllHaveKeys(es) && IsGeneral(kind)
    ensures ConstValue(ProgramOf(es), DeviceType(kind)).Some? <==> Supported(kind)
  {
    if Supported(kind) {
      DeviceTypeNumbers(ProgramOf(es), kind);
    } else {
      UndeclaredTypes();
      DeviceTypeNeverGenerated(ProgramOf(es), es, DeviceType(kind));
    }
  }

  lemma UndeclaredTypes()
    ensures DeviceTypeValue("SRL_DEVTYPE_RS232") == None && DeviceTypeValue("SRL_DEVTYPE_RS485") == None
  {
    assert "SRL_DEVTYPE_RS422"[14] == '4' && "SRL_DEVTYPE_RS232"[14] == '2';
    assert "SRL_DEVTYPE_RS485"[15] == '8' && "SRL_DEVTYPE_RS422"[15] == '2';
    assert |"SRL_DEVTYPE_UART"| == 16 && |"SRL_DEVTYPE_I2C"| == 15 && |"SRL_DEVTYPE_SPI"| == 15 &&
           |"SRL_DEVTYPE_CAN"| == 15;
  }

  lemma AssignResolves(p: Program, callee: string, args: seq<Expr>)
    requires callee in ["CFE_SRL_PriorInit", "CFE_SRL_HandleInit", "CFE_SRL_GpioInit"]
    ensures StmtsResolve(p, [Do(Assign("Status", callee, args))]) <==> forall e :: e in args ==> ExprResolves(p, e)
  {
    ResolveOne(p, Do(Assign("Status", callee, args)));
  }

  lemma GpioCallResolves(es: seq<Interface>, done: seq<Interface>, e: Interface, rest: seq<Interface>)
    requires AllHaveKeys(es) && DistinctNames(es) && Splits(es, done, e, rest) && e.ready && e.kind.Gpio? && HasKeys(e)
    ensures StmtsResolve(ProgramOf(es), CallStmts(e))
  {
    var p := ProgramOf(es);
    Arrays(es);
    GpioNumValue(p, es);
    PinValue(p, es, done, e, rest);
    assert forall x :: x in GpioInitArgs(e) ==> ExprResolves(p, x);
    AssignResolves(p, "CFE_SRL_GpioInit", GpioInitArgs(e));
  }

  lemma HandleCallResolves(es: seq<Interface>, done: seq<Interface>, e: Interface, rest: seq<Interface>)
    requires AllHaveKeys(es) && DistinctNames(es) && Splits(es, done, e, rest) && e.ready && IsGeneral(e.kind) &&
             HasKeys(e)
    ensures StmtsResolve(ProgramOf(es), CallStmts(e)) <==> Supported(e.kind)
  {
    var p := ProgramOf(es);
    var args := HandleInitArgs(e);
    Arrays(es);
    DeviceNumValue(p, es);
    HandleValue(p, es, done, e, rest);
    DeviceTypeResolves(es, e.kind);
    TypeNameIsNoLocal(e.kind);
    assert args[3] == Name(DeviceType(e.kind)) && args[3] in args;
    assert ExprResolves(p, args[3]) <==> Supported(e.kind);
    assert forall i :: 0 <= i < 7 && i != 3 ==> ExprResolves(p, args[i]);
    AssignResolves(p, "CFE_SRL_HandleInit", args);
  }

  lemma TypeNameIsNoLocal(kind: Kind)
    requires IsGeneral(kind)
    ensures DeviceType(kind) != "Status" && DeviceType(kind) != "__func__"
  {
    assert |DeviceType(kind)| > 10 && |"Status"| == 6 && |"__func__"| == 8;
  }

  lemma CheckResolves(es: seq<Interface>, done: seq<Interface>, e: Interface, rest: seq<Interface>)
    requires AllHaveKeys(es) && DistinctNames(es) && Splits(es, done, e, rest) && e.ready
    ensures StmtsResolve(ProgramOf(es), CheckStmts(e)) <==> IsKnown(e.kind)
  {
    var p := ProgramOf(es);
    var check := IfNot("Status", "CFE_SUCCESS", [FailureLog(e), FailureReturn(e)]);
    ErrorValue(p, es, done, e, rest);
    assert SimpleResolves(p, FailureLog(e)) && SimpleResolves(p, FailureReturn(e));
    ResolveOne(p, check);
    if !e.kind.Gpio? {
      ResolveConcat(p, [check], [Do(SuccessLog(e))]);
      ResolveOne(p, Do(SuccessLog(e)));
      SuccessLogResolves(es, done, e, rest);
    }
  }

  lemma SuccessLogResolves(es: seq<Interface>, done: seq<Interface>, e: Interface, rest: seq<Interface>)
    requires AllHaveKeys(es) && DistinctNames(es) && Splits(es, done, e, rest) && e.ready && !e.kind.Gpio?
    ensures SimpleResolves(ProgramOf(es), SuccessLog(e)) <==> IsKnown(e.kind)
  {
    var p := ProgramOf(es);
    var args := SuccessLog(e).args;
    Arrays(es);
    DeviceNumValue(p, es);
    if IsKnown(e.kind) {
      HandleValue(p, es, done, e, rest);
      assert forall x :: x in args ==> ExprResolves(p, x);
    } else {
      UnknownHasNoSlot(p, es, done, e, rest);
      assert args[2] in args && !ExprResolves(p, args[2]);
    }
  }

  lemma {:induction false} EntriesResolve(es: seq<Interface>, done: seq<Interface>, todo: seq<Interface>)
    requires es == done + todo
    requires AllHaveKeys(es) && AllHaveKeys(todo) && DistinctNames(es)
    ensures StmtsResolve(ProgramOf(es), EntryStmts(todo)) <==> AllSupported(todo)
    decreases |todo|
  {
    var p := ProgramOf(es);
    if todo != [] {
      var e, rest := todo[0], todo[1..];
      assert todo == [e] + rest && es == done + [e] + rest;
      EntriesResolve(es, done + [e], rest);
      assert AllSupported(todo) <==> (e.ready ==> Supported(e.kind)) && AllSupported(rest);
      if e.ready {
        CheckResolves(es, done, e, rest);
        if e.kind.Gpio? {
          GpioCallResolves(es, done, e, rest);
        } else if IsGeneral(e.kind) {
          HandleCallResolves(es, done, e, rest);
        }
        ResolveConcat(p, CallStmts(e) + CheckStmts(e), EntryStmts(rest));
        ResolveConcat(p, CallStmts(e), CheckStmts(e));
      }
    }
  }

  /** Every name that the function uses is declared exactly when every ready type is supported. */
  lemma ClosedIff(es: seq<Interface>)
    requires AllHaveKeys(es) && DistinctNames(es)
    ensures Closed(ProgramOf(es)) <==> AllSupported(es)
  {
    var p := ProgramOf(es);
    var body := PriorStmts() + EntryStmts(es) + [Last()];
    assert p.source[|p.source| - 1] == Function("int32", "CFE_SRL_EarlyInit", body);
    assert es == [] + es;
    EntriesResolve(es, [], es);
    FixedStmtsResolve(p);
    ResolveConcat(p, PriorStmts() + EntryStmts(es), [Last()]);
    ResolveConcat(p, PriorStmts(), EntryStmts(es));
  }

  // ----- the literals -----

  /** The device paths of ready entries have valid escapes only. */
  ghost predicate PathsValid(es: seq<Interface>) {
    forall i :: 0 <= i < |es| && es[i].ready ==> EscapesValid(es[i].devName)
  }

  lemma LogTextsValid(e: Interface)
    requires AllWordChars(e.name)
    ensures EscapesValid(FailureText(e)) && EscapesValid(SuccessText(e))
  {
    FailureTextValid(if e.kind.Gpio? then "%s: GPIO " else "%s: ", e.name);
    SuccessTextValid(e.name);
  }

  lemma FailureTextValid(start: string, name: string)
    requires AllWordChars(name) && start in ["%s: GPIO ", "%s: "]
    ensures EscapesValid(start + name + " Initialization failed! RC=%d\\n")
  {
    var end := " Initialization failed! RC=%d\\n";
    assert EscapesValid(end);
    EscapesAfterPlain(start + name, end);
  }

  lemma SuccessTextValid(name: string)
    requires AllWordChars(name)
    ensures EscapesValid("%s: " + name + " Initialized. FD=%d" + " || DevName=%s\\n")
  {
    var end := " || DevName=%s\\n";
    assert EscapesValid(end);
    EscapesAfterPlain("%s: " + name + " Initialized. FD=%d", end);
  }

  lemma EscapesAfterPlain(a: string, b: string)
    requires (forall i :: 0 <= i < |a| ==> a[i] != '\\') && EscapesValid(b)
    ensures EscapesValid(a + b)
  {
    var c := a + b;
    forall i | 0 <= i < |c| && c[i] == '\\' && !Escaped(c, i)
      ensures IsEscape(c, i)
    {
      var k := i - |a|;
      EscapedAfter(a, b, k);
      assert c[|a| + k] == b[k] && IsEscape(b, k);
      assert forall j :: k <= j < |b| ==> c[|a| + j] == b[j];
      EscapeShifts(a, b, k);
    }
  }

  lemma EscapeShifts(a: string, b: string, k: nat)
    requires k < |b| && IsEscape(b, k)
    ensures IsEscape(a + b, |a| + k)
  {
    var c := a + b;
    assert c[|a| + k + 1] == b[k + 1];
    HexShifts(a, b, k + 2, 1);
    HexShifts(a, b, k + 2, 4);
    HexShifts(a, b, k + 2, 8);
  }

  lemma HexShifts(a: string, b: string, from: nat, count: nat)
    ensures HexDigits(b, from, count) ==> HexDigits(a + b, |a| + from, count)
  {
    var c := a + b;
    assert forall i :: |a| <= i < |c| ==> c[i] == b[i - |a|];
  }

  lemma LiteralsConcat(a: seq<Stmt>, b: seq<Stmt>)
    ensures StmtsLiteralsValid(a + b) <==> StmtsLiteralsValid(a) && StmtsLiteralsValid(b)
  {
    if StmtsLiteralsValid(a + b) {
      forall i | 0 <= i < |a| ensures StmtLiteralsValid(a[i]) { assert (a + b)[i] == a[i]; }
      forall i | 0 <= i < |b| ensures StmtLiteralsValid(b[i]) { assert (a + b)[|a| + i] == b[i]; }
    }
  }

  lemma CallLiterals(e: Interface)
    requires HasKeys(e) && IsKnown(e.kind) && AllWordChars(e.name)
    ensures StmtsLiteralsValid(CallStmts(e)) <==> EscapesValid(e.devName)
  {
    assert EscapesValid(e.name);
    if e.kind.Gpio? {
      assert GpioInitArgs(e)[1] == Str(e.devName);
      assert LiteralsValid(GpioInitArgs(e)) <==> EscapesValid(e.devName);
      assert CallStmts(e)[0] == Do(Assign("Status", "CFE_SRL_GpioInit", GpioInitArgs(e)));
    } else {
      assert HandleInitArgs(e)[2] == Str(e.devName);
      assert LiteralsValid(HandleInitArgs(e)) <==> EscapesValid(e.devName);
      assert CallStmts(e)[0] == Do(Assign("Status", "CFE_SRL_HandleInit", HandleInitArgs(e)));
    }
  }

  lemma CheckLiterals(e: Interface)
    requires AllWordChars(e.name)
    ensures StmtsLiteralsValid(CheckStmts(e))
  {
    LogTextsValid(e);
    assert SimpleLiteralsValid(FailureLog(e)) && SimpleLiteralsValid(SuccessLog(e));
  }

  lemma {:induction false} EntryLiterals(es: seq<Interface>)
    requires AllHaveKeys(es) && AllSupported(es) && PlainNames(es)
    ensures StmtsLiteralsValid(EntryStmts(es)) <==> PathsValid(es)
  {
    if es != [] {
      var e, rest := es[0], es[1..];
      EntryLiterals(rest);
      assert PathsValid(es) <==> (e.ready ==> EscapesValid(e.devName)) && PathsValid(rest);
      if e.ready {
        CallLiterals(e);
        CheckLiterals(e);
        LiteralsConcat(CallStmts(e) + CheckStmts(e), EntryStmts(rest));
        LiteralsConcat(CallStmts(e), CheckStmts(e));
      }
    }
  }

  lemma LiteralsIff(es: seq<Interface>)
    requires AllHaveKeys(es) && AllSupported(es) && PlainNames(es)
    ensures StmtsLiteralsValid(PriorStmts() + EntryStmts(es) + [Last()]) <==> PathsValid(es)
  {
    EntryLiterals(es);
    LiteralsConcat(PriorStmts() + EntryStmts(es), [Last()]);
    LiteralsConcat(PriorStmts(), EntryStmts(es));
    FixedLiterals();
  }

  lemma FixedLiterals()
    ensures StmtsLiteralsValid(PriorStmts()) && StmtsLiteralsValid([Last()])
  {
    assert EscapesValid("%s: Prior Initialized.");
  }

  // ----- the main results -----

  /** What a configuration must meet for its three files, by themselves, to make one program. */
  ghost predicate Buildable(es: seq<Interface>) {
    AllHaveKeys(es) && AllSupported(es) && DistinctNames(es) && FreeNames(es)
  }

  lemma Guarded(es: seq<Interface>)
    ensures IsGuarded(MissionItems(es)) && IsGuarded(ErrorItems(es))
  {
    assert MissionItems(es)[0] == Guard("CFE_SRL_MISSION_CFG_H");
    assert MissionItems(es)[1] == Macro("CFE_SRL_MISSION_CFG_H", Empty);
    assert ErrorItems(es)[0] == Guard("CFE_SRL_ERROR_H");
    assert ErrorItems(es)[1] == Macro("CFE_SRL_ERROR_H", Empty);
  }

  /** With all keys present, the parsed files fit together exactly when the configuration is buildable. */
  lemma FitsIff(es: seq<Interface>)
    requires AllHaveKeys(es)
    ensures Unambiguous(ProgramOf(es)) && Closed(ProgramOf(es)) <==> Buildable(es)
  {
    UnambiguousIff(es);
    if DistinctNames(es) { ClosedIff(es); }
  }

  lemma TextsParse(es: seq<Interface>)
    requires AllPrintable(es) && AllHaveKeys(es)
    ensures Parse(MissionText(es)) == Some(ProgramOf(es).mission)
    ensures Parse(ErrorText(es)) == Some(ProgramOf(es).errors)
    ensures Parse(SourceText(es)) == Some(ProgramOf(es).source)
  {
    MissionHeaderRoundTrip(es);
    ErrorHeaderRoundTrip(es);
    InitSourceRoundTrip(es);
  }

  lemma BuildsWhenParsed(es: seq<Interface>, mission: string, errors: string, source: string)
    requires AllHaveKeys(es)
    requires Parse(mission) == Some(ProgramOf(es).mission) && Parse(errors) == Some(ProgramOf(es).errors)
    requires Parse(source) == Some(ProgramOf(es).source)
    ensures Build(mission, errors, source) == if Buildable(es) then Some(ProgramOf(es)) else None
  {
    Guarded(es);
    FitsIff(es);
    BuildOf(mission, errors, source, ProgramOf(es));
  }

  /**
   * Exactly when the three texts parse, define nothing twice and use nothing that is
   * undeclared: no ready entry misses a key, all ready types are supported, and the
   * ready names are distinct and free.
   */
  lemma BuildsIff(es: seq<Interface>)
    requires AllPrintable(es)
    ensures Build(MissionText(es), ErrorText(es), SourceText(es)).Some? <==> Buildable(es)
    ensures Buildable(es) ==> Build(MissionText(es), ErrorText(es), SourceText(es)) == Some(ProgramOf(es))
  {
    if AllHaveKeys(es) {
      TextsBuild(es);
    } else {
      CutSourceDoesNotParse(es);
    }
  }

  lemma TextsBuild(es: seq<Interface>)
    requires AllPrintable(es) && AllHaveKeys(es)
    ensures Build(MissionText(es), ErrorText(es), SourceText(es)) == if Buildable(es) then Some(ProgramOf(es)) else None
  {
    TextsParse(es);
    BuildsWhenParsed(es, MissionText(es), ErrorText(es), SourceText(es));
  }

  lemma CompilesWhenBuilt(es: seq<Interface>, mission: string, errors: string, source: string)
    requires PlainNames(es)
    requires Build(mission, errors, source) == if Buildable(es) then Some(ProgramOf(es)) else None
    ensures Compiles(mission, errors, source) <==> Compilable(es)
  {
    IndexTypes(es);
    if Buildable(es) {
      var p := ProgramOf(es);
      assert p.source[|p.source| - 1].body == PriorStmts() + EntryStmts(es) + [Last()];
      LiteralsIff(es);
    }
  }

  /** What must hold besides for that program to compile among the hand-written headers that its source includes. */
  ghost predicate Compilable(es: seq<Interface>) {
    Buildable(es) && GeneralCount(es) > 0 && PathsValid(es)
  }

  /**
   * Exactly when that program also compiles among the hand-written headers that its
   * source includes: some general entry must be ready as well, and the device paths of the
   * ready entries must have valid escapes only.
   */
  lemma CompilesIff(es: seq<Interface>)
    requires AllPrintable(es)
    ensures Compiles(MissionText(es), ErrorText(es), SourceText(es)) <==> Compilable(es)
  {
    BuildsIff(es);
    CompilesWhenBuilt(es, MissionText(es), ErrorText(es), SourceText(es));
  }

  /** The linked program runs as the direct boot does. */
  lemma ProgramRuns(es: seq<Interface>, devices: Devices)
    requires AllHaveKeys(es) && AllSupported(es) && DistinctNames(es)
    requires Closed(ProgramOf(es))
    ensures Run(ProgramOf(es), devices) == Boot(es, devices)
  {
    var p := ProgramOf(es);
    var tail := EntryStmts(es) + [Last()];
    var status := devices([PriorInit]);
    var m := Machine([PriorInit], [Called(PriorInit, status)] + [Logged("%s: Prior Initialized.", [])], Some(status),
                     {});
    assert p.source[|p.source| - 1] == Function("int32", "CFE_SRL_EarlyInit", PriorStmts() + EntryStmts(es) + [Last()]);
    assert PriorStmts() + EntryStmts(es) + [Last()] == PriorStmts() + tail;
    PriorRuns(p, tail, devices);
    assert es == [] + es;
    EntriesRun(es, [], es, m, devices);
    assert Agree(es, [], es, m, devices);
  }

  /**
   * Meaning preservation. For every buildable configuration and every behaviour of
   * the devices, the program read back from the generated texts makes the calls of the
   * direct boot, in its order and with its arguments, logs what it logs, and returns
   * what it returns. In particular it never gets stuck: no index out of bounds, no
   * slot read before it holds a handle.
   */
  lemma MeaningPreserved(es: seq<Interface>, devices: Devices)
    requires AllPrintable(es) && Buildable(es)
    ensures var p := Build(MissionText(es), ErrorText(es), SourceText(es));
            p.Some? && Run(p.value, devices) == Boot(es, devices)
  {
    BuildsIff(es);
    ProgramRuns(es, devices);
  }
}
