// What holds of every run of a generated program, stated about the program that
// the three texts make.
module Guarantees {
  import opened Text
  import opened Lexing
  import opened Interfaces
  import opened Emission
  import opened Reading
  import opened Linking
  import opened Naming
  import opened Lookup
  import opened Booting
  import opened Preservation
  import opened Diagnosis
  import opened HandleTable

  /** Running the program that is read back from the configuration's three texts. */
  ghost function Booted(es: seq<Interface>, devices: Devices): (out: Outcome)
    requires AllPrintable(es) && Buildable(es)
    ensures out.Finished?
  {
    MeaningPreserved(es, devices);
    Run(Build(MissionText(es), ErrorText(es), SourceText(es)).value, devices)
  }

  lemma BootedIsBoot(es: seq<Interface>, devices: Devices)
    requires AllPrintable(es) && Buildable(es)
    ensures Booted(es, devices) == Boot(es, devices)
  {
    MeaningPreserved(es, devices);
  }

  /** Every call of a boot without failures succeeds. */
  ghost predicate AllSucceed(devices: Devices, calls: seq<Call>) {
    forall j :: 0 < j <= |calls| ==> devices(calls[..j]) == CFE_SUCCESS
  }

  /** A boot reports success exactly if every call succeeds, and only after making them all. */
  lemma SuccessIff(es: seq<Interface>, devices: Devices)
    requires Bootable(es)
    ensures Boot(es, devices).result == CFE_SUCCESS <==> AllSucceed(devices, AllCalls(es))
    ensures Boot(es, devices).result == CFE_SUCCESS ==> CallsMade(Boot(es, devices).events) == AllCalls(es)
  {
    var out, calls := Boot(es, devices), AllCalls(es);
    FirstFailure(es, devices);
    var n: nat :|
      && n <= |calls| && Succeed(devices, calls, 0, n)
      && if n == |calls| then out.result == CFE_SUCCESS && CallsMade(out.events) == calls
         else
           && devices(calls[..n + 1]) != CFE_SUCCESS
           && out.result == (if n == 0 then devices([PriorInit]) else SerialError(90 + (n - 1)))
           && CallsMade(out.events) == calls[..n + 1];
    if n < |calls| {
      assert calls[..1] == [PriorInit];
      if n > 0 { ErrorCodesIdentify(n - 1, n - 1); }
      assert !AllSucceed(devices, calls);
    } else {
      assert AllSucceed(devices, calls);
    }
  }

  /**
   * An outcome that is what one wants of a run: success exactly if every call succeeds, and
   * then every slot of both tables initialised once, in order, and none besides; and no log
   * line reads a slot that was not initialised successfully before it.
   */
  ghost predicate IsSafe(es: seq<Interface>, devices: Devices, out: Outcome)
    requires Bootable(es)
  {
    && out.Finished? && SafeReads(out.events)
    && (out.result == CFE_SUCCESS <==> AllSucceed(devices, AllCalls(es)))
    && (out.result == CFE_SUCCESS ==>
          && SlotsOf(CallsMade(out.events)) == Range(0, GeneralCount(es))
          && PinsOf(CallsMade(out.events)) == Range(0, GpioCount(es)))
  }

  /**
   * The first n calls succeed, and the outcome tells why there are no more: none is left, or
   * the next one failed, which was prior initialisation or that of the ready entry n - 1,
   * whose error status has severity 3, mission 1 and the code 90 + (n - 1).
   */
  ghost predicate TellsFirstFailure(es: seq<Interface>, devices: Devices, out: Outcome, n: nat)
    requires Bootable(es)
  {
    var calls := AllCalls(es);
    && out.Finished? && n <= |calls| == 1 + |Ready(es)|
    && Succeed(devices, calls, 0, n)
    && if n == |calls| then out.result == 0 == CFE_SUCCESS && CallsMade(out.events) == calls
       else
         && devices(calls[..n + 1]) != CFE_SUCCESS
         && out.result == (if n == 0 then devices([PriorInit]) else SerialError(90 + (n - 1)))
         && (n > 0 ==> FieldsOf(out.result) == Fields(3, 0, 0, 1, (90 + (n - 1)) % 0x1_0000) && out.result < 0)
         && CallsMade(out.events) == calls[..n + 1]
  }

  lemma BootIsSafe(es: seq<Interface>, devices: Devices)
    requires Bootable(es)
    ensures IsSafe(es, devices, Boot(es, devices))
  {
    SuccessIff(es, devices);
    LogsReadLiveSlots(es, devices);
    SlotsExactlyOnce(es);
  }

  lemma BootTellsFirstFailure(es: seq<Interface>, devices: Devices) returns (n: nat)
    requires Bootable(es)
    ensures TellsFirstFailure(es, devices, Boot(es, devices), n)
  {
    FirstFailure(es, devices);
    var out, calls := Boot(es, devices), AllCalls(es);
    n :|
      && n <= |calls| && Succeed(devices, calls, 0, n)
      && if n == |calls| then out.result == CFE_SUCCESS && CallsMade(out.events) == calls
         else
           && devices(calls[..n + 1]) != CFE_SUCCESS
           && out.result == (if n == 0 then devices([PriorInit]) else SerialError(90 + (n - 1)))
           && CallsMade(out.events) == calls[..n + 1];
    if n > 0 { SerialErrorFields(90 + (n - 1)); }
  }

  /** For every buildable configuration and all devices, the program read back from the generated texts runs safely. */
  lemma EveryRunIsSafe(es: seq<Interface>, devices: Devices)
    requires AllPrintable(es) && Buildable(es)
    ensures IsSafe(es, devices, Booted(es, devices))
  {
    BootedIsBoot(es, devices);
    BootIsSafe(es, devices);
  }

  /** The program's result tells the first failure. */
  lemma ResultTellsFirstFailure(es: seq<Interface>, devices: Devices) returns (n: nat)
    requires AllPrintable(es) && Buildable(es)
    ensures TellsFirstFailure(es, devices, Booted(es, devices), n)
  {
    BootedIsBoot(es, devices);
    n := BootTellsFirstFailure(es, devices);
  }

  /**
   * What equal results of two runs mean, as far as the outcomes tell: the same first failure,
   * unless one run ends with prior initialisation's own status.
   */
  lemma EqualOutcomes(es: seq<Interface>, d1: Devices, out1: Outcome, n1: nat, d2: Devices, out2: Outcome, n2: nat)
    requires Bootable(es) && |Ready(es)| <= 0x1_0000
    requires TellsFirstFailure(es, d1, out1, n1) && TellsFirstFailure(es, d2, out2, n2)
    requires d2([PriorInit]) == CFE_SUCCESS
    ensures d1([PriorInit]) == CFE_SUCCESS ==> (out1.result == out2.result <==> n1 == n2)
    ensures d1([PriorInit]) != CFE_SUCCESS ==>
              (out1.result == out2.result <==> 0 < n2 <= |Ready(es)| && CodeIs(n2 - 1, d1([PriorInit])))
  {
    assert AllCalls(es)[..1] == [PriorInit];
    assert n2 > 0;
    if n1 > 0 { assert d1(AllCalls(es)[..1]) == CFE_SUCCESS; }
    EqualResults(|Ready(es)|, d1([PriorInit]), out1.result, n1, out2.result, n2);
  }

  lemma EqualResults(count: nat, prior: int, r1: int, n1: nat, r2: int, n2: nat)
    requires count <= 0x1_0000 && n1 <= 1 + count && 0 < n2 <= 1 + count && (n1 == 0 <==> prior != CFE_SUCCESS)
    requires r1 == if n1 == 0 then prior else if n1 == 1 + count then CFE_SUCCESS else SerialError(90 + (n1 - 1))
    requires r2 == if n2 == 1 + count then CFE_SUCCESS else SerialError(90 + (n2 - 1))
    ensures n1 > 0 ==> (r1 == r2 <==> n1 == n2)
    ensures n1 == 0 ==> (r1 == r2 <==> n2 <= count && CodeIs(n2 - 1, prior))
  {
    ErrorCodesIdentify(n2 - 1, n2 - 1);
    if n1 > 0 {
      ErrorCodesIdentify(n1 - 1, n1 - 1);
      ErrorCodesIdentify(n1 - 1, n2 - 1);
    }
  }

  /**
   * The result identifies the first failure. With at most 65536 ready entries, two runs of the
   * built program in which prior initialisation succeeds return the same exactly if they fail
   * first at the same entry or both not at all; prior initialisation's own status is the result
   * of such a run exactly if it is the code of the entry that fails there.
   */
  lemma ResultIdentifiesFailure(es: seq<Interface>, d1: Devices, d2: Devices) returns (n1: nat, n2: nat)
    requires AllPrintable(es) && Buildable(es) && |Ready(es)| <= 0x1_0000
    requires d2([PriorInit]) == CFE_SUCCESS
    ensures TellsFirstFailure(es, d1, Booted(es, d1), n1) && TellsFirstFailure(es, d2, Booted(es, d2), n2)
    ensures d1([PriorInit]) == CFE_SUCCESS ==> (Booted(es, d1).result == Booted(es, d2).result <==> n1 == n2)
    ensures d1([PriorInit]) != CFE_SUCCESS ==>
              (Booted(es, d1).result == Booted(es, d2).result <==>
               0 < n2 <= |Ready(es)| && CodeIs(n2 - 1, d1([PriorInit])))
  {
    n1 := ResultTellsFirstFailure(es, d1);
    n2 := ResultTellsFirstFailure(es, d2);
    EqualOutcomes(es, d1, Booted(es, d1), n1, d2, Booted(es, d2), n2);
  }

  // ----- the table of handles -----

  /** In no run of the built program do two handles share a mutex, with at most 256 entries in the table. */
  lemma NoMutexShared(es: seq<Interface>, devices: Devices, size: nat)
    requires AllPrintable(es) && Buildable(es) && HasTable(devices, size) && size <= 0x100
    ensures MutexesDistinct(Booted(es, devices).events)
  {
    BootedIsBoot(es, devices);
    MutexesNeverShared(es, devices, size);
  }

  /** The built program succeeds only if the table holds all ready general entries, and then if nothing else fails. */
  lemma TableDecides(es: seq<Interface>, devices: Devices, size: nat)
    requires AllPrintable(es) && Buildable(es) && HasTable(devices, size)
    ensures Booted(es, devices).result == CFE_SUCCESS ==> GeneralCount(es) <= size
    ensures OnlyTableFails(devices, size) && GeneralCount(es) <= size ==> Booted(es, devices).result == CFE_SUCCESS
  {
    BootedIsBoot(es, devices);
    if Boot(es, devices).result == CFE_SUCCESS { SuccessFitsTable(es, devices, size); }
    if OnlyTableFails(devices, size) { TableSufficesIff(es, devices, size); }
  }

  /** If nothing but the table fails, the result is the code of the general entry that finds it full. */
  lemma FullTableReported(es: seq<Interface>, done: seq<Interface>, e: Interface, rest: seq<Interface>,
                          devices: Devices, size: nat)
    requires AllPrintable(es) && Buildable(es) && OnlyTableFails(devices, size)
    requires Splits(es, done, e, rest) && e.ready && IsGeneral(e.kind) && GeneralCount(done) == size
    ensures CodeIs(|Ready(done)|, Booted(es, devices).result)
  {
    BootedIsBoot(es, devices);
    OverflowsTable(es, done, e, rest, devices, size);
  }

  // ----- configurations that the tool accepts and that fail -----

  const RS232_PORT: Interface := Interface(Rs232, true, "com0", "/dev/ttyS0", Some(9600), None, None, None, None)
  const HANDLE_BUS: Interface := Interface(I2c, true, "handle", "/dev/i2c-1", None, None, None, None, None)

  lemma OneFails(e: Interface)
    requires Printable(e) && !Buildable([e])
    ensures Build(MissionText([e]), ErrorText([e]), SourceText([e])) == None
  {
    BuildsIff([e]);
  }

  /** A single rs232 port: its device type is declared nowhere. */
  lemma Rs232DoesNotBuild()
    ensures Build(MissionText([RS232_PORT]), ErrorText([RS232_PORT]), SourceText([RS232_PORT])) == None
  {
    assert [RS232_PORT][0].ready && !Supported([RS232_PORT][0].kind);
    OneFails(RS232_PORT);
  }

  /** A bus called "handle": its error code's name is taken. */
  lemma TakenNameDoesNotBuild()
    ensures Build(MissionText([HANDLE_BUS]), ErrorText([HANDLE_BUS]), SourceText([HANDLE_BUS])) == None
  {
    HandleIsTaken();
    OneFails(HANDLE_BUS);
  }

  lemma HandleIsTaken()
    ensures !FreeNames([HANDLE_BUS])
  {
    NamesOfOne(HANDLE_BUS);
    assert Upper("handle") == "HANDLE" && TAKEN[1] == "HANDLE";
    assert ReadyNames([HANDLE_BUS])[0] in TAKEN;
  }

  const ESCAPE_BUS: Interface := Interface(I2c, true, "bus", "\\x", None, None, None, None, None)

  /** A device path that is a backslash and an x: C has no such escape. */
  lemma BadEscapeDoesNotCompile()
    ensures !Compiles(MissionText([ESCAPE_BUS]), ErrorText([ESCAPE_BUS]), SourceText([ESCAPE_BUS]))
  {
    BadEscape();
    CompilesIff([ESCAPE_BUS]);
  }

  lemma BadEscape()
    ensures AllPrintable([ESCAPE_BUS]) && !PathsValid([ESCAPE_BUS])
  {
    assert Quotable("\\x");
    assert "\\x"[0] == '\\' && !Escaped("\\x", 0) && !IsEscape("\\x", 0);
    assert [ESCAPE_BUS][0].ready;
  }

  /** Nothing ready: the three files fit together ... */
  lemma EmptyBuilds()
    ensures Build(MissionText([]), ErrorText([]), SourceText([])).Some?
  {
    BuildsIff([]);
  }

  /** ... but not with the headers that the source includes. */
  lemma EmptyDoesNotCompile()
    ensures !Compiles(MissionText([]), ErrorText([]), SourceText([]))
  {
    CompilesIff([]);
  }
}
