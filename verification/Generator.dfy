// The generator script: three passes over the configuration that write to three
// files, step by step, each with its own counters.
module Generator {
  import opened Text
  import opened Lexing
  import opened Interfaces
  import opened Emission
  import opened Transcript
  import opened Reading
  import opened Linking
  import opened Preservation

  /** An output file. The lexemes behind its text are kept for the proofs. */
  class OutFile {
    var text: string
    ghost var written: seq<Lexeme>

    ghost predicate Valid()
      reads this
    {
      text == Spell(written)
    }

    constructor ()
      ensures Valid() && text == "" && written == []
    {
      text := "";
      written := [];
    }

    method Write(xs: seq<Lexeme>)
      requires Valid()
      modifies this
      ensures Valid() && written == old(written) + xs
    {
      SpellConcat(written, xs);
      text := text + Spell(xs);
      written := written + xs;
    }
  }

  // ----- regrouping what was written -----

  lemma Two(w: seq<Lexeme>, a: seq<Lexeme>, b: seq<Lexeme>)
    ensures w + a + b == w + (a + b)
  {
  }

  lemma Three(w: seq<Lexeme>, a: seq<Lexeme>, b: seq<Lexeme>, c: seq<Lexeme>)
    ensures w + a + b + c == w + (a + b + c)
  {
  }

  lemma Five(w: seq<Lexeme>, a: seq<Lexeme>, b: seq<Lexeme>, c: seq<Lexeme>, d: seq<Lexeme>, e: seq<Lexeme>)
    ensures w + a + b + c + d + e == w + (a + b + c + d + e)
  {
  }

  /** Collects the upper-cased names of the ready general entries. */
  method GetGeneralSrlNameArr(interfaces: seq<Interface>) returns (handleNameArr: seq<string>)
    ensures handleNameArr == HandleNames(interfaces)
  {
    handleNameArr := [];
    for i := 0 to |interfaces|
      invariant handleNameArr + HandleNames(interfaces[i..]) == HandleNames(interfaces)
    {
      var iface := interfaces[i];
      assert interfaces[i..][0] == iface && interfaces[i..][1..] == interfaces[i + 1..];
      if IsGeneral(iface.kind) {
        if iface.ready {
          handleNameArr := handleNameArr + [Upper(iface.name)];
        }
      }
    }
  }

  method GetGpioNum(interfaces: seq<Interface>) returns (num: nat)
    ensures num == GpioCount(interfaces)
  {
    num := 0;
    for i := 0 to |interfaces|
      invariant num + GpioCount(interfaces[i..]) == GpioCount(interfaces)
    {
      var iface := interfaces[i];
      assert interfaces[i..][0] == iface && interfaces[i..][1..] == interfaces[i + 1..];
      if iface.kind.Gpio? && iface.ready {
        num := num + 1;
      }
    }
  }

  // ----- the mission header -----

  method WriteHandleEnum(f: OutFile, namearr: seq<string>)
    requires f.Valid()
    modifies f
    ensures f.Valid() && f.written == old(f.written) + EnumeratorLines(HandleIds(namearr))
  {
    for i := 0 to |namearr|
      invariant f.Valid()
      invariant f.written + EnumeratorLines(HandleIds(namearr)[i..]) ==
                old(f.written) + EnumeratorLines(HandleIds(namearr))
    {
      ghost var ids, before := HandleIds(namearr)[i..], f.written;
      assert ids[0] == HandleIndexer(namearr[i]) && ids[1..] == HandleIds(namearr)[i + 1..];
      f.Write(EnumeratorLine(HandleIndexer(namearr[i])));
      Two(before, EnumeratorLine(ids[0]), EnumeratorLines(ids[1..]));
    }
  }

  method WriteGpioEnum(f: OutFile, interfaces: seq<Interface>)
    requires f.Valid()
    modifies f
    ensures f.Valid() && f.written == old(f.written) + EnumeratorLines(GpioIds(GpioNames(interfaces)))
  {
    for i := 0 to |interfaces|
      invariant f.Valid()
      invariant f.written + EnumeratorLines(GpioIds(GpioNames(interfaces[i..]))) ==
                old(f.written) + EnumeratorLines(GpioIds(GpioNames(interfaces)))
    {
      var iface := interfaces[i];
      assert interfaces[i..][0] == iface && interfaces[i..][1..] == interfaces[i + 1..];
      if iface.kind.Gpio? && iface.ready {
        GpioIdsStep(Upper(iface.name), GpioNames(interfaces[i + 1..]));
        f.Write(EnumeratorLine(GpioIndexer(Upper(iface.name))));
      }
    }
  }

  lemma GpioIdsStep(u: string, names: seq<string>)
    ensures EnumeratorLines(GpioIds([u] + names)) == EnumeratorLine(GpioIndexer(u)) + EnumeratorLines(GpioIds(names))
  {
    assert GpioIds([u] + names)[1..] == GpioIds(names);
  }

  lemma {:induction false} GpioNamesCount(es: seq<Interface>)
    ensures |GpioNames(es)| == GpioCount(es)
  {
    if es != [] { GpioNamesCount(es[1..]); }
  }

  method WriteMissionHeader(interfaces: seq<Interface>, namearr: seq<string>) returns (f: OutFile)
    requires namearr == HandleNames(interfaces)
    ensures f.text == MissionText(interfaces)
  {
    f := new OutFile();
    f.Write(MissionPreamble());
    From(MissionPreamble());
    WriteHandlePart(f, namearr);
    f.Write(GpioHeading());
    Two(MissionPreamble(), HandlePart(namearr), GpioHeading());
    var gpioNum := GetGpioNum(interfaces);
    WriteGpioPart(f, interfaces, gpioNum);
    f.Write(EndifLine("CFE_SRL_MISSION_CFG_H"));
    assert f.written == MissionHeader(interfaces);
  }

  method WriteHandlePart(f: OutFile, namearr: seq<string>)
    requires f.Valid()
    modifies f
    ensures f.Valid() && f.written == old(f.written) + HandlePart(namearr)
  {
    if namearr != [] {
      f.Write(EnumOpenLine());
      WriteHandleEnum(f, namearr);
      f.Write(EnumCloseLine("CFE_SRL_Handle_Indexer_t"));
      f.Write(Remark(Joined, " \\# of General serial device "));
      f.Write(DeviceNumLine(namearr[|namearr| - 1]));
      Five(old(f.written), EnumOpenLine(), EnumeratorLines(HandleIds(namearr)),
           EnumCloseLine("CFE_SRL_Handle_Indexer_t"),
           Remark(Joined, " \\# of General serial device "), DeviceNumLine(namearr[|namearr| - 1]));
    } else {
      f.Write(Remark(Joined, " Every interfaces are not " + "ready yet "));
      f.Write(PaddingNumLine());
      Two(old(f.written), Remark(Joined, " Every interfaces are not " + "ready yet "), PaddingNumLine());
    }
  }

  method WriteGpioPart(f: OutFile, interfaces: seq<Interface>, gpioNum: nat)
    requires f.Valid() && gpioNum == GpioCount(interfaces)
    modifies f
    ensures f.Valid() && f.written == old(f.written) + GpioPart(gpioNum, GpioNames(interfaces))
  {
    GpioNamesCount(interfaces);
    f.Write(GpioNumLine(gpioNum));
    f.Write(EnumOpenLine());
    if gpioNum != 0 {
      WriteGpioEnum(f, interfaces);
    } else {
      f.Write(NothingLine());
    }
    f.Write(EnumCloseLine("CFE_SRL_GPIO_Indexer_t"));
    var names := GpioNames(interfaces);
    Three(old(f.written) + GpioNumLine(gpioNum), EnumOpenLine(), GpioEnumerators(names),
          EnumCloseLine("CFE_SRL_GPIO_Indexer_t"));
    Two(old(f.written), GpioNumLine(gpioNum), EnumOpenLine() + GpioEnumerators(names) +
        EnumCloseLine("CFE_SRL_GPIO_Indexer_t"));
  }

  // ----- the error header -----

  /** One macro per ready entry, numbered by the running offset. */
  method WriteErrorLines(f: OutFile, interfaces: seq<Interface>)
    requires f.Valid()
    modifies f
    ensures f.Valid() && f.written == old(f.written) + ErrorLines(ReadyNames(interfaces), FIRST_OFFSET)
  {
    var offset := FIRST_OFFSET;
    for i := 0 to |interfaces|
      invariant f.Valid()
      invariant f.written + ErrorLines(ReadyNames(interfaces[i..]), offset) ==
                old(f.written) + ErrorLines(ReadyNames(interfaces), FIRST_OFFSET)
    {
      var iface := interfaces[i];
      ghost var before, rest := f.written, ReadyNames(interfaces[i + 1..]);
      assert interfaces[i..][0] == iface && interfaces[i..][1..] == interfaces[i + 1..];
      if iface.ready {
        ErrorLinesStep(Upper(iface.name), rest, offset);
        f.Write(ErrorLine(Upper(iface.name), offset));
        Two(before, ErrorLine(Upper(iface.name), offset), ErrorLines(rest, offset + 1));
        offset := offset + 1;
      }
    }
  }

  method WriteErrorHeader(interfaces: seq<Interface>) returns (f: OutFile)
    ensures f.text == ErrorText(interfaces)
  {
    f := new OutFile();
    f.Write(ErrorPreamble());
    From(ErrorPreamble());
    WriteErrorLines(f, interfaces);
    f.Write(Blank());
    f.Write(Blank());
    Two(ErrorPreamble() + ErrorLines(ReadyNames(interfaces), FIRST_OFFSET), Blank(), Blank());
    f.Write(EndifLine("CFE_SRL_ERROR_H"));
    assert f.written == ErrorHeader(interfaces);
  }

  lemma ErrorLinesStep(u: string, names: seq<string>, offset: nat)
    ensures ErrorLines([u] + names, offset) == ErrorLine(u, offset) + ErrorLines(names, offset + 1)
  {
    assert ([u] + names)[1..] == names;
  }

  // ----- the initialisation source -----

  /** The rows of the index comment, numbered by position. */
  method IndexTableText(namearr: seq<string>) returns (table: string)
    ensures table == IndexTable(namearr)
  {
    var rows := "";
    for i := 0 to |namearr|
      invariant rows + IndexRows(namearr[i..], i) == IndexRows(namearr, 0)
    {
      assert namearr[i..][0] == namearr[i] && namearr[i..][1..] == namearr[i + 1..];
      rows := rows + IndexRow(i, namearr[i]);
    }
    if namearr == [] {
      rows := rows + " * 0 : Not initializaed " + "padding Handle\n";
    }
    table := Stars(49) + "\n * Index of Each device\n" + rows + " " + Stars(49);
    assert IndexRows(namearr, 0) + PaddingRow(namearr) == rows;
    var title := Stars(49) + "\n * Index of Each device\n";
    assert title + (IndexRows(namearr, 0) + PaddingRow(namearr)) == title + IndexRows(namearr, 0) + PaddingRow(namearr);
  }

  /** Writes the call that initialises one entry; a missing key stops the script after the remark. */
  method WriteCall(f: OutFile, iface: Interface) returns (ok: bool)
    requires f.Valid()
    modifies f
    ensures f.Valid() && f.written == old(f.written) + CallLines(iface) && ok == HasKeys(iface)
  {
    ok := HasKeys(iface);
    if iface.kind.Gpio? {
      f.Write(GpioRemark(iface.name));
      if ok {
        f.Write(GpioInitLine(iface));
        Two(old(f.written), GpioRemark(iface.name), GpioInitLine(iface));
      }
    } else if IsGeneral(iface.kind) {
      f.Write(InitRemark(iface.name));
      if ok {
        f.Write(HandleInitLine(iface));
        Two(old(f.written), InitRemark(iface.name), HandleInitLine(iface));
      }
    } else {
      assert old(f.written) + [] == old(f.written);
    }
  }

  method WriteCheck(f: OutFile, iface: Interface)
    requires f.Valid()
    modifies f
    ensures f.Valid() && f.written == old(f.written) + CheckLines(iface)
  {
    var upper := Upper(iface.name);
    f.Write(BranchLine());
    f.Write(FailureLogLine(FailureText(iface)));
    f.Write(FailureReturnLine(upper));
    f.Write(CloseLine());
    if iface.kind.Gpio? {
      f.Write(Blank());
      Five(old(f.written), BranchLine(), FailureLogLine(FailureText(iface)), FailureReturnLine(upper), CloseLine(),
           Blank());
    } else {
      f.Write(SuccessLogStart(upper, SuccessText(iface)) + SuccessLogEnd(upper));
      Five(old(f.written), BranchLine(), FailureLogLine(FailureText(iface)), FailureReturnLine(upper), CloseLine(),
           SuccessLogStart(upper, SuccessText(iface)) + SuccessLogEnd(upper));
    }
  }

  method WritePrologue(f: OutFile, namearr: seq<string>)
    requires f.Valid() && f.written == []
    modifies f
    ensures f.Valid() && f.written == SourcePrologue(namearr)
  {
    f.Write(SourcePreamble());
    From(SourcePreamble());
    f.Write(HandlesLine());
    var table := IndexTableText(namearr);
    f.Write(Remark(Joined, table) + Blank());
    f.Write(GpioArrayLine());
    f.Write(Remark(Joined, Banner()));
    f.Write(FunctionLine());
    f.Write(StatusLine());
    f.Write(PriorLine());
    f.Write(PriorCheckLine());
    f.Write(PriorLogLine());
    f.Write(Remark(Tab, Heading()));
  }

  lemma From(a: seq<Lexeme>)
    ensures [] + a == a
  {
  }

  /** The ready entries in order; the first one with a missing key stops the loop. */
  method WriteEntries(f: OutFile, interfaces: seq<Interface>) returns (ok: bool)
    requires f.Valid()
    modifies f
    ensures f.Valid() && f.written == old(f.written) + EntryLines(interfaces)
    ensures ok <==> AllHaveKeys(interfaces)
  {
    for i := 0 to |interfaces|
      invariant f.Valid()
      invariant f.written + EntryLines(interfaces[i..]) == old(f.written) + EntryLines(interfaces)
      invariant forall j :: 0 <= j < i && interfaces[j].ready ==> HasKeys(interfaces[j])
    {
      var iface := interfaces[i];
      ghost var before, rest := f.written, EntryLines(interfaces[i + 1..]);
      assert interfaces[i..][0] == iface && interfaces[i..][1..] == interfaces[i + 1..];
      if !iface.ready {
        continue;
      }
      ok := WriteCall(f, iface);
      if !ok {
        return;
      }
      WriteCheck(f, iface);
      Three(before, CallLines(iface), CheckLines(iface), rest);
    }
    ok := true;
  }

  method WriteInitSource(interfaces: seq<Interface>, namearr: seq<string>) returns (f: OutFile, ok: bool)
    requires namearr == HandleNames(interfaces)
    ensures f.text == SourceText(interfaces)
    ensures ok <==> AllHaveKeys(interfaces)
  {
    f := new OutFile();
    WritePrologue(f, namearr);
    ok := WriteEntries(f, interfaces);
    if ok {
      f.Write(SourceEnd());
    }
  }

  /**
   * Printable texts make a program exactly for a buildable configuration, and one that
   * compiles exactly for a compilable one.
   */
  ghost predicate MakeProgramIffBuildable(es: seq<Interface>, mission: string, errors: string, source: string) {
    AllPrintable(es) ==>
      && (Build(mission, errors, source).Some? <==> Buildable(es))
      && (Compiles(mission, errors, source) <==> Compilable(es))
  }

  lemma TextsMakeProgram(es: seq<Interface>)
    ensures MakeProgramIffBuildable(es, MissionText(es), ErrorText(es), SourceText(es))
  {
    if AllPrintable(es) {
      BuildsIff(es);
      CompilesIff(es);
    }
  }

  lemma TextsAreWritten(es: seq<Interface>)
    ensures MissionText(es) == Flat(MissionWrites(es)) && ErrorText(es) == Flat(ErrorWrites(es))
    ensures SourceText(es) == Flat(SourceWrites(es)) && (AllHaveKeys(es) <==> AllCanPrint(es))
  {
    MissionTextIs(es);
    ErrorTextIs(es);
    SourceTextIs(es);
    AllCanPrintIff(es);
  }

  /**
   * The whole script: the three files hold what it writes, string by string, and it finishes
   * exactly if every ready entry has the keys that its call prints. The headers are complete
   * even when a missing key stops the last pass; the three texts make a program exactly for
   * the buildable configurations.
   */
  method Generate(interfaces: seq<Interface>) returns (mission: OutFile, errors: OutFile, source: OutFile, ok: bool)
    ensures mission.text == MissionText(interfaces) == Flat(MissionWrites(interfaces))
    ensures errors.text == ErrorText(interfaces) == Flat(ErrorWrites(interfaces))
    ensures source.text == SourceText(interfaces) == Flat(SourceWrites(interfaces))
    ensures ok <==> AllCanPrint(interfaces)
    ensures MakeProgramIffBuildable(interfaces, mission.text, errors.text, source.text)
  {
    var namearr := GetGeneralSrlNameArr(interfaces);
    mission := WriteMissionHeader(interfaces, namearr);
    errors := WriteErrorHeader(interfaces);
    source, ok := WriteInitSource(interfaces, namearr);
    TextsAreWritten(interfaces);
    TextsMakeProgram(interfaces);
  }
}
