// What the script writes, string by string and straight from the entries of the
// configuration; and that the texts of the generated files are these strings.
module Transcript {
  import opened Text
  import opened Lexing
  import opened Interfaces
  import opened Emission
  import opened Wording

  // ----- the entries -----

  /** The `type` key as text. */
  function TypeText(kind: Kind): string {
    match kind
    case I2c => "i2c"
    case Spi => "spi"
    case Uart => "uart"
    case Rs232 => "rs232"
    case Rs422 => "rs422"
    case Rs485 => "rs485"
    case Can => "can"
    case Socat => "socat"
    case Gpio => "gpio"
    case Other(text) => text
  }

  /** The keys that only some types need. */
  datatype Key = BaudrateKey | SpeedKey | ModeKey | LineKey | DefaultKey

  function Value(e: Interface, key: Key): Option<nat> {
    match key
    case BaudrateKey => e.baudrate
    case SpeedKey => e.speed
    case ModeKey => e.mode
    case LineKey => e.line
    case DefaultKey => e.initial
  }

  /** The keys whose values the call of an entry of this type prints. */
  function Printed(kind: Kind): set<Key> {
    if kind.Spi? then {SpeedKey, ModeKey}
    else if kind.Uart? || kind.Rs232? || kind.Rs422? || kind.Rs485? then {BaudrateKey}
    else if kind.Gpio? then {LineKey, DefaultKey}
    else {}
  }

  predicate CanPrint(e: Interface) {
    forall key :: key in Printed(e.kind) ==> Value(e, key).Some?
  }

  predicate AllCanPrint(es: seq<Interface>) {
    forall i :: 0 <= i < |es| && es[i].ready ==> CanPrint(es[i])
  }

  lemma CanPrintIff(e: Interface)
    ensures CanPrint(e) <==> HasKeys(e)
  {
    assert Printed(e.kind) == {} || e.kind.Spi? || e.kind.Gpio? || BaudrateKey in Printed(e.kind);
    if e.kind.Spi? { assert SpeedKey in Printed(e.kind) && ModeKey in Printed(e.kind); }
    if e.kind.Gpio? { assert LineKey in Printed(e.kind) && DefaultKey in Printed(e.kind); }
  }

  predicate OwnsHandle(e: Interface) {
    e.ready && TypeText(e.kind) in ["i2c", "spi", "uart", "rs232", "rs422", "rs485", "can", "socat"] && !e.kind.Other?
  }

  predicate OwnsPin(e: Interface) {
    e.ready && e.kind.Gpio?
  }

  lemma OwnsHandleIff(e: Interface)
    ensures OwnsHandle(e) <==> e.ready && IsGeneral(e.kind)
  {
    var general := ["i2c", "spi", "uart", "rs232", "rs422", "rs485", "can", "socat"];
    assert general[0] == "i2c" && general[1] == "spi" && general[2] == "uart" && general[3] == "rs232";
    assert general[4] == "rs422" && general[5] == "rs485" && general[6] == "can" && general[7] == "socat";
    assert forall i :: 0 <= i < 8 ==> general[i][0] != 'g';
    assert "gpio"[0] == 'g';
  }

  // ----- shared -----

  function RemarkText(indent: string, body: string): seq<string> {
    [indent + ("/*" + body + "*/"), "\n"]
  }

  lemma RemarkSays(before: Layout, indent: string, body: string)
    requires indent == Indent(before)
    ensures Says(Remark(before, body), RemarkText(indent, body))
  {
    SaysEach(Remark(before, body), RemarkText(indent, body));
  }

  lemma BlankSays()
    ensures Says(Blank(), ["\n"])
  {
    SaysEach(Blank(), ["\n"]);
  }

  lemma SaysNothing()
    ensures Says([], [])
  {
  }

  function NoticeText(): seq<string> {
    RemarkText("", " Auto-Generated file. " + "Never change this code! ")
  }

  function OpeningText(symbol: string, path: string): seq<string> {
    NoticeText() + IfndefLineText(symbol) + DefineLineText(symbol) + ["\n"] + IncludeLineText(path) + ["\n"]
  }

  lemma OpeningSays(symbol: string, path: string)
    ensures Says(Notice() + IfndefLine(symbol) + DefineLine(symbol) + Blank() + IncludeLine(path) + Blank(),
                 OpeningText(symbol, path))
  {
    RemarkSays(Joined, "", " Auto-Generated file. " + "Never change this code! ");
    IfndefLineSays(symbol);
    DefineLineSays(symbol);
    BlankSays();
    IncludeLineSays(path);
    Says6Parts(Notice(), NoticeText(), IfndefLine(symbol), IfndefLineText(symbol), DefineLine(symbol),
               DefineLineText(symbol),
               Blank(), ["\n"], IncludeLine(path), IncludeLineText(path), Blank(), ["\n"]);
  }

  lemma Says3Parts(a: seq<Lexeme>, a1: seq<string>, b: seq<Lexeme>, b1: seq<string>, c: seq<Lexeme>, c1: seq<string>)
    requires Says(a, a1) && Says(b, b1) && Says(c, c1)
    ensures Says(a + b + c, a1 + b1 + c1)
  {
    SaysConcat(a, a1, b, b1);
    SaysConcat(a + b, a1 + b1, c, c1);
  }

  lemma Says6Parts(a: seq<Lexeme>, a1: seq<string>, b: seq<Lexeme>, b1: seq<string>, c: seq<Lexeme>, c1: seq<string>,
                   d: seq<Lexeme>, d1: seq<string>, e: seq<Lexeme>, e1: seq<string>, f: seq<Lexeme>, f1: seq<string>)
    requires Says(a, a1) && Says(b, b1) && Says(c, c1) && Says(d, d1) && Says(e, e1) && Says(f, f1)
    ensures Says(a + b + c + d + e + f, a1 + b1 + c1 + d1 + e1 + f1)
  {
    Says3Parts(a, a1, b, b1, c, c1);
    Says3Parts(a + b + c, a1 + b1 + c1, d, d1, e, e1);
    SaysConcat(a + b + c + d + e, a1 + b1 + c1 + d1 + e1, f, f1);
  }

  // ----- the mission header -----

  function HandleEnumText(es: seq<Interface>): seq<string> {
    if es == [] then []
    else if OwnsHandle(es[0]) then
      EnumeratorLineText("CFE_SRL_" + Upper(es[0].name) + "_HANDLE_INDEXER") + HandleEnumText(es[1..])
    else HandleEnumText(es[1..])
  }

  function PinEnumText(es: seq<Interface>): seq<string> {
    if es == [] then []
    else if OwnsPin(es[0]) then
      EnumeratorLineText("CFE_SRL_" + Upper(es[0].name) + "_GPIO_INDEXER") + PinEnumText(es[1..])
    else PinEnumText(es[1..])
  }

  lemma {:induction false} HandleEnumSays(es: seq<Interface>)
    ensures Says(EnumeratorLines(HandleIds(HandleNames(es))), HandleEnumText(es))
  {
    if es == [] {
      SaysNothing();
    } else {
      HandleEnumSays(es[1..]);
      OwnsHandleIff(es[0]);
      if OwnsHandle(es[0]) {
        var u, rest := Upper(es[0].name), HandleNames(es[1..]);
        EnumeratorLineSays("CFE_SRL_" + u + "_HANDLE_INDEXER");
        SaysConcat(EnumeratorLine(HandleIndexer(u)), EnumeratorLineText("CFE_SRL_" + u + "_HANDLE_INDEXER"),
                   EnumeratorLines(HandleIds(rest)), HandleEnumText(es[1..]));
        assert HandleIds([u] + rest)[0] == HandleIndexer(u) && HandleIds([u] + rest)[1..] == HandleIds(rest);
      }
    }
  }

  lemma {:induction false} PinEnumSays(es: seq<Interface>)
    ensures Says(EnumeratorLines(GpioIds(GpioNames(es))), PinEnumText(es))
  {
    if es == [] {
      SaysNothing();
    } else {
      PinEnumSays(es[1..]);
      if OwnsPin(es[0]) {
        var u, rest := Upper(es[0].name), GpioNames(es[1..]);
        EnumeratorLineSays("CFE_SRL_" + u + "_GPIO_INDEXER");
        SaysConcat(EnumeratorLine(GpioIndexer(u)), EnumeratorLineText("CFE_SRL_" + u + "_GPIO_INDEXER"),
                   EnumeratorLines(GpioIds(rest)), PinEnumText(es[1..]));
        assert GpioIds([u] + rest)[0] == GpioIndexer(u) && GpioIds([u] + rest)[1..] == GpioIds(rest);
      }
    }
  }

  /** The upper-cased name of the last handle, if there is one. */
  function LastHandle(es: seq<Interface>): Option<string> {
    if es == [] then None
    else if LastHandle(es[1..]).Some? then LastHandle(es[1..])
    else if OwnsHandle(es[0]) then Some(Upper(es[0].name))
    else None
  }

  lemma {:induction false} LastHandleIs(es: seq<Interface>)
    ensures LastHandle(es) == if HandleNames(es) == [] then None else Some(HandleNames(es)[|HandleNames(es)| - 1])
  {
    if es != [] {
      LastHandleIs(es[1..]);
      OwnsHandleIff(es[0]);
    }
  }

  function HandlesText(es: seq<Interface>): seq<string> {
    if LastHandle(es).Some? then
      EnumOpenLineText() + HandleEnumText(es) + EnumCloseLineText("CFE_SRL_Handle_Indexer_t") +
      RemarkText("", " \\# of General serial device ") + DeviceNumLineText(LastHandle(es).value)
    else RemarkText("", " Every interfaces are not " + "ready yet ") + PaddingNumLineText()
  }

  lemma NoHandlesSay()
    ensures Says(HandlePart([]), RemarkText("", " Every interfaces are not " + "ready yet ") + PaddingNumLineText())
  {
    RemarkSays(Joined, "", " Every interfaces are not " + "ready yet ");
    PaddingNumLineSays();
    SaysConcat(Remark(Joined, " Every interfaces are not " + "ready yet "),
               RemarkText("", " Every interfaces are not " + "ready yet "), PaddingNumLine(), PaddingNumLineText());
  }

  lemma HandleBlockSays(names: seq<string>, enum: seq<string>, last: string)
    requires Says(EnumeratorLines(HandleIds(names)), enum)
    ensures Says(HandleEnum(names) + Remark(Joined, " \\# of General serial device ") + DeviceNumLine(last),
                 EnumOpenLineText() + enum + EnumCloseLineText("CFE_SRL_Handle_Indexer_t") +
                 RemarkText("", " \\# of General serial device ") + DeviceNumLineText(last))
  {
    EnumOpenLineSays();
    EnumCloseLineSays("CFE_SRL_Handle_Indexer_t");
    RemarkSays(Joined, "", " \\# of General serial device ");
    DeviceNumLineSays(last);
    Says3Parts(EnumOpenLine(), EnumOpenLineText(), EnumeratorLines(HandleIds(names)), enum,
               EnumCloseLine("CFE_SRL_Handle_Indexer_t"), EnumCloseLineText("CFE_SRL_Handle_Indexer_t"));
    Says3Parts(HandleEnum(names), EnumOpenLineText() + enum + EnumCloseLineText("CFE_SRL_Handle_Indexer_t"),
               Remark(Joined, " \\# of General serial device "), RemarkText("", " \\# of General serial device "),
               DeviceNumLine(last), DeviceNumLineText(last));
  }

  lemma HandlesSay(es: seq<Interface>)
    ensures Says(HandlePart(HandleNames(es)), HandlesText(es))
  {
    LastHandleIs(es);
    if LastHandle(es).Some? {
      HandleEnumSays(es);
      HandleBlockSays(HandleNames(es), HandleEnumText(es), LastHandle(es).value);
    } else {
      NoHandlesSay();
    }
  }

  function PinsText(es: seq<Interface>, count: nat): seq<string> {
    GpioNumLineText(count) +
    (EnumOpenLineText() + (if count != 0 then PinEnumText(es) else NothingLineText()) +
     EnumCloseLineText("CFE_SRL_GPIO_Indexer_t"))
  }

  lemma {:induction false} PinCount(es: seq<Interface>)
    ensures |GpioNames(es)| == GpioCount(es)
  {
    if es != [] { PinCount(es[1..]); }
  }

  lemma PinsSay(es: seq<Interface>)
    ensures Says(GpioPart(GpioCount(es), GpioNames(es)), PinsText(es, GpioCount(es)))
  {
    var count, names := GpioCount(es), GpioNames(es);
    PinCount(es);
    GpioNumLineSays(count);
    EnumOpenLineSays();
    PinEnumSays(es);
    NothingLineSays();
    EnumCloseLineSays("CFE_SRL_GPIO_Indexer_t");
    var middle := if count != 0 then PinEnumText(es) else NothingLineText();
    Says3Parts(EnumOpenLine(), EnumOpenLineText(), GpioEnumerators(names), middle,
               EnumCloseLine("CFE_SRL_GPIO_Indexer_t"), EnumCloseLineText("CFE_SRL_GPIO_Indexer_t"));
    SaysConcat(GpioNumLine(count), GpioNumLineText(count),
               EnumOpenLine() + GpioEnumerators(names) + EnumCloseLine("CFE_SRL_GPIO_Indexer_t"),
               EnumOpenLineText() + middle + EnumCloseLineText("CFE_SRL_GPIO_Indexer_t"));
  }

  function MissionWrites(es: seq<Interface>): seq<string> {
    OpeningText("CFE_SRL_MISSION_CFG_H", "cfe_srl_interface_cfg.h") +
    (HandlesText(es) + RemarkText("", " \\# of used gpio pin ")) + PinsText(es, GpioCount(es)) +
    EndifLineText("CFE_SRL_MISSION_CFG_H")
  }

  /** The mission header's text is what the script's first pass writes. */
  lemma MissionTextIs(es: seq<Interface>)
    ensures MissionText(es) == Flat(MissionWrites(es))
  {
    OpeningSays("CFE_SRL_MISSION_CFG_H", "cfe_srl_interface_cfg.h");
    HandlesSay(es);
    RemarkSays(Joined, "", " \\# of used gpio pin ");
    PinsSay(es);
    EndifLineSays("CFE_SRL_MISSION_CFG_H");
    SaysConcat(HandlePart(HandleNames(es)), HandlesText(es), GpioHeading(), RemarkText("", " \\# of used gpio pin "));
    Says3Parts(MissionPreamble(), OpeningText("CFE_SRL_MISSION_CFG_H", "cfe_srl_interface_cfg.h"),
               HandlePart(HandleNames(es)) + GpioHeading(), HandlesText(es) + RemarkText("", " \\# of used gpio pin "),
               GpioPart(GpioCount(es), GpioNames(es)), PinsText(es, GpioCount(es)));
    SaysConcat(MissionPreamble() + (HandlePart(HandleNames(es)) + GpioHeading()) +
               GpioPart(GpioCount(es), GpioNames(es)),
               OpeningText("CFE_SRL_MISSION_CFG_H", "cfe_srl_interface_cfg.h") +
               (HandlesText(es) + RemarkText("", " \\# of used gpio pin ")) + PinsText(es, GpioCount(es)),
               EndifLine("CFE_SRL_MISSION_CFG_H"), EndifLineText("CFE_SRL_MISSION_CFG_H"));
  }

  // ----- the error header -----

  function CodesText(es: seq<Interface>, offset: nat): seq<string> {
    if es == [] then []
    else if es[0].ready then ErrorLineText(Upper(es[0].name), offset) + CodesText(es[1..], offset + 1)
    else CodesText(es[1..], offset)
  }

  lemma {:induction false} CodesSay(es: seq<Interface>, offset: nat)
    ensures Says(ErrorLines(ReadyNames(es), offset), CodesText(es, offset))
    decreases |es|
  {
    if es == [] {
      SaysNothing();
    } else if es[0].ready {
      var u, rest := Upper(es[0].name), ReadyNames(es[1..]);
      CodesSay(es[1..], offset + 1);
      ErrorLineSays(u, offset);
      SaysConcat(ErrorLine(u, offset), ErrorLineText(u, offset),
                 ErrorLines(rest, offset + 1), CodesText(es[1..], offset + 1));
      assert ([u] + rest)[1..] == rest;
    } else {
      CodesSay(es[1..], offset);
    }
  }

  function ErrorWrites(es: seq<Interface>): seq<string> {
    OpeningText("CFE_SRL_ERROR_H", "cfe_usr_error_macro.h") + RemarkText("", "*\n * Early Init error define\n ") +
    CodesText(es, 90) + (["\n"] + ["\n"]) + EndifLineText("CFE_SRL_ERROR_H")
  }

  /** The error header's text is what the second pass writes. */
  lemma ErrorTextIs(es: seq<Interface>)
    ensures ErrorText(es) == Flat(ErrorWrites(es))
  {
    var start := OpeningText("CFE_SRL_ERROR_H", "cfe_usr_error_macro.h");
    var title := RemarkText("", "*\n * Early Init error define\n ");
    OpeningSays("CFE_SRL_ERROR_H", "cfe_usr_error_macro.h");
    RemarkSays(Joined, "", "*\n * Early Init error define\n ");
    SaysConcat(Notice() + IfndefLine("CFE_SRL_ERROR_H") + DefineLine("CFE_SRL_ERROR_H") + Blank() +
               IncludeLine("cfe_usr_error_macro.h") + Blank(), start,
               Remark(Joined, "*\n * Early Init error define\n "), title);
    CodesSay(es, 90);
    BlankSays();
    SaysConcat(Blank(), ["\n"], Blank(), ["\n"]);
    EndifLineSays("CFE_SRL_ERROR_H");
    Says3Parts(ErrorPreamble(), start + title, ErrorLines(ReadyNames(es), 90), CodesText(es, 90),
               Blank() + Blank(), ["\n"] + ["\n"]);
    SaysConcat(ErrorPreamble() + ErrorLines(ReadyNames(es), 90) + (Blank() + Blank()),
               start + title + CodesText(es, 90) + (["\n"] + ["\n"]),
               EndifLine("CFE_SRL_ERROR_H"), EndifLineText("CFE_SRL_ERROR_H"));
  }

  // ----- the initialisation source -----

  function HandleCallText(e: Interface, deviceType: string, rate: nat, mode: nat): seq<string> {
    RemarkText("\t", " " + e.name + " Init ") +
    (HandleInitStartText(Upper(e.name), e.name, e.devName, deviceType) + HandleInitEndText(Upper(e.name), rate, mode))
  }

  /** The call of an entry whose printed keys are there: its own values, each in its own place. */
  function CallText(e: Interface): seq<string>
    requires CanPrint(e)
  {
    var own := "SRL_DEVTYPE_" + Upper(TypeText(e.kind));
    match e.kind
    case I2c => HandleCallText(e, own, 0, 0)
    case Can => HandleCallText(e, own, 0, 0)
    case Spi =>
      assert {SpeedKey, ModeKey} <= Printed(e.kind);
      HandleCallText(e, "SRL_DEVTYPE_SPI", e.speed.value, e.mode.value)
    case Socat => HandleCallText(e, "SRL_DEVTYPE_UART", 115200, 0)
    case Gpio =>
      assert {LineKey, DefaultKey} <= Printed(e.kind);
      RemarkText("\t", " GPIO " + e.name + " Init ") +
      (GpioInitStartText(Upper(e.name), e.devName) + GpioInitEndText(e.line.value, e.name, e.initial.value))
    case Other(_) => []
    case _ =>
      assert {BaudrateKey} <= Printed(e.kind);
      HandleCallText(e, own, e.baudrate.value, 0)
  }

  /** What is written of an entry before the script stops at a missing key. */
  function StopText(e: Interface): seq<string> {
    RemarkText("\t", (if e.kind.Gpio? then " GPIO " else " ") + e.name + " Init ")
  }

  function CheckText(e: Interface): seq<string> {
    BranchLineText() +
    FailureLogLineText((if e.kind.Gpio? then "%s: GPIO " else "%s: ") + e.name + " Initialization failed! RC=%d\\n") +
    FailureReturnLineText(Upper(e.name)) + CloseLineText() +
    (if e.kind.Gpio? then ["\n"]
     else
       SuccessLogStartText(Upper(e.name), "%s: " + e.name + " Initialized. FD=%d" + " || DevName=%s\\n") +
       SuccessLogEndText(Upper(e.name)))
  }

  /** The ready entries in order, up to the first whose printed keys are incomplete. */
  function EntriesText(es: seq<Interface>): seq<string> {
    if es == [] then []
    else if !es[0].ready then EntriesText(es[1..])
    else if !CanPrint(es[0]) then StopText(es[0])
    else CallText(es[0]) + CheckText(es[0]) + EntriesText(es[1..])
  }

  lemma HandleCallSays(e: Interface, deviceType: string, rate: nat, mode: nat)
    ensures Says(InitRemark(e.name) + (HandleInitStart(Upper(e.name), e.name, e.devName, deviceType) +
                                       HandleInitEnd(Upper(e.name), rate, mode)),
                 HandleCallText(e, deviceType, rate, mode))
  {
    var u := Upper(e.name);
    RemarkSays(Tab, "\t", " " + e.name + " Init ");
    HandleInitStartSays(u, e.name, e.devName, deviceType);
    HandleInitEndSays(u, rate, mode);
    SaysConcat(HandleInitStart(u, e.name, e.devName, deviceType), HandleInitStartText(u, e.name, e.devName, deviceType),
               HandleInitEnd(u, rate, mode), HandleInitEndText(u, rate, mode));
    SaysConcat(InitRemark(e.name), RemarkText("\t", " " + e.name + " Init "),
               HandleInitStart(u, e.name, e.devName, deviceType) + HandleInitEnd(u, rate, mode),
               HandleInitStartText(u, e.name, e.devName, deviceType) + HandleInitEndText(u, rate, mode));
  }

  lemma GpioCallSays(e: Interface)
    requires e.kind.Gpio? && CanPrint(e) && HasKeys(e)
    ensures Says(GpioRemark(e.name) + GpioInitLine(e), CallText(e))
  {
    var u := Upper(e.name);
    RemarkSays(Tab, "\t", " GPIO " + e.name + " Init ");
    GpioInitStartSays(u, e.devName);
    GpioInitEndSays(e.line.value, e.name, e.initial.value);
    SaysConcat(GpioInitStart(u, e.devName), GpioInitStartText(u, e.devName),
               GpioInitEnd(e.line.value, e.name, e.initial.value),
                 GpioInitEndText(e.line.value, e.name, e.initial.value));
    SaysConcat(GpioRemark(e.name), RemarkText("\t", " GPIO " + e.name + " Init "), GpioInitLine(e),
               GpioInitStartText(u, e.devName) + GpioInitEndText(e.line.value, e.name, e.initial.value));
  }

  /** The device type in a call is the entry's own type in upper case; `socat` borrows that of `uart`. */
  lemma DeviceTypeIs(kind: Kind)
    requires IsGeneral(kind)
    ensures DeviceType(kind) == "SRL_DEVTYPE_" + (if kind.Socat? then "UART" else Upper(TypeText(kind)))
  {
    match kind
    case I2c => assert Upper("i2c") == "I2C";
    case Spi => assert Upper("spi") == "SPI";
    case Uart => assert Upper("uart") == "UART";
    case Rs232 => assert Upper("rs232") == "RS232";
    case Rs422 => assert Upper("rs422") == "RS422";
    case Rs485 => assert Upper("rs485") == "RS485";
    case Can => assert Upper("can") == "CAN";
    case Socat =>
  }

  lemma CallSays(e: Interface)
    requires CanPrint(e) && HasKeys(e)
    ensures Says(CallLines(e), CallText(e))
  {
    if e.kind.Other? {
      SaysNothing();
    } else if e.kind.Gpio? {
      GpioCallSays(e);
    } else {
      DeviceTypeIs(e.kind);
      HandleCallSays(e, DeviceType(e.kind), RateOf(e), ModeOf(e));
    }
  }

  lemma StopSays(e: Interface)
    requires !HasKeys(e)
    ensures Says(CallLines(e), StopText(e))
  {
    RemarkSays(Tab, "\t", (if e.kind.Gpio? then " GPIO " else " ") + e.name + " Init ");
  }

  lemma CheckSays(e: Interface)
    ensures Says(CheckLines(e), CheckText(e))
  {
    var u := Upper(e.name);
    BranchLineSays();
    FailureLogLineSays(FailureText(e));
    FailureReturnLineSays(u);
    Says3Parts(BranchLine(), BranchLineText(), FailureLogLine(FailureText(e)), FailureLogLineText(FailureText(e)),
               FailureReturnLine(u), FailureReturnLineText(u));
    SaysTail(e, BranchLine() + FailureLogLine(FailureText(e)) + FailureReturnLine(u),
             BranchLineText() + FailureLogLineText(FailureText(e)) + FailureReturnLineText(u));
  }

  lemma SaysTail(e: Interface, start: seq<Lexeme>, s: seq<string>)
    requires Says(start, s)
    ensures var u := Upper(e.name);
            Says(start + CloseLine() + (if e.kind.Gpio? then Blank()
                                        else SuccessLogStart(u, SuccessText(e)) + SuccessLogEnd(u)),
                 s + CloseLineText() + (if e.kind.Gpio? then ["\n"]
                                        else SuccessLogStartText(u, SuccessText(e)) + SuccessLogEndText(u)))
  {
    var u := Upper(e.name);
    CloseLineSays();
    BlankSays();
    SuccessLogStartSays(u, SuccessText(e));
    SuccessLogEndSays(u);
    SaysConcat(SuccessLogStart(u, SuccessText(e)), SuccessLogStartText(u, SuccessText(e)), SuccessLogEnd(u),
               SuccessLogEndText(u));
    Says3Parts(start, s, CloseLine(), CloseLineText(),
               if e.kind.Gpio? then Blank() else SuccessLogStart(u, SuccessText(e)) + SuccessLogEnd(u),
               if e.kind.Gpio? then ["\n"] else SuccessLogStartText(u, SuccessText(e)) + SuccessLogEndText(u));
  }

  lemma {:induction false} EntriesSay(es: seq<Interface>)
    ensures Says(EntryLines(es), EntriesText(es))
  {
    if es == [] {
      SaysNothing();
    } else {
      CanPrintIff(es[0]);
      if !es[0].ready {
        EntriesSay(es[1..]);
      } else if !HasKeys(es[0]) {
        StopSays(es[0]);
      } else {
        EntriesSay(es[1..]);
        CallSays(es[0]);
        CheckSays(es[0]);
        Says3Parts(CallLines(es[0]), CallText(es[0]), CheckLines(es[0]), CheckText(es[0]),
                   EntryLines(es[1..]), EntriesText(es[1..]));
      }
    }
  }

  /** The rows of the index comment, numbered from `index`. */
  function RowsText(es: seq<Interface>, index: nat): string {
    if es == [] then ""
    else if OwnsHandle(es[0]) then
      " * " + Decimal(index) + " : " + Upper(es[0].name) + " Handle\n" + RowsText(es[1..], index + 1)
    else RowsText(es[1..], index)
  }

  lemma {:induction false} RowsAre(es: seq<Interface>, index: nat)
    ensures RowsText(es, index) == IndexRows(HandleNames(es), index)
    decreases |es|
  {
    if es != [] {
      OwnsHandleIff(es[0]);
      if OwnsHandle(es[0]) {
        RowsAre(es[1..], index + 1);
        assert HandleNames(es)[1..] == HandleNames(es[1..]);
      } else {
        RowsAre(es[1..], index);
      }
    }
  }

  function IndexText(es: seq<Interface>): string {
    Stars(49) + "\n * Index of Each device\n" + RowsText(es, 0) +
    (if LastHandle(es).None? then " * 0 : Not initializaed " + "padding Handle\n" else "") + " " + Stars(49)
  }

  function BannerText(): string {
    Stars(71) + "\n" +
    " * Early Initialization " + "function executed at cFE ES\n" +
    " * Append object to " + "`cfe_es_objtab.c`\n" +
    " * Declaration is located at\n" +
    " * `cfe/modules/core_private/" + "fsw/inc/cfe_srl_core_internal.h`\n" +
    " " + Stars(71)
  }

  function HeadingText(): string {
    Stars(49) + "\n\t * Serial Comm. Init\n " + "\t * Only `ready == true` " + "interface is initialized\n" + "\t " +
      Stars(49)
  }

  function SourceOpeningText(): seq<string> {
    NoticeText() + RemarkText("", "*\n * Required header files\n") + IncludeLineText("cfe_srl_module_all.h") + ["\n"] +
    RemarkText("", "*\n * Global data\n") + HandlesLineText()
  }

  function FunctionOpeningText(): seq<string> {
    FunctionLineText() + StatusLineText() + PriorLineText() + PriorCheckLineText() + PriorLogLineText() +
    RemarkText("\t", HeadingText())
  }

  function PrologueText(es: seq<Interface>): seq<string> {
    SourceOpeningText() + (RemarkText("", IndexText(es)) + ["\n"]) + GpioArrayLineText() +
      RemarkText("", BannerText()) +
    FunctionOpeningText()
  }

  lemma SourceOpeningSays()
    ensures Says(SourcePreamble() + HandlesLine(), SourceOpeningText())
  {
    RemarkSays(Joined, "", " Auto-Generated file. " + "Never change this code! ");
    RemarkSays(Joined, "", "*\n * Required header files\n");
    IncludeLineSays("cfe_srl_module_all.h");
    BlankSays();
    RemarkSays(Joined, "", "*\n * Global data\n");
    HandlesLineSays();
    Says6Parts(Notice(), NoticeText(), Remark(Joined, "*\n * Required header files\n"),
               RemarkText("", "*\n * Required header files\n"),
               IncludeLine("cfe_srl_module_all.h"), IncludeLineText("cfe_srl_module_all.h"), Blank(), ["\n"],
               Remark(Joined, "*\n * Global data\n"), RemarkText("", "*\n * Global data\n"), HandlesLine(),
                 HandlesLineText());
  }

  lemma FunctionOpeningSays()
    ensures Says(FunctionLine() + StatusLine() + PriorLine() + PriorCheckLine() + PriorLogLine() +
                 Remark(Tab, Heading()),
                 FunctionOpeningText())
  {
    FunctionLineSays();
    StatusLineSays();
    PriorLineSays();
    PriorCheckLineSays();
    PriorLogLineSays();
    HeadingIs();
    RemarkSays(Tab, "\t", HeadingText());
    Says6Parts(FunctionLine(), FunctionLineText(), StatusLine(), StatusLineText(), PriorLine(), PriorLineText(),
               PriorCheckLine(), PriorCheckLineText(), PriorLogLine(), PriorLogLineText(),
               Remark(Tab, Heading()), RemarkText("\t", HeadingText()));
  }

  lemma HeadingIs()
    ensures Heading() == HeadingText() && Banner() == BannerText()
  {
  }

  lemma IndexIs(es: seq<Interface>)
    ensures IndexTable(HandleNames(es)) == IndexText(es)
  {
    RowsAre(es, 0);
    LastHandleIs(es);
  }

  lemma RegroupPrologue(a: seq<Lexeme>, h: seq<Lexeme>, i: seq<Lexeme>, g: seq<Lexeme>, b: seq<Lexeme>, f: seq<Lexeme>,
                        s: seq<Lexeme>, p: seq<Lexeme>, c: seq<Lexeme>, l: seq<Lexeme>, r: seq<Lexeme>)
    ensures a + h + i + g + b + f + s + p + c + l + r == (a + h) + i + g + b + (f + s + p + c + l + r)
  {
  }

  lemma PrologueSays(es: seq<Interface>)
    ensures Says(SourcePrologue(HandleNames(es)), PrologueText(es))
  {
    var table := Remark(Joined, IndexTable(HandleNames(es))) + Blank();
    var opening := FunctionLine() + StatusLine() + PriorLine() + PriorCheckLine() + PriorLogLine() +
                   Remark(Tab, Heading());
    SourceOpeningSays();
    IndexIs(es);
    RemarkSays(Joined, "", IndexText(es));
    BlankSays();
    SaysConcat(Remark(Joined, IndexTable(HandleNames(es))), RemarkText("", IndexText(es)), Blank(), ["\n"]);
    GpioArrayLineSays();
    HeadingIs();
    RemarkSays(Joined, "", BannerText());
    FunctionOpeningSays();
    RegroupPrologue(SourcePreamble(), HandlesLine(), table, GpioArrayLine(), Remark(Joined, Banner()), FunctionLine(),
                    StatusLine(), PriorLine(), PriorCheckLine(), PriorLogLine(), Remark(Tab, Heading()));
    Says3Parts(SourcePreamble() + HandlesLine(), SourceOpeningText(), table, RemarkText("", IndexText(es)) + ["\n"],
               GpioArrayLine(), GpioArrayLineText());
    Says3Parts(SourcePreamble() + HandlesLine() + table + GpioArrayLine(),
               SourceOpeningText() + (RemarkText("", IndexText(es)) + ["\n"]) + GpioArrayLineText(),
               Remark(Joined, Banner()), RemarkText("", BannerText()), opening, FunctionOpeningText());
  }

  function SourceWrites(es: seq<Interface>): seq<string> {
    PrologueText(es) + EntriesText(es) + if AllCanPrint(es) then SourceEndText() else []
  }

  lemma AllCanPrintIff(es: seq<Interface>)
    ensures AllCanPrint(es) <==> AllHaveKeys(es)
  {
    forall i | 0 <= i < |es|
      ensures CanPrint(es[i]) <==> HasKeys(es[i])
    {
      CanPrintIff(es[i]);
    }
  }

  /** The source's text is what the third pass writes, up to a missing key. */
  lemma SourceTextIs(es: seq<Interface>)
    ensures SourceText(es) == Flat(SourceWrites(es))
  {
    AllCanPrintIff(es);
    PrologueSays(es);
    EntriesSay(es);
    SourceEndSays();
    SaysNothing();
    var end, s := if AllCanPrint(es) then SourceEnd() else [], if AllCanPrint(es) then SourceEndText() else [];
    Says3Parts(SourcePrologue(HandleNames(es)), PrologueText(es), EntryLines(es), EntriesText(es), end, s);
    assert SourcePrologue(HandleNames(es)) + EntryLines(es) + [] == SourcePrologue(HandleNames(es)) + EntryLines(es);
  }

  // ----- which keys matter -----

  /** With every key of every ready entry there, nothing is cut: every entry is written in full. */
  lemma AllKeysSuffice(es: seq<Interface>)
    requires forall i :: 0 <= i < |es| && es[i].ready ==> forall key: Key :: Value(es[i], key).Some?
    ensures AllCanPrint(es) && SourceWrites(es) == PrologueText(es) + EntriesText(es) + SourceEndText()
  {
  }

  /** Two entries that differ at most in keys that their calls do not print. */
  predicate SamePrint(e: Interface, f: Interface) {
    && e.kind == f.kind && e.ready == f.ready && e.name == f.name && e.devName == f.devName
    && forall key :: key in Printed(e.kind) ==> Value(e, key) == Value(f, key)
  }

  lemma SameCall(e: Interface, f: Interface)
    requires SamePrint(e, f)
    ensures CanPrint(e) <==> CanPrint(f)
    ensures CanPrint(e) ==> CallText(e) == CallText(f)
    ensures StopText(e) == StopText(f) && CheckText(e) == CheckText(f)
  {
    if CanPrint(e) {
      assert e.kind.Spi? ==> SpeedKey in Printed(e.kind) && ModeKey in Printed(e.kind);
      assert e.kind.Gpio? ==> LineKey in Printed(e.kind) && DefaultKey in Printed(e.kind);
      assert e.kind.Uart? || e.kind.Rs232? || e.kind.Rs422? || e.kind.Rs485? ==> BaudrateKey in Printed(e.kind);
    }
  }

  lemma {:induction false} SameEntries(es: seq<Interface>, fs: seq<Interface>)
    requires |es| == |fs| && forall i :: 0 <= i < |es| ==> SamePrint(es[i], fs[i])
    ensures EntriesText(es) == EntriesText(fs) && RowsText(es, 0) == RowsText(fs, 0)
    ensures LastHandle(es) == LastHandle(fs) && AllCanPrint(es) == AllCanPrint(fs)
  {
    SameRows(es, fs, 0);
    if es != [] {
      SameCall(es[0], fs[0]);
      SameEntries(es[1..], fs[1..]);
      assert AllCanPrint(es) <==> (es[0].ready ==> CanPrint(es[0])) && AllCanPrint(es[1..]);
      assert AllCanPrint(fs) <==> (fs[0].ready ==> CanPrint(fs[0])) && AllCanPrint(fs[1..]);
    }
  }

  lemma {:induction false} SameRows(es: seq<Interface>, fs: seq<Interface>, index: nat)
    requires |es| == |fs| && forall i :: 0 <= i < |es| ==> SamePrint(es[i], fs[i])
    ensures RowsText(es, index) == RowsText(fs, index)
    decreases |es|
  {
    if es != [] {
      SameRows(es[1..], fs[1..], if OwnsHandle(es[0]) then index + 1 else index);
    }
  }

  lemma {:induction false} SameNames(es: seq<Interface>, fs: seq<Interface>)
    requires |es| == |fs| && forall i :: 0 <= i < |es| ==> SamePrint(es[i], fs[i])
    ensures HandleNames(es) == HandleNames(fs) && GpioNames(es) == GpioNames(fs) && ReadyNames(es) == ReadyNames(fs)
    ensures GpioCount(es) == GpioCount(fs)
  {
    if es != [] { SameNames(es[1..], fs[1..]); }
  }

  /** A key that a type's call does not print has no influence on any text, nor on whether the source is complete. */
  lemma OtherKeysDoNotMatter(es: seq<Interface>, fs: seq<Interface>)
    requires |es| == |fs| && forall i :: 0 <= i < |es| ==> SamePrint(es[i], fs[i])
    ensures MissionText(es) == MissionText(fs) && ErrorText(es) == ErrorText(fs) && SourceText(es) == SourceText(fs)
    ensures AllCanPrint(es) <==> AllCanPrint(fs)
  {
    SameNames(es, fs);
    SameSource(es, fs);
  }

  lemma SameSource(es: seq<Interface>, fs: seq<Interface>)
    requires |es| == |fs| && forall i :: 0 <= i < |es| ==> SamePrint(es[i], fs[i])
    ensures SourceText(es) == SourceText(fs) && (AllCanPrint(es) <==> AllCanPrint(fs))
  {
    SourceTextIs(es);
    SourceTextIs(fs);
    SameEntries(es, fs);
  }
}
