// The three generated files as sequences of lexemes, line by line in the order
// in which the generator writes them. `Spell` turns each into its exact text.
// Long literals are written in parts: what a literal costs the verifier grows faster
// than its length.
module Emission {
  import opened Text
  import opened Lexing
  import opened Interfaces

  // ----- identifiers -----

  function HandleIndexer(upper: string): string {
    "CFE_SRL_" + upper + "_HANDLE_INDEXER"
  }

  function GpioIndexer(upper: string): string {
    "CFE_SRL_" + upper + "_GPIO_INDEXER"
  }

  function InitError(upper: string): string {
    "CFE_SRL_" + upper + "_INIT_ERR"
  }

  /** The device type constant that the entry's call passes; `socat` borrows UART's. */
  function DeviceType(kind: Kind): string {
    match kind
    case I2c => "SRL_DEVTYPE_I2C"
    case Spi => "SRL_DEVTYPE_SPI"
    case Uart => "SRL_DEVTYPE_UART"
    case Rs232 => "SRL_DEVTYPE_RS232"
    case Rs422 => "SRL_DEVTYPE_RS422"
    case Rs485 => "SRL_DEVTYPE_RS485"
    case Can => "SRL_DEVTYPE_CAN"
    case Socat => "SRL_DEVTYPE_UART"
    case _ => ""
  }

  // ----- the lists that the passes collect -----

  /** Upper-cased names of the ready general entries. */
  function HandleNames(es: seq<Interface>): seq<string> {
    if es == [] then []
    else if IsGeneral(es[0].kind) && es[0].ready then [Upper(es[0].name)] + HandleNames(es[1..])
    else HandleNames(es[1..])
  }

  function GpioNames(es: seq<Interface>): seq<string> {
    if es == [] then []
    else if es[0].kind.Gpio? && es[0].ready then [Upper(es[0].name)] + GpioNames(es[1..])
    else GpioNames(es[1..])
  }

  function ReadyNames(es: seq<Interface>): seq<string> {
    if es == [] then []
    else if es[0].ready then [Upper(es[0].name)] + ReadyNames(es[1..])
    else ReadyNames(es[1..])
  }

  // ----- shared lines -----

  function Remark(before: Layout, body: string): seq<Lexeme> {
    [L(before, Comment(body)), L(Joined, Line)]
  }

  function Blank(): seq<Lexeme> {
    [L(Joined, Line)]
  }

  function Notice(): seq<Lexeme> {
    Remark(Joined, " Auto-Generated file. " + "Never change this code! ")
  }

  function IfndefLine(symbol: string): seq<Lexeme> {
    [L(Joined, Mark('#')), L(Joined, Word("ifndef")), L(Space, Word(symbol)), L(Joined, Line)]
  }

  function DefineLine(symbol: string): seq<Lexeme> {
    [L(Joined, Mark('#')), L(Joined, Word("define")), L(Space, Word(symbol)), L(Joined, Line)]
  }

  function IncludeLine(path: string): seq<Lexeme> {
    [L(Joined, Mark('#')), L(Joined, Word("include")), L(Space, Quoted(path)), L(Joined, Line)]
  }

  /** The last line of a header has no line end. */
  function EndifLine(symbol: string): seq<Lexeme> {
    [L(Joined, Mark('#')), L(Joined, Word("endif")), L(Space, Comment(" " + symbol + " "))]
  }

  function EnumOpenLine(): seq<Lexeme> {
    [L(Joined, Word("typedef")), L(Space, Word("enum")), L(Space, Mark('{')), L(Joined, Line)]
  }

  function EnumeratorLine(id: string): seq<Lexeme> {
    [L(Tab, Word(id)), L(Joined, Mark(',')), L(Joined, Line)]
  }

  function EnumeratorLines(ids: seq<string>): seq<Lexeme> {
    if ids == [] then [] else EnumeratorLine(ids[0]) + EnumeratorLines(ids[1..])
  }

  function EnumCloseLine(tag: string): seq<Lexeme> {
    [L(Joined, Mark('}')), L(Space, Word(tag)), L(Joined, Mark(';')), L(Joined, Line), L(Joined, Line)]
  }

  // ----- the mission header -----

  function MissionPreamble(): seq<Lexeme> {
    Notice() + IfndefLine("CFE_SRL_MISSION_CFG_H") + DefineLine("CFE_SRL_MISSION_CFG_H") + Blank() +
    IncludeLine("cfe_srl_interface_cfg.h") + Blank()
  }

  function HandleIds(names: seq<string>): seq<string> {
    seq(|names|, i requires 0 <= i < |names| => HandleIndexer(names[i]))
  }

  function GpioIds(names: seq<string>): seq<string> {
    seq(|names|, i requires 0 <= i < |names| => GpioIndexer(names[i]))
  }

  function HandleEnum(names: seq<string>): seq<Lexeme> {
    EnumOpenLine() + EnumeratorLines(HandleIds(names)) + EnumCloseLine("CFE_SRL_Handle_Indexer_t")
  }

  /** One past the last handle index. */
  function DeviceNumLine(last: string): seq<Lexeme> {
    [L(Joined, Mark('#')), L(Joined, Word("define")), L(Space, Word("CFE_SRL_GNRL_DEVICE_NUM")),
     L(TwoTabs, Mark('(')), L(Joined, Word(HandleIndexer(last))), L(Space, Mark('+')), L(Space, Word("1")),
       L(Joined, Mark(')')),
     L(Joined, Line), L(Joined, Line)]
  }

  /** Without any general entry: one padding slot. This line has no line end of its own. */
  function PaddingNumLine(): seq<Lexeme> {
    [L(Joined, Mark('#')), L(Joined, Word("define")), L(Space, Word("CFE_SRL_GNRL_DEVICE_NUM")), L(TwoTabs, Word("1"))]
  }

  function HandlePart(names: seq<string>): seq<Lexeme> {
    if names != [] then
      HandleEnum(names) + Remark(Joined, " \\# of General serial device ") + DeviceNumLine(names[|names| - 1])
    else
      Remark(Joined, " Every interfaces are not " + "ready yet ") + PaddingNumLine()
  }

  function GpioNumLine(count: nat): seq<Lexeme> {
    [L(Joined, Mark('#')), L(Joined, Word("define")), L(Space, Word("CFE_SRL_TOT_GPIO_NUM")),
     L(TwoTabs, Word(Decimal(count))),
     L(Joined, Line), L(Joined, Line)]
  }

  function NothingLine(): seq<Lexeme> {
    [L(Tab, Word("NOTHING")), L(Joined, Line)]
  }

  function GpioEnumerators(names: seq<string>): seq<Lexeme> {
    if names != [] then EnumeratorLines(GpioIds(names)) else NothingLine()
  }

  function GpioHeading(): seq<Lexeme> {
    Remark(Joined, " \\# of used gpio pin ")
  }

  function GpioPart(count: nat, names: seq<string>): seq<Lexeme> {
    GpioNumLine(count) + (EnumOpenLine() + GpioEnumerators(names) + EnumCloseLine("CFE_SRL_GPIO_Indexer_t"))
  }

  function MissionHeader(es: seq<Interface>): seq<Lexeme> {
    MissionPreamble() + (HandlePart(HandleNames(es)) + GpioHeading()) + GpioPart(GpioCount(es), GpioNames(es)) +
    EndifLine("CFE_SRL_MISSION_CFG_H")
  }

  // ----- the error header -----

  /** The first offset of the early-init error codes. */
  const FIRST_OFFSET: nat := 90

  function ErrorPreamble(): seq<Lexeme> {
    Notice() + IfndefLine("CFE_SRL_ERROR_H") + DefineLine("CFE_SRL_ERROR_H") + Blank() +
    IncludeLine("cfe_usr_error_macro.h") + Blank() + Remark(Joined, "*\n * Early Init error define\n ")
  }

  function ErrorLine(upper: string, offset: nat): seq<Lexeme> {
    [L(Joined, Mark('#')), L(Joined, Word("define")), L(Space, Word(InitError(upper))),
     L(TwoTabs, Word("CFE_SERIAL_ERROR")), L(Joined, Mark('(')), L(Joined, Word(Decimal(offset))),
       L(Joined, Mark(')')), L(Joined, Line)]
  }

  function ErrorLines(names: seq<string>, offset: nat): seq<Lexeme> {
    if names == [] then [] else ErrorLine(names[0], offset) + ErrorLines(names[1..], offset + 1)
  }

  function ErrorHeader(es: seq<Interface>): seq<Lexeme> {
    ErrorPreamble() + ErrorLines(ReadyNames(es), FIRST_OFFSET) + (Blank() + Blank()) + EndifLine("CFE_SRL_ERROR_H")
  }

  // ----- the initialisation source -----

  function Stars(n: nat): string {
    seq(n, _ => '*')
  }

  function SourcePreamble(): seq<Lexeme> {
    Notice() + Remark(Joined, "*\n * Required header files\n") +
    IncludeLine("cfe_srl_module_all.h") + Blank() + Remark(Joined, "*\n * Global data\n")
  }

  function HandlesLine(): seq<Lexeme> {
    [L(Joined, Word("CFE_SRL_IO_Handle_t")), L(Space, Mark('*')), L(Joined, Word("Handles")), L(Joined, Mark('[')),
     L(Joined, Word("CFE_SRL_GNRL_DEVICE_NUM")), L(Joined, Mark(']')), L(Joined, Mark(';')), L(Joined, Line)]
  }

  function GpioArrayLine(): seq<Lexeme> {
    [L(Joined, Word("CFE_SRL_GPIO_Handle_t")), L(Space, Word("GPIO")), L(Joined, Mark('[')),
     L(Joined, Word("CFE_SRL_TOT_GPIO_NUM")), L(Joined, Mark(']')), L(Joined, Mark(';')),
     L(Joined, Line), L(Joined, Line), L(Joined, Line)]
  }

  function IndexRow(index: nat, name: string): string {
    " * " + Decimal(index) + " : " + name + " Handle\n"
  }

  /** The rows of the index comment, numbered from `index`. */
  function IndexRows(names: seq<string>, index: nat): string {
    if names == [] then "" else IndexRow(index, names[0]) + IndexRows(names[1..], index + 1)
  }

  function PaddingRow(names: seq<string>): string {
    if names == [] then " * 0 : Not initializaed " + "padding Handle\n" else ""
  }

  function IndexTable(names: seq<string>): string {
    Stars(49) + "\n * Index of Each device\n" + IndexRows(names, 0) + PaddingRow(names) + " " + Stars(49)
  }

  function Banner(): string {
    Stars(71) + "\n" +
    " * Early Initialization " + "function executed at cFE ES\n" +
    " * Append object to " + "`cfe_es_objtab.c`\n" +
    " * Declaration is located at\n" +
    " * `cfe/modules/core_private/" + "fsw/inc/cfe_srl_core_internal.h`\n" +
    " " + Stars(71)
  }

  function Heading(): string {
    Stars(49) + "\n\t * Serial Comm. Init\n " + "\t * Only `ready == true` " + "interface is initialized\n" + "\t " +
      Stars(49)
  }

  function FunctionLine(): seq<Lexeme> {
    [L(Joined, Word("int32")), L(Space, Word("CFE_SRL_EarlyInit")), L(Joined, Mark('(')), L(Joined, Word("void")),
     L(Joined, Mark(')')),
     L(Space, Mark('{')), L(Joined, Line)]
  }

  function StatusLine(): seq<Lexeme> {
    [L(Tab, Word("int32")), L(Space, Word("Status")), L(Joined, Mark(';')), L(Joined, Line), L(Joined, Line)]
  }

  function PriorLine(): seq<Lexeme> {
    [L(Tab, Word("Status")), L(Space, Mark('=')), L(Space, Word("CFE_SRL_PriorInit")), L(Joined, Mark('(')),
     L(Joined, Mark(')')),
     L(Joined, Mark(';')), L(Joined, Line)]
  }

  function PriorCheckLine(): seq<Lexeme> {
    [L(Tab, Word("if")), L(Joined, Mark('(')), L(Joined, Word("Status")), L(Space, Mark('!')), L(Joined, Mark('=')),
     L(Space, Word("CFE_SUCCESS")), L(Joined, Mark(')')), L(Space, Word("return")), L(Space, Word("Status")),
       L(Joined, Mark(';')),
     L(Joined, Line)]
  }

  function PriorLogLine(): seq<Lexeme> {
    [L(Tab, Word("CFE_ES_WriteToSysLog")), L(Joined, Mark('(')), L(Joined, Quoted("%s: Prior Initialized.")),
     L(Joined, Mark(',')),
     L(Space, Word("__func__")), L(Joined, Mark(')')), L(Joined, Mark(';')), L(Joined, Line)]
  }

  function SourcePrologue(names: seq<string>): seq<Lexeme> {
    SourcePreamble() + HandlesLine() + (Remark(Joined, IndexTable(names)) + Blank()) + GpioArrayLine() +
    Remark(Joined, Banner()) + FunctionLine() + StatusLine() + PriorLine() + PriorCheckLine() + PriorLogLine() +
    Remark(Tab, Heading())
  }

  /** `Status = CFE_SRL_HandleInit(&Handles[...], name, device, type, index, ...` */
  function HandleInitStart(upper: string, name: string, devName: string, deviceType: string): seq<Lexeme> {
    [L(Tab, Word("Status")), L(Space, Mark('=')), L(Space, Word("CFE_SRL_HandleInit")), L(Joined, Mark('(')),
     L(Joined, Mark('&')), L(Joined, Word("Handles")), L(Joined, Mark('[')), L(Joined, Word(HandleIndexer(upper))),
       L(Joined, Mark(']')),
     L(Joined, Mark(',')), L(Space, Quoted(name)), L(Joined, Mark(',')), L(Space, Quoted(devName)),
       L(Joined, Mark(',')),
     L(Space, Word(deviceType)), L(Joined, Mark(','))]
  }

  function HandleInitEnd(upper: string, rate: nat, mode: nat): seq<Lexeme> {
    [L(Space, Word(HandleIndexer(upper))), L(Joined, Mark(',')), L(Space, Word(Decimal(rate))), L(Joined, Mark(',')),
     L(Space, Word(Decimal(mode))), L(Joined, Mark(')')), L(Joined, Mark(';')), L(Joined, Line)]
  }

  function InitRemark(name: string): seq<Lexeme> {
    Remark(Tab, " " + name + " Init ")
  }

  function GpioRemark(name: string): seq<Lexeme> {
    Remark(Tab, " GPIO " + name + " Init ")
  }

  /** `Status = CFE_SRL_GpioInit(&GPIO[...], device, line, name, level);` */
  function GpioInitStart(upper: string, devName: string): seq<Lexeme> {
    [L(Tab, Word("Status")), L(Space, Mark('=')), L(Space, Word("CFE_SRL_GpioInit")), L(Joined, Mark('(')),
     L(Joined, Mark('&')), L(Joined, Word("GPIO")), L(Joined, Mark('[')), L(Joined, Word(GpioIndexer(upper))),
       L(Joined, Mark(']')),
     L(Joined, Mark(',')), L(Space, Quoted(devName)), L(Joined, Mark(','))]
  }

  function GpioInitEnd(line: nat, name: string, initial: nat): seq<Lexeme> {
    [L(Space, Word(Decimal(line))), L(Joined, Mark(',')), L(Space, Quoted(name)), L(Joined, Mark(',')),
     L(Space, Word(Decimal(initial))), L(Joined, Mark(')')), L(Joined, Mark(';')), L(Joined, Line)]
  }

  function GpioInitLine(e: Interface): seq<Lexeme>
    requires e.kind.Gpio? && HasKeys(e)
  {
    GpioInitStart(Upper(e.name), e.devName) + GpioInitEnd(e.line.value, e.name, e.initial.value)
  }

  /** The bit rate and mode arguments of a general entry's call; only read when its keys are present. */
  function RateOf(e: Interface): nat {
    match e.kind
    case Spi => if e.speed.Some? then e.speed.value else 0
    case Uart => if e.baudrate.Some? then e.baudrate.value else 0
    case Rs232 => if e.baudrate.Some? then e.baudrate.value else 0
    case Rs422 => if e.baudrate.Some? then e.baudrate.value else 0
    case Rs485 => if e.baudrate.Some? then e.baudrate.value else 0
    case Socat => 115200
    case _ => 0
  }

  function ModeOf(e: Interface): nat {
    if e.kind.Spi? && e.mode.Some? then e.mode.value else 0
  }

  function HandleInitLine(e: Interface): seq<Lexeme> {
    HandleInitStart(Upper(e.name), e.name, e.devName, DeviceType(e.kind)) +
      HandleInitEnd(Upper(e.name), RateOf(e), ModeOf(e))
  }

  /** The call that initialises a ready entry. A missing key ends the text after the remark. */
  function CallLines(e: Interface): seq<Lexeme> {
    if e.kind.Other? then []
    else if e.kind.Gpio? then
      if HasKeys(e) then GpioRemark(e.name) + GpioInitLine(e)
      else GpioRemark(e.name)
    else if HasKeys(e) then InitRemark(e.name) + HandleInitLine(e)
    else InitRemark(e.name)
  }

  function BranchLine(): seq<Lexeme> {
    [L(Tab, Word("if")), L(Space, Mark('(')), L(Joined, Word("Status")), L(Space, Mark('!')), L(Joined, Mark('=')),
     L(Space, Word("CFE_SUCCESS")), L(Joined, Mark(')')), L(Space, Mark('{')), L(Joined, Line)]
  }

  function FailureText(e: Interface): string {
    (if e.kind.Gpio? then "%s: GPIO " else "%s: ") + e.name + " Initialization failed! RC=%d\\n"
  }

  function FailureLogLine(text: string): seq<Lexeme> {
    [L(TwoTabs, Word("CFE_ES_WriteToSysLog")), L(Joined, Mark('(')), L(Joined, Quoted(text)), L(Joined, Mark(',')),
     L(Space, Word("__func__")), L(Joined, Mark(',')), L(Space, Word("Status")), L(Joined, Mark(')')),
       L(Joined, Mark(';')), L(Joined, Line)]
  }

  function FailureReturnLine(upper: string): seq<Lexeme> {
    [L(TwoTabs, Word("return")), L(Space, Word(InitError(upper))), L(Joined, Mark(';')), L(Joined, Line)]
  }

  function CloseLine(): seq<Lexeme> {
    [L(Tab, Mark('}')), L(Joined, Line)]
  }

  function SuccessText(e: Interface): string {
    "%s: " + e.name + " Initialized. FD=%d" + " || DevName=%s\\n"
  }

  function SuccessLogStart(upper: string, text: string): seq<Lexeme> {
    [L(Tab, Word("CFE_ES_WriteToSysLog")), L(Joined, Mark('(')), L(Joined, Quoted(text)), L(Joined, Mark(',')),
     L(Space, Word("__func__")), L(Joined, Mark(',')),
     L(Space, Word("Handles")), L(Joined, Mark('[')), L(Joined, Word(HandleIndexer(upper))), L(Joined, Mark(']')),
     L(Joined, Mark('-')), L(Joined, Mark('>')), L(Joined, Word("FD")), L(Joined, Mark(','))]
  }

  function SuccessLogEnd(upper: string): seq<Lexeme> {
    [L(Space, Mark('(')), L(Joined, Mark('(')), L(Joined, Word("CFE_SRL_Global_Handle_t")), L(Space, Mark('*')),
     L(Joined, Mark(')')),
     L(Joined, Word("Handles")), L(Joined, Mark('[')), L(Joined, Word(HandleIndexer(upper))), L(Joined, Mark(']')),
       L(Joined, Mark(')')),
     L(Joined, Mark('-')), L(Joined, Mark('>')), L(Joined, Word("DevName")), L(Joined, Mark(')')), L(Joined, Mark(';')),
     L(Joined, Line), L(Joined, Line)]
  }

  /** The check that follows a call, and for all but GPIO the log line that reads the slot. */
  function CheckLines(e: Interface): seq<Lexeme> {
    var failure := BranchLine() + FailureLogLine(FailureText(e)) + FailureReturnLine(Upper(e.name)) + CloseLine();
    if e.kind.Gpio? then failure + Blank()
    else failure + (SuccessLogStart(Upper(e.name), SuccessText(e)) + SuccessLogEnd(Upper(e.name)))
  }

  predicate AllHaveKeys(es: seq<Interface>) {
    forall i :: 0 <= i < |es| && es[i].ready ==> HasKeys(es[i])
  }

  /** The lines of the ready entries, up to the first one whose keys are incomplete. */
  function EntryLines(es: seq<Interface>): seq<Lexeme> {
    if es == [] then []
    else if !es[0].ready then EntryLines(es[1..])
    else if !HasKeys(es[0]) then CallLines(es[0])
    else CallLines(es[0]) + CheckLines(es[0]) + EntryLines(es[1..])
  }

  function SourceEnd(): seq<Lexeme> {
    [L(Joined, Word("return")), L(Space, Word("CFE_SUCCESS")), L(Joined, Mark(';')), L(Joined, Line),
     L(Joined, Mark('}')), L(Joined, Line)]
  }

  function InitSource(es: seq<Interface>): seq<Lexeme> {
    var start := SourcePrologue(HandleNames(es)) + EntryLines(es);
    if AllHaveKeys(es) then start + SourceEnd() else start
  }

  // ----- the three texts -----

  function MissionText(es: seq<Interface>): string {
    Spell(MissionHeader(es))
  }

  function ErrorText(es: seq<Interface>): string {
    Spell(ErrorHeader(es))
  }

  function SourceText(es: seq<Interface>): string {
    Spell(InitSource(es))
  }

  // ----- entries that are not ready leave no trace -----

  lemma {:induction false} NamesIgnoreUnready(es: seq<Interface>)
    ensures HandleNames(Ready(es)) == HandleNames(es)
    ensures GpioNames(Ready(es)) == GpioNames(es)
    ensures ReadyNames(Ready(es)) == ReadyNames(es)
  {
    if es != [] {
      NamesIgnoreUnready(es[1..]);
      if es[0].ready {
        assert Ready(es)[1..] == Ready(es[1..]);
      }
    }
  }

  lemma {:induction false} LinesIgnoreUnready(es: seq<Interface>)
    ensures EntryLines(Ready(es)) == EntryLines(es)
  {
    if es != [] {
      LinesIgnoreUnready(es[1..]);
      if es[0].ready {
        assert Ready(es)[1..] == Ready(es[1..]);
        assert Ready(es)[0] == es[0];
      }
    }
  }

  lemma {:induction false} KeysIgnoreUnready(es: seq<Interface>)
    ensures AllHaveKeys(Ready(es)) <==> AllHaveKeys(es)
  {
    if es != [] {
      KeysIgnoreUnready(es[1..]);
      assert AllHaveKeys(es) <==> (es[0].ready ==> HasKeys(es[0])) && AllHaveKeys(es[1..]);
      if es[0].ready {
        var rs := Ready(es);
        assert rs[1..] == Ready(es[1..]) && rs[0] == es[0];
        assert AllHaveKeys(rs) <==> HasKeys(es[0]) && AllHaveKeys(rs[1..]);
      }
    }
  }

  /** All three texts are, character for character, those of the ready entries alone. */
  lemma UnreadyEntriesAreInvisible(es: seq<Interface>)
    ensures MissionText(es) == MissionText(Ready(es))
    ensures ErrorText(es) == ErrorText(Ready(es))
    ensures SourceText(es) == SourceText(Ready(es))
  {
    NamesIgnoreUnready(es);
    LinesIgnoreUnready(es);
    KeysIgnoreUnready(es);
    CountReady(es);
  }
}
