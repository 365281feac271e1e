// The lines of the generated files written out as strings, one for each lexeme
// with the white space in front of it.
module Wording {
  import opened Text
  import opened Lexing
  import opened Emission

  /** These lexemes are spelled as these strings, one after the other. */
  ghost predicate Says(xs: seq<Lexeme>, text: seq<string>) {
    Spell(xs) == Flat(text)
  }

  lemma SaysConcat(xs: seq<Lexeme>, s: seq<string>, ys: seq<Lexeme>, t: seq<string>)
    requires Says(xs, s) && Says(ys, t)
    ensures Says(xs + ys, s + t)
  {
    SpellConcat(xs, ys);
    FlatConcat(s, t);
  }

  lemma SaysEach(xs: seq<Lexeme>, text: seq<string>)
    requires |xs| == |text| && forall i :: 0 <= i < |xs| ==> SpellLexeme(xs[i]) == text[i]
    ensures Says(xs, text)
  {
    assert seq(|xs|, i requires 0 <= i < |xs| => SpellLexeme(xs[i])) == text;
  }

  function IfndefLineText(symbol: string): seq<string> {
    ["#", "ifndef", " " + symbol, "\n"]
  }

  lemma IfndefLineSays(symbol: string)
    ensures Says(IfndefLine(symbol), IfndefLineText(symbol))
  {
    SaysEach(IfndefLine(symbol), IfndefLineText(symbol));
  }

  function DefineLineText(symbol: string): seq<string> {
    ["#", "define", " " + symbol, "\n"]
  }

  lemma DefineLineSays(symbol: string)
    ensures Says(DefineLine(symbol), DefineLineText(symbol))
  {
    SaysEach(DefineLine(symbol), DefineLineText(symbol));
  }

  function IncludeLineText(path: string): seq<string> {
    ["#", "include", " " + ("\"" + path + "\""), "\n"]
  }

  lemma IncludeLineSays(path: string)
    ensures Says(IncludeLine(path), IncludeLineText(path))
  {
    SaysEach(IncludeLine(path), IncludeLineText(path));
  }

  function EndifLineText(symbol: string): seq<string> {
    ["#", "endif", " " + ("/* " + symbol + " */")]
  }

  lemma EndifLineSays(symbol: string)
    ensures Says(EndifLine(symbol), EndifLineText(symbol))
  {
    SaysEach(EndifLine(symbol), EndifLineText(symbol));
  }

  function EnumOpenLineText(): seq<string> {
    ["typedef", " enum", " {", "\n"]
  }

  lemma EnumOpenLineSays()
    ensures Says(EnumOpenLine(), EnumOpenLineText())
  {
    SaysEach(EnumOpenLine(), EnumOpenLineText());
  }

  function EnumeratorLineText(id: string): seq<string> {
    ["\t" + id, ",", "\n"]
  }

  lemma EnumeratorLineSays(id: string)
    ensures Says(EnumeratorLine(id), EnumeratorLineText(id))
  {
    SaysEach(EnumeratorLine(id), EnumeratorLineText(id));
  }

  function EnumCloseLineText(tag: string): seq<string> {
    ["}", " " + tag, ";", "\n", "\n"]
  }

  lemma EnumCloseLineSays(tag: string)
    ensures Says(EnumCloseLine(tag), EnumCloseLineText(tag))
  {
    SaysEach(EnumCloseLine(tag), EnumCloseLineText(tag));
  }

  function DeviceNumLineText(last: string): seq<string> {
    ["#", "define", " " + "CFE_SRL_GNRL_DEVICE_NUM", "\t\t(", "CFE_SRL_" + last + "_HANDLE_INDEXER", " +", " 1", ")",
     "\n", "\n"]
  }

  lemma DeviceNumLineSays(last: string)
    ensures Says(DeviceNumLine(last), DeviceNumLineText(last))
  {
    SaysEach(DeviceNumLine(last), DeviceNumLineText(last));
  }

  function PaddingNumLineText(): seq<string> {
    ["#", "define", " " + "CFE_SRL_GNRL_DEVICE_NUM", "\t\t1"]
  }

  lemma PaddingNumLineSays()
    ensures Says(PaddingNumLine(), PaddingNumLineText())
  {
    SaysEach(PaddingNumLine(), PaddingNumLineText());
  }

  function GpioNumLineText(count: nat): seq<string> {
    ["#", "define", " " + "CFE_SRL_TOT_GPIO_NUM", "\t\t" + Decimal(count), "\n", "\n"]
  }

  lemma GpioNumLineSays(count: nat)
    ensures Says(GpioNumLine(count), GpioNumLineText(count))
  {
    SaysEach(GpioNumLine(count), GpioNumLineText(count));
  }

  function NothingLineText(): seq<string> {
    ["\t" + "NOTHING", "\n"]
  }

  lemma NothingLineSays()
    ensures Says(NothingLine(), NothingLineText())
  {
    SaysEach(NothingLine(), NothingLineText());
  }

  function ErrorLineText(upper: string, offset: nat): seq<string> {
    ["#", "define", " " + ("CFE_SRL_" + upper + "_INIT_ERR"), "\t\t" + "CFE_SERIAL_ERROR", "(", Decimal(offset), ")",
     "\n"]
  }

  lemma ErrorLineSays(upper: string, offset: nat)
    ensures Says(ErrorLine(upper, offset), ErrorLineText(upper, offset))
  {
    SaysEach(ErrorLine(upper, offset), ErrorLineText(upper, offset));
  }

  function HandlesLineText(): seq<string> {
    ["CFE_SRL_IO_Handle_t", " *", "Handles", "[", "CFE_SRL_GNRL_DEVICE_NUM", "]", ";", "\n"]
  }

  lemma HandlesLineSays()
    ensures Says(HandlesLine(), HandlesLineText())
  {
    SaysEach(HandlesLine(), HandlesLineText());
  }

  function GpioArrayLineText(): seq<string> {
    ["CFE_SRL_GPIO_Handle_t", " GPIO", "[", "CFE_SRL_TOT_GPIO_NUM", "]", ";", "\n", "\n", "\n"]
  }

  lemma GpioArrayLineSays()
    ensures Says(GpioArrayLine(), GpioArrayLineText())
  {
    SaysEach(GpioArrayLine(), GpioArrayLineText());
  }

  function FunctionLineText(): seq<string> {
    ["int32", " " + "CFE_SRL_EarlyInit", "(", "void", ")", " {", "\n"]
  }

  lemma FunctionLineSays()
    ensures Says(FunctionLine(), FunctionLineText())
  {
    SaysEach(FunctionLine(), FunctionLineText());
  }

  function StatusLineText(): seq<string> {
    ["\tint32", " Status", ";", "\n", "\n"]
  }

  lemma StatusLineSays()
    ensures Says(StatusLine(), StatusLineText())
  {
    SaysEach(StatusLine(), StatusLineText());
  }

  function PriorLineText(): seq<string> {
    ["\tStatus", " =", " " + "CFE_SRL_PriorInit", "(", ")", ";", "\n"]
  }

  lemma PriorLineSays()
    ensures Says(PriorLine(), PriorLineText())
  {
    SaysEach(PriorLine(), PriorLineText());
  }

  function PriorCheckLineText(): seq<string> {
    ["\tif", "(", "Status", " !", "=", " " + "CFE_SUCCESS", ")", " return", " Status", ";", "\n"]
  }

  lemma PriorCheckLineSays()
    ensures Says(PriorCheckLine(), PriorCheckLineText())
  {
    SaysEach(PriorCheckLine(), PriorCheckLineText());
  }

  function PriorLogLineText(): seq<string> {
    ["\t" + "CFE_ES_WriteToSysLog", "(", "\"" + "%s: Prior Initialized." + "\"", ",", " " + "__func__", ")", ";",
     "\n"]
  }

  lemma PriorLogLineSays()
    ensures Says(PriorLogLine(), PriorLogLineText())
  {
    SaysEach(PriorLogLine(), PriorLogLineText());
  }

  function HandleInitStartText(upper: string, name: string, devName: string, deviceType: string): seq<string> {
    ["\tStatus", " =", " " + "CFE_SRL_HandleInit", "(", "&", "Handles", "[", "CFE_SRL_" + upper + "_HANDLE_INDEXER",
     "]", ",", " " + ("\"" + name + "\""), ",", " " + ("\"" + devName + "\""), ",", " " + deviceType, ","]
  }

  lemma HandleInitStartSays(upper: string, name: string, devName: string, deviceType: string)
    ensures Says(HandleInitStart(upper, name, devName, deviceType),
                 HandleInitStartText(upper, name, devName, deviceType))
  {
    SaysEach(HandleInitStart(upper, name, devName, deviceType), HandleInitStartText(upper, name, devName, deviceType));
  }

  function HandleInitEndText(upper: string, rate: nat, mode: nat): seq<string> {
    [" " + ("CFE_SRL_" + upper + "_HANDLE_INDEXER"), ",", " " + Decimal(rate), ",", " " + Decimal(mode), ")", ";",
     "\n"]
  }

  lemma HandleInitEndSays(upper: string, rate: nat, mode: nat)
    ensures Says(HandleInitEnd(upper, rate, mode), HandleInitEndText(upper, rate, mode))
  {
    SaysEach(HandleInitEnd(upper, rate, mode), HandleInitEndText(upper, rate, mode));
  }

  function GpioInitStartText(upper: string, devName: string): seq<string> {
    ["\tStatus", " =", " " + "CFE_SRL_GpioInit", "(", "&", "GPIO", "[", "CFE_SRL_" + upper + "_GPIO_INDEXER", "]",
     ",", " " + ("\"" + devName + "\""), ","]
  }

  lemma GpioInitStartSays(upper: string, devName: string)
    ensures Says(GpioInitStart(upper, devName), GpioInitStartText(upper, devName))
  {
    SaysEach(GpioInitStart(upper, devName), GpioInitStartText(upper, devName));
  }

  function GpioInitEndText(line: nat, name: string, initial: nat): seq<string> {
    [" " + Decimal(line), ",", " " + ("\"" + name + "\""), ",", " " + Decimal(initial), ")", ";", "\n"]
  }

  lemma GpioInitEndSays(line: nat, name: string, initial: nat)
    ensures Says(GpioInitEnd(line, name, initial), GpioInitEndText(line, name, initial))
  {
    SaysEach(GpioInitEnd(line, name, initial), GpioInitEndText(line, name, initial));
  }

  function BranchLineText(): seq<string> {
    ["\tif", " (", "Status", " !", "=", " " + "CFE_SUCCESS", ")", " {", "\n"]
  }

  lemma BranchLineSays()
    ensures Says(BranchLine(), BranchLineText())
  {
    SaysEach(BranchLine(), BranchLineText());
  }

  function FailureLogLineText(text: string): seq<string> {
    ["\t\t" + "CFE_ES_WriteToSysLog", "(", "\"" + text + "\"", ",", " " + "__func__", ",", " Status", ")", ";", "\n"]
  }

  lemma FailureLogLineSays(text: string)
    ensures Says(FailureLogLine(text), FailureLogLineText(text))
  {
    SaysEach(FailureLogLine(text), FailureLogLineText(text));
  }

  function FailureReturnLineText(upper: string): seq<string> {
    ["\t\treturn", " " + ("CFE_SRL_" + upper + "_INIT_ERR"), ";", "\n"]
  }

  lemma FailureReturnLineSays(upper: string)
    ensures Says(FailureReturnLine(upper), FailureReturnLineText(upper))
  {
    SaysEach(FailureReturnLine(upper), FailureReturnLineText(upper));
  }

  function CloseLineText(): seq<string> {
    ["\t}", "\n"]
  }

  lemma CloseLineSays()
    ensures Says(CloseLine(), CloseLineText())
  {
    SaysEach(CloseLine(), CloseLineText());
  }

  function SuccessLogStartText(upper: string, text: string): seq<string> {
    ["\t" + "CFE_ES_WriteToSysLog", "(", "\"" + text + "\"", ",", " " + "__func__", ",", " " + "Handles", "[",
     "CFE_SRL_" + upper + "_HANDLE_INDEXER", "]", "-", ">", "FD", ","]
  }

  lemma SuccessLogStartSays(upper: string, text: string)
    ensures Says(SuccessLogStart(upper, text), SuccessLogStartText(upper, text))
  {
    SaysEach(SuccessLogStart(upper, text), SuccessLogStartText(upper, text));
  }

  function SuccessLogEndText(upper: string): seq<string> {
    [" (", "(", "CFE_SRL_Global_Handle_t", " *", ")", "Handles", "[", "CFE_SRL_" + upper + "_HANDLE_INDEXER", "]",
     ")", "-", ">", "DevName", ")", ";", "\n", "\n"]
  }

  lemma SuccessLogEndSays(upper: string)
    ensures Says(SuccessLogEnd(upper), SuccessLogEndText(upper))
  {
    SaysEach(SuccessLogEnd(upper), SuccessLogEndText(upper));
  }

  function SourceEndText(): seq<string> {
    ["return", " " + "CFE_SUCCESS", ";", "\n", "}", "\n"]
  }

  lemma SourceEndSays()
    ensures Says(SourceEnd(), SourceEndText())
  {
    SaysEach(SourceEnd(), SourceEndText());
  }
}
