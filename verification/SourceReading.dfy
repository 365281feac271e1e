// Parsing the generated initialisation source.
module SourceReading {
  import opened Text
  import opened Lexing
  import opened Grammar
  import opened Interfaces
  import opened Emission
  import opened Reading

  // ----- the statements that the source stands for -----

  const LOG: string := "CFE_ES_WriteToSysLog"

  function HandleInitArgs(e: Interface): seq<Expr> {
    var id := HandleIndexer(Upper(e.name));
    [AddressOf("Handles", id), Str(e.name), Str(e.devName), Name(DeviceType(e.kind)), Name(id), Number(RateOf(e)),
     Number(ModeOf(e))]
  }

  function GpioInitArgs(e: Interface): seq<Expr>
    requires e.kind.Gpio? && HasKeys(e)
  {
    [AddressOf("GPIO", GpioIndexer(Upper(e.name))), Str(e.devName), Number(e.line.value), Str(e.name),
     Number(e.initial.value)]
  }

  function CallStmts(e: Interface): seq<Stmt>
    requires HasKeys(e)
  {
    if e.kind.Other? then []
    else if e.kind.Gpio? then [Do(Assign("Status", "CFE_SRL_GpioInit", GpioInitArgs(e)))]
    else [Do(Assign("Status", "CFE_SRL_HandleInit", HandleInitArgs(e)))]
  }

  function FailureLog(e: Interface): Simple {
    Invoke(LOG, [Str(FailureText(e)), Name("__func__"), Name("Status")])
  }

  function FailureReturn(e: Interface): Simple {
    Return(Name(InitError(Upper(e.name))))
  }

  function SuccessLog(e: Interface): Simple {
    var id := HandleIndexer(Upper(e.name));
    Invoke(LOG, [Str(SuccessText(e)), Name("__func__"), Member("Handles", id, "FD"),
                 CastMember("CFE_SRL_Global_Handle_t", "Handles", id, "DevName")])
  }

  function CheckStmts(e: Interface): seq<Stmt> {
    var failure := [IfNot("Status", "CFE_SUCCESS", [FailureLog(e), FailureReturn(e)])];
    if e.kind.Gpio? then failure else failure + [Do(SuccessLog(e))]
  }

  function EntryStmts(es: seq<Interface>): seq<Stmt>
    requires AllHaveKeys(es)
  {
    if es == [] then []
    else if !es[0].ready then EntryStmts(es[1..])
    else CallStmts(es[0]) + CheckStmts(es[0]) + EntryStmts(es[1..])
  }

  function PriorStmts(): seq<Stmt> {
    [Do(Declare("int32", "Status")), Do(Assign("Status", "CFE_SRL_PriorInit", [])),
     IfNot("Status", "CFE_SUCCESS", [Return(Name("Status"))]),
     Do(Invoke(LOG, [Str("%s: Prior Initialized."), Name("__func__")]))]
  }

  function SourceItems(es: seq<Interface>): seq<Item>
    requires AllHaveKeys(es)
  {
    SourceGlobals() + [Function("int32", "CFE_SRL_EarlyInit",
                                PriorStmts() + EntryStmts(es) + [Do(Return(Name("CFE_SUCCESS")))])]
  }

  function SourceGlobals(): seq<Item> {
    [Include("cfe_srl_module_all.h"), ArrayOf("CFE_SRL_IO_Handle_t", true, "Handles", "CFE_SRL_GNRL_DEVICE_NUM"),
     ArrayOf("CFE_SRL_GPIO_Handle_t", false, "GPIO", "CFE_SRL_TOT_GPIO_NUM")]
  }

  // ----- phrases inside the function -----

  /** Inside a function and outside any branch, these phrases append these statements. */
  ghost predicate Appends(ps: seq<Phrase>, stmts: seq<Stmt>) {
    forall a: Assembly {:trigger AssembleAll(a, ps)} :: a.open.InFunction? && a.open.branch.None? ==>
      AssembleAll(a, ps) == a.(open := a.open.(body := a.open.body + stmts))
  }

  lemma AppendsConcat(ps: seq<Phrase>, stmts: seq<Stmt>, qs: seq<Phrase>, more: seq<Stmt>)
    requires Appends(ps, stmts) && Appends(qs, more)
    ensures Appends(ps + qs, stmts + more)
  {
    forall a: Assembly | a.open.InFunction? && a.open.branch.None?
      ensures AssembleAll(a, ps + qs) == a.(open := a.open.(body := a.open.body + (stmts + more)))
    {
      AssembleConcat(a, ps, qs);
      assert a.open.body + stmts + more == a.open.body + (stmts + more);
    }
  }

  lemma AppendsNothing()
    ensures Appends([], [])
  {
    forall a: Assembly | a.open.InFunction? && a.open.branch.None?
      ensures AssembleAll(a, []) == a.(open := a.open.(body := a.open.body + []))
    {
      assert a.open.body + [] == a.open.body;
    }
  }

  lemma AppendsPlain(simple: Simple)
    ensures Appends([Plain(simple)], [Do(simple)])
  {
    forall a: Assembly | a.open.InFunction? && a.open.branch.None?
      ensures AssembleAll(a, [Plain(simple)]) == a.(open := a.open.(body := a.open.body + [Do(simple)]))
    {
      AssembleOne(a, Plain(simple));
    }
  }

  lemma AppendsConditional(variable: string, expected: string, simple: Simple)
    ensures Appends([Conditional(variable, expected, simple)], [IfNot(variable, expected, [simple])])
  {
    forall a: Assembly | a.open.InFunction? && a.open.branch.None?
      ensures AssembleAll(a, [Conditional(variable, expected, simple)]) ==
              a.(open := a.open.(body := a.open.body + [IfNot(variable, expected, [simple])]))
    {
      AssembleOne(a, Conditional(variable, expected, simple));
    }
  }

  /** A branch of two simple statements. */
  lemma AppendsBranch(variable: string, expected: string, s: Simple, t: Simple)
    ensures Appends([BranchOpen(variable, expected), Plain(s), Plain(t), Close], [IfNot(variable, expected, [s, t])])
  {
    var ps := [BranchOpen(variable, expected), Plain(s), Plain(t), Close];
    forall a: Assembly | a.open.InFunction? && a.open.branch.None?
      ensures AssembleAll(a, ps) == a.(open := a.open.(body := a.open.body + [IfNot(variable, expected, [s, t])]))
    {
      var b := Assemble(a, ps[0]);
      var c := Assemble(b, Plain(s));
      var d := Assemble(c, Plain(t));
      assert [] + [s] == [s] && [s] + [t] == [s, t];
      assert ps[1..] == [Plain(s), Plain(t), Close];
      assert ps[1..][1..] == [Plain(t), Close];
      assert ps[1..][1..][1..] == [Close];
      AssembleOne(d, Close);
      assert AssembleAll(c, [Plain(t), Close]) == AssembleAll(d, [Close]);
    }
  }

  // ----- the lines of one entry -----

  lemma HandleInitLegible(upper: string, name: string, devName: string, kind: Kind, rate: nat, mode: nat)
    requires AllWordChars(upper) && AllWordChars(name) && Quotable(devName) && IsGeneral(kind)
    ensures Legible(HandleInitStart(upper, name, devName, DeviceType(kind)) + HandleInitEnd(upper, rate, mode))
  {
    IdentifierWords(upper);
    WordsAreHarmless(name);
    TypeWords(kind);
    FunctionWords();
    CallWords();
    ArrayWords();
    HandleInitStartLegible(upper, name, devName, DeviceType(kind));
    HandleInitEndLegible(upper, rate, mode);
    LegibleConcat(HandleInitStart(upper, name, devName, DeviceType(kind)), HandleInitEnd(upper, rate, mode));
  }

  lemma HandleInitStartLegible(upper: string, name: string, devName: string, deviceType: string)
    requires IsWordText(HandleIndexer(upper)) && Quotable(name) && Quotable(devName) && IsWordText(deviceType)
    requires IsWordText("Status") && IsWordText("CFE_SRL_HandleInit") && IsWordText("Handles")
    ensures Legible(HandleInitStart(upper, name, devName, deviceType))
  {
  }

  lemma HandleInitEndLegible(upper: string, rate: nat, mode: nat)
    requires IsWordText(HandleIndexer(upper))
    ensures Legible(HandleInitEnd(upper, rate, mode))
  {
    ReadNumber(rate);
    ReadNumber(mode);
  }

  function SlotTokens(table: string, id: string): seq<Token> {
    [Mark('&'), Word(table), Mark('['), Word(id), Mark(']')]
  }

  /** The token runs of the seven arguments. */
  function HandleInitParts(id: string, name: string, devName: string, deviceType: string, rate: nat,
                           mode: nat): seq<seq<Token>> {
    [SlotTokens("Handles", id), [Quoted(name)], [Quoted(devName)], [Word(deviceType)], [Word(id)],
     [Word(Decimal(rate))], [Word(Decimal(mode))]]
  }

  lemma HandleInitPartsRead(e: Interface)
    requires IsGeneral(e.kind)
    ensures var parts := HandleInitParts(HandleIndexer(Upper(e.name)), e.name, e.devName, DeviceType(e.kind),
                                         RateOf(e), ModeOf(e));
            ReadArgs(Commas(parts)) == Some(HandleInitArgs(e)) && Inner(Commas(parts))
  {
    var id := HandleIndexer(Upper(e.name));
    assert id[0] == 'C';
    TypeWords(e.kind);
    SlotArg("Handles", id);
    TextArg(e.name);
    TextArg(e.devName);
    WordArg(DeviceType(e.kind));
    WordArg(id);
    NumberArg(RateOf(e));
    NumberArg(ModeOf(e));
    var parts := HandleInitParts(id, e.name, e.devName, DeviceType(e.kind), RateOf(e), ModeOf(e));
    ReadCommas(parts, HandleInitArgs(e));
    CommasInner(parts);
  }

  // ----- statements with arguments -----

  lemma AssignRead(c: seq<Token>, callee: string, args: seq<Token>, es: seq<Expr>)
    requires c == AssignHead(callee) + args + [Mark(')')] + [Mark(';')]
    requires args != [] && ReadArgs(args) == Some(es)
    ensures ReadPhrase(c) == Some(Plain(Assign("Status", callee, es)))
  {
    assert c[4..|c| - 2] == args;
    assert ReadAssign(c) == Some(Plain(Assign("Status", callee, es)));
  }

  function AssignHead(callee: string): seq<Token> {
    [Word("Status"), Mark('='), Word(callee), Mark('(')]
  }

  function InvokeHead(): seq<Token> {
    [Word(LOG), Mark('(')]
  }

  lemma InvokeRead(c: seq<Token>, args: seq<Token>, es: seq<Expr>)
    requires c == InvokeHead() + args + [Mark(')')] + [Mark(';')]
    requires args != [] && ReadArgs(args) == Some(es)
    ensures ReadPhrase(c) == Some(Plain(Invoke(LOG, es)))
  {
    assert c[2..|c| - 2] == args && c[|c| - 2] == Mark(')');
    assert LOG != "if" by { assert LOG[0] == 'C'; }
    assert ReadInvoke(c) == Some(Plain(Invoke(LOG, es)));
  }

  /** A statement made of a head, arguments and the closing tokens. */
  lemma CallYields(xs: seq<Lexeme>, head: seq<Token>, args: seq<Token>, tail: seq<Token>, p: Phrase)
    requires Legible(xs) && TokensOf(xs) == head + args + [Mark(')')] + [Mark(';')] + tail
    requires head != [] && !IsDirective(head) && Inner(head) && Inner(args) && Quiet(tail)
    requires ReadPhrase(head + args + [Mark(')')] + [Mark(';')]) == Some(p)
    ensures Yields(xs, [p])
  {
    InnerConcat(head, args);
    InnerConcat(head + args, [Mark(')')]);
    ChunkOf(head + args + [Mark(')')], Mark(';'));
    var c := head + args + [Mark(')')] + [Mark(';')];
    assert TokensOf(xs) == [] + c + tail;
    StatementYields(xs, [], c, tail, p);
  }

  lemma HandleInitLineTokens(upper: string, name: string, devName: string, deviceType: string, rate: nat, mode: nat)
    ensures TokensOf(HandleInitStart(upper, name, devName, deviceType) + HandleInitEnd(upper, rate, mode)) ==
            AssignHead("CFE_SRL_HandleInit") + Commas(HandleInitParts(HandleIndexer(upper), name, devName, deviceType,
                                                                      rate, mode)) +
            [Mark(')')] + [Mark(';')] + [Line]
  {
    CommasSeven(SlotTokens("Handles", HandleIndexer(upper)), [Quoted(name)], [Quoted(devName)], [Word(deviceType)],
                [Word(HandleIndexer(upper))], [Word(Decimal(rate))], [Word(Decimal(mode))]);
  }

  lemma HandleInitYields(e: Interface)
    requires Printable(e) && IsGeneral(e.kind)
    ensures Yields(HandleInitLine(e), [Plain(Assign("Status", "CFE_SRL_HandleInit", HandleInitArgs(e)))])
  {
    UpperKeepsWords(e.name);
    HandleInitLegible(Upper(e.name), e.name, e.devName, e.kind, RateOf(e), ModeOf(e));
    HandleInitPartsRead(e);
    HandleInitLineTokens(Upper(e.name), e.name, e.devName, DeviceType(e.kind), RateOf(e), ModeOf(e));
    AssignYields(HandleInitLine(e), "CFE_SRL_HandleInit",
                 Commas(HandleInitParts(HandleIndexer(Upper(e.name)), e.name, e.devName, DeviceType(e.kind),
                                        RateOf(e), ModeOf(e))),
                 HandleInitArgs(e));
  }

  lemma AssignYields(xs: seq<Lexeme>, callee: string, args: seq<Token>, es: seq<Expr>)
    requires Legible(xs) && TokensOf(xs) == AssignHead(callee) + args + [Mark(')')] + [Mark(';')] + [Line]
    requires Inner(args) && args != [] && ReadArgs(args) == Some(es)
    ensures Yields(xs, [Plain(Assign("Status", callee, es))])
  {
    AssignRead(AssignHead(callee) + args + [Mark(')')] + [Mark(';')], callee, args, es);
    CallYields(xs, AssignHead(callee), args, [Line], Plain(Assign("Status", callee, es)));
  }

  lemma InvokeYields(xs: seq<Lexeme>, args: seq<Token>, es: seq<Expr>, tail: seq<Token>)
    requires Legible(xs) && TokensOf(xs) == InvokeHead() + args + [Mark(')')] + [Mark(';')] + tail
    requires Inner(args) && args != [] && ReadArgs(args) == Some(es) && Quiet(tail)
    ensures Yields(xs, [Plain(Invoke(LOG, es))])
  {
    InvokeRead(InvokeHead() + args + [Mark(')')] + [Mark(';')], args, es);
    CallYields(xs, InvokeHead(), args, tail, Plain(Invoke(LOG, es)));
  }

  function GpioInitParts(id: string, devName: string, line: nat, name: string, initial: nat): seq<seq<Token>> {
    [SlotTokens("GPIO", id), [Quoted(devName)], [Word(Decimal(line))], [Quoted(name)], [Word(Decimal(initial))]]
  }

  lemma GpioInitPartsRead(id: string, devName: string, line: nat, name: string, initial: nat)
    ensures var parts := GpioInitParts(id, devName, line, name, initial);
            && ReadArgs(Commas(parts)) == Some([AddressOf("GPIO", id), Str(devName), Number(line), Str(name),
                                                Number(initial)])
            && Inner(Commas(parts))
  {
    SlotArg("GPIO", id);
    TextArg(devName);
    NumberArg(line);
    TextArg(name);
    NumberArg(initial);
    var parts := GpioInitParts(id, devName, line, name, initial);
    ReadCommas(parts, [AddressOf("GPIO", id), Str(devName), Number(line), Str(name), Number(initial)]);
    CommasInner(parts);
  }

  lemma GpioInitStartLegible(upper: string, devName: string)
    requires IsWordText(GpioIndexer(upper)) && Quotable(devName)
    requires IsWordText("Status") && IsWordText("CFE_SRL_GpioInit") && IsWordText("GPIO")
    ensures Legible(GpioInitStart(upper, devName))
  {
  }

  lemma GpioInitEndLegible(line: nat, name: string, initial: nat)
    requires Quotable(name)
    ensures Legible(GpioInitEnd(line, name, initial))
  {
    ReadNumber(line);
    ReadNumber(initial);
  }

  lemma GpioInitLineTokens(upper: string, devName: string, line: nat, name: string, initial: nat)
    ensures TokensOf(GpioInitStart(upper, devName) + GpioInitEnd(line, name, initial)) ==
            AssignHead("CFE_SRL_GpioInit") + Commas(GpioInitParts(GpioIndexer(upper), devName, line, name, initial)) +
            [Mark(')')] + [Mark(';')] + [Line]
  {
    CommasFive(SlotTokens("GPIO", GpioIndexer(upper)), [Quoted(devName)], [Word(Decimal(line))], [Quoted(name)],
               [Word(Decimal(initial))]);
  }

  lemma GpioInitLegible(e: Interface)
    requires Printable(e) && e.kind.Gpio? && HasKeys(e)
    ensures Legible(GpioInitLine(e))
  {
    UpperKeepsWords(e.name);
    IdentifierWords(Upper(e.name));
    WordsAreHarmless(e.name);
    FunctionWords();
    CallWords();
    ArrayWords();
    GpioInitStartLegible(Upper(e.name), e.devName);
    GpioInitEndLegible(e.line.value, e.name, e.initial.value);
    LegibleConcat(GpioInitStart(Upper(e.name), e.devName), GpioInitEnd(e.line.value, e.name, e.initial.value));
  }

  lemma GpioInitYields(e: Interface)
    requires Printable(e) && e.kind.Gpio? && HasKeys(e)
    ensures Yields(GpioInitLine(e), [Plain(Assign("Status", "CFE_SRL_GpioInit", GpioInitArgs(e)))])
  {
    var id := GpioIndexer(Upper(e.name));
    GpioInitLegible(e);
    GpioInitPartsRead(id, e.devName, e.line.value, e.name, e.initial.value);
    GpioInitLineTokens(Upper(e.name), e.devName, e.line.value, e.name, e.initial.value);
    AssignYields(GpioInitLine(e), "CFE_SRL_GpioInit",
                 Commas(GpioInitParts(id, e.devName, e.line.value, e.name, e.initial.value)),
                 GpioInitArgs(e));
  }

  // ----- the check after a call -----

  lemma BranchYields()
    ensures Yields(BranchLine(), [BranchOpen("Status", "CFE_SUCCESS")])
  {
    FunctionWords();
    BranchTokensRead();
    assert TokensOf(BranchLine()) == [] + BranchTokens() + [Line];
    StatementYields(BranchLine(), [], BranchTokens(), [Line], BranchOpen("Status", "CFE_SUCCESS"));
  }

  function BranchTokens(): seq<Token> {
    [Word("if"), Mark('('), Word("Status"), Mark('!'), Mark('='), Word("CFE_SUCCESS"), Mark(')'), Mark('{')]
  }

  lemma BranchTokensRead()
    ensures IsChunk(BranchTokens()) && ReadPhrase(BranchTokens()) == Some(BranchOpen("Status", "CFE_SUCCESS"))
  {
  }

  lemma CloseYields()
    ensures Yields(CloseLine(), [Close])
  {
    assert TokensOf(CloseLine()) == [] + [Mark('}')] + [Line];
    StatementYields(CloseLine(), [], [Mark('}')], [Line], Close);
  }

  lemma FailureReturnYields(e: Interface)
    requires Printable(e)
    ensures Yields(FailureReturnLine(Upper(e.name)), [Plain(FailureReturn(e))])
  {
    FunctionWords();
    UpperKeepsWords(e.name);
    IdentifierWords(Upper(e.name));
    var id := InitError(Upper(e.name));
    ReadIdentifier(id);
    var c := [Word("return"), Word(id), Mark(';')];
    assert TokensOf(FailureReturnLine(Upper(e.name))) == [] + c + [Line];
    StatementYields(FailureReturnLine(Upper(e.name)), [], c, [Line], Plain(FailureReturn(e)));
  }

  lemma FailureTextQuotable(e: Interface)
    requires Printable(e)
    ensures Quotable(FailureText(e))
  {
    WordsAreHarmless(e.name);
    if e.kind.Gpio? {
      FailureQuotable("%s: GPIO ", e.name);
    } else {
      FailureQuotable("%s: ", e.name);
    }
  }

  lemma FailureQuotable(start: string, name: string)
    requires Quotable(start) && Quotable(name)
    ensures Quotable(start + name + " Initialization failed! RC=%d\\n")
  {
    var end := " Initialization failed! RC=%d\\n";
    assert Quotable(end);
    QuotableConcat(start, name);
    QuotableConcat(start + name, end);
  }

  lemma SuccessTextQuotable(e: Interface)
    requires Printable(e)
    ensures Quotable(SuccessText(e))
  {
    WordsAreHarmless(e.name);
    assert Quotable("%s: ") && Quotable(" Initialized. FD=%d") && Quotable(" || DevName=%s\\n");
    QuotableConcat("%s: ", e.name);
    QuotableConcat("%s: " + e.name, " Initialized. FD=%d");
    QuotableConcat("%s: " + e.name + " Initialized. FD=%d", " || DevName=%s\\n");
  }

  function FailureLogParts(text: string): seq<seq<Token>> {
    [[Quoted(text)], [Word("__func__")], [Word("Status")]]
  }

  lemma FailureLogPartsRead(text: string)
    ensures var parts := FailureLogParts(text);
            ReadArgs(Commas(parts)) == Some([Str(text), Name("__func__"), Name("Status")]) && Inner(Commas(parts))
  {
    TextArg(text);
    WordArg("__func__");
    WordArg("Status");
    ReadCommas(FailureLogParts(text), [Str(text), Name("__func__"), Name("Status")]);
    CommasInner(FailureLogParts(text));
  }

  lemma FailureLogLegible(text: string)
    requires Quotable(text)
    requires IsWordText("Status") && IsWordText("CFE_ES_WriteToSysLog") && IsWordText("__func__")
    ensures Legible(FailureLogLine(text))
  {
  }

  lemma FailureLogLineTokens(text: string)
    ensures TokensOf(FailureLogLine(text)) == InvokeHead() + Commas(FailureLogParts(text)) + [Mark(')')] +
            [Mark(';')] + [Line]
  {
    CommasThree([Quoted(text)], [Word("__func__")], [Word("Status")]);
  }

  lemma FailureLogYields(e: Interface)
    requires Printable(e)
    ensures Yields(FailureLogLine(FailureText(e)), [Plain(FailureLog(e))])
  {
    FailureTextQuotable(e);
    FunctionWords();
    CallWords();
    FailureLogLegible(FailureText(e));
    FailureLogPartsRead(FailureText(e));
    FailureLogLineTokens(FailureText(e));
    InvokeYields(FailureLogLine(FailureText(e)), Commas(FailureLogParts(FailureText(e))),
                 [Str(FailureText(e)), Name("__func__"), Name("Status")], [Line]);
  }

  function MemberTokens(id: string): seq<Token> {
    [Word("Handles"), Mark('['), Word(id), Mark(']'), Mark('-'), Mark('>'), Word("FD")]
  }

  function CastTokens(id: string): seq<Token> {
    [Mark('('), Mark('('), Word("CFE_SRL_Global_Handle_t"), Mark('*'), Mark(')'), Word("Handles"), Mark('['),
     Word(id), Mark(']'),
     Mark(')'), Mark('-'), Mark('>'), Word("DevName")]
  }

  function SuccessLogParts(id: string, text: string): seq<seq<Token>> {
    [[Quoted(text)], [Word("__func__")], MemberTokens(id), CastTokens(id)]
  }

  function SuccessLogArgs(id: string, text: string): seq<Expr> {
    [Str(text), Name("__func__"), Member("Handles", id, "FD"),
     CastMember("CFE_SRL_Global_Handle_t", "Handles", id, "DevName")]
  }

  lemma SuccessLogPartsRead(id: string, text: string)
    ensures var parts := SuccessLogParts(id, text);
            ReadArgs(Commas(parts)) == Some(SuccessLogArgs(id, text)) && Inner(Commas(parts))
  {
    TextArg(text);
    WordArg("__func__");
    MemberArg("Handles", id, "FD");
    CastArg("CFE_SRL_Global_Handle_t", "Handles", id, "DevName");
    ReadCommas(SuccessLogParts(id, text), SuccessLogArgs(id, text));
    CommasInner(SuccessLogParts(id, text));
  }

  lemma SuccessLogStartLegible(upper: string, text: string)
    requires IsWordText(HandleIndexer(upper)) && Quotable(text)
    requires IsWordText("CFE_ES_WriteToSysLog") && IsWordText("__func__") && IsWordText("Handles") && IsWordText("FD")
    ensures Legible(SuccessLogStart(upper, text))
  {
  }

  lemma SuccessLogEndLegible(upper: string)
    requires IsWordText(HandleIndexer(upper))
    requires IsWordText("CFE_SRL_Global_Handle_t") && IsWordText("Handles") && IsWordText("DevName")
    ensures Legible(SuccessLogEnd(upper))
  {
  }

  lemma SuccessLogLineTokens(upper: string, text: string)
    ensures TokensOf(SuccessLogStart(upper, text) + SuccessLogEnd(upper)) ==
            InvokeHead() + Commas(SuccessLogParts(HandleIndexer(upper), text)) + [Mark(')')] + [Mark(';')] +
              [Line, Line]
  {
    var id := HandleIndexer(upper);
    var member, cast := MemberTokens(id), CastTokens(id);
    CommasFour([Quoted(text)], [Word("__func__")], member, cast);
    var front := [Quoted(text), Mark(','), Word("__func__"), Mark(',')] + member + [Mark(',')];
    SuccessLogStartTokens(upper, text);
    SuccessLogEndTokens(upper);
    TokensConcat(SuccessLogStart(upper, text), SuccessLogEnd(upper));
    assert Commas(SuccessLogParts(id, text)) == front + cast;
    JoinLine(InvokeHead(), front, cast, [Mark(')')], [Mark(';')], [Line, Line]);
  }

  lemma SuccessLogStartTokens(upper: string, text: string)
    ensures TokensOf(SuccessLogStart(upper, text)) ==
            InvokeHead() + ([Quoted(text), Mark(','), Word("__func__"), Mark(',')] +
                            MemberTokens(HandleIndexer(upper)) + [Mark(',')])
  {
  }

  lemma SuccessLogEndTokens(upper: string)
    ensures TokensOf(SuccessLogEnd(upper)) == CastTokens(HandleIndexer(upper)) + [Mark(')')] + [Mark(';')] +
            [Line, Line]
  {
  }

  lemma JoinLine(head: seq<Token>, front: seq<Token>, back: seq<Token>, a: seq<Token>, b: seq<Token>, c: seq<Token>)
    ensures (head + front) + (back + a + b + c) == head + (front + back) + a + b + c
  {
  }

  lemma SuccessLogYields(e: Interface)
    requires Printable(e)
    ensures Yields(SuccessLogStart(Upper(e.name), SuccessText(e)) + SuccessLogEnd(Upper(e.name)),
                   [Plain(SuccessLog(e))])
  {
    var upper, text := Upper(e.name), SuccessText(e);
    UpperKeepsWords(e.name);
    IdentifierWords(upper);
    SuccessTextQuotable(e);
    CallWords();
    ArrayWords();
    SuccessLogStartLegible(upper, text);
    SuccessLogEndLegible(upper);
    LegibleConcat(SuccessLogStart(upper, text), SuccessLogEnd(upper));
    SuccessLogPartsRead(HandleIndexer(upper), text);
    SuccessLogLineTokens(upper, text);
    InvokeYields(SuccessLogStart(upper, text) + SuccessLogEnd(upper),
                 Commas(SuccessLogParts(HandleIndexer(upper), text)),
                 SuccessLogArgs(HandleIndexer(upper), text), [Line, Line]);
  }
}
