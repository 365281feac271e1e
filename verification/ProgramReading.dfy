// Parsing the initialisation source as a whole.
module ProgramReading {
  import opened Text
  import opened Lexing
  import opened Grammar
  import opened Interfaces
  import opened Emission
  import opened Reading
  import opened HeaderReading
  import opened SourceReading

  // ----- entries -----

  function CallPhrases(e: Interface): seq<Phrase>
    requires HasKeys(e)
  {
    if e.kind.Other? then []
    else if e.kind.Gpio? then [Plain(Assign("Status", "CFE_SRL_GpioInit", GpioInitArgs(e)))]
    else [Plain(Assign("Status", "CFE_SRL_HandleInit", HandleInitArgs(e)))]
  }

  function FailurePhrases(e: Interface): seq<Phrase> {
    [BranchOpen("Status", "CFE_SUCCESS"), Plain(FailureLog(e)), Plain(FailureReturn(e)), Close]
  }

  function CheckPhrases(e: Interface): seq<Phrase> {
    if e.kind.Gpio? then FailurePhrases(e) else FailurePhrases(e) + [Plain(SuccessLog(e))]
  }

  function EntryPhrases(es: seq<Interface>): seq<Phrase>
    requires AllHaveKeys(es)
  {
    if es == [] then []
    else if !es[0].ready then EntryPhrases(es[1..])
    else CallPhrases(es[0]) + CheckPhrases(es[0]) + EntryPhrases(es[1..])
  }

  lemma EntryRemarksYield(e: Interface)
    requires Printable(e)
    ensures Yields(InitRemark(e.name), []) && Yields(GpioRemark(e.name), [])
  {
    WordsAreHarmless(e.name);
    assert Calm(" ") && Calm(" GPIO ") && Calm(" Init ");
    CalmConcat(" ", e.name);
    CalmConcat(" " + e.name, " Init ");
    CalmConcat(" GPIO ", e.name);
    CalmConcat(" GPIO " + e.name, " Init ");
    RemarkYields(Tab, " " + e.name + " Init ");
    RemarkYields(Tab, " GPIO " + e.name + " Init ");
  }

  lemma CallLinesYield(e: Interface)
    requires Printable(e) && HasKeys(e)
    ensures Yields(CallLines(e), CallPhrases(e))
  {
    EntryRemarksYield(e);
    if e.kind.Other? {
      QuietYields([]);
    } else if e.kind.Gpio? {
      GpioInitYields(e);
      YieldsJoin(GpioRemark(e.name), [], GpioInitLine(e), CallPhrases(e), CallPhrases(e));
    } else {
      HandleInitYields(e);
      YieldsJoin(InitRemark(e.name), [], HandleInitLine(e), CallPhrases(e), CallPhrases(e));
    }
  }

  function FailureLines(e: Interface): seq<Lexeme> {
    BranchLine() + FailureLogLine(FailureText(e)) + FailureReturnLine(Upper(e.name)) + CloseLine()
  }

  lemma FailureLinesYield(e: Interface)
    requires Printable(e)
    ensures Yields(FailureLines(e), FailurePhrases(e))
  {
    var a, b, c, d := BranchOpen("Status", "CFE_SUCCESS"), Plain(FailureLog(e)), Plain(FailureReturn(e)), Close;
    BranchYields();
    FailureLogYields(e);
    FailureReturnYields(e);
    CloseYields();
    JoinFour(BranchLine(), a, FailureLogLine(FailureText(e)), b, FailureReturnLine(Upper(e.name)), c, CloseLine(), d);
  }

  lemma JoinFour(w: seq<Lexeme>, a: Phrase, x: seq<Lexeme>, b: Phrase, y: seq<Lexeme>, c: Phrase, z: seq<Lexeme>,
                 d: Phrase)
    requires Yields(w, [a]) && Yields(x, [b]) && Yields(y, [c]) && Yields(z, [d])
    ensures Yields(w + x + y + z, [a, b, c, d])
  {
    YieldsJoin(w, [a], x, [b], [a, b]);
    YieldsJoin(w + x, [a, b], y, [c], [a, b, c]);
    YieldsJoin(w + x + y, [a, b, c], z, [d], [a, b, c, d]);
  }

  lemma CheckLinesYield(e: Interface)
    requires Printable(e)
    ensures Yields(CheckLines(e), CheckPhrases(e))
  {
    FailureLinesYield(e);
    if e.kind.Gpio? {
      BlankYields();
      YieldsJoin(FailureLines(e), FailurePhrases(e), Blank(), [], CheckPhrases(e));
    } else {
      SuccessLogYields(e);
      YieldsConcat(FailureLines(e), FailurePhrases(e),
                   SuccessLogStart(Upper(e.name), SuccessText(e)) + SuccessLogEnd(Upper(e.name)),
                     [Plain(SuccessLog(e))]);
    }
  }

  lemma {:induction false} EntryLinesYield(es: seq<Interface>)
    requires AllPrintable(es) && AllHaveKeys(es)
    ensures Yields(EntryLines(es), EntryPhrases(es))
  {
    if es == [] {
      QuietYields([]);
    } else {
      EntryLinesYield(es[1..]);
      if es[0].ready {
        CallLinesYield(es[0]);
        CheckLinesYield(es[0]);
        YieldsConcat(CallLines(es[0]), CallPhrases(es[0]), CheckLines(es[0]), CheckPhrases(es[0]));
        YieldsConcat(CallLines(es[0]) + CheckLines(es[0]), CallPhrases(es[0]) + CheckPhrases(es[0]),
                     EntryLines(es[1..]), EntryPhrases(es[1..]));
      }
    }
  }

  lemma CallAppends(e: Interface)
    requires HasKeys(e)
    ensures Appends(CallPhrases(e), CallStmts(e))
  {
    if e.kind.Other? {
      AppendsNothing();
    } else if e.kind.Gpio? {
      AppendsPlain(Assign("Status", "CFE_SRL_GpioInit", GpioInitArgs(e)));
    } else {
      AppendsPlain(Assign("Status", "CFE_SRL_HandleInit", HandleInitArgs(e)));
    }
  }

  lemma CheckAppends(e: Interface)
    ensures Appends(CheckPhrases(e), CheckStmts(e))
  {
    AppendsBranch("Status", "CFE_SUCCESS", FailureLog(e), FailureReturn(e));
    if !e.kind.Gpio? {
      AppendsPlain(SuccessLog(e));
      AppendsConcat(FailurePhrases(e), [IfNot("Status", "CFE_SUCCESS", [FailureLog(e), FailureReturn(e)])],
                    [Plain(SuccessLog(e))], [Do(SuccessLog(e))]);
    }
  }

  lemma {:induction false} EntriesAppend(es: seq<Interface>)
    requires AllHaveKeys(es)
    ensures Appends(EntryPhrases(es), EntryStmts(es))
  {
    if es == [] {
      AppendsNothing();
    } else {
      EntriesAppend(es[1..]);
      if es[0].ready {
        CallAppends(es[0]);
        CheckAppends(es[0]);
        AppendsConcat(CallPhrases(es[0]), CallStmts(es[0]), CheckPhrases(es[0]), CheckStmts(es[0]));
        AppendsConcat(CallPhrases(es[0]) + CheckPhrases(es[0]), CallStmts(es[0]) + CheckStmts(es[0]),
                      EntryPhrases(es[1..]), EntryStmts(es[1..]));
      }
    }
  }

  // ----- the fixed part -----

  lemma StarsCalm(n: nat)
    ensures Calm(Stars(n))
  {
  }

  lemma IndexRowCalm(index: nat, name: string)
    requires AllWordChars(name)
    ensures Calm(IndexRow(index, name))
  {
    WordsAreHarmless(name);
    WordsAreHarmless(Decimal(index));
    assert Calm(" * ") && Calm(" : ") && Calm(" Handle\n");
    CalmConcat(" * ", Decimal(index));
    CalmConcat(" * " + Decimal(index), " : ");
    CalmConcat(" * " + Decimal(index) + " : ", name);
    CalmConcat(" * " + Decimal(index) + " : " + name, " Handle\n");
  }

  lemma {:induction false} IndexRowsCalm(names: seq<string>, index: nat)
    requires AllWords(names)
    ensures Calm(IndexRows(names, index))
    decreases |names|
  {
    if names != [] {
      IndexRowCalm(index, names[0]);
      IndexRowsCalm(names[1..], index + 1);
      CalmConcat(IndexRow(index, names[0]), IndexRows(names[1..], index + 1));
    }
  }

  lemma PaddingRowCalm(names: seq<string>)
    ensures Calm(PaddingRow(names))
  {
    assert Calm(" * 0 : Not initializaed ") && Calm("padding Handle\n") && Calm("");
    CalmConcat(" * 0 : Not initializaed ", "padding Handle\n");
  }

  lemma IndexTableCalm(names: seq<string>)
    requires AllWords(names)
    ensures Calm(IndexTable(names))
  {
    StarsCalm(49);
    assert Calm("\n * Index of Each device\n") && Calm(" ");
    CalmConcat(Stars(49), "\n * Index of Each device\n");
    IndexRowsCalm(names, 0);
    PaddingRowCalm(names);
    var title := Stars(49) + "\n * Index of Each device\n";
    CalmConcat(title, IndexRows(names, 0));
    CalmConcat(title + IndexRows(names, 0), PaddingRow(names));
    CalmConcat(title + IndexRows(names, 0) + PaddingRow(names), " ");
    CalmConcat(title + IndexRows(names, 0) + PaddingRow(names) + " ", Stars(49));
  }

  lemma HeadingCalm()
    ensures Calm(Heading())
  {
    StarsCalm(49);
    var a, b, c, d := "\n\t * Serial Comm. Init\n ", "\t * Only `ready == true` ", "interface is initialized\n", "\t ";
    assert Calm(a) && Calm(b) && Calm(c) && Calm(d);
    CalmConcat(Stars(49), a);
    CalmConcat(Stars(49) + a, b);
    CalmConcat(Stars(49) + a + b, c);
    CalmConcat(Stars(49) + a + b + c, d);
    CalmConcat(Stars(49) + a + b + c + d, Stars(49));
  }

  lemma BannerCalm()
    ensures Calm(Banner())
  {
    StarsCalm(71);
    var top := Stars(71) + "\n" + " * Early Initialization " + "function executed at cFE ES\n";
    BannerTopCalm();
    BannerMiddleCalm(top);
    var middle := top + " * Append object to " + "`cfe_es_objtab.c`\n" + " * Declaration is located at\n";
    BannerEndCalm(middle);
  }

  lemma BannerTopCalm()
    ensures Calm(Stars(71) + "\n" + " * Early Initialization " + "function executed at cFE ES\n")
  {
    StarsCalm(71);
    assert Calm("\n") && Calm(" * Early Initialization ") && Calm("function executed at cFE ES\n");
    CalmConcat(Stars(71), "\n");
    CalmConcat(Stars(71) + "\n", " * Early Initialization ");
    CalmConcat(Stars(71) + "\n" + " * Early Initialization ", "function executed at cFE ES\n");
  }

  lemma BannerMiddleCalm(top: string)
    requires Calm(top)
    ensures Calm(top + " * Append object to " + "`cfe_es_objtab.c`\n" + " * Declaration is located at\n")
  {
    assert Calm(" * Append object to ") && Calm("`cfe_es_objtab.c`\n") && Calm(" * Declaration is located at\n");
    CalmConcat(top, " * Append object to ");
    CalmConcat(top + " * Append object to ", "`cfe_es_objtab.c`\n");
    CalmConcat(top + " * Append object to " + "`cfe_es_objtab.c`\n", " * Declaration is located at\n");
  }

  lemma BannerEndCalm(middle: string)
    requires Calm(middle)
    ensures Calm(middle + " * `cfe/modules/core_private/" + "fsw/inc/cfe_srl_core_internal.h`\n" + " " + Stars(71))
  {
    StarsCalm(71);
    assert Calm(" * `cfe/modules/core_private/") && Calm("fsw/inc/cfe_srl_core_internal.h`\n") && Calm(" ");
    CalmConcat(middle, " * `cfe/modules/core_private/");
    CalmConcat(middle + " * `cfe/modules/core_private/", "fsw/inc/cfe_srl_core_internal.h`\n");
    CalmConcat(middle + " * `cfe/modules/core_private/" + "fsw/inc/cfe_srl_core_internal.h`\n", " ");
    CalmConcat(middle + " * `cfe/modules/core_private/" + "fsw/inc/cfe_srl_core_internal.h`\n" + " ", Stars(71));
  }

  lemma SourcePreambleYields()
    ensures Yields(SourcePreamble(), [Whole(Include("cfe_srl_module_all.h"))])
  {
    var p := [Whole(Include("cfe_srl_module_all.h"))];
    assert Calm("*\n * Required header files\n") && Calm("*\n * Global data\n");
    NoticeYields();
    RemarkYields(Joined, "*\n * Required header files\n");
    IncludeYields("cfe_srl_module_all.h");
    BlankYields();
    RemarkYields(Joined, "*\n * Global data\n");
    JoinAround(Notice(), Remark(Joined, "*\n * Required header files\n"), IncludeLine("cfe_srl_module_all.h"), p,
               Blank(),
               Remark(Joined, "*\n * Global data\n"));
  }

  lemma JoinAround(a: seq<Lexeme>, b: seq<Lexeme>, c: seq<Lexeme>, p: seq<Phrase>, d: seq<Lexeme>, e: seq<Lexeme>)
    requires Yields(a, []) && Yields(b, []) && Yields(c, p) && Yields(d, []) && Yields(e, [])
    ensures Yields(a + b + c + d + e, p)
  {
    YieldsJoin(a, [], b, [], []);
    YieldsJoin(a + b, [], c, p, p);
    YieldsJoin(a + b + c, p, d, [], p);
    YieldsJoin(a + b + c + d, p, e, [], p);
  }

  const HANDLES: Item := ArrayOf("CFE_SRL_IO_Handle_t", true, "Handles", "CFE_SRL_GNRL_DEVICE_NUM")
  const PINS: Item := ArrayOf("CFE_SRL_GPIO_Handle_t", false, "GPIO", "CFE_SRL_TOT_GPIO_NUM")

  lemma PointerArrayRead(element: string, name: string, size: string)
    ensures var c := [Word(element), Mark('*'), Word(name), Mark('['), Word(size), Mark(']'), Mark(';')];
            IsChunk(c) && ReadPhrase(c) == Some(Whole(ArrayOf(element, true, name, size)))
  {
  }

  lemma ArrayRead(element: string, name: string, size: string)
    ensures var c := [Word(element), Word(name), Mark('['), Word(size), Mark(']'), Mark(';')];
            IsChunk(c) && ReadPhrase(c) == Some(Whole(ArrayOf(element, false, name, size)))
  {
  }

  lemma HandlesLineLegible()
    ensures Legible(HandlesLine())
  {
    assert IsWordText("CFE_SRL_IO_Handle_t") && IsWordText("Handles") by { ArrayWords(); }
    assert IsWordText("CFE_SRL_GNRL_DEVICE_NUM") by { MissionWords(); }
  }

  lemma HandlesLineYields()
    ensures Yields(HandlesLine(), [Whole(HANDLES)])
  {
    var c := [Word("CFE_SRL_IO_Handle_t"), Mark('*'), Word("Handles"), Mark('['), Word("CFE_SRL_GNRL_DEVICE_NUM"),
              Mark(']'), Mark(';')];
    HandlesLineLegible();
    PointerArrayRead("CFE_SRL_IO_Handle_t", "Handles", "CFE_SRL_GNRL_DEVICE_NUM");
    assert TokensOf(HandlesLine()) == [] + c + [Line];
    StatementYields(HandlesLine(), [], c, [Line], Whole(HANDLES));
  }

  lemma GpioArrayLineLegible()
    ensures Legible(GpioArrayLine())
  {
    assert IsWordText("CFE_SRL_GPIO_Handle_t") && IsWordText("GPIO") by { ArrayWords(); }
    assert IsWordText("CFE_SRL_TOT_GPIO_NUM") by { MissionWords(); }
  }

  lemma GpioArrayLineYields()
    ensures Yields(GpioArrayLine(), [Whole(PINS)])
  {
    var c := [Word("CFE_SRL_GPIO_Handle_t"), Word("GPIO"), Mark('['), Word("CFE_SRL_TOT_GPIO_NUM"), Mark(']'),
              Mark(';')];
    GpioArrayLineLegible();
    ArrayRead("CFE_SRL_GPIO_Handle_t", "GPIO", "CFE_SRL_TOT_GPIO_NUM");
    assert TokensOf(GpioArrayLine()) == [] + c + [Line, Line, Line];
    StatementYields(GpioArrayLine(), [], c, [Line, Line, Line], Whole(PINS));
  }

  lemma FunctionLineYields()
    ensures Yields(FunctionLine(), [FunctionOpen("int32", "CFE_SRL_EarlyInit")])
  {
    FunctionWords();
    assert IsWordText("void") by { DirectiveWords(); }
    FunctionTokensRead();
    assert TokensOf(FunctionLine()) == [] + FunctionTokens() + [Line];
    StatementYields(FunctionLine(), [], FunctionTokens(), [Line], FunctionOpen("int32", "CFE_SRL_EarlyInit"));
  }

  function FunctionTokens(): seq<Token> {
    [Word("int32"), Word("CFE_SRL_EarlyInit"), Mark('('), Word("void"), Mark(')'), Mark('{')]
  }

  lemma FunctionTokensRead()
    ensures IsChunk(FunctionTokens())
    ensures ReadPhrase(FunctionTokens()) == Some(FunctionOpen("int32", "CFE_SRL_EarlyInit"))
  {
  }

  lemma StatusLineYields()
    ensures Yields(StatusLine(), [Plain(Declare("int32", "Status"))])
  {
    FunctionWords();
    var c := [Word("int32"), Word("Status"), Mark(';')];
    assert TokensOf(StatusLine()) == [] + c + [Line, Line];
    StatementYields(StatusLine(), [], c, [Line, Line], Plain(Declare("int32", "Status")));
  }

  lemma EmptyCallRead(variable: string, callee: string)
    ensures var c := [Word(variable), Mark('='), Word(callee), Mark('('), Mark(')'), Mark(';')];
            IsChunk(c) && ReadPhrase(c) == Some(Plain(Assign(variable, callee, [])))
  {
    var c := [Word(variable), Mark('='), Word(callee), Mark('('), Mark(')'), Mark(';')];
    assert ReadAssign(c) == Some(Plain(Assign(variable, callee, [])));
  }

  lemma PriorLineYields()
    ensures Yields(PriorLine(), [Plain(Assign("Status", "CFE_SRL_PriorInit", []))])
  {
    FunctionWords();
    var c := [Word("Status"), Mark('='), Word("CFE_SRL_PriorInit"), Mark('('), Mark(')'), Mark(';')];
    EmptyCallRead("Status", "CFE_SRL_PriorInit");
    assert TokensOf(PriorLine()) == [] + c + [Line];
    StatementYields(PriorLine(), [], c, [Line], Plain(Assign("Status", "CFE_SRL_PriorInit", [])));
  }

  lemma TestReturnRead(variable: string, expected: string, value: string)
    requires value != "" && !('0' <= value[0] <= '9')
    ensures var c := [Word("if"), Mark('('), Word(variable), Mark('!'), Mark('='), Word(expected), Mark(')'),
                      Word("return"), Word(value), Mark(';')];
            IsChunk(c) && ReadPhrase(c) == Some(Conditional(variable, expected, Return(Name(value))))
  {
    ReadIdentifier(value);
    var c := [Word("if"), Mark('('), Word(variable), Mark('!'), Mark('='), Word(expected), Mark(')'), Word("return"),
              Word(value), Mark(';')];
    assert ReadConditional(c) == Some(Conditional(variable, expected, Return(Name(value))));
  }

  lemma PriorCheckLineLegible()
    ensures Legible(PriorCheckLine())
  {
    FunctionWords();
  }

  lemma PriorCheckLineYields()
    ensures Yields(PriorCheckLine(), [Conditional("Status", "CFE_SUCCESS", Return(Name("Status")))])
  {
    PriorCheckLineLegible();
    TestReturnRead("Status", "CFE_SUCCESS", "Status");
    var c := [Word("if"), Mark('('), Word("Status"), Mark('!'), Mark('='), Word("CFE_SUCCESS"), Mark(')'),
              Word("return"), Word("Status"), Mark(';')];
    assert TokensOf(PriorCheckLine()) == [] + c + [Line];
    StatementYields(PriorCheckLine(), [], c, [Line], Conditional("Status", "CFE_SUCCESS", Return(Name("Status"))));
  }

  const PRIOR_TEXT: string := "%s: Prior Initialized."

  lemma PriorLogLineLegible()
    ensures Legible(PriorLogLine())
  {
    CallWords();
    assert Quotable(PRIOR_TEXT);
  }

  lemma PriorLogLineYields()
    ensures Yields(PriorLogLine(), [Plain(Invoke(LOG, [Str(PRIOR_TEXT), Name("__func__")]))])
  {
    PriorLogLineLegible();
    TextArg(PRIOR_TEXT);
    WordArg("__func__");
    var parts := [[Quoted(PRIOR_TEXT)], [Word("__func__")]];
    ReadCommas(parts, [Str(PRIOR_TEXT), Name("__func__")]);
    CommasInner(parts);
    CommasMore([Quoted(PRIOR_TEXT)], [[Word("__func__")]], parts);
    assert TokensOf(PriorLogLine()) == InvokeHead() + Commas(parts) + [Mark(')')] + [Mark(';')] + [Line];
    InvokeYields(PriorLogLine(), Commas(parts), [Str(PRIOR_TEXT), Name("__func__")], [Line]);
  }

  // ----- the whole source -----

  function GlobalPhrases(): seq<Phrase> {
    [Whole(Include("cfe_srl_module_all.h")), Whole(HANDLES), Whole(PINS)]
  }

  function PriorPhrases(): seq<Phrase> {
    [Plain(Declare("int32", "Status")), Plain(Assign("Status", "CFE_SRL_PriorInit", [])),
     Conditional("Status", "CFE_SUCCESS", Return(Name("Status"))),
       Plain(Invoke(LOG, [Str(PRIOR_TEXT), Name("__func__")]))]
  }

  function GlobalLines(names: seq<string>): seq<Lexeme> {
    SourcePreamble() + HandlesLine() + (Remark(Joined, IndexTable(names)) + Blank()) + GpioArrayLine() +
      Remark(Joined, Banner())
  }

  lemma JoinGlobals(a: seq<Lexeme>, i: Phrase, b: seq<Lexeme>, h: Phrase, c: seq<Lexeme>, d: seq<Lexeme>, g: Phrase,
                    e: seq<Lexeme>)
    requires Yields(a, [i]) && Yields(b, [h]) && Yields(c, []) && Yields(d, [g]) && Yields(e, [])
    ensures Yields(a + b + c + d + e, [i, h, g])
  {
    YieldsJoin(a, [i], b, [h], [i, h]);
    YieldsJoin(a + b, [i, h], c, [], [i, h]);
    YieldsJoin(a + b + c, [i, h], d, [g], [i, h, g]);
    YieldsJoin(a + b + c + d, [i, h, g], e, [], [i, h, g]);
  }

  lemma TableYields(names: seq<string>)
    requires AllWords(names)
    ensures Yields(Remark(Joined, IndexTable(names)) + Blank(), [])
    ensures Yields(Remark(Joined, Banner()), [])
  {
    IndexTableCalm(names);
    RemarkYields(Joined, IndexTable(names));
    BlankYields();
    YieldsJoin(Remark(Joined, IndexTable(names)), [], Blank(), [], []);
    BannerCalm();
    RemarkYields(Joined, Banner());
  }

  lemma GlobalLinesYield(names: seq<string>)
    requires AllWords(names)
    ensures Yields(GlobalLines(names), GlobalPhrases())
  {
    SourcePreambleYields();
    HandlesLineYields();
    TableYields(names);
    GpioArrayLineYields();
    JoinGlobals(SourcePreamble(), Whole(Include("cfe_srl_module_all.h")), HandlesLine(), Whole(HANDLES),
                Remark(Joined, IndexTable(names)) + Blank(), GpioArrayLine(), Whole(PINS), Remark(Joined, Banner()));
  }

  function PriorLines(): seq<Lexeme> {
    StatusLine() + PriorLine() + PriorCheckLine() + PriorLogLine()
  }

  lemma PriorLinesYield()
    ensures Yields(PriorLines(), PriorPhrases())
  {
    StatusLineYields();
    PriorLineYields();
    PriorCheckLineYields();
    PriorLogLineYields();
    JoinFour(StatusLine(), Plain(Declare("int32", "Status")), PriorLine(),
             Plain(Assign("Status", "CFE_SRL_PriorInit", [])),
             PriorCheckLine(), Conditional("Status", "CFE_SUCCESS", Return(Name("Status"))),
             PriorLogLine(), Plain(Invoke(LOG, [Str(PRIOR_TEXT), Name("__func__")])));
  }

  lemma PriorAppends()
    ensures Appends(PriorPhrases(), PriorStmts())
  {
    var a, b, d := Declare("int32", "Status"), Assign("Status", "CFE_SRL_PriorInit", []),
                   Invoke(LOG, [Str(PRIOR_TEXT), Name("__func__")]);
    AppendsPlain(a);
    AppendsPlain(b);
    AppendsConditional("Status", "CFE_SUCCESS", Return(Name("Status")));
    AppendsPlain(d);
    var c := IfNot("Status", "CFE_SUCCESS", [Return(Name("Status"))]);
    var pc := Conditional("Status", "CFE_SUCCESS", Return(Name("Status")));
    AppendsConcat([Plain(a)], [Do(a)], [Plain(b)], [Do(b)]);
    AppendsConcat([Plain(a)] + [Plain(b)], [Do(a)] + [Do(b)], [pc], [c]);
    AppendsConcat([Plain(a)] + [Plain(b)] + [pc], [Do(a)] + [Do(b)] + [c], [Plain(d)], [Do(d)]);
    assert [Plain(a)] + [Plain(b)] + [pc] + [Plain(d)] == PriorPhrases();
    assert [Do(a)] + [Do(b)] + [c] + [Do(d)] == PriorStmts();
  }

  /** Everything of the source that comes before its last two lines. */
  function OpenSource(es: seq<Interface>): seq<Lexeme> {
    SourcePrologue(HandleNames(es)) + EntryLines(es)
  }

  function OpenPhrases(ps: seq<Phrase>): seq<Phrase> {
    GlobalPhrases() + [FunctionOpen("int32", "CFE_SRL_EarlyInit")] + PriorPhrases() + ps
  }

  lemma JoinOpen(a: seq<Lexeme>, pa: seq<Phrase>, b: seq<Lexeme>, pb: seq<Phrase>, c: seq<Lexeme>, pc: seq<Phrase>,
                 d: seq<Lexeme>, e: seq<Lexeme>, pe: seq<Phrase>)
    requires Yields(a, pa) && Yields(b, pb) && Yields(c, pc) && Yields(d, []) && Yields(e, pe)
    ensures Yields(a + b + c + d + e, pa + pb + pc + pe)
  {
    YieldsConcat(a, pa, b, pb);
    YieldsConcat(a + b, pa + pb, c, pc);
    YieldsJoin(a + b + c, pa + pb + pc, d, [], pa + pb + pc);
    YieldsConcat(a + b + c + d, pa + pb + pc, e, pe);
  }

  lemma OpenSourceYields(es: seq<Interface>, ps: seq<Phrase>)
    requires AllPrintable(es) && Yields(EntryLines(es), ps)
    ensures Yields(OpenSource(es), OpenPhrases(ps))
  {
    var names := HandleNames(es);
    PlainNamesAreWords(es);
    GlobalLinesYield(names);
    FunctionLineYields();
    PriorLinesYield();
    HeadingCalm();
    RemarkYields(Tab, Heading());
    SourcePrologueShape(names);
    JoinOpen(GlobalLines(names), GlobalPhrases(), FunctionLine(), [FunctionOpen("int32", "CFE_SRL_EarlyInit")],
             PriorLines(), PriorPhrases(), Remark(Tab, Heading()), EntryLines(es), ps);
  }

  lemma SourcePrologueShape(names: seq<string>)
    ensures SourcePrologue(names) == GlobalLines(names) + FunctionLine() + PriorLines() + Remark(Tab, Heading())
  {
    var g, f, s, p, c, l, r := GlobalLines(names), FunctionLine(), StatusLine(), PriorLine(), PriorCheckLine(),
                               PriorLogLine(), Remark(Tab, Heading());
    assert g + f + s + p + c + l + r == g + f + (s + p + c + l) + r;
  }

  lemma ReturnLineYields()
    ensures Yields([L(Joined, Word("return")), L(Space, Word("CFE_SUCCESS")), L(Joined, Mark(';')), L(Joined, Line)],
                   [Plain(Return(Name("CFE_SUCCESS")))])
  {
    FunctionWords();
    ReadIdentifier("CFE_SUCCESS");
    var xs := [L(Joined, Word("return")), L(Space, Word("CFE_SUCCESS")), L(Joined, Mark(';')), L(Joined, Line)];
    var c := [Word("return"), Word("CFE_SUCCESS"), Mark(';')];
    assert TokensOf(xs) == [] + c + [Line];
    StatementYields(xs, [], c, [Line], Plain(Return(Name("CFE_SUCCESS"))));
  }

  lemma BraceLineYields()
    ensures Yields([L(Joined, Mark('}')), L(Joined, Line)], [Close])
  {
    var xs := [L(Joined, Mark('}')), L(Joined, Line)];
    assert TokensOf(xs) == [] + [Mark('}')] + [Line];
    StatementYields(xs, [], [Mark('}')], [Line], Close);
  }

  lemma SourceEndYields()
    ensures Yields(SourceEnd(), [Plain(Return(Name("CFE_SUCCESS"))), Close])
  {
    var first := [L(Joined, Word("return")), L(Space, Word("CFE_SUCCESS")), L(Joined, Mark(';')), L(Joined, Line)];
    var second := [L(Joined, Mark('}')), L(Joined, Line)];
    ReturnLineYields();
    BraceLineYields();
    YieldsJoin(first, [Plain(Return(Name("CFE_SUCCESS")))], second, [Close],
               [Plain(Return(Name("CFE_SUCCESS"))), Close]);
    assert SourceEnd() == first + second;
  }

  /** After the globals and the prior call, the function holds the prior statements. */
  lemma OpenAssembles(ps: seq<Phrase>, stmts: seq<Stmt>)
    requires Appends(ps, stmts)
    ensures AssembleAll(Assembly([], Top), OpenPhrases(ps)) ==
            Assembly(SourceGlobals(), InFunction("int32", "CFE_SRL_EarlyInit", PriorStmts() + stmts, None))
  {
    var start := Assembly([], Top);
    var open := FunctionOpen("int32", "CFE_SRL_EarlyInit");
    AddsThree(Include("cfe_srl_module_all.h"), HANDLES, PINS);
    assert AssembleAll(start, GlobalPhrases()) == Assembly(SourceGlobals(), Top);
    PriorAppends();
    AppendsConcat(PriorPhrases(), PriorStmts(), ps, stmts);
    AssembleConcat(start, GlobalPhrases(), [open] + (PriorPhrases() + ps));
    AssembleConcat(Assembly(SourceGlobals(), Top), [open], PriorPhrases() + ps);
    AssembleOne(Assembly(SourceGlobals(), Top), open);
    assert OpenPhrases(ps) == GlobalPhrases() + ([open] + (PriorPhrases() + ps));
    var inside := Assembly(SourceGlobals(), InFunction("int32", "CFE_SRL_EarlyInit", [], None));
    assert AssembleAll(inside, PriorPhrases() + ps) ==
           inside.(open := inside.open.(body := inside.open.body + (PriorStmts() + stmts)));
    assert [] + (PriorStmts() + stmts) == PriorStmts() + stmts;
  }

  /** Parsing inverts the emission of the initialisation source. */
  lemma InitSourceRoundTrip(es: seq<Interface>)
    requires AllPrintable(es) && AllHaveKeys(es)
    ensures Parse(SourceText(es)) == Some(SourceItems(es))
  {
    var ps, stmts := EntryPhrases(es), EntryStmts(es);
    var ret := Return(Name("CFE_SUCCESS"));
    EntryLinesYield(es);
    OpenSourceYields(es, ps);
    SourceEndYields();
    YieldsConcat(OpenSource(es), OpenPhrases(ps), SourceEnd(), [Plain(ret), Close]);
    ParseYields(InitSource(es), OpenPhrases(ps) + [Plain(ret), Close]);
    EntriesAppend(es);
    OpenAssembles(ps, stmts);
    CloseFunction(OpenPhrases(ps), SourceGlobals(), "int32", "CFE_SRL_EarlyInit", PriorStmts() + stmts, ret);
  }

  /** Complete or cut short, the source's text is legible. */
  lemma SourceLegible(es: seq<Interface>)
    requires AllPrintable(es)
    ensures Legible(InitSource(es))
  {
    if AllHaveKeys(es) {
      EntryLinesYield(es);
      OpenSourceYields(es, EntryPhrases(es));
      SourceEndYields();
      LegibleConcat(OpenSource(es), SourceEnd());
    } else {
      CutLinesYield(es);
      OpenSourceYields(es, EntryPhrases(Complete(es)));
    }
  }

  lemma CloseFunction(ps: seq<Phrase>, items: seq<Item>, result: string, name: string, body: seq<Stmt>, last: Simple)
    requires AssembleAll(Assembly([], Top), ps) == Assembly(items, InFunction(result, name, body, None))
    ensures AssembleAll(Assembly([], Top), ps + [Plain(last), Close]) ==
            Assembly(items + [Function(result, name, body + [Do(last)])], Top)
  {
    var a := Assembly(items, InFunction(result, name, body, None));
    AssembleConcat(Assembly([], Top), ps, [Plain(last), Close]);
    AssembleConcat(a, [Plain(last)], [Close]);
    assert [Plain(last)] + [Close] == [Plain(last), Close];
    AssembleOne(a, Plain(last));
    AssembleOne(Assemble(a, Plain(last)), Close);
  }

  // ----- a source cut short by a missing key -----

  /** The entries before the first one whose keys are incomplete. */
  function Complete(es: seq<Interface>): (cs: seq<Interface>)
    ensures AllHaveKeys(cs)
    ensures forall c :: c in cs ==> c in es
  {
    if es == [] || (es[0].ready && !HasKeys(es[0])) then [] else [es[0]] + Complete(es[1..])
  }

  lemma {:induction false} CutLinesYield(es: seq<Interface>)
    requires AllPrintable(es) && !AllHaveKeys(es)
    ensures Yields(EntryLines(es), EntryPhrases(Complete(es)))
  {
    if es == [] {
    } else if es[0].ready && !HasKeys(es[0]) {
      EntryRemarksYield(es[0]);
    } else {
      assert AllPrintable(es[1..]);
      assert !AllHaveKeys(es[1..]);
      CutLinesYield(es[1..]);
      assert Complete(es)[1..] == Complete(es[1..]);
      if es[0].ready {
        CallLinesYield(es[0]);
        CheckLinesYield(es[0]);
        YieldsConcat(CallLines(es[0]), CallPhrases(es[0]), CheckLines(es[0]), CheckPhrases(es[0]));
        YieldsConcat(CallLines(es[0]) + CheckLines(es[0]), CallPhrases(es[0]) + CheckPhrases(es[0]),
                     EntryLines(es[1..]), EntryPhrases(Complete(es[1..])));
      }
    }
  }

  /** A missing key leaves a source that does not parse: its function is never closed. */
  lemma CutSourceDoesNotParse(es: seq<Interface>)
    requires AllPrintable(es) && !AllHaveKeys(es)
    ensures Parse(SourceText(es)) == None
  {
    var cs := Complete(es);
    CutLinesYield(es);
    OpenSourceYields(es, EntryPhrases(cs));
    ParseYields(InitSource(es), OpenPhrases(EntryPhrases(cs)));
    EntriesAppend(cs);
    OpenAssembles(EntryPhrases(cs), EntryStmts(cs));
  }
}
