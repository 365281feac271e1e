// Parsing inverts emission: the parser recovers from each generated text the
// items that the configuration calls for.
module Reading {
  import opened Text
  import opened Lexing
  import opened Grammar
  import opened Interfaces
  import opened Emission

  // ----- when the texts of an entry are C -----

  /** The name is made of C word characters, and the device path can stand in a C string literal. */
  ghost predicate Printable(e: Interface) {
    AllWordChars(e.name) && Quotable(e.devName)
  }

  ghost predicate AllPrintable(es: seq<Interface>) {
    forall i :: 0 <= i < |es| && es[i].ready ==> Printable(es[i])
  }

  /** The names of the ready entries alone, which are all that the two headers print. */
  ghost predicate PlainNames(es: seq<Interface>) {
    forall i :: 0 <= i < |es| && es[i].ready ==> AllWordChars(es[i].name)
  }

  ghost predicate AllWords(names: seq<string>) {
    forall i :: 0 <= i < |names| ==> AllWordChars(names[i])
  }

  // ----- the words that appear in every file -----

  lemma DirectiveWords()
    ensures IsWordText("ifndef") && IsWordText("define") && IsWordText("include") && IsWordText("endif")
    ensures IsWordText("typedef") && IsWordText("enum") && IsWordText("void") && IsWordText("1")
  {
  }

  lemma MissionWords()
    ensures IsWordText("CFE_SRL_MISSION_CFG_H") && IsWordText("CFE_SRL_GNRL_DEVICE_NUM")
    ensures IsWordText("CFE_SRL_TOT_GPIO_NUM") && IsWordText("NOTHING")
    ensures IsWordText("CFE_SRL_Handle_Indexer_t") && IsWordText("CFE_SRL_GPIO_Indexer_t")
  {
  }

  lemma ErrorWords()
    ensures IsWordText("CFE_SRL_ERROR_H") && IsWordText("CFE_SERIAL_ERROR")
  {
  }

  lemma ArrayWords()
    ensures IsWordText("CFE_SRL_IO_Handle_t") && IsWordText("Handles")
    ensures IsWordText("CFE_SRL_GPIO_Handle_t") && IsWordText("GPIO")
    ensures IsWordText("CFE_SRL_Global_Handle_t")
  {
  }

  lemma FunctionWords()
    ensures IsWordText("int32") && IsWordText("CFE_SRL_EarlyInit") && IsWordText("Status")
    ensures IsWordText("CFE_SRL_PriorInit") && IsWordText("if") && IsWordText("CFE_SUCCESS") && IsWordText("return")
  {
  }

  lemma CallWords()
    ensures IsWordText("CFE_ES_WriteToSysLog") && IsWordText("__func__") && IsWordText("CFE_SRL_HandleInit")
    ensures IsWordText("CFE_SRL_GpioInit") && IsWordText("FD") && IsWordText("DevName")
  {
  }

  lemma TypeWords(kind: Kind)
    requires IsGeneral(kind)
    ensures IsWordText(DeviceType(kind)) && DeviceType(kind)[0] == 'S'
  {
    match kind
    case I2c => assert IsWordText("SRL_DEVTYPE_I2C");
    case Spi => assert IsWordText("SRL_DEVTYPE_SPI");
    case Uart => assert IsWordText("SRL_DEVTYPE_UART");
    case Rs232 => assert IsWordText("SRL_DEVTYPE_RS232");
    case Rs422 => assert IsWordText("SRL_DEVTYPE_RS422");
    case Rs485 => assert IsWordText("SRL_DEVTYPE_RS485");
    case Can => assert IsWordText("SRL_DEVTYPE_CAN");
    case Socat => assert IsWordText("SRL_DEVTYPE_UART");
  }

  lemma IdentifierWords(upper: string)
    requires AllWordChars(upper)
    ensures IsWordText(HandleIndexer(upper)) && HandleIndexer(upper)[0] == 'C'
    ensures IsWordText(GpioIndexer(upper)) && GpioIndexer(upper)[0] == 'C'
    ensures IsWordText(InitError(upper)) && InitError(upper)[0] == 'C'
  {
    assert AllWordChars("CFE_SRL_") && AllWordChars("_HANDLE_INDEXER");
    assert AllWordChars("_GPIO_INDEXER") && AllWordChars("_INIT_ERR");
  }

  lemma ReadIdentifier(id: string)
    requires id != "" && !('0' <= id[0] <= '9')
    ensures ReadWord(id) == Name(id)
  {
    LetterIsNoDecimal(id);
  }

  lemma ReadNumber(n: nat)
    ensures ReadDecimal(Decimal(n)) == Some(n) && ReadWord(Decimal(n)) == Number(n)
    ensures IsWordText(Decimal(n))
  {
    NumeralRoundTrip(10, n);
  }

  lemma OneIsOne()
    ensures Decimal(1) == "1" && Decimal(0) == "0" && ReadDecimal("1") == Some(1) && ReadDecimal("0") == Some(0)
  {
    ReadNumber(1);
    ReadNumber(0);
  }

  // ----- shared lines -----

  lemma RemarkYields(before: Layout, body: string)
    requires Calm(body)
    ensures Yields(Remark(before, body), [])
  {
    QuietYields(Remark(before, body));
  }

  lemma BlankYields()
    ensures Yields(Blank(), [])
  {
    QuietYields(Blank());
  }

  lemma NoticeYields()
    ensures Yields(Notice(), [])
  {
    assert Calm(" Auto-Generated file. ") && Calm("Never change this code! ");
    CalmConcat(" Auto-Generated file. ", "Never change this code! ");
    RemarkYields(Joined, " Auto-Generated file. " + "Never change this code! ");
  }

  lemma IfndefYields(symbol: string)
    requires IsWordText(symbol)
    ensures Yields(IfndefLine(symbol), [Whole(Guard(symbol))])
  {
    DirectiveWords();
    var c := [Mark('#'), Word("ifndef"), Word(symbol)];
    assert TokensOf(IfndefLine(symbol)) == c + [] + [Line] + [];
    DirectiveYields(IfndefLine(symbol), c, [], [], Whole(Guard(symbol)));
  }

  lemma DefineYields(symbol: string)
    requires IsWordText(symbol)
    ensures Yields(DefineLine(symbol), [Whole(Macro(symbol, Empty))])
  {
    DirectiveWords();
    var c := [Mark('#'), Word("define"), Word(symbol)];
    assert TokensOf(DefineLine(symbol)) == c + [] + [Line] + [];
    assert c[3..] == [];
    DirectiveYields(DefineLine(symbol), c, [], [], Whole(Macro(symbol, Empty)));
  }

  lemma IncludeYields(path: string)
    requires Quotable(path)
    ensures Yields(IncludeLine(path), [Whole(Include(path))])
  {
    DirectiveWords();
    var c := [Mark('#'), Word("include"), Quoted(path)];
    assert TokensOf(IncludeLine(path)) == c + [] + [Line] + [];
    DirectiveYields(IncludeLine(path), c, [], [], Whole(Include(path)));
  }

  lemma EnumOpenYields()
    ensures Yields(EnumOpenLine(), [EnumOpen])
  {
    DirectiveWords();
    var c := [Word("typedef"), Word("enum"), Mark('{')];
    assert TokensOf(EnumOpenLine()) == [] + c + [Line];
    StatementYields(EnumOpenLine(), [], c, [Line], EnumOpen);
  }

  // ----- enumerations -----

  ghost predicate Identifiers(ids: seq<string>) {
    forall i :: 0 <= i < |ids| ==> IsWordText(ids[i])
  }

  function EnumeratorTokens(ids: seq<string>): seq<Token> {
    if ids == [] then [] else [Word(ids[0]), Mark(',')] + EnumeratorTokens(ids[1..])
  }

  lemma {:induction false} EnumeratorTokensShape(ids: seq<string>)
    ensures PlainTokens(EnumeratorTokens(ids)) && !IsDirective(EnumeratorTokens(ids))
    ensures forall i :: 0 <= i < |EnumeratorTokens(ids)| ==> !EndsChunk(EnumeratorTokens(ids)[i])
    ensures ReadNames(EnumeratorTokens(ids)) == Some(ids)
    ensures ids != [] ==> EnumeratorTokens(ids) != []
  {
    if ids != [] {
      var ts, rest := EnumeratorTokens(ids), EnumeratorTokens(ids[1..]);
      EnumeratorTokensShape(ids[1..]);
      assert ts[2..] == rest;
      assert [ids[0]] + ids[1..] == ids;
    }
  }

  lemma {:induction false} EnumeratorLinesCut(ids: seq<string>)
    requires Identifiers(ids)
    ensures Legible(EnumeratorLines(ids))
    ensures Cut(Cutter([], []), TokensOf(EnumeratorLines(ids))) == Cutter([], EnumeratorTokens(ids))
  {
    EnumeratorLinesCutAfter(ids, []);
    assert [] + EnumeratorTokens(ids) == EnumeratorTokens(ids);
  }

  lemma {:induction false} EnumeratorLinesCutAfter(ids: seq<string>, current: seq<Token>)
    requires Identifiers(ids) && !IsDirective(current)
    ensures Legible(EnumeratorLines(ids))
    ensures Cut(Cutter([], current), TokensOf(EnumeratorLines(ids))) == Cutter([], current + EnumeratorTokens(ids))
    decreases |ids|
  {
    if ids == [] {
      assert current + [] == current;
    } else {
      var line, rest := EnumeratorLine(ids[0]), EnumeratorLines(ids[1..]);
      var pair := [Word(ids[0]), Mark(',')];
      EnumeratorLinesCutAfter(ids[1..], current + pair);
      LegibleConcat(line, rest);
      CutConcat(Cutter([], current), TokensOf(line), TokensOf(rest));
      EnumeratorLineCut(ids[0], current);
      assert current + EnumeratorTokens(ids) == current + pair + EnumeratorTokens(ids[1..]);
    }
  }

  lemma EnumeratorLineCut(id: string, current: seq<Token>)
    requires IsWordText(id) && !IsDirective(current)
    ensures Cut(Cutter([], current), TokensOf(EnumeratorLine(id))) == Cutter([], current + [Word(id), Mark(',')])
  {
    var pair := [Word(id), Mark(',')];
    assert TokensOf(EnumeratorLine(id)) == pair + [Line];
    CutConcat(Cutter([], current), pair, [Line]);
    CutBody([], current, pair);
    assert Cut(Cutter([], current + pair), [Line]) == Cutter([], current + pair) by { assert [Line][1..] == []; }
  }

  lemma EnumCloseLegible(tag: string)
    requires IsWordText(tag)
    ensures Legible(EnumCloseLine(tag))
  {
  }

  /** The tag line closes the enumerators and names the type. */
  lemma EnumCloseCut(chunks: seq<seq<Token>>, current: seq<Token>, tag: string)
    requires IsWordText(tag) && !IsDirective(current)
    ensures Legible(EnumCloseLine(tag))
    ensures Cut(Cutter(chunks, current), TokensOf(EnumCloseLine(tag))) ==
            Cutter(chunks + [current + [Mark('}')], [Word(tag), Mark(';')]], [])
  {
    EnumCloseLegible(tag);
    var ts := TokensOf(EnumCloseLine(tag));
    assert ts == [Mark('}')] + ([Word(tag)] + ([Mark(';')] + [Line, Line]));
    CutConcat(Cutter(chunks, current), [Mark('}')], [Word(tag)] + ([Mark(';')] + [Line, Line]));
    CutSingle(Cutter(chunks, current), Mark('}'));
    var closed := chunks + [current + [Mark('}')]];
    CutConcat(Cutter(closed, []), [Word(tag)], [Mark(';')] + [Line, Line]);
    CutSingle(Cutter(closed, []), Word(tag));
    assert [] + [Word(tag)] == [Word(tag)];
    CutConcat(Cutter(closed, [Word(tag)]), [Mark(';')], [Line, Line]);
    CutSingle(Cutter(closed, [Word(tag)]), Mark(';'));
    var done := Cutter(closed + [[Word(tag)] + [Mark(';')]], []);
    CutComments(done, [Line, Line]);
    assert [Word(tag)] + [Mark(';')] == [Word(tag), Mark(';')];
    assert done.chunks == chunks + [current + [Mark('}')], [Word(tag), Mark(';')]];
  }

  lemma CutSingle(k: Cutter, t: Token)
    ensures Cut(k, [t]) == CutStep(k, t)
  {
    assert [t][1..] == [];
  }

  /** Reading the enumerator chunk and the tag chunk. */
  lemma ReadEnumChunks(names: seq<Token>, ids: seq<string>, tag: string)
    requires names != [] && !IsDirective(names) && ReadNames(names) == Some(ids)
    ensures ReadAll([names + [Mark('}')], [Word(tag), Mark(';')]]) == Some([EnumNames(ids), EnumTag(tag)])
  {
    var body := names + [Mark('}')];
    assert body[..|body| - 1] == names;
    ReadOne(body, EnumNames(ids));
    ReadOne([Word(tag), Mark(';')], EnumTag(tag));
    ReadAllConcat([body], [[Word(tag), Mark(';')]]);
    assert [body] + [[Word(tag), Mark(';')]] == [body, [Word(tag), Mark(';')]];
    assert [EnumNames(ids)] + [EnumTag(tag)] == [EnumNames(ids), EnumTag(tag)];
  }

  /** An enumeration block, whatever spells its enumerators. */
  lemma EnumBlockYields(lines: seq<Lexeme>, names: seq<Token>, ids: seq<string>, tag: string)
    requires Legible(lines) && Cut(Cutter([], []), TokensOf(lines)) == Cutter([], names)
    requires names != [] && !IsDirective(names) && ReadNames(names) == Some(ids)
    requires IsWordText(tag)
    ensures Yields(EnumOpenLine() + lines + EnumCloseLine(tag), [EnumOpen, EnumNames(ids), EnumTag(tag)])
  {
    EnumOpenYields();
    EnumCloseCut([], names, tag);
    LegibleConcat(lines, EnumCloseLine(tag));
    CutConcat(Cutter([], []), TokensOf(lines), TokensOf(EnumCloseLine(tag)));
    ReadEnumChunks(names, ids, tag);
    assert [] + [names + [Mark('}')], [Word(tag), Mark(';')]] == [names + [Mark('}')], [Word(tag), Mark(';')]];
    EnumBlockJoin(lines, [EnumNames(ids), EnumTag(tag)], tag);
    assert [EnumOpen] + [EnumNames(ids), EnumTag(tag)] == [EnumOpen, EnumNames(ids), EnumTag(tag)];
  }

  lemma EnumBlockJoin(lines: seq<Lexeme>, ps: seq<Phrase>, tag: string)
    requires Yields(EnumOpenLine(), [EnumOpen]) && Yields(lines + EnumCloseLine(tag), ps)
    ensures Yields(EnumOpenLine() + lines + EnumCloseLine(tag), [EnumOpen] + ps)
  {
    YieldsConcat(EnumOpenLine(), [EnumOpen], lines + EnumCloseLine(tag), ps);
    Associate(EnumOpenLine(), lines, EnumCloseLine(tag));
  }

  lemma EnumeratorsYield(ids: seq<string>, tag: string)
    requires ids != [] && Identifiers(ids) && IsWordText(tag)
    ensures Yields(EnumOpenLine() + EnumeratorLines(ids) + EnumCloseLine(tag), [EnumOpen, EnumNames(ids), EnumTag(tag)])
  {
    EnumeratorLinesCut(ids);
    EnumeratorTokensShape(ids);
    EnumBlockYields(EnumeratorLines(ids), EnumeratorTokens(ids), ids, tag);
  }

  /** An enumeration whose only enumerator is NOTHING. */
  lemma NothingYields(tag: string)
    requires IsWordText(tag)
    ensures Yields(EnumOpenLine() + NothingLine() + EnumCloseLine(tag),
                   [EnumOpen, EnumNames(["NOTHING"]), EnumTag(tag)])
  {
    MissionWords();
    var names := [Word("NOTHING")];
    assert TokensOf(NothingLine()) == names + [Line];
    CutConcat(Cutter([], []), names, [Line]);
    CutSingle(Cutter([], []), Word("NOTHING"));
    assert [] + names == names;
    CutSingle(Cutter([], names), Line);
    EnumBlockYields(NothingLine(), names, ["NOTHING"], tag);
  }

  // ----- the mission header -----

  lemma MissionPreambleYields()
    ensures Yields(MissionPreamble(),
              [Whole(Guard("CFE_SRL_MISSION_CFG_H")), Whole(Macro("CFE_SRL_MISSION_CFG_H", Empty)),
               Whole(Include("cfe_srl_interface_cfg.h"))])
  {
    MissionWords();
    PreambleYields("CFE_SRL_MISSION_CFG_H", "cfe_srl_interface_cfg.h");
    assert MissionPreamble() == CommonPreamble("CFE_SRL_MISSION_CFG_H", "cfe_srl_interface_cfg.h");
  }

  function CommonPreamble(symbol: string, path: string): seq<Lexeme> {
    Notice() + IfndefLine(symbol) + DefineLine(symbol) + Blank() + IncludeLine(path) + Blank()
  }

  lemma PreambleYields(symbol: string, path: string)
    requires IsWordText(symbol) && Quotable(path)
    ensures Yields(CommonPreamble(symbol, path),
                   [Whole(Guard(symbol)), Whole(Macro(symbol, Empty)), Whole(Include(path))])
  {
    NoticeYields();
    IfndefYields(symbol);
    DefineYields(symbol);
    IncludeYields(path);
    BlankYields();
    var g, m, i := Whole(Guard(symbol)), Whole(Macro(symbol, Empty)), Whole(Include(path));
    var t := Notice() + IfndefLine(symbol);
    YieldsJoin(Notice(), [], IfndefLine(symbol), [g], [g]);
    YieldsJoin(t, [g], DefineLine(symbol), [m], [g, m]);
    YieldsJoin(t + DefineLine(symbol), [g, m], Blank(), [], [g, m]);
    YieldsJoin(t + DefineLine(symbol) + Blank(), [g, m], IncludeLine(path), [i], [g, m, i]);
    YieldsJoin(t + DefineLine(symbol) + Blank() + IncludeLine(path), [g, m, i], Blank(), [], [g, m, i]);
  }
}
