// Parsing the two generated headers.
module HeaderReading {
  import opened Text
  import opened Lexing
  import opened Grammar
  import opened Interfaces
  import opened Emission
  import opened Reading

  // ----- the mission header -----

  lemma HandleIdsAreIdentifiers(names: seq<string>)
    requires AllWords(names)
    ensures Identifiers(HandleIds(names)) && Identifiers(GpioIds(names))
  {
    forall i | 0 <= i < |names|
      ensures IsWordText(HandleIds(names)[i]) && IsWordText(GpioIds(names)[i])
    {
      IdentifierWords(names[i]);
    }
  }

  lemma DeviceNumYields(last: string)
    requires AllWordChars(last)
    ensures Yields(DeviceNumLine(last), [Whole(Macro("CFE_SRL_GNRL_DEVICE_NUM", Offset(HandleIndexer(last), 1)))])
  {
    DirectiveWords();
    MissionWords();
    IdentifierWords(last);
    OneIsOne();
    var id := HandleIndexer(last);
    var c := [Mark('#'), Word("define"), Word("CFE_SRL_GNRL_DEVICE_NUM"), Mark('('), Word(id), Mark('+'), Word("1"),
              Mark(')')];
    assert TokensOf(DeviceNumLine(last)) == c + [] + [Line] + [Line];
    assert c[3..] == [Mark('('), Word(id), Mark('+'), Word("1"), Mark(')')];
    DirectiveYields(DeviceNumLine(last), c, [], [Line], Whole(Macro("CFE_SRL_GNRL_DEVICE_NUM", Offset(id, 1))));
  }

  /** The padding definition shares its line with the comment that the next part opens with. */
  lemma PaddingNumYields()
    ensures Yields(PaddingNumLine() + GpioHeading(), [Whole(Macro("CFE_SRL_GNRL_DEVICE_NUM", Literal(1)))])
  {
    DirectiveWords();
    MissionWords();
    OneIsOne();
    var remark := Comment(" \\# of used gpio pin ");
    assert Calm(" \\# of used gpio pin ");
    var c := [Mark('#'), Word("define"), Word("CFE_SRL_GNRL_DEVICE_NUM"), Word("1")];
    PaddingNumTokens();
    assert c[3..] == [Word("1")];
    DirectiveYields(PaddingNumLine() + GpioHeading(), c, [remark], [],
                    Whole(Macro("CFE_SRL_GNRL_DEVICE_NUM", Literal(1))));
  }

  lemma PaddingNumTokens()
    ensures TokensOf(PaddingNumLine() + GpioHeading()) ==
            [Mark('#'), Word("define"), Word("CFE_SRL_GNRL_DEVICE_NUM"), Word("1")] +
              [Comment(" \\# of used gpio pin ")] + [Line] + []
  {
    TokensConcat(PaddingNumLine(), GpioHeading());
  }

  function HandlePhrases(names: seq<string>): seq<Phrase> {
    if names != [] then
      [EnumOpen, EnumNames(HandleIds(names)), EnumTag("CFE_SRL_Handle_Indexer_t")] +
      [Whole(Macro("CFE_SRL_GNRL_DEVICE_NUM", Offset(HandleIndexer(names[|names| - 1]), 1)))]
    else
      [Whole(Macro("CFE_SRL_GNRL_DEVICE_NUM", Literal(1)))]
  }

  lemma HeadingYields()
    ensures Yields(Remark(Joined, " \\# of General serial device "), []) && Yields(GpioHeading(), [])
  {
    assert Calm(" \\# of General serial device ") && Calm(" \\# of used gpio pin ");
    RemarkYields(Joined, " \\# of General serial device ");
    RemarkYields(Joined, " \\# of used gpio pin ");
  }

  lemma NoneReadyYields()
    ensures Yields(Remark(Joined, " Every interfaces are not " + "ready yet "), [])
  {
    assert Calm(" Every interfaces are not ") && Calm("ready yet ");
    CalmConcat(" Every interfaces are not ", "ready yet ");
    RemarkYields(Joined, " Every interfaces are not " + "ready yet ");
  }

  /** Four pieces of which the second and the last yield nothing. */
  lemma JoinParts(enum: seq<Lexeme>, ps: seq<Phrase>, remark: seq<Lexeme>, num: seq<Lexeme>, qs: seq<Phrase>,
                  heading: seq<Lexeme>)
    requires Yields(enum, ps) && Yields(remark, []) && Yields(num, qs) && Yields(heading, [])
    ensures Yields(enum + remark + num + heading, ps + qs)
  {
    YieldsJoin(enum, ps, remark, [], ps);
    YieldsConcat(enum + remark, ps, num, qs);
    YieldsJoin(enum + remark + num, ps + qs, heading, [], ps + qs);
  }

  lemma HandlePartYields(names: seq<string>)
    requires AllWords(names)
    ensures Yields(HandlePart(names) + GpioHeading(), HandlePhrases(names))
  {
    HeadingYields();
    if names != [] {
      var last := names[|names| - 1];
      HandleIdsAreIdentifiers(names);
      MissionWords();
      EnumeratorsYield(HandleIds(names), "CFE_SRL_Handle_Indexer_t");
      DeviceNumYields(last);
      JoinParts(HandleEnum(names), [EnumOpen, EnumNames(HandleIds(names)), EnumTag("CFE_SRL_Handle_Indexer_t")],
                      Remark(Joined, " \\# of General serial device "), DeviceNumLine(last),
                      [Whole(Macro("CFE_SRL_GNRL_DEVICE_NUM", Offset(HandleIndexer(last), 1)))], GpioHeading());
    } else {
      NoneReadyYields();
      PaddingNumYields();
      var remark := Remark(Joined, " Every interfaces are not " + "ready yet ");
      YieldsJoin(remark, [], PaddingNumLine() + GpioHeading(), HandlePhrases(names), HandlePhrases(names));
      assert HandlePart(names) + GpioHeading() == remark + (PaddingNumLine() + GpioHeading());
    }
  }

  /** The enumerators of the GPIO type: the pins, or a placeholder when there is none. */
  function GpioConstants(names: seq<string>): seq<string> {
    if names != [] then GpioIds(names) else ["NOTHING"]
  }

  lemma GpioNumYields(count: nat)
    ensures Yields(GpioNumLine(count), [Whole(Macro("CFE_SRL_TOT_GPIO_NUM", Literal(count)))])
  {
    DirectiveWords();
    MissionWords();
    ReadNumber(count);
    var c := [Mark('#'), Word("define"), Word("CFE_SRL_TOT_GPIO_NUM"), Word(Decimal(count))];
    assert TokensOf(GpioNumLine(count)) == c + [] + [Line] + [Line];
    assert c[3..] == [Word(Decimal(count))];
    DirectiveYields(GpioNumLine(count), c, [], [Line], Whole(Macro("CFE_SRL_TOT_GPIO_NUM", Literal(count))));
  }

  function GpioPhrases(count: nat, names: seq<string>): seq<Phrase> {
    [Whole(Macro("CFE_SRL_TOT_GPIO_NUM", Literal(count)))] +
    [EnumOpen, EnumNames(GpioConstants(names)), EnumTag("CFE_SRL_GPIO_Indexer_t")]
  }

  lemma GpioPartYields(count: nat, names: seq<string>)
    requires AllWords(names)
    ensures Yields(GpioPart(count, names), GpioPhrases(count, names))
  {
    MissionWords();
    GpioNumYields(count);
    var tag := "CFE_SRL_GPIO_Indexer_t";
    if names != [] {
      HandleIdsAreIdentifiers(names);
      EnumeratorsYield(GpioIds(names), tag);
    } else {
      NothingYields(tag);
    }
    YieldsConcat(GpioNumLine(count), [Whole(Macro("CFE_SRL_TOT_GPIO_NUM", Literal(count)))],
                 EnumOpenLine() + GpioEnumerators(names) + EnumCloseLine(tag),
                 [EnumOpen, EnumNames(GpioConstants(names)), EnumTag(tag)]);
  }

  /** The items of the mission header that a configuration calls for. */
  function MissionItems(es: seq<Interface>): seq<Item> {
    [Guard("CFE_SRL_MISSION_CFG_H"), Macro("CFE_SRL_MISSION_CFG_H", Empty), Include("cfe_srl_interface_cfg.h")] +
    HandleItems(HandleNames(es)) + GpioItems(GpioCount(es), GpioNames(es)) + [EndGuard]
  }

  function HandleItems(names: seq<string>): seq<Item> {
    if names != [] then
      [Enumeration(HandleIds(names), "CFE_SRL_Handle_Indexer_t")] +
      [Macro("CFE_SRL_GNRL_DEVICE_NUM", Offset(HandleIndexer(names[|names| - 1]), 1))]
    else
      [Macro("CFE_SRL_GNRL_DEVICE_NUM", Literal(1))]
  }

  function GpioItems(count: nat, names: seq<string>): seq<Item> {
    [Macro("CFE_SRL_TOT_GPIO_NUM", Literal(count))] + [Enumeration(GpioConstants(names), "CFE_SRL_GPIO_Indexer_t")]
  }

  lemma AddsThree(a: Item, b: Item, c: Item)
    ensures Adds([Whole(a), Whole(b), Whole(c)], [a, b, c])
  {
    AddsOne(a);
    AddsOne(b);
    AddsOne(c);
    AddsConcat([Whole(a)], [a], [Whole(b)], [b]);
    AddsConcat([Whole(a)] + [Whole(b)], [a] + [b], [Whole(c)], [c]);
    assert [Whole(a)] + [Whole(b)] + [Whole(c)] == [Whole(a), Whole(b), Whole(c)];
    assert [a] + [b] + [c] == [a, b, c];
  }

  lemma HandleAdds(names: seq<string>)
    ensures Adds(HandlePhrases(names), HandleItems(names))
  {
    if names != [] {
      var macro := Macro("CFE_SRL_GNRL_DEVICE_NUM", Offset(HandleIndexer(names[|names| - 1]), 1));
      AddsEnum(HandleIds(names), "CFE_SRL_Handle_Indexer_t");
      AddsOne(macro);
      AddsConcat([EnumOpen, EnumNames(HandleIds(names)), EnumTag("CFE_SRL_Handle_Indexer_t")],
                 [Enumeration(HandleIds(names), "CFE_SRL_Handle_Indexer_t")], [Whole(macro)], [macro]);
    } else {
      AddsOne(Macro("CFE_SRL_GNRL_DEVICE_NUM", Literal(1)));
    }
  }

  lemma GpioAdds(count: nat, names: seq<string>)
    ensures Adds(GpioPhrases(count, names), GpioItems(count, names))
  {
    var ids, tag := GpioConstants(names), "CFE_SRL_GPIO_Indexer_t";
    var macro := Macro("CFE_SRL_TOT_GPIO_NUM", Literal(count));
    AddsOne(macro);
    AddsEnum(ids, tag);
    AddsConcat([Whole(macro)], [macro], [EnumOpen, EnumNames(ids), EnumTag(tag)], [Enumeration(ids, tag)]);
  }

  /** The guard's closing line, which ends the file without a line end. */
  lemma EndifParses(xs: seq<Lexeme>, ps: seq<Phrase>, items: seq<Item>, symbol: string)
    requires Yields(xs, ps) && Adds(ps, items) && IsWordText(symbol)
    ensures Parse(Spell(xs + EndifLine(symbol))) == Some(items + [EndGuard])
  {
    DirectiveWords();
    var c := [Mark('#'), Word("endif")];
    var remark := Comment(" " + symbol + " ");
    WordsAreHarmless(symbol);
    CalmConcat(" ", symbol);
    CalmConcat(" " + symbol, " ");
    assert TokensOf(EndifLine(symbol)) == c + [remark];
    ParseYieldsThenDirective(xs, ps, EndifLine(symbol), c, Whole(EndGuard), [remark]);
    AddsOne(EndGuard);
    AddsConcat(ps, items, [Whole(EndGuard)], [EndGuard]);
  }

  ghost predicate NamesAreWords(es: seq<Interface>) {
    AllWords(HandleNames(es)) && AllWords(GpioNames(es)) && AllWords(ReadyNames(es))
  }

  lemma {:induction false} PlainNamesAreWords(es: seq<Interface>)
    requires PlainNames(es)
    ensures NamesAreWords(es)
  {
    if es != [] {
      PlainNamesAreWords(es[1..]);
      if es[0].ready { UpperKeepsWords(es[0].name); }
    }
  }

  /** Parsing inverts the emission of the mission header. */
  lemma MissionHeaderRoundTrip(es: seq<Interface>)
    requires PlainNames(es)
    ensures Parse(MissionText(es)) == Some(MissionItems(es))
  {
    PlainNamesAreWords(es);
    MissionWords();
    var handles, pins, count := HandleNames(es), GpioNames(es), GpioCount(es);
    var symbol := "CFE_SRL_MISSION_CFG_H";
    var g, m, i := Guard(symbol), Macro(symbol, Empty), Include("cfe_srl_interface_cfg.h");
    var p := [Whole(g), Whole(m), Whole(i)];
    MissionPreambleYields();
    AddsThree(g, m, i);
    HandlePartYields(handles);
    HandleAdds(handles);
    GpioPartYields(count, pins);
    GpioAdds(count, pins);
    YieldsConcat(MissionPreamble(), p, HandlePart(handles) + GpioHeading(), HandlePhrases(handles));
    AddsConcat(p, [g, m, i], HandlePhrases(handles), HandleItems(handles));
    var start := MissionPreamble() + (HandlePart(handles) + GpioHeading());
    YieldsConcat(start, p + HandlePhrases(handles), GpioPart(count, pins), GpioPhrases(count, pins));
    AddsConcat(p + HandlePhrases(handles), [g, m, i] + HandleItems(handles), GpioPhrases(count, pins),
               GpioItems(count, pins));
    EndifParses(start + GpioPart(count, pins), p + HandlePhrases(handles) + GpioPhrases(count, pins),
                [g, m, i] + HandleItems(handles) + GpioItems(count, pins), symbol);
  }

  // ----- the error header -----

  lemma ErrorLineYields(upper: string, offset: nat)
    requires AllWordChars(upper)
    ensures Yields(ErrorLine(upper, offset), [Whole(Macro(InitError(upper), Applied("CFE_SERIAL_ERROR", offset)))])
  {
    DirectiveWords();
    ErrorWords();
    IdentifierWords(upper);
    ReadNumber(offset);
    var c := [Mark('#'), Word("define"), Word(InitError(upper)), Word("CFE_SERIAL_ERROR"), Mark('('),
              Word(Decimal(offset)), Mark(')')];
    assert TokensOf(ErrorLine(upper, offset)) == c + [] + [Line] + [];
    assert c[3..] == [Word("CFE_SERIAL_ERROR"), Mark('('), Word(Decimal(offset)), Mark(')')];
    DirectiveYields(ErrorLine(upper, offset), c, [], [],
                    Whole(Macro(InitError(upper), Applied("CFE_SERIAL_ERROR", offset))));
  }

  function ErrorMacros(names: seq<string>, offset: nat): seq<Item> {
    if names == [] then []
    else [Macro(InitError(names[0]), Applied("CFE_SERIAL_ERROR", offset))] + ErrorMacros(names[1..], offset + 1)
  }

  function Wholes(items: seq<Item>): seq<Phrase> {
    if items == [] then [] else [Whole(items[0])] + Wholes(items[1..])
  }

  lemma {:induction false} WholesAdd(items: seq<Item>)
    ensures Adds(Wholes(items), items)
  {
    if items != [] {
      AddsOne(items[0]);
      WholesAdd(items[1..]);
      AddsConcat([Whole(items[0])], [items[0]], Wholes(items[1..]), items[1..]);
      assert [items[0]] + items[1..] == items;
    }
  }

  lemma {:induction false} ErrorLinesYield(names: seq<string>, offset: nat)
    requires AllWords(names)
    ensures Yields(ErrorLines(names, offset), Wholes(ErrorMacros(names, offset)))
    decreases |names|
  {
    if names == [] {
      QuietYields([]);
    } else {
      ErrorLineYields(names[0], offset);
      ErrorLinesYield(names[1..], offset + 1);
      var first := Macro(InitError(names[0]), Applied("CFE_SERIAL_ERROR", offset));
      var rest := ErrorMacros(names[1..], offset + 1);
      assert ([first] + rest)[1..] == rest;
      YieldsConcat(ErrorLine(names[0], offset), [Whole(first)], ErrorLines(names[1..], offset + 1), Wholes(rest));
    }
  }

  function ErrorItems(es: seq<Interface>): seq<Item> {
    [Guard("CFE_SRL_ERROR_H"), Macro("CFE_SRL_ERROR_H", Empty), Include("cfe_usr_error_macro.h")] +
    ErrorMacros(ReadyNames(es), FIRST_OFFSET) + [EndGuard]
  }

  lemma ErrorPreambleYields()
    ensures Yields(ErrorPreamble(),
              [Whole(Guard("CFE_SRL_ERROR_H")), Whole(Macro("CFE_SRL_ERROR_H", Empty)),
               Whole(Include("cfe_usr_error_macro.h"))])
  {
    ErrorWords();
    PreambleYields("CFE_SRL_ERROR_H", "cfe_usr_error_macro.h");
    assert Calm("*\n * Early Init error define\n ");
    RemarkYields(Joined, "*\n * Early Init error define\n ");
    var p := [Whole(Guard("CFE_SRL_ERROR_H")), Whole(Macro("CFE_SRL_ERROR_H", Empty)),
              Whole(Include("cfe_usr_error_macro.h"))];
    YieldsJoin(CommonPreamble("CFE_SRL_ERROR_H", "cfe_usr_error_macro.h"), p,
               Remark(Joined, "*\n * Early Init error define\n "), [], p);
  }

  lemma BlanksYield()
    ensures Yields(Blank() + Blank(), [])
  {
    BlankYields();
    YieldsJoin(Blank(), [], Blank(), [], []);
  }

  lemma ErrorBodyYields(preamble: seq<Lexeme>, p: seq<Phrase>, names: seq<string>)
    requires Yields(preamble, p) && AllWords(names)
    ensures Yields(preamble + ErrorLines(names, FIRST_OFFSET) + (Blank() + Blank()),
                   p + Wholes(ErrorMacros(names, FIRST_OFFSET)))
  {
    ErrorLinesYield(names, FIRST_OFFSET);
    BlanksYield();
    var ps := p + Wholes(ErrorMacros(names, FIRST_OFFSET));
    YieldsConcat(preamble, p, ErrorLines(names, FIRST_OFFSET), Wholes(ErrorMacros(names, FIRST_OFFSET)));
    YieldsJoin(preamble + ErrorLines(names, FIRST_OFFSET), ps, Blank() + Blank(), [], ps);
  }

  lemma ErrorBodyAdds(g: Item, m: Item, i: Item, names: seq<string>)
    ensures Adds([Whole(g), Whole(m), Whole(i)] + Wholes(ErrorMacros(names, FIRST_OFFSET)),
                 [g, m, i] + ErrorMacros(names, FIRST_OFFSET))
  {
    AddsThree(g, m, i);
    WholesAdd(ErrorMacros(names, FIRST_OFFSET));
    AddsConcat([Whole(g), Whole(m), Whole(i)], [g, m, i], Wholes(ErrorMacros(names, FIRST_OFFSET)),
               ErrorMacros(names, FIRST_OFFSET));
  }

  /** Parsing inverts the emission of the error header. */
  lemma ErrorHeaderRoundTrip(es: seq<Interface>)
    requires PlainNames(es)
    ensures Parse(ErrorText(es)) == Some(ErrorItems(es))
  {
    PlainNamesAreWords(es);
    ErrorWords();
    var names := ReadyNames(es);
    var g, m, i := Guard("CFE_SRL_ERROR_H"), Macro("CFE_SRL_ERROR_H", Empty), Include("cfe_usr_error_macro.h");
    var p := [Whole(g), Whole(m), Whole(i)];
    ErrorPreambleYields();
    ErrorBodyYields(ErrorPreamble(), p, names);
    ErrorBodyAdds(g, m, i, names);
    EndifParses(ErrorPreamble() + ErrorLines(names, FIRST_OFFSET) + (Blank() + Blank()),
                p + Wholes(ErrorMacros(names, FIRST_OFFSET)),
                [g, m, i] + ErrorMacros(names, FIRST_OFFSET), "CFE_SRL_ERROR_H");
  }
}
