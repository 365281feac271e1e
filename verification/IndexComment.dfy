// The comment in the source that lists the handles with their numbers, read back
// from the source's text.
module IndexComment {
  import opened Text
  import opened Lexing
  import opened Interfaces
  import opened Emission
  import opened Reading
  import opened HeaderReading
  import opened ProgramReading
  import opened Linking
  import opened Naming
  import opened Ambiguity
  import opened Lookup
  import opened Numbering

  datatype Row = Row(index: nat, name: string)

  // ----- reading the comment -----

  /** The lines of a text, of which there is at least one. */
  function Lines(s: string): (ls: seq<string>)
    ensures ls != []
  {
    if s == "" then [""]
    else
      var rest := Lines(s[1..]);
      if s[0] == '\n' then [""] + rest else [[s[0]] + rest[0]] + rest[1..]
  }

  function FirstBlank(s: string): (i: nat)
    ensures i <= |s|
  {
    if s == "" || s[0] == ' ' then 0 else 1 + FirstBlank(s[1..])
  }

  /** A line such as ` * 3 : UART0 Handle`. */
  function ReadRow(line: string): Option<Row> {
    if |line| < 3 || line[..3] != " * " then None
    else
      var rest := line[3..];
      var k := FirstBlank(rest);
      var n := ReadDecimal(rest[..k]);
      if n.None? || |rest| < k + 10 || rest[k..k + 3] != " : " || rest[|rest| - 7..] != " Handle" then None
      else Some(Row(n.value, rest[k + 3..|rest| - 7]))
  }

  function ReadRows(lines: seq<string>): Option<seq<Row>> {
    if lines == [] then Some([])
    else
      var first, rest := ReadRow(lines[0]), ReadRows(lines[1..]);
      if first.None? || rest.None? then None else Some([first.value] + rest.value)
  }

  /** A comment is the index if it has the index's title, and a row on every line up to the last. */
  function ReadIndex(body: string): Option<seq<Row>> {
    var lines := Lines(body);
    if |lines| < 3 || lines[0] != Stars(49) || lines[1] != " * Index of Each device" then None
    else ReadRows(lines[2..|lines| - 1])
  }

  /** The first comment that is the index. */
  function FindIndex(tokens: seq<Token>): Option<seq<Row>> {
    if tokens == [] then None
    else if tokens[0].Comment? && ReadIndex(tokens[0].body).Some? then ReadIndex(tokens[0].body)
    else FindIndex(tokens[1..])
  }

  // ----- the lines of the comment -----

  ghost predicate OneLine(s: string) {
    forall i :: 0 <= i < |s| ==> s[i] != '\n'
  }

  lemma {:induction false} LinesCons(a: string, s: string)
    requires OneLine(a)
    ensures Lines(a + "\n" + s) == [a] + Lines(s)
  {
    var t := a + "\n" + s;
    if a == "" {
      assert t[0] == '\n' && t[1..] == s;
    } else {
      LinesCons(a[1..], s);
      assert t[0] == a[0] && t[1..] == a[1..] + "\n" + s;
      assert [a[0]] + a[1..] == a;
    }
  }

  lemma {:induction false} LinesOfOne(a: string)
    requires OneLine(a)
    ensures Lines(a) == [a]
  {
    if a != "" {
      LinesOfOne(a[1..]);
      assert [a[0]] + a[1..] == a;
    }
  }

  function RowLine(row: Row): string {
    " * " + Decimal(row.index) + " : " + row.name + " Handle"
  }

  function RowLines(rows: seq<Row>): seq<string> {
    if rows == [] then [] else [RowLine(rows[0])] + RowLines(rows[1..])
  }

  /** The rows numbered from `index`. */
  function RowsFrom(names: seq<string>, index: nat): seq<Row> {
    if names == [] then [] else [Row(index, names[0])] + RowsFrom(names[1..], index + 1)
  }

  lemma IndexRowShape(index: nat, name: string)
    ensures IndexRow(index, name) == RowLine(Row(index, name)) + "\n"
  {
    assert " Handle\n" == " Handle" + "\n";
  }

  lemma RowLineIsOneLine(row: Row)
    requires OneLine(row.name)
    ensures OneLine(RowLine(row))
  {
    assert OneLine(" * ") && OneLine(Decimal(row.index)) && OneLine(" : ") && OneLine(" Handle");
  }

  lemma JoinLines(a: string, b: string, c: string)
    ensures a + "\n" + b + c == a + "\n" + (b + c)
  {
  }

  lemma {:induction false} IndexRowsLines(names: seq<string>, index: nat, tail: string)
    requires AllWords(names)
    ensures Lines(IndexRows(names, index) + tail) == RowLines(RowsFrom(names, index)) + Lines(tail)
    decreases |names|
  {
    if names == [] {
      assert "" + tail == tail;
    } else {
      var row, rest := Row(index, names[0]), IndexRows(names[1..], index + 1);
      IndexRowsLines(names[1..], index + 1, tail);
      IndexRowShape(index, names[0]);
      RowLineIsOneLine(row);
      LinesCons(RowLine(row), rest + tail);
      JoinLines(RowLine(row), rest, tail);
      assert RowsFrom(names, index)[1..] == RowsFrom(names[1..], index + 1);
    }
  }

  // ----- one row -----

  lemma {:induction false} FirstBlankIs(a: string, s: string)
    requires forall i :: 0 <= i < |a| ==> a[i] != ' '
    requires s != "" && s[0] == ' '
    ensures FirstBlank(a + s) == |a|
  {
    if a == "" {
      assert a + s == s;
    } else {
      FirstBlankIs(a[1..], s);
      assert (a + s)[0] == a[0] && (a + s)[1..] == a[1..] + s;
    }
  }

  lemma RowReads(row: Row)
    ensures ReadRow(RowLine(row)) == Some(row)
  {
    var line, digits := RowLine(row), Decimal(row.index);
    var rest := digits + (" : " + row.name + " Handle");
    NumeralRoundTrip(10, row.index);
    FirstBlankIs(digits, " : " + row.name + " Handle");
    assert line == " * " + rest;
    assert line[..3] == " * " && line[3..] == rest;
    RowRestReads(digits, row);
  }

  lemma RowRestReads(digits: string, row: Row)
    ensures var rest, k := digits + (" : " + row.name + " Handle"), |digits|;
            && rest[..k] == digits && |rest| >= k + 10 && rest[k..k + 3] == " : "
            && rest[|rest| - 7..] == " Handle" && rest[k + 3..|rest| - 7] == row.name
  {
  }

  lemma {:induction false} RowsRead(rows: seq<Row>)
    ensures ReadRows(RowLines(rows)) == Some(rows)
  {
    if rows != [] {
      RowReads(rows[0]);
      RowsRead(rows[1..]);
      assert RowLines(rows)[1..] == RowLines(rows[1..]);
      assert [rows[0]] + rows[1..] == rows;
    }
  }

  // ----- the whole comment -----

  /** The rows that the comment should hold: one per handle, or the padding slot's. */
  function TableRows(names: seq<string>): seq<Row> {
    if names == [] then [Row(0, "Not initializaed padding")] else RowsFrom(names, 0)
  }

  function Title(): string {
    " * Index of Each device"
  }

  lemma TwoLines(a: string, b: string, rest: string)
    requires OneLine(a) && OneLine(b)
    ensures Lines(a + ("\n" + b + "\n") + rest) == [a, b] + Lines(rest)
  {
    LinesCons(b, rest);
    LinesCons(a, b + "\n" + rest);
    assert a + ("\n" + b + "\n") + rest == a + "\n" + (b + "\n" + rest);
  }

  lemma TitleShape()
    ensures "\n * Index of Each device\n" == "\n" + Title() + "\n" && OneLine(Title())
  {
  }

  lemma TitledLines(rest: string)
    ensures Lines(Stars(49) + "\n * Index of Each device\n" + rest) == [Stars(49), Title()] + Lines(rest)
  {
    TitleShape();
    TwoLines(Stars(49), Title(), rest);
  }

  lemma EntryLinesOf(names: seq<string>, tail: string)
    requires AllWords(names)
    ensures Lines(IndexRows(names, 0) + PaddingRow(names) + tail) == RowLines(TableRows(names)) + Lines(tail)
  {
    if names == [] {
      PaddingRowShape();
      PaddingIsOneLine();
      RowLinesOfOne(Row(0, "Not initializaed padding"), tail);
      assert IndexRows(names, 0) + PaddingRow(names) + tail == PaddingRow([]) + tail;
    } else {
      IndexRowsLines(names, 0, tail);
      assert IndexRows(names, 0) + PaddingRow(names) + tail == IndexRows(names, 0) + tail;
    }
  }

  lemma RowLinesOfOne(row: Row, tail: string)
    requires OneLine(row.name)
    ensures Lines(RowLine(row) + "\n" + tail) == RowLines([row]) + Lines(tail)
  {
    RowLineIsOneLine(row);
    LinesCons(RowLine(row), tail);
    assert RowLines([row]) == [RowLine(row)] + RowLines([row][1..]);
  }

  lemma PaddingIsOneLine()
    ensures OneLine("Not initializaed padding")
  {
  }

  lemma PaddingRowShape()
    ensures PaddingRow([]) == RowLine(Row(0, "Not initializaed padding")) + "\n"
  {
    assert Decimal(0) == "0";
    PaddingParts();
  }

  lemma PaddingParts()
    ensures " * 0 : Not initializaed " + "padding Handle\n" ==
            " * " + "0" + " : " + "Not initializaed padding" + " Handle" + "\n"
  {
    PaddingStart();
    PaddingEnd();
  }

  lemma PaddingStart()
    ensures " * 0 : Not initializaed " == " * " + "0" + " : " + "Not initializaed "
  {
  }

  lemma PaddingEnd()
    ensures "padding Handle\n" == "padding" + " Handle" + "\n"
    ensures "Not initializaed padding" == "Not initializaed " + "padding"
  {
  }

  lemma IndexReads(names: seq<string>)
    requires AllWords(names)
    ensures ReadIndex(IndexTable(names)) == Some(TableRows(names))
  {
    IndexLines(names);
    IndexLinesRead(TableRows(names), " " + Stars(49));
  }

  lemma IndexLines(names: seq<string>)
    requires AllWords(names)
    ensures Lines(IndexTable(names)) == [Stars(49), Title()] + (RowLines(TableRows(names)) + [" " + Stars(49)])
  {
    var rows, tail := IndexRows(names, 0) + PaddingRow(names), " " + Stars(49);
    assert IndexTable(names) == Stars(49) + "\n * Index of Each device\n" + (rows + tail);
    TitledLines(rows + tail);
    EntryLinesOf(names, tail);
    assert OneLine(tail);
    LinesOfOne(tail);
  }

  lemma IndexLinesRead(rows: seq<Row>, tail: string)
    ensures var lines := [Stars(49), Title()] + (RowLines(rows) + [tail]);
            |lines| >= 3 && ReadRows(lines[2..|lines| - 1]) == Some(rows)
  {
    Middle([Stars(49), Title()], RowLines(rows), tail);
    RowsRead(rows);
  }

  lemma Middle(a: seq<string>, b: seq<string>, last: string)
    ensures (a + (b + [last]))[|a|..|a + (b + [last])| - 1] == b
  {
  }

  // ----- the other comments -----

  ghost predicate NoIndex(ts: seq<Token>) {
    forall i :: 0 <= i < |ts| && ts[i].Comment? ==> ReadIndex(ts[i].body) == None
  }

  lemma NotStarred(body: string)
    requires body != "" && body[0] != '*'
    ensures ReadIndex(body) == None
  {
    assert Stars(49)[0] == '*';
  }

  lemma OneStar(body: string)
    requires |body| >= 2 && body[0] == '*' && body[1] == '\n'
    ensures ReadIndex(body) == None
  {
    assert body[1..][0] == '\n' && Lines(body[1..])[0] == "";
    assert Lines(body)[0] == ['*'] + "";
    assert |Stars(49)| == 49;
  }

  lemma {:induction false} FindIndexAfter(a: seq<Token>, b: seq<Token>)
    requires NoIndex(a)
    ensures FindIndex(a + b) == FindIndex(b)
  {
    if a == [] {
      assert a + b == b;
    } else {
      FindIndexAfter(a[1..], b);
      assert (a + b)[0] == a[0] && (a + b)[1..] == a[1..] + b;
    }
  }

  lemma RemarkIsNoIndex(before: Layout, body: string)
    requires ReadIndex(body) == None
    ensures NoIndex(TokensOf(Remark(before, body)))
  {
    assert TokensOf(Remark(before, body)) == [Comment(body), Line];
  }

  lemma NoIndexConcat(a: seq<Lexeme>, b: seq<Lexeme>)
    requires NoIndex(TokensOf(a)) && NoIndex(TokensOf(b))
    ensures NoIndex(TokensOf(a + b))
  {
    TokensConcat(a, b);
  }

  lemma NoIndexJoin(a: seq<Lexeme>, b: seq<Lexeme>, c: seq<Lexeme>, d: seq<Lexeme>, e: seq<Lexeme>, f: seq<Lexeme>)
    requires NoIndex(TokensOf(a)) && NoIndex(TokensOf(b)) && NoIndex(TokensOf(c))
    requires NoIndex(TokensOf(d)) && NoIndex(TokensOf(e)) && NoIndex(TokensOf(f))
    ensures NoIndex(TokensOf(a + b + c + d + e + f))
  {
    NoIndexConcat(a, b);
    NoIndexConcat(a + b, c);
    NoIndexConcat(a + b + c, d);
    NoIndexConcat(a + b + c + d, e);
    NoIndexConcat(a + b + c + d + e, f);
  }

  lemma PreambleHasNoIndex()
    ensures NoIndex(TokensOf(SourcePreamble() + HandlesLine()))
  {
    NoticeHasNoIndex();
    TitlesHaveNoIndex();
    NoIndexJoin(Notice(), Remark(Joined, "*\n * Required header files\n"), IncludeLine("cfe_srl_module_all.h"), Blank(),
                Remark(Joined, "*\n * Global data\n"), HandlesLine());
  }

  lemma TitlesHaveNoIndex()
    ensures NoIndex(TokensOf(Remark(Joined, "*\n * Required header files\n")))
    ensures NoIndex(TokensOf(Remark(Joined, "*\n * Global data\n")))
  {
    OneStar("*\n * Required header files\n");
    OneStar("*\n * Global data\n");
    RemarkIsNoIndex(Joined, "*\n * Required header files\n");
    RemarkIsNoIndex(Joined, "*\n * Global data\n");
  }

  lemma NoticeHasNoIndex()
    ensures NoIndex(TokensOf(Notice()))
  {
    var body := " Auto-Generated file. " + "Never change this code! ";
    assert body[0] == ' ';
    NotStarred(body);
    RemarkIsNoIndex(Joined, body);
  }

  // ----- the source -----

  lemma SourceShape(es: seq<Interface>) returns (rest: seq<Lexeme>)
    ensures InitSource(es) ==
            (SourcePreamble() + HandlesLine()) + (Remark(Joined, IndexTable(HandleNames(es))) + (Blank() + rest))
  {
    var names := HandleNames(es);
    var end := if AllHaveKeys(es) then SourceEnd() else [];
    var tail := FunctionLine() + PriorLines() + Remark(Tab, Heading());
    rest := GpioArrayLine() + Remark(Joined, Banner()) + (tail + EntryLines(es) + end);
    SourcePrologueShape(names);
    assert InitSource(es) == SourcePrologue(names) + EntryLines(es) + end;
    RegroupSource(SourcePreamble() + HandlesLine(), Remark(Joined, IndexTable(names)), Blank(), GpioArrayLine(),
                  Remark(Joined, Banner()), FunctionLine(), PriorLines(), Remark(Tab, Heading()), EntryLines(es), end);
  }

  lemma RegroupSource(a: seq<Lexeme>, b: seq<Lexeme>, c: seq<Lexeme>, d: seq<Lexeme>, e: seq<Lexeme>, f: seq<Lexeme>,
                      g: seq<Lexeme>, h: seq<Lexeme>, i: seq<Lexeme>, j: seq<Lexeme>)
    ensures a + (b + c) + d + e + f + g + h + i + j == a + (b + (c + (d + e + (f + g + h + i + j))))
  {
  }

  /** Read back from the source's text, complete or cut short, the index lists the handles in order. */
  lemma IndexCommentReads(es: seq<Interface>)
    requires AllPrintable(es)
    ensures Lex(SourceText(es)).Some? && FindIndex(Lex(SourceText(es)).value) == Some(TableRows(HandleNames(es)))
  {
    var names := HandleNames(es);
    SourceLegible(es);
    LexSpell(InitSource(es));
    PlainNamesAreWords(es);
    var rest := SourceShape(es);
    IndexFound(SourcePreamble() + HandlesLine(), names, Blank() + rest);
  }

  lemma IndexFound(start: seq<Lexeme>, names: seq<string>, rest: seq<Lexeme>)
    requires AllWords(names)
    requires start == SourcePreamble() + HandlesLine()
    ensures FindIndex(TokensOf(start + (Remark(Joined, IndexTable(names)) + rest))) == Some(TableRows(names))
  {
    var remark := Remark(Joined, IndexTable(names));
    PreambleHasNoIndex();
    IndexReads(names);
    TokensConcat(remark, rest);
    TokensConcat(start, remark + rest);
    FindIndexAfter(TokensOf(start), TokensOf(remark + rest));
    assert TokensOf(remark + rest)[0] == Comment(IndexTable(names));
  }

  // ----- agreement with the other file -----

  lemma {:induction false} RowAt(names: seq<string>, index: nat, i: nat)
    requires i < |names|
    ensures |RowsFrom(names, index)| == |names| && RowsFrom(names, index)[i] == Row(index + i, names[i])
    decreases |names|
  {
    if |names| > 1 { RowAt(names[1..], index + 1, if i == 0 then 0 else i - 1); }
  }

  lemma HandleConstant(p: Program, es: seq<Interface>, i: nat)
    requires HasHeaders(p, es) && DistinctNames(es) && i < |HandleNames(es)|
    ensures ConstValue(p, HandleIndexer(HandleNames(es)[i])) == Some(i)
  {
    var names := HandleNames(es);
    DistinctWithinKinds(es);
    assert names == names[..i] + [names[i]] + names[i + 1..];
    HandleAt(names, names[..i], names[i], names[i + 1..]);
    EnumMission(es, HandleIndexer(names[i]));
    IndexerIsNoBuiltin(names[i]);
  }

  /** One row per ready general entry, in order, with the number of its constant in the headers' texts. */
  ghost predicate Agrees(es: seq<Interface>, rows: seq<Row>) {
    && |rows| == GeneralCount(es) == |HandleNames(es)|
    && forall i :: 0 <= i < |rows| ==>
         rows[i] == Row(i, HandleNames(es)[i]) && Constant(es, HandleIndexer(rows[i].name)) == Some(rows[i].index)
  }

  lemma TableRowsAgree(es: seq<Interface>)
    requires Numberable(es) && GeneralCount(es) > 0
    ensures Agrees(es, TableRows(HandleNames(es)))
  {
    var names := HandleNames(es);
    HeadersParse(es);
    NameCounts(es);
    RowAt(names, 0, 0);
    forall i | 0 <= i < |names|
      ensures RowsFrom(names, 0)[i] == Row(i, names[i])
      ensures Constant(es, HandleIndexer(names[i])) == Some(i)
    {
      RowAt(names, 0, i);
      HandleConstant(Headers(es).value, es, i);
    }
  }

  /**
   * The comment in the source's text has exactly one row per ready general entry, in order,
   * and gives each handle the number that the enumeration in the mission header's text gives it.
   */
  lemma CommentAgreesWithEnum(es: seq<Interface>) returns (rows: seq<Row>)
    requires AllPrintable(es) && DistinctNames(es) && GeneralCount(es) > 0
    ensures Lex(SourceText(es)).Some? && FindIndex(Lex(SourceText(es)).value) == Some(rows)
    ensures Agrees(es, rows)
  {
    rows := TableRows(HandleNames(es));
    IndexCommentReads(es);
    TableRowsAgree(es);
  }
}
