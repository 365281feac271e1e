// The subset of C that the configuration tool emits: abstract syntax, a parser
// from text, and the rules by which a piece of text contributes its phrases.
//
// The parser works in three steps. Tokens are cut into chunks, a directive
// ending with its line and anything else with `;`, `{` or `}`. Each chunk is
// read as one phrase. Phrases are assembled into the items of a file.
module Grammar {
  import opened Text
  import opened Lexing

  // ----- abstract syntax -----

  datatype Expr =
    | Number(value: nat)
    | Name(id: string)
    | Str(text: string)
    | AddressOf(table: string, index: string)
    | Member(table: string, index: string, field: string)
    | CastMember(cast: string, table: string, index: string, field: string)

  datatype Simple =
    | Declare(typeName: string, variable: string)
    | Assign(variable: string, callee: string, args: seq<Expr>)
    | Invoke(callee: string, args: seq<Expr>)
    | Return(value: Expr)

  /** `IfNot` is `if (variable != expected) body`. */
  datatype Stmt =
    | Do(simple: Simple)
    | IfNot(variable: string, expected: string, body: seq<Simple>)

  datatype MacroBody =
    | Empty
    | Literal(value: nat)
    | Offset(id: string, value: nat)
    | Applied(macro: string, value: nat)

  datatype Item =
    | Guard(symbol: string)
    | EndGuard
    | Include(path: string)
    | Macro(name: string, replacement: MacroBody)
    | Enumeration(constants: seq<string>, tag: string)
    | ArrayOf(element: string, pointer: bool, name: string, size: string)
    | Function(result: string, name: string, body: seq<Stmt>)

  // ----- chunks -----

  datatype Cutter = Cutter(chunks: seq<seq<Token>>, current: seq<Token>)

  predicate IsDirective(ts: seq<Token>) {
    ts != [] && ts[0] == Mark('#')
  }

  predicate EndsChunk(t: Token) {
    t == Mark(';') || t == Mark('{') || t == Mark('}')
  }

  function CutStep(k: Cutter, t: Token): Cutter {
    if t.Comment? then k
    else if t.Line? then
      if IsDirective(k.current) then Cutter(k.chunks + [k.current], []) else k
    else if EndsChunk(t) && !IsDirective(k.current) then Cutter(k.chunks + [k.current + [t]], [])
    else Cutter(k.chunks, k.current + [t])
  }

  function Cut(k: Cutter, ts: seq<Token>): Cutter
    decreases |ts|
  {
    if ts == [] then k else Cut(CutStep(k, ts[0]), ts[1..])
  }

  /** A file may end inside a directive, but not inside anything else. */
  function Chunks(ts: seq<Token>): Option<seq<seq<Token>>> {
    var k := Cut(Cutter([], []), ts);
    if k.current == [] then Some(k.chunks)
    else if IsDirective(k.current) then Some(k.chunks + [k.current])
    else None
  }

  // ----- phrases -----

  datatype Phrase =
    | Whole(item: Item)
    | EnumOpen
    | EnumNames(ids: seq<string>)
    | EnumTag(tag: string)
    | FunctionOpen(result: string, name: string)
    | Plain(simple: Simple)
    | Conditional(variable: string, expected: string, simple: Simple)
    | BranchOpen(variable: string, expected: string)
    | Close

  function ReadWord(text: string): Expr {
    var n := ReadDecimal(text);
    if n.Some? then Number(n.value) else Name(text)
  }

  function ReadExpr(ts: seq<Token>): Option<Expr> {
    if |ts| == 1 && ts[0].Word? then Some(ReadWord(ts[0].text))
    else if |ts| == 1 && ts[0].Quoted? then Some(Str(ts[0].text))
    else if |ts| == 5 && ts[0] == Mark('&') && ts[1].Word? && ts[2] == Mark('[') && ts[3].Word? &&
      ts[4] == Mark(']') then
      Some(AddressOf(ts[1].text, ts[3].text))
    else if |ts| == 7 && ts[0].Word? && ts[1] == Mark('[') && ts[2].Word? && ts[3] == Mark(']') &&
            ts[4] == Mark('-') && ts[5] == Mark('>') && ts[6].Word? then
      Some(Member(ts[0].text, ts[2].text, ts[6].text))
    else if |ts| == 13 && ts[0] == Mark('(') && ts[1] == Mark('(') && ts[2].Word? && ts[3] == Mark('*') &&
      ts[4] == Mark(')') &&
            ts[5].Word? && ts[6] == Mark('[') && ts[7].Word? && ts[8] == Mark(']') && ts[9] == Mark(')') &&
            ts[10] == Mark('-') && ts[11] == Mark('>') && ts[12].Word? then
      Some(CastMember(ts[2].text, ts[5].text, ts[7].text, ts[12].text))
    else None
  }

  /** The position of the first comma, or the length. */
  function FirstComma(ts: seq<Token>): (n: nat)
    ensures n <= |ts|
    ensures n < |ts| ==> ts[n] == Mark(',')
    ensures forall i :: 0 <= i < n ==> ts[i] != Mark(',')
  {
    if ts == [] || ts[0] == Mark(',') then 0 else 1 + FirstComma(ts[1..])
  }

  function ReadArgs(ts: seq<Token>): Option<seq<Expr>>
    decreases |ts|
  {
    var n := FirstComma(ts);
    var first := ReadExpr(ts[..n]);
    if first.None? then None
    else if n == |ts| then Some([first.value])
    else
      var rest := ReadArgs(ts[n + 1..]);
      if rest.None? then None else Some([first.value] + rest.value)
  }

  /** Enumerators separated by commas, with or without a trailing comma. */
  function ReadNames(ts: seq<Token>): Option<seq<string>>
    decreases |ts|
  {
    if ts == [] then Some([])
    else if !ts[0].Word? then None
    else if |ts| == 1 then Some([ts[0].text])
    else if ts[1] != Mark(',') then None
    else
      var rest := ReadNames(ts[2..]);
      if rest.None? then None else Some([ts[0].text] + rest.value)
  }

  function ReadMacroBody(ts: seq<Token>): Option<MacroBody> {
    if ts == [] then Some(Empty)
    else if |ts| == 1 && ts[0].Word? && ReadDecimal(ts[0].text).Some? then
      Some(Literal(ReadDecimal(ts[0].text).value))
    else if |ts| == 5 && ts[0] == Mark('(') && ts[1].Word? && ts[2] == Mark('+') && ts[3].Word? && ts[4] == Mark(')') &&
            ReadDecimal(ts[3].text).Some? then
      Some(Offset(ts[1].text, ReadDecimal(ts[3].text).value))
    else if |ts| == 4 && ts[0].Word? && ts[1] == Mark('(') && ts[2].Word? && ts[3] == Mark(')') &&
            ReadDecimal(ts[2].text).Some? then
      Some(Applied(ts[0].text, ReadDecimal(ts[2].text).value))
    else None
  }

  function ReadDirective(c: seq<Token>): Option<Phrase> {
    if |c| == 3 && c[1] == Word("ifndef") && c[2].Word? then Some(Whole(Guard(c[2].text)))
    else if |c| == 2 && c[1] == Word("endif") then Some(Whole(EndGuard))
    else if |c| == 3 && c[1] == Word("include") && c[2].Quoted? then Some(Whole(Include(c[2].text)))
    else if |c| >= 3 && c[1] == Word("define") && c[2].Word? then
      var body := ReadMacroBody(c[3..]);
      if body.None? then None else Some(Whole(Macro(c[2].text, body.value)))
    else None
  }

  predicate IsTest(c: seq<Token>) {
    |c| >= 7 && c[0] == Word("if") && c[1] == Mark('(') && c[2].Word? && c[3] == Mark('!') && c[4] == Mark('=') &&
    c[5].Word? && c[6] == Mark(')')
  }

  function ReadOpening(c: seq<Token>): Option<Phrase> {
    if |c| == 3 && c[0] == Word("typedef") && c[1] == Word("enum") then Some(EnumOpen)
    else if |c| == 6 && c[0].Word? && c[1].Word? && c[2] == Mark('(') && c[3] == Word("void") && c[4] == Mark(')') then
      Some(FunctionOpen(c[0].text, c[1].text))
    else if |c| == 8 && IsTest(c) then Some(BranchOpen(c[2].text, c[5].text))
    else None
  }

  function ReadConditional(c: seq<Token>): Option<Phrase> {
    if |c| == 10 && IsTest(c) && c[7] == Word("return") && c[8].Word? then
      Some(Conditional(c[2].text, c[5].text, Return(ReadWord(c[8].text))))
    else None
  }

  /** `variable = callee(args);` */
  function ReadAssign(c: seq<Token>): Option<Phrase>
    requires c != [] && c[0].Word?
  {
    var n := |c|;
    if n < 6 || !c[2].Word? || c[3] != Mark('(') || c[n - 2] != Mark(')') then None
    else if n == 6 then Some(Plain(Assign(c[0].text, c[2].text, [])))
    else
      var args := ReadArgs(c[4..n - 2]);
      if args.None? then None else Some(Plain(Assign(c[0].text, c[2].text, args.value)))
  }

  /** `callee(args);` with at least one argument. */
  function ReadInvoke(c: seq<Token>): Option<Phrase>
    requires c != [] && c[0].Word?
  {
    var n := |c|;
    if n < 5 || c[n - 2] != Mark(')') then None
    else
      var args := ReadArgs(c[2..n - 2]);
      if args.None? then None else Some(Plain(Invoke(c[0].text, args.value)))
  }

  function ReadPointerArray(c: seq<Token>): Option<Phrase>
    requires c != [] && c[0].Word?
  {
    if |c| == 7 && c[2].Word? && c[3] == Mark('[') && c[4].Word? && c[5] == Mark(']') then
      Some(Whole(ArrayOf(c[0].text, true, c[2].text, c[4].text)))
    else None
  }

  function ReadDeclaration(c: seq<Token>): Option<Phrase>
    requires |c| > 1 && c[0].Word? && c[1].Word?
  {
    if |c| == 3 && c[0] == Word("return") then Some(Plain(Return(ReadWord(c[1].text))))
    else if |c| == 3 then Some(Plain(Declare(c[0].text, c[1].text)))
    else if |c| == 6 && c[2] == Mark('[') && c[3].Word? && c[4] == Mark(']') then
      Some(Whole(ArrayOf(c[0].text, false, c[1].text, c[3].text)))
    else None
  }

  /** What ends in `;`, told apart by its second token. */
  function ReadStatement(c: seq<Token>): Option<Phrase> {
    if |c| < 2 || !c[0].Word? then None
    else match c[1]
      case Word(_) => ReadDeclaration(c)
      case Mark(sign) =>
        if sign == ';' then if |c| == 2 then Some(EnumTag(c[0].text)) else None
        else if sign == '=' then ReadAssign(c)
        else if sign == '*' then ReadPointerArray(c)
        else if sign != '(' then None
        else if c[0] == Word("if") then ReadConditional(c)
        else ReadInvoke(c)
      case _ => None
  }

  function ReadPhrase(c: seq<Token>): Option<Phrase> {
    if c == [] then None
    else if IsDirective(c) then ReadDirective(c)
    else match c[|c| - 1]
      case Mark(sign) =>
        if sign == '{' then ReadOpening(c)
        else if sign == ';' then ReadStatement(c)
        else if sign != '}' then None
        else if |c| == 1 then Some(Close)
        else
          var ids := ReadNames(c[..|c| - 1]);
          if ids.None? then None else Some(EnumNames(ids.value))
      case _ => None
  }

  function ReadAll(cs: seq<seq<Token>>): Option<seq<Phrase>> {
    if cs == [] then Some([])
    else
      var first := ReadPhrase(cs[0]);
      var rest := ReadAll(cs[1..]);
      if first.None? || rest.None? then None else Some([first.value] + rest.value)
  }

  // ----- assembly -----

  datatype Branch = Branch(variable: string, expected: string, body: seq<Simple>)

  datatype Open =
    | Top
    | EnumStart
    | EnumDone(ids: seq<string>)
    | InFunction(result: string, name: string, body: seq<Stmt>, branch: Option<Branch>)
    | Broken

  datatype Assembly = Assembly(items: seq<Item>, open: Open)

  function Assemble(a: Assembly, p: Phrase): Assembly {
    match (a.open, p)
    case (Top, Whole(item)) => Assembly(a.items + [item], Top)
    case (Top, EnumOpen) => Assembly(a.items, EnumStart)
    case (EnumStart, EnumNames(ids)) => Assembly(a.items, EnumDone(ids))
    case (EnumDone(ids), EnumTag(tag)) => Assembly(a.items + [Enumeration(ids, tag)], Top)
    case (Top, FunctionOpen(result, name)) => Assembly(a.items, InFunction(result, name, [], None))
    case (InFunction(result, name, body, None), Plain(simple)) =>
      Assembly(a.items, InFunction(result, name, body + [Do(simple)], None))
    case (InFunction(result, name, body, None), Conditional(variable, expected, simple)) =>
      Assembly(a.items, InFunction(result, name, body + [IfNot(variable, expected, [simple])], None))
    case (InFunction(result, name, body, None), BranchOpen(variable, expected)) =>
      Assembly(a.items, InFunction(result, name, body, Some(Branch(variable, expected, []))))
    case (InFunction(result, name, body, Some(Branch(variable, expected, inner))), Plain(simple)) =>
      Assembly(a.items, InFunction(result, name, body, Some(Branch(variable, expected, inner + [simple]))))
    case (InFunction(result, name, body, Some(Branch(variable, expected, inner))), Close) =>
      Assembly(a.items, InFunction(result, name, body + [IfNot(variable, expected, inner)], None))
    case (InFunction(result, name, body, None), Close) =>
      Assembly(a.items + [Function(result, name, body)], Top)
    case _ => Assembly(a.items, Broken)
  }

  function AssembleAll(a: Assembly, ps: seq<Phrase>): Assembly
    decreases |ps|
  {
    if ps == [] then a else AssembleAll(Assemble(a, ps[0]), ps[1..])
  }

  function ParsePhrases(text: string): Option<seq<Phrase>> {
    var ts := Lex(text);
    if ts.None? then None
    else
      var cs := Chunks(ts.value);
      if cs.None? then None else ReadAll(cs.value)
  }

  /** The items of a whole file, if all of it is in the subset. */
  function Parse(text: string): Option<seq<Item>> {
    var ps := ParsePhrases(text);
    if ps.None? then None
    else
      var a := AssembleAll(Assembly([], Top), ps.value);
      if a.open.Top? then Some(a.items) else None
  }

  // ----- how a piece of text contributes phrases -----

  /** These lexemes are legible, end between two chunks, and read as these phrases. */
  ghost predicate Yields(xs: seq<Lexeme>, ps: seq<Phrase>) {
    Legible(xs) &&
    var k := Cut(Cutter([], []), TokensOf(xs));
    k.current == [] && ReadAll(k.chunks) == Some(ps)
  }

  lemma {:induction false} CutConcat(k: Cutter, a: seq<Token>, b: seq<Token>)
    ensures Cut(k, a + b) == Cut(Cut(k, a), b)
    decreases |a|
  {
    if a == [] {
      assert a + b == b;
    } else {
      CutConcat(CutStep(k, a[0]), a[1..], b);
      assert (a + b)[1..] == a[1..] + b;
    }
  }

  lemma {:induction false} CutPrepend(done: seq<seq<Token>>, k: Cutter, ts: seq<Token>)
    ensures Cut(Cutter(done + k.chunks, k.current), ts) ==
            Cutter(done + Cut(k, ts).chunks, Cut(k, ts).current)
    decreases |ts|
  {
    if ts != [] {
      var next := CutStep(k, ts[0]);
      assert CutStep(Cutter(done + k.chunks, k.current), ts[0]) == Cutter(done + next.chunks, next.current) by {
        assert done + (k.chunks + [k.current]) == done + k.chunks + [k.current];
        assert done + (k.chunks + [k.current + [ts[0]]]) == done + k.chunks + [k.current + [ts[0]]];
      }
      CutPrepend(done, next, ts[1..]);
    }
  }

  lemma {:induction false} ReadAllConcat(a: seq<seq<Token>>, b: seq<seq<Token>>)
    requires ReadAll(a).Some? && ReadAll(b).Some?
    ensures ReadAll(a + b) == Some(ReadAll(a).value + ReadAll(b).value)
  {
    if a == [] {
      assert a + b == b;
      assert ReadAll(a).value + ReadAll(b).value == ReadAll(b).value;
    } else {
      ReadAllConcat(a[1..], b);
      assert (a + b)[1..] == a[1..] + b;
      assert (a + b)[0] == a[0];
      var first, mine, theirs := ReadPhrase(a[0]).value, ReadAll(a[1..]).value, ReadAll(b).value;
      assert ReadAll(a + b) == Some([first] + (mine + theirs));
      assert [first] + (mine + theirs) == [first] + mine + theirs;
    }
  }

  lemma YieldsConcat(a: seq<Lexeme>, ps: seq<Phrase>, b: seq<Lexeme>, qs: seq<Phrase>)
    requires Yields(a, ps) && Yields(b, qs)
    ensures Yields(a + b, ps + qs)
  {
    LegibleConcat(a, b);
    var start := Cutter([], []);
    var ka, kb := Cut(start, TokensOf(a)), Cut(start, TokensOf(b));
    CutConcat(start, TokensOf(a), TokensOf(b));
    assert ka.chunks + [] == ka.chunks;
    CutPrepend(ka.chunks, start, TokensOf(b));
    ReadAllConcat(ka.chunks, kb.chunks);
  }

  lemma YieldsJoin(a: seq<Lexeme>, ps: seq<Phrase>, b: seq<Lexeme>, qs: seq<Phrase>, all: seq<Phrase>)
    requires Yields(a, ps) && Yields(b, qs) && all == ps + qs
    ensures Yields(a + b, all)
  {
    YieldsConcat(a, ps, b, qs);
  }

  /** What the parser makes of a file whose lexemes yield the given phrases. */
  lemma ParseYields(xs: seq<Lexeme>, ps: seq<Phrase>)
    requires Yields(xs, ps)
    ensures ParsePhrases(Spell(xs)) == Some(ps)
  {
    LexSpell(xs);
  }

  /** The same when a directive and a comment run to the end of the file. */
  lemma ParseYieldsThenDirective(xs: seq<Lexeme>, ps: seq<Phrase>, ys: seq<Lexeme>, c: seq<Token>, p: Phrase,
                                 tail: seq<Token>)
    requires Yields(xs, ps)
    requires Legible(ys) && TokensOf(ys) == c + tail
    requires IsDirective(c) && PlainTokens(c) && Quiet(tail) && Line !in tail
    requires ReadPhrase(c) == Some(p)
    ensures ParsePhrases(Spell(xs + ys)) == Some(ps + [p])
  {
    LegibleConcat(xs, ys);
    LexSpell(xs + ys);
    var start := Cutter([], []);
    var k := Cut(start, TokensOf(xs));
    CutConcat(start, TokensOf(xs), TokensOf(ys));
    CutConcat(k, c, tail);
    CutDirectiveBody(k.chunks, c);
    CutComments(Cutter(k.chunks, c), tail);
    ReadOne(c, p);
    ReadAllConcat(k.chunks, [c]);
  }

  // ----- reading one line -----

  ghost predicate PlainTokens(ts: seq<Token>) {
    forall i :: 0 <= i < |ts| ==> !ts[i].Comment? && !ts[i].Line?
  }

  /** Tokens that leave no trace between chunks. */
  ghost predicate Quiet(ts: seq<Token>) {
    forall i :: 0 <= i < |ts| ==> ts[i].Comment? || ts[i].Line?
  }

  /** A chunk that ends with its only terminator. */
  ghost predicate IsChunk(c: seq<Token>) {
    && c != [] && !IsDirective(c) && PlainTokens(c) && EndsChunk(c[|c| - 1])
    && forall i :: 0 <= i < |c| - 1 ==> !EndsChunk(c[i])
  }

  /** Tokens that may stand inside a chunk. */
  ghost predicate Inner(ts: seq<Token>) {
    PlainTokens(ts) && forall i :: 0 <= i < |ts| ==> !EndsChunk(ts[i])
  }

  lemma InnerConcat(a: seq<Token>, b: seq<Token>)
    requires Inner(a) && Inner(b)
    ensures Inner(a + b)
  {
  }

  lemma ChunkOf(body: seq<Token>, end: Token)
    requires body != [] && !IsDirective(body) && Inner(body) && EndsChunk(end)
    ensures IsChunk(body + [end])
  {
  }

  lemma {:induction false} CutBody(chunks: seq<seq<Token>>, current: seq<Token>, ts: seq<Token>)
    requires PlainTokens(ts)
    requires !IsDirective(current) && (current == [] ==> !IsDirective(ts))
    requires forall i :: 0 <= i < |ts| ==> !EndsChunk(ts[i])
    ensures Cut(Cutter(chunks, current), ts) == Cutter(chunks, current + ts)
    decreases |ts|
  {
    if ts == [] {
      assert current + ts == current;
    } else {
      CutBody(chunks, current + [ts[0]], ts[1..]);
      assert current + ts == current + [ts[0]] + ts[1..];
    }
  }

  lemma CutDirectiveBody(chunks: seq<seq<Token>>, c: seq<Token>)
    requires IsDirective(c) && PlainTokens(c)
    ensures Cut(Cutter(chunks, []), c) == Cutter(chunks, c)
  {
    assert [] + [c[0]] == [c[0]];
    CutDirectiveRest(chunks, [c[0]], c[1..]);
    assert [c[0]] + c[1..] == c;
  }

  lemma {:induction false} CutDirectiveRest(chunks: seq<seq<Token>>, current: seq<Token>, ts: seq<Token>)
    requires IsDirective(current) && PlainTokens(ts)
    ensures Cut(Cutter(chunks, current), ts) == Cutter(chunks, current + ts)
    decreases |ts|
  {
    if ts == [] {
      assert current + ts == current;
    } else {
      CutDirectiveRest(chunks, current + [ts[0]], ts[1..]);
      assert current + ts == current + [ts[0]] + ts[1..];
    }
  }

  lemma {:induction false} CutComments(k: Cutter, ts: seq<Token>)
    requires Quiet(ts) && (k.current == [] || Line !in ts)
    ensures Cut(k, ts) == k
    decreases |ts|
  {
    if ts != [] {
      assert ts[0] in ts;
      CutComments(k, ts[1..]);
    }
  }

  lemma ReadOne(c: seq<Token>, p: Phrase)
    requires ReadPhrase(c) == Some(p)
    ensures ReadAll([c]) == Some([p])
  {
    var cs := [c];
    assert cs[1..] == [] && ReadAll(cs[1..]) == Some([]);
    assert [p] + [] == [p];
  }

  /** A statement, and any comments and line ends around it, yields one phrase. */
  lemma StatementYields(xs: seq<Lexeme>, head: seq<Token>, c: seq<Token>, tail: seq<Token>, p: Phrase)
    requires Legible(xs) && TokensOf(xs) == head + c + tail
    requires IsChunk(c) && Quiet(head) && Quiet(tail)
    requires ReadPhrase(c) == Some(p)
    ensures Yields(xs, [p])
  {
    var start := Cutter([], []);
    var body, end := c[..|c| - 1], c[|c| - 1];
    assert c == body + [end];
    CutConcat(start, head + c, tail);
    CutConcat(start, head, c);
    CutComments(start, head);
    CutConcat(start, body, [end]);
    CutBody([], [], body);
    assert [] + body == body;
    assert Cut(Cutter([], body), [end]) == CutStep(Cutter([], body), end) by { assert [end][1..] == []; }
    assert [] + [c] == [c];
    CutComments(Cutter([c], []), tail);
    ReadOne(c, p);
  }

  /** A directive, any comments on its line, and what follows its line end. */
  lemma DirectiveYields(xs: seq<Lexeme>, c: seq<Token>, remarks: seq<Token>, tail: seq<Token>, p: Phrase)
    requires Legible(xs) && TokensOf(xs) == c + remarks + [Line] + tail
    requires IsDirective(c) && PlainTokens(c) && Quiet(remarks) && Line !in remarks && Quiet(tail)
    requires ReadPhrase(c) == Some(p)
    ensures Yields(xs, [p])
  {
    var start := Cutter([], []);
    CutConcat(start, c + remarks + [Line], tail);
    CutConcat(start, c + remarks, [Line]);
    CutConcat(start, c, remarks);
    CutDirectiveBody([], c);
    CutComments(Cutter([], c), remarks);
    assert Cut(Cutter([], c), [Line]) == CutStep(Cutter([], c), Line) by { assert [Line][1..] == []; }
    assert [] + [c] == [c];
    CutComments(Cutter([c], []), tail);
    ReadOne(c, p);
  }

  /** Comments and line ends alone yield nothing. */
  lemma QuietYields(xs: seq<Lexeme>)
    requires Legible(xs) && Quiet(TokensOf(xs))
    ensures Yields(xs, [])
  {
    CutComments(Cutter([], []), TokensOf(xs));
  }

  // ----- argument lists and names -----

  lemma {:induction false} FirstCommaAt(a: seq<Token>, rest: seq<Token>)
    requires forall i :: 0 <= i < |a| ==> a[i] != Mark(',')
    ensures FirstComma(a) == |a|
    ensures FirstComma(a + [Mark(',')] + rest) == |a|
  {
    assert (a + [Mark(',')] + rest)[|a|] == Mark(',');
    assert forall i :: 0 <= i < |a| ==> (a + [Mark(',')] + rest)[i] == a[i];
  }

  ghost predicate CommaFree(ts: seq<Token>) {
    forall i :: 0 <= i < |ts| ==> ts[i] != Mark(',')
  }

  /** A comma-free run of tokens that reads as one expression. */
  ghost predicate IsArg(a: seq<Token>, e: Expr) {
    CommaFree(a) && Inner(a) && ReadExpr(a) == Some(e)
  }

  lemma LastArg(a: seq<Token>, e: Expr)
    requires IsArg(a, e)
    ensures ReadArgs(a) == Some([e])
  {
    FirstCommaAt(a, []);
    assert a[..|a|] == a;
  }

  lemma NextArg(a: seq<Token>, e: Expr, rest: seq<Token>, es: seq<Expr>)
    requires IsArg(a, e) && ReadArgs(rest) == Some(es)
    ensures ReadArgs(a + [Mark(',')] + rest) == Some([e] + es)
  {
    var ts := a + [Mark(',')] + rest;
    FirstCommaAt(a, rest);
    assert ts[..|a|] == a;
    assert ts[|a| + 1..] == rest;
  }

  function Commas(parts: seq<seq<Token>>): seq<Token> {
    if parts == [] then [] else if |parts| == 1 then parts[0] else parts[0] + [Mark(',')] + Commas(parts[1..])
  }

  lemma CommasMore(a: seq<Token>, parts: seq<seq<Token>>, all: seq<seq<Token>>)
    requires parts != [] && all == [a] + parts
    ensures Commas(all) == a + [Mark(',')] + Commas(parts)
  {
    assert all[1..] == parts;
  }

  lemma CommasThree(a: seq<Token>, b: seq<Token>, c: seq<Token>)
    ensures Commas([a, b, c]) == a + [Mark(',')] + (b + [Mark(',')] + c)
  {
    CommasMore(b, [c], [b, c]);
    CommasMore(a, [b, c], [a, b, c]);
  }

  lemma CommasFour(a: seq<Token>, b: seq<Token>, c: seq<Token>, d: seq<Token>)
    ensures Commas([a, b, c, d]) == a + [Mark(',')] + (b + [Mark(',')] + (c + [Mark(',')] + d))
  {
    CommasThree(b, c, d);
    CommasMore(a, [b, c, d], [a, b, c, d]);
  }

  lemma CommasFive(a: seq<Token>, b: seq<Token>, c: seq<Token>, d: seq<Token>, e: seq<Token>)
    ensures Commas([a, b, c, d, e]) == a + [Mark(',')] + (b + [Mark(',')] + (c + [Mark(',')] + (d + [Mark(',')] + e)))
  {
    CommasFour(b, c, d, e);
    CommasMore(a, [b, c, d, e], [a, b, c, d, e]);
  }

  lemma CommasSeven(a: seq<Token>, b: seq<Token>, c: seq<Token>, d: seq<Token>, e: seq<Token>, f: seq<Token>,
                    g: seq<Token>)
    ensures Commas([a, b, c, d, e, f, g]) ==
            a + [Mark(',')] + (b + [Mark(',')] + (c + [Mark(',')] +
                                                  (d + [Mark(',')] + (e + [Mark(',')] + (f + [Mark(',')] + g)))))
  {
    CommasFive(c, d, e, f, g);
    CommasMore(b, [c, d, e, f, g], [b, c, d, e, f, g]);
    CommasMore(a, [b, c, d, e, f, g], [a, b, c, d, e, f, g]);
  }

  /** An argument list is read back part by part. */
  lemma {:induction false} ReadCommas(parts: seq<seq<Token>>, es: seq<Expr>)
    requires parts != [] && |parts| == |es|
    requires forall i :: 0 <= i < |parts| ==> IsArg(parts[i], es[i])
    ensures ReadArgs(Commas(parts)) == Some(es)
  {
    if |parts| == 1 {
      LastArg(parts[0], es[0]);
      assert es == [es[0]];
    } else {
      ReadCommas(parts[1..], es[1..]);
      NextArg(parts[0], es[0], Commas(parts[1..]), es[1..]);
      assert es == [es[0]] + es[1..];
    }
  }

  lemma {:induction false} CommasInner(parts: seq<seq<Token>>)
    requires forall i :: 0 <= i < |parts| ==> Inner(parts[i])
    ensures Inner(Commas(parts))
  {
    if |parts| > 1 {
      CommasInner(parts[1..]);
      InnerConcat(parts[0], [Mark(',')]);
      InnerConcat(parts[0] + [Mark(',')], Commas(parts[1..]));
    }
  }

  lemma WordArg(id: string)
    requires id != "" && !('0' <= id[0] <= '9')
    ensures IsArg([Word(id)], Name(id))
  {
    LetterIsNoDecimal(id);
  }

  lemma NumberArg(n: nat)
    ensures IsArg([Word(Decimal(n))], Number(n))
  {
    NumeralRoundTrip(10, n);
  }

  lemma TextArg(text: string)
    ensures IsArg([Quoted(text)], Str(text))
  {
  }

  lemma SlotArg(table: string, id: string)
    ensures IsArg([Mark('&'), Word(table), Mark('['), Word(id), Mark(']')], AddressOf(table, id))
  {
  }

  lemma MemberArg(table: string, id: string, field: string)
    ensures IsArg([Word(table), Mark('['), Word(id), Mark(']'), Mark('-'), Mark('>'), Word(field)],
                  Member(table, id, field))
  {
  }

  lemma CastArg(cast: string, table: string, id: string, field: string)
    ensures IsArg([Mark('('), Mark('('), Word(cast), Mark('*'), Mark(')'), Word(table), Mark('['), Word(id), Mark(']'),
                   Mark(')'), Mark('-'), Mark('>'), Word(field)], CastMember(cast, table, id, field))
  {
  }

  lemma {:induction false} AssembleConcat(a: Assembly, ps: seq<Phrase>, qs: seq<Phrase>)
    ensures AssembleAll(a, ps + qs) == AssembleAll(AssembleAll(a, ps), qs)
    decreases |ps|
  {
    if ps == [] {
      assert ps + qs == qs;
    } else {
      AssembleConcat(Assemble(a, ps[0]), ps[1..], qs);
      assert (ps + qs)[1..] == ps[1..] + qs;
    }
  }

  lemma AssembleOne(a: Assembly, p: Phrase)
    ensures AssembleAll(a, [p]) == Assemble(a, p)
  {
    assert [p][1..] == [];
  }

  // ----- phrases that build whole items -----

  /** Outside any construct, these phrases add these items and stay outside. */
  ghost predicate Adds(ps: seq<Phrase>, items: seq<Item>) {
    AssembleAll(Assembly([], Top), ps) == Assembly(items, Top)
  }

  lemma {:induction false} AssemblePrepend(before: seq<Item>, a: Assembly, ps: seq<Phrase>)
    ensures AssembleAll(Assembly(before + a.items, a.open), ps) ==
            Assembly(before + AssembleAll(a, ps).items, AssembleAll(a, ps).open)
    decreases |ps|
  {
    if ps != [] {
      AssembleStepPrepend(before, a, ps[0]);
      AssemblePrepend(before, Assemble(a, ps[0]), ps[1..]);
    }
  }

  lemma AssembleStepPrepend(before: seq<Item>, a: Assembly, p: Phrase)
    ensures Assemble(Assembly(before + a.items, a.open), p) ==
            Assembly(before + Assemble(a, p).items, Assemble(a, p).open)
  {
    var next := Assemble(a, p);
    if |next.items| > |a.items| {
      var item := next.items[|a.items|];
      assert next.items == a.items + [item];
      assert before + (a.items + [item]) == before + a.items + [item];
    }
  }

  lemma AddsConcat(ps: seq<Phrase>, items: seq<Item>, qs: seq<Phrase>, more: seq<Item>)
    requires Adds(ps, items) && Adds(qs, more)
    ensures Adds(ps + qs, items + more)
  {
    AssembleConcat(Assembly([], Top), ps, qs);
    assert items + [] == items;
    AssemblePrepend(items, Assembly([], Top), qs);
  }

  lemma AddsOne(item: Item)
    ensures Adds([Whole(item)], [item])
  {
    AssembleOne(Assembly([], Top), Whole(item));
    assert [] + [item] == [item];
  }

  lemma AddsEnum(ids: seq<string>, tag: string)
    ensures Adds([EnumOpen, EnumNames(ids), EnumTag(tag)], [Enumeration(ids, tag)])
  {
    var ps := [EnumOpen, EnumNames(ids), EnumTag(tag)];
    assert ps[1..] == [EnumNames(ids), EnumTag(tag)] && ps[1..][1..] == [EnumTag(tag)] && ps[1..][1..][1..] == [];
    AssembleOne(Assembly([], EnumDone(ids)), EnumTag(tag));
    assert [] + [Enumeration(ids, tag)] == [Enumeration(ids, tag)];
  }
}
