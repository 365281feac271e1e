// The character level of the emitted C: tokens, a lexer that reads them one
// character at a time, and the proof that it inverts the spelling of any
// legible sequence of lexemes.
module Lexing {
  import opened Text

  /** Words are identifiers and numbers; comments are kept, for the grammar to drop. */
  datatype Token =
    | Word(text: string)
    | Quoted(text: string)
    | Mark(sign: char)
    | Comment(body: string)
    | Line

  // ----- lexer -----

  datatype Mode =
    | Gap
    | InWord(part: string)
    | InQuote(part: string, escaped: bool)
    | Slash
    | InComment(body: string, star: bool)
    | Bad

  datatype Lexer = Lexer(mode: Mode, tokens: seq<Token>)

  /** Outside any token, or ending a word. */
  function Begin(tokens: seq<Token>, c: char): Lexer {
    if IsWordChar(c) then Lexer(InWord([c]), tokens)
    else if c == '"' then Lexer(InQuote("", false), tokens)
    else if c == '/' then Lexer(Slash, tokens)
    else if c == '\n' then Lexer(Gap, tokens + [Line])
    else if c == ' ' || c == '\t' then Lexer(Gap, tokens)
    else Lexer(Gap, tokens + [Mark(c)])
  }

  function Advance(l: Lexer, c: char): Lexer {
    match l.mode
    case Gap => Begin(l.tokens, c)
    case InWord(part) =>
      if IsWordChar(c) then Lexer(InWord(part + [c]), l.tokens)
      else Begin(l.tokens + [Word(part)], c)
    case InQuote(part, escaped) =>
      if c == '\n' then Lexer(Bad, l.tokens)
      else if c == '"' && !escaped then Lexer(Gap, l.tokens + [Quoted(part)])
      else Lexer(InQuote(part + [c], c == '\\' && !escaped), l.tokens)
    case Slash =>
      if c == '*' then Lexer(InComment("", false), l.tokens) else Lexer(Bad, l.tokens)
    case InComment(body, star) =>
      if star && c == '/' && body != "" then Lexer(Gap, l.tokens + [Comment(body[..|body| - 1])])
      else Lexer(InComment(body + [c], c == '*'), l.tokens)
    case Bad => l
  }

  function Scan(l: Lexer, s: string): Lexer
    decreases |s|
  {
    if s == "" then l else Scan(Advance(l, s[0]), s[1..])
  }

  /** The tokens of a whole file, if every quote and comment in it is closed. */
  function Lex(s: string): Option<seq<Token>> {
    var l := Scan(Lexer(Gap, []), s);
    match l.mode
    case Gap => Some(l.tokens)
    case InWord(part) => Some(l.tokens + [Word(part)])
    case _ => None
  }

  // ----- spelling -----

  datatype Layout = Joined | Space | Tab | TwoTabs

  /** A token together with the white space in front of it. */
  datatype Lexeme = L(before: Layout, token: Token)

  function Indent(before: Layout): string {
    match before
    case Joined => ""
    case Space => " "
    case Tab => "\t"
    case TwoTabs => "\t\t"
  }

  function SpellToken(t: Token): string {
    match t
    case Word(text) => text
    case Quoted(text) => "\"" + text + "\""
    case Mark(sign) => [sign]
    case Comment(body) => "/*" + body + "*/"
    case Line => "\n"
  }

  function Spell(xs: seq<Lexeme>): string {
    Flat(seq(|xs|, i requires 0 <= i < |xs| => SpellLexeme(xs[i])))
  }

  function SpellLexeme(x: Lexeme): string {
    Indent(x.before) + SpellToken(x.token)
  }

  function Flat(parts: seq<string>): string {
    if parts == [] then "" else parts[0] + Flat(parts[1..])
  }

  function TokensOf(xs: seq<Lexeme>): seq<Token> {
    seq(|xs|, i requires 0 <= i < |xs| => xs[i].token)
  }

  // ----- what can be read back -----

  predicate IsMark(c: char) {
    !IsWordChar(c) && c !in "/\" \t\n"
  }

  /** Whether the character at a position, or the end, is escaped by a backslash before it. */
  predicate Escaped(s: string, i: nat)
    requires i <= |s|
  {
    i > 0 && s[i - 1] == '\\' && !Escaped(s, i - 1)
  }

  /** Text that can stand between the quotes of a C string literal, escapes included. */
  ghost predicate Quotable(s: string) {
    && (forall i :: 0 <= i < |s| ==> s[i] != '\n' && (s[i] == '"' ==> Escaped(s, i)))
    && !Escaped(s, |s|)
  }

  predicate IsHexDigit(c: char) {
    '0' <= c <= '9' || 'a' <= c <= 'f' || 'A' <= c <= 'F'
  }

  ghost predicate HexDigits(s: string, from: nat, count: nat) {
    from + count <= |s| && forall i :: from <= i < from + count ==> IsHexDigit(s[i])
  }

  /** An escape sequence of C, as section 6.4.4.4 of ISO/IEC 9899:1999 spells it, starts at this backslash. */
  ghost predicate IsEscape(s: string, i: nat) {
    && i + 1 < |s|
    && var c := s[i + 1];
       c in "'\"?\\abfnrtv" || '0' <= c <= '7' || (c == 'x' && HexDigits(s, i + 2, 1)) ||
       (c == 'u' && HexDigits(s, i + 2, 4)) || (c == 'U' && HexDigits(s, i + 2, 8))
  }

  /** Every escape in the text is one of C's. */
  ghost predicate EscapesValid(s: string) {
    forall i :: 0 <= i < |s| && s[i] == '\\' && !Escaped(s, i) ==> IsEscape(s, i)
  }

  /** Text that cannot close the comment it stands in. */
  ghost predicate Calm(s: string) {
    && (s == "" || s[0] != '/')
    && (forall i :: 0 < i < |s| && s[i] == '/' ==> s[i - 1] != '*')
  }

  ghost predicate Readable(t: Token) {
    match t
    case Word(text) => IsWordText(text)
    case Quoted(text) => Quotable(text)
    case Mark(sign) => IsMark(sign)
    case Comment(body) => Calm(body)
    case Line => true
  }

  /** Every token can be read back, no two words run together, and the last one is closed. */
  ghost predicate Legible(xs: seq<Lexeme>) {
    && (forall i :: 0 <= i < |xs| ==> Readable(xs[i].token))
    && (forall i :: 0 < i < |xs| && xs[i].token.Word? && xs[i].before.Joined? ==> !xs[i - 1].token.Word?)
    && (xs != [] ==> !xs[|xs| - 1].token.Word?)
  }

  lemma TokensConcat(a: seq<Lexeme>, b: seq<Lexeme>)
    ensures TokensOf(a + b) == TokensOf(a) + TokensOf(b)
  {
  }

  lemma LegibleConcat(a: seq<Lexeme>, b: seq<Lexeme>)
    requires Legible(a) && Legible(b)
    ensures Legible(a + b)
    ensures TokensOf(a + b) == TokensOf(a) + TokensOf(b)
  {
  }

  lemma SpellConcat(a: seq<Lexeme>, b: seq<Lexeme>)
    ensures Spell(a + b) == Spell(a) + Spell(b)
  {
    var c := a + b;
    var x, y, z := seq(|a|, i requires 0 <= i < |a| => SpellLexeme(a[i])),
                   seq(|b|, i requires 0 <= i < |b| => SpellLexeme(b[i])),
                   seq(|c|, i requires 0 <= i < |c| => SpellLexeme(c[i]));
    assert z == x + y;
    FlatConcat(x, y);
  }

  lemma {:induction false} FlatConcat(a: seq<string>, b: seq<string>)
    ensures Flat(a + b) == Flat(a) + Flat(b)
  {
    if a == [] {
      assert a + b == b;
    } else {
      FlatConcat(a[1..], b);
      assert (a + b)[1..] == a[1..] + b;
      Associate(a[0], Flat(a[1..]), Flat(b));
    }
  }

  lemma SpellCons(x: Lexeme, rest: seq<Lexeme>)
    ensures Spell([x] + rest) == SpellLexeme(x) + Spell(rest)
  {
    var xs := [x] + rest;
    var parts := seq(|xs|, i requires 0 <= i < |xs| => SpellLexeme(xs[i]));
    assert parts[0] == SpellLexeme(x) && parts[1..] == seq(|rest|, i requires 0 <= i < |rest| => SpellLexeme(rest[i]));
  }

  // ----- the lexer inverts spelling -----

  lemma {:induction false} ScanConcat(l: Lexer, a: string, b: string)
    ensures Scan(l, a + b) == Scan(Scan(l, a), b)
    decreases |a|
  {
    if a == "" {
      assert a + b == b;
    } else {
      ScanConcat(Advance(l, a[0]), a[1..], b);
      assert (a + b)[1..] == a[1..] + b;
    }
  }

  lemma ScanOne(l: Lexer, c: char)
    ensures Scan(l, [c]) == Advance(l, c)
  {
    assert Scan(Advance(l, c), [c][1..]) == Advance(l, c);
  }

  lemma {:induction false} ScanWordRest(part: string, tokens: seq<Token>, s: string)
    requires AllWordChars(s)
    ensures Scan(Lexer(InWord(part), tokens), s) == Lexer(InWord(part + s), tokens)
    decreases |s|
  {
    if s == "" {
      assert part + s == part;
    } else {
      ScanWordRest(part + [s[0]], tokens, s[1..]);
      assert part + s == part + [s[0]] + s[1..];
    }
  }

  lemma {:induction false} ScanQuoteTo(tokens: seq<Token>, s: string, i: nat)
    requires Quotable(s) && i <= |s|
    ensures Scan(Lexer(InQuote("", false), tokens), s[..i]) == Lexer(InQuote(s[..i], Escaped(s, i)), tokens)
  {
    if i > 0 {
      ScanQuoteTo(tokens, s, i - 1);
      assert s[..i] == s[..i - 1] + [s[i - 1]];
      ScanConcat(Lexer(InQuote("", false), tokens), s[..i - 1], [s[i - 1]]);
      ScanOne(Lexer(InQuote(s[..i - 1], Escaped(s, i - 1)), tokens), s[i - 1]);
    }
  }

  lemma {:induction false} ScanCommentRest(body: string, star: bool, tokens: seq<Token>, s: string)
    requires star ==> s == "" || s[0] != '/'
    requires forall i :: 0 < i < |s| && s[i] == '/' ==> s[i - 1] != '*'
    ensures exists star' :: Scan(Lexer(InComment(body, star), tokens), s) == Lexer(InComment(body + s, star'), tokens)
    decreases |s|
  {
    if s == "" {
      assert body + s == body;
    } else {
      ScanCommentRest(body + [s[0]], s[0] == '*', tokens, s[1..]);
      assert body + s == body + [s[0]] + s[1..];
    }
  }

  lemma ScanQuoted(tokens: seq<Token>, text: string)
    requires Quotable(text)
    ensures Scan(Lexer(Gap, tokens), "\"" + text + "\"") == Lexer(Gap, tokens + [Quoted(text)])
  {
    ScanConcat(Lexer(Gap, tokens), "\"" + text, "\"");
    ScanConcat(Lexer(Gap, tokens), "\"", text);
    ScanOne(Lexer(Gap, tokens), '"');
    ScanQuoteTo(tokens, text, |text|);
    assert text[..|text|] == text;
    ScanOne(Lexer(InQuote(text, false), tokens), '"');
  }

  lemma ScanComment(tokens: seq<Token>, body: string)
    requires Calm(body)
    ensures Scan(Lexer(Gap, tokens), "/*" + body + "*/") == Lexer(Gap, tokens + [Comment(body)])
  {
    var start := Lexer(Gap, tokens);
    ScanConcat(start, "/*" + body, "*/");
    ScanConcat(start, "/*", body);
    ScanCommentOpen(tokens);
    ScanCommentRest("", false, tokens, body);
    assert "" + body == body;
    var star :| Scan(Lexer(InComment("", false), tokens), body) == Lexer(InComment(body, star), tokens);
    ScanCommentClose(body, star, tokens);
  }

  lemma ScanCommentOpen(tokens: seq<Token>)
    ensures Scan(Lexer(Gap, tokens), "/*") == Lexer(InComment("", false), tokens)
  {
    assert "/*" == "/" + "*";
    ScanConcat(Lexer(Gap, tokens), "/", "*");
    ScanOne(Lexer(Gap, tokens), '/');
    ScanOne(Lexer(Slash, tokens), '*');
  }

  lemma ScanCommentClose(body: string, star: bool, tokens: seq<Token>)
    ensures Scan(Lexer(InComment(body, star), tokens), "*/") == Lexer(Gap, tokens + [Comment(body)])
  {
    var open := Lexer(InComment(body, star), tokens);
    assert "*/" == "*" + "/";
    ScanConcat(open, "*", "/");
    ScanOne(open, '*');
    ScanOne(Lexer(InComment(body + ['*'], true), tokens), '/');
    assert (body + ['*'])[..|body|] == body;
  }

  /** The token that a pending word will become. */
  function Pending(mode: Mode): seq<Token> {
    if mode.InWord? then [Word(mode.part)] else []
  }

  lemma ScanIndent(mode: Mode, tokens: seq<Token>, before: Layout)
    requires mode.Gap? || mode.InWord?
    ensures Scan(Lexer(mode, tokens), Indent(before)) ==
            if before.Joined? then Lexer(mode, tokens) else Lexer(Gap, tokens + Pending(mode))
  {
    var start := Lexer(mode, tokens);
    assert tokens + [] == tokens;
    match before
    case Joined =>
    case Space => ScanOne(start, ' ');
    case Tab => ScanOne(start, '\t');
    case TwoTabs =>
      assert "\t\t" == "\t" + "\t";
      ScanConcat(start, "\t", "\t");
      ScanOne(start, '\t');
      ScanOne(Lexer(Gap, tokens + Pending(mode)), '\t');
  }

  /** Any character but a word character ends a pending word and is then read afresh. */
  lemma ScanFlush(mode: Mode, tokens: seq<Token>, s: string)
    requires mode.Gap? || mode.InWord?
    requires mode.InWord? ==> s != "" && !IsWordChar(s[0])
    ensures Scan(Lexer(mode, tokens), s) == Scan(Lexer(Gap, tokens + Pending(mode)), s)
  {
    assert tokens + [] == tokens;
  }

  lemma ScanToken(mode: Mode, tokens: seq<Token>, t: Token)
    requires mode.Gap? || mode.InWord?
    requires Readable(t)
    requires mode.InWord? ==> !t.Word?
    ensures Scan(Lexer(mode, tokens), SpellToken(t)) ==
            if t.Word? then Lexer(InWord(t.text), tokens) else Lexer(Gap, tokens + Pending(mode) + [t])
  {
    assert tokens + [] == tokens;
    var ready := tokens + Pending(mode);
    match t
    case Word(text) =>
      ScanConcat(Lexer(Gap, tokens), text[..1], text[1..]);
      assert text[..1] + text[1..] == text && text[..1] == [text[0]];
      ScanOne(Lexer(Gap, tokens), text[0]);
      ScanWordRest([text[0]], tokens, text[1..]);
    case Quoted(text) =>
      ScanFlush(mode, tokens, "\"" + text + "\"");
      ScanQuoted(ready, text);
    case Mark(sign) =>
      ScanFlush(mode, tokens, [sign]);
      ScanOne(Lexer(Gap, ready), sign);
    case Comment(body) =>
      ScanFlush(mode, tokens, "/*" + body + "*/");
      ScanComment(ready, body);
    case Line =>
      ScanFlush(mode, tokens, "\n");
      ScanOne(Lexer(Gap, ready), '\n');
  }

  lemma ScanLexeme(mode: Mode, tokens: seq<Token>, x: Lexeme)
    requires mode.Gap? || mode.InWord?
    requires Readable(x.token)
    requires mode.InWord? && x.token.Word? ==> !x.before.Joined?
    ensures var end := Scan(Lexer(mode, tokens), SpellLexeme(x));
            && end.mode == (if x.token.Word? then InWord(x.token.text) else Gap)
            && end.tokens + Pending(end.mode) == tokens + Pending(mode) + [x.token]
  {
    var start := Lexer(mode, tokens);
    ScanConcat(start, Indent(x.before), SpellToken(x.token));
    ScanIndent(mode, tokens, x.before);
    var mid := Scan(start, Indent(x.before));
    ScanToken(mid.mode, mid.tokens, x.token);
  }

  lemma ScanFirst(l: Lexer, xs: seq<Lexeme>)
    requires xs != []
    ensures Scan(l, Spell(xs)) == Scan(Scan(l, SpellLexeme(xs[0])), Spell(xs[1..]))
  {
    assert xs == [xs[0]] + xs[1..];
    SpellCons(xs[0], xs[1..]);
    ScanConcat(l, SpellLexeme(xs[0]), Spell(xs[1..]));
  }

  lemma {:induction false} ScanSpell(mode: Mode, tokens: seq<Token>, xs: seq<Lexeme>)
    requires mode.Gap? || mode.InWord?
    requires Legible(xs)
    requires mode.InWord? ==> xs != [] && (xs[0].token.Word? ==> !xs[0].before.Joined?)
    ensures Scan(Lexer(mode, tokens), Spell(xs)) == Lexer(Gap, tokens + Pending(mode) + TokensOf(xs))
    decreases |xs|
  {
    if xs == [] {
      assert tokens + Pending(mode) + TokensOf(xs) == tokens;
    } else {
      var x, rest := xs[0], xs[1..];
      ScanFirst(Lexer(mode, tokens), xs);
      ScanLexeme(mode, tokens, x);
      var end := Scan(Lexer(mode, tokens), SpellLexeme(x));
      LegibleTail(xs);
      ScanSpell(end.mode, end.tokens, rest);
      assert TokensOf(xs) == [x.token] + TokensOf(rest);
      Associate(tokens + Pending(mode), [x.token], TokensOf(rest));
    }
  }

  lemma LegibleTail(xs: seq<Lexeme>)
    requires Legible(xs) && xs != []
    ensures Legible(xs[1..])
    ensures xs[0].token.Word? ==> |xs| > 1 && (xs[1].token.Word? ==> !xs[1].before.Joined?)
  {
  }

  /** Lexing inverts spelling: white space is dropped, every token comes back unchanged. */
  lemma LexSpell(xs: seq<Lexeme>)
    requires Legible(xs)
    ensures Lex(Spell(xs)) == Some(TokensOf(xs))
  {
    ScanSpell(Gap, [], xs);
    assert [] + Pending(Gap) + TokensOf(xs) == TokensOf(xs);
  }

  // ----- closure facts used line by line -----

  lemma CalmConcat(a: string, b: string)
    requires Calm(a) && Calm(b)
    ensures Calm(a + b)
  {
  }

  lemma WordsAreHarmless(s: string)
    requires AllWordChars(s)
    ensures Calm(s) && Quotable(s)
  {
  }

  lemma QuotableConcat(a: string, b: string)
    requires Quotable(a) && Quotable(b)
    ensures Quotable(a + b)
  {
    forall i | 0 <= i <= |a|
      ensures Escaped(a + b, i) == Escaped(a, i)
    {
      EscapedBefore(a, b, i);
    }
    forall i | 0 <= i <= |b|
      ensures Escaped(a + b, |a| + i) == Escaped(b, i)
    {
      EscapedAfter(a, b, i);
    }
    forall i | 0 <= i < |a + b|
      ensures (a + b)[i] != '\n' && ((a + b)[i] == '"' ==> Escaped(a + b, i))
    {
      if i >= |a| { assert (a + b)[|a| + (i - |a|)] == b[i - |a|]; }
    }
  }

  lemma {:induction false} EscapedBefore(a: string, b: string, i: nat)
    requires i <= |a|
    ensures Escaped(a + b, i) == Escaped(a, i)
  {
    if i > 0 { EscapedBefore(a, b, i - 1); }
  }

  lemma {:induction false} EscapedAfter(a: string, b: string, i: nat)
    requires i <= |b| && !Escaped(a, |a|)
    ensures Escaped(a + b, |a| + i) == Escaped(b, i)
  {
    if i == 0 {
      EscapedBefore(a, b, |a|);
    } else {
      EscapedAfter(a, b, i - 1);
    }
  }
}
