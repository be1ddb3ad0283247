/** The lexer as it runs, moving through its buffer. */
module Lexers {
  import opened Characters
  import opened Tokens
  import opened Lexing

  class Lexer {
    const keywords: set<string>
    const buf: string
    var cur: nat
    var errors: seq<LexError>

    ghost predicate Valid()
      reads this
    {
      cur <= |buf|
    }

    /** The text from the current position on. */
    ghost function Ahead(): string
      requires Valid()
      reads this
    {
      buf[cur..]
    }

    constructor (keywords: set<string>, buf: string)
      ensures Valid() && this.keywords == keywords && Ahead() == buf && errors == []
    {
      this.keywords, this.buf := keywords, buf;
      cur, errors := 0, [];
    }

    /** Takes the characters a cut says as a token. */
    method FormToken(c: Cut) returns (l: Lexeme)
      requires Valid() && c.n <= |Ahead()|
      modifies this
      ensures Valid() && Scan(l, Ahead(), c.errors) == CutOff(old(Ahead()), c) && errors == old(errors) + c.errors
    {
      l := Lexeme(c.kind, buf[cur..cur + c.n]);
      assert buf[cur..cur + c.n] == buf[cur..][..c.n];
      assert buf[cur + c.n..] == buf[cur..][c.n..];
      errors := errors + c.errors;
      cur := cur + c.n;
    }

    /** The next token: what a scan of the text ahead gives, with its errors. */
    method NextToken() returns (l: Lexeme)
      requires Valid()
      modifies this
      ensures Valid() && var r := Next(keywords, old(Ahead()));
              l == r.tok && Ahead() == r.rest && errors == old(errors) + r.errors
      decreases |buf| - cur, 1
    {
      SkipToToken();
      if cur == |buf| {
        l := Lexeme(EndOfFile, "");
      } else if At(buf, cur) == '(' && At(buf, cur + 1) == '*' {
        l := TokenBehindComment();
      } else {
        l := Token();
      }
    }

    method TokenBehindComment() returns (l: Lexeme)
      requires Valid() && StartsComment(Ahead())
      modifies this
      ensures Valid() && var rest := AfterComment(old(Ahead())[2..], 1);
              var r := Next(keywords, rest);
              && l == r.tok && Ahead() == r.rest
              && errors == old(errors) + ((if rest == [] then [UnterminatedComment] else []) + r.errors)
      decreases |buf| - cur, 0
    {
      SkipComment();
      ghost var rest := Ahead();
      l := NextToken();
      Joined(old(errors), if rest == [] then [UnterminatedComment] else [], Next(keywords, rest).errors);
    }

    method SkipToToken()
      requires Valid()
      modifies this`cur
      ensures Valid() && old(cur) <= cur && Ahead() == SkipBlanks(old(Ahead()))
      ensures At(buf, cur) == At(Ahead(), 0) && At(buf, cur + 1) == At(Ahead(), 1)
    {
      ghost var s := Ahead();
      var n := EndOf(Blanks, buf[cur..], 0);
      cur := cur + n;
      assert Ahead() == s[n..];
    }

    method Token() returns (l: Lexeme)
      requires Valid() && cur < |buf|
      modifies this
      ensures Valid() && var r := TokenAt(keywords, old(Ahead()));
              l == r.tok && Ahead() == r.rest && errors == old(errors) + r.errors
    {
      var s := buf[cur..];
      var c := Cut(Unknown, 0, []);
      if IsHead(s[0]) {
        c := Word(keywords, s);
      } else if IsDigit(s[0]) {
        c := Number(s);
      } else if s[0] == '"' || s[0] == '\'' {
        c := String(s);
      } else {
        var n := Punctuation(s);
        if n == 0 { return Lexeme(Unknown, ""); }
        c := Cut(Punctuator, n, []);
      }
      l := FormToken(c);
    }

    /** Moves past a comment and the comments in it. */
    method SkipComment()
      requires Valid() && StartsComment(Ahead())
      modifies this
      ensures Valid() && old(cur) < cur && Ahead() == AfterComment(old(Ahead())[2..], 1)
      ensures errors == old(errors) + if Ahead() == [] then [UnterminatedComment] else []
    {
      assert buf[cur + 2..] == Ahead()[2..];
      cur := CommentEnd(buf, cur + 2);
      if cur == |buf| { errors := errors + [UnterminatedComment]; }
    }
  }

  /** The loop of the comment: where a comment open at start ends. */
  method CommentEnd(buf: string, start: nat) returns (end: nat)
    requires start <= |buf|
    ensures start <= end <= |buf| && buf[end..] == AfterComment(buf[start..], 1)
  {
    var level: nat := 1;
    end := start;
    ghost var after := AfterComment(buf[start..], 1);
    while end < |buf| && level > 0
      invariant start <= end <= |buf| && AfterComment(buf[end..], level) == after
      decreases |buf| - end
    {
      CommentStep(buf, end, level);
      if At(buf, end) == '(' && At(buf, end + 1) == '*' {
        end, level := end + 2, level + 1;
      } else if At(buf, end) == '*' && At(buf, end + 1) == ')' {
        end, level := end + 2, level - 1;
      } else {
        end := end + 1;
      }
    }
  }

  /** One step through a comment, by position. */
  lemma CommentStep(buf: string, end: nat, level: nat)
    requires end < |buf| && level > 0
    ensures var (c, d) := (At(buf, end), At(buf, end + 1));
            if c == '(' && d == '*' then
              end + 2 <= |buf| && AfterComment(buf[end..], level) == AfterComment(buf[end + 2..], level + 1)
            else if c == '*' && d == ')' then
              end + 2 <= |buf| && AfterComment(buf[end..], level) == AfterComment(buf[end + 2..], level - 1)
            else AfterComment(buf[end..], level) == AfterComment(buf[end + 1..], level)
  {
    var t := buf[end..];
    assert At(t, 0) == At(buf, end) && At(t, 1) == At(buf, end + 1) && t != [];
    assert t[1..] == buf[end + 1..];
    if StartsComment(t) || EndsComment(t) { assert t[2..] == buf[end + 2..]; }
  }

  // ----- tokens at the front of a text -----

  /** Where the run of characters of class p that starts there ends. */
  method EndOf(p: CharClass, s: string, start: nat) returns (end: nat)
    requires start <= |s|
    ensures end == start + Span(p, s[start..])
  {
    end := start;
    while end < |s| && In(p, s[end])
      invariant start <= end <= |s|
      invariant start + Span(p, s[start..]) == end + Span(p, s[end..])
    {
      assert s[end..][1..] == s[end + 1..];
      end := end + 1;
    }
  }

  method Word(ks: set<string>, s: string) returns (c: Cut)
    requires s != []
    ensures c == WordAt(ks, s)
  {
    var end := EndOf(Bodies, s, 1);
    c := Cut(if s[..end] in ks then Keyword else Identifier, end, []);
  }

  method Punctuation(s: string) returns (n: nat)
    requires s != []
    ensures n == PunctuationAt(s)
  {
    var c, c1 := s[0], At(s, 1);
    if IsSingle(c) || c == '(' {
      n := 1;
    } else if c == '.' {
      n := if c1 == '.' then 2 else 1;
    } else if c == ':' || c == '<' || c == '>' {
      n := if c1 == '=' then 2 else 1;
    } else {
      n := 0;
    }
  }

  method String(s: string) returns (c: Cut)
    requires s != []
    ensures c == StringAt(s)
  {
    var end := EndOf(Inside(s[0]), s, 1);
    c := Cut(StringLiteral, if end < |s| then end + 1 else end,
             if IsNewline(At(s, end)) then [UnterminatedString] else []);
  }

  method Number(s: string) returns (c: Cut)
    requires s != []
    ensures c == NumberAt(s)
  {
    var end, isHex := DigitRun(s);
    var hex := if isHex then [HexDigitInDecimal] else [];
    if At(s, end) == 'H' {
      c := Cut(IntegerLiteral, end + 1, []);
    } else if At(s, end) == '.' && At(s, end + 1) != '.' {
      c := Fraction(s, end, hex);
    } else {
      c := Cut(IntegerLiteral, end, hex);
    }
  }

  /** The digits of a number, and whether one of them is hexadecimal only. */
  method DigitRun(s: string) returns (end: nat, isHex: bool)
    requires s != []
    ensures end == 1 + Span(Hexes, s[1..]) && (isHex <==> !AllOf(Digits, s[1..end]))
  {
    end, isHex := 1, false;
    while end < |s| && IsHexDigit(s[end])
      invariant 1 <= end <= |s| && 1 + Span(Hexes, s[1..]) == end + Span(Hexes, s[end..])
      invariant isHex <==> !AllOf(Digits, s[1..end])
    {
      assert s[end..][1..] == s[end + 1..];
      AllOfSnoc(s[1..end], s[end]);
      assert s[1..end + 1] == s[1..end] + [s[end]];
      if !IsDigit(s[end]) { isHex := true; }
      end := end + 1;
    }
  }

  /** A real number whose dot is at dot. */
  method Fraction(s: string, dot: nat, hex: seq<LexError>) returns (c: Cut)
    requires dot < |s|
    ensures c == FractionAt(s, dot, hex)
  {
    var digits := EndOf(Digits, s, dot + 1);
    var end, found := ScaleFactor(s, digits);
    FractionIs(s, dot, digits, end, hex, found);
    c := Cut(RealLiteral, end, hex + found);
  }

  /** The end of the scale factor at j, if one is there. */
  method ScaleFactor(s: string, j: nat) returns (end: nat, found: seq<LexError>)
    requires j <= |s|
    ensures (end, found) == ScaleOrNot(s, j)
  {
    var letter := At(s, j);
    if !IsScaleLetter(letter) { return j, []; }
    end := if At(s, j + 1) == '+' || At(s, j + 1) == '-' then j + 2 else j + 1;
    if !IsDigit(At(s, end)) { return end, [InvalidReal]; }
    end := EndOf(Digits, s, end);
    found := if IsLong(letter) then [LongRealNotImplemented] else [];
  }

  lemma Joined(a: seq<LexError>, b: seq<LexError>, c: seq<LexError>)
    ensures a + b + c == a + (b + c)
  {
  }

  lemma AllOfSnoc(a: string, c: char)
    ensures AllOf(Digits, a + [c]) <==> AllOf(Digits, a) && IsDigit(c)
  {
    assert (a + [c])[|a|] == c;
    assert forall i :: 0 <= i < |a| ==> (a + [c])[i] == a[i];
  }

  /** Tokens as they stand in a text come out of the lexer, with their reports;
      asked once more, it is at the end. */
  method ReadBack(ks: set<string>, items: seq<Item>, trail: seq<Piece>)
    returns (toks: seq<Lexeme>, errors: seq<LexError>)
    requires ItemsOk(ks, items, PrintPieces(trail)) && TrailOk(trail)
    ensures toks == TokensOf(items) + [Lexeme(EndOfFile, "")]
    ensures errors == ReportsOf(items) + TrailErrors(trail)
  {
    var tail := PrintPieces(trail);
    var lex := new Lexer(ks, PrintItems(items, tail));
    toks := [];
    for k := 0 to |items|
      invariant lex.Valid() && lex.keywords == ks && ItemsOk(ks, items[k..], tail)
      invariant lex.Ahead() == PrintItems(items[k..], tail)
      invariant toks + TokensOf(items[k..]) == TokensOf(items)
      invariant lex.errors + ReportsOf(items[k..]) == ReportsOf(items)
    {
      ghost var rest, errors := items[k + 1..], lex.errors;
      assert items[k..][1..] == rest && items[k..][0] == items[k];
      var l := ReadItem(lex, items[k], PrintItems(rest, tail));
      TokensNext(toks, [l], TokensOf(rest));
      TokensNext(errors, items[k].reports, ReportsOf(rest));
      toks := toks + [l];
    }
    assert items[|items|..] == [] && toks + [] == toks && lex.errors + [] == lex.errors;
    var end := ReadEnd(lex, trail);
    toks, errors := toks + [end], lex.errors;
  }

  /** What stands behind the last token. */
  method ReadEnd(lex: Lexer, ghost trail: seq<Piece>) returns (l: Lexeme)
    requires lex.Valid() && TrailOk(trail) && lex.Ahead() == PrintPieces(trail)
    modifies lex
    ensures lex.Valid() && l == Lexeme(EndOfFile, "") && lex.errors == old(lex.errors) + TrailErrors(trail)
  {
    TrailSkipped(lex.keywords, trail);
    l := lex.NextToken();
  }

  lemma TokensNext<T>(a: seq<T>, b: seq<T>, c: seq<T>)
    ensures a + (b + c) == a + b + c
  {
  }

  /** One token, before what follows it. */
  method ReadItem(lex: Lexer, ghost item: Item, ghost rest: string) returns (l: Lexeme)
    requires lex.Valid() && ItemOk(lex.keywords, item, rest)
    requires lex.Ahead() == PrintPieces(item.before) + item.tok.text + rest
    modifies lex
    ensures lex.Valid() && l == item.tok && lex.Ahead() == rest && lex.errors == old(lex.errors) + item.reports
  {
    NextItem(lex.keywords, item, rest);
    l := lex.NextToken();
  }
}
