/** Characters to tokens, and printed tokens back to themselves. */
module Lexing {
  import opened Characters
  import opened Tokens

  /** The runs of characters the lexer scans over. */
  datatype CharClass = Blanks | Bodies | Hexes | Digits | Inside(quote: char)

  predicate In(p: CharClass, c: char) {
    match p
    case Blanks => IsBlank(c)
    case Bodies => IsBody(c)
    case Hexes => IsHexDigit(c)
    case Digits => IsDigit(c)
    case Inside(quote) => c != quote && !IsNewline(c)
  }

  predicate AllOf(p: CharClass, s: string) { forall i :: 0 <= i < |s| ==> In(p, s[i]) }

  /** How many characters at the front are of class p. */
  function Span(p: CharClass, s: string): (n: nat)
    ensures n <= |s| && (forall i {:trigger In(p, s[i])} :: 0 <= i < n ==> In(p, s[i])) && (n < |s| ==> !In(p, s[n]))
  {
    if s != [] && In(p, s[0]) then 1 + Span(p, s[1..]) else 0
  }

  lemma {:induction false} SpanIs(p: CharClass, a: string, b: string)
    requires AllOf(p, a) && (b != [] ==> !In(p, b[0]))
    ensures Span(p, a + b) == |a|
  {
    if a == [] {
      assert a + b == b;
    } else {
      assert (a + b)[1..] == a[1..] + b;
      SpanIs(p, a[1..], b);
    }
  }

  // Facts about strings alone.

  lemma Cat(a: string, b: string, c: string)
    ensures a + b + c == a + (b + c)
  {
  }

  lemma Cat4(a: string, b: string, c: string, d: string)
    ensures a + b + c + d == a + (b + c + d)
  {
  }

  lemma Back(a: string, b: string)
    ensures (a + b)[..|a|] == a && (a + b)[|a|..] == b
  {
  }

  lemma Drop(s: string, i: nat, a: string, b: string)
    requires i <= |s| && s[i..] == a + b
    ensures i + |a| <= |s| && s[i + |a|..] == b
  {
    assert s[i + |a|..] == s[i..][|a|..];
  }

  lemma FrontOf(s: string, i: nat, more: string)
    requires i <= |s| && s[i..] == more
    ensures At(s, i) == At(more, 0)
  {
  }

  // ----- tokens at the front of a text -----

  /** The token takes n characters. */
  datatype Cut = Cut(kind: Kind, n: nat, errors: seq<LexError>)

  /** A word, with the table of keywords. */
  function WordAt(ks: set<string>, s: string): (r: Cut)
    requires s != []
    ensures 0 < r.n <= |s|
  {
    var n := 1 + Span(Bodies, s[1..]);
    Cut(if s[..n] in ks then Keyword else Identifier, n, [])
  }

  predicate IsLong(c: char) { c == 'D' || c == 'd' }
  predicate IsScaleLetter(c: char) { c == 'E' || c == 'e' || IsLong(c) }

  /** The end of a real number whose digits end at j. */
  function ScaleOrNot(s: string, j: nat): (r: (nat, seq<LexError>))
    requires j <= |s|
    ensures j <= r.0 <= |s|
  {
    if !IsScaleLetter(At(s, j)) then (j, [])
    else
      var k := if At(s, j + 1) == '+' || At(s, j + 1) == '-' then j + 2 else j + 1;
      if !IsDigit(At(s, k)) then (k, [InvalidReal])
      else (k + Span(Digits, s[k..]), if IsLong(At(s, j)) then [LongRealNotImplemented] else [])
  }

  /** A real number whose dot is at i. */
  function FractionAt(s: string, i: nat, hex: seq<LexError>): (r: Cut)
    requires i < |s|
    ensures i < r.n <= |s|
  {
    var (n, errors) := ScaleOrNot(s, i + 1 + Span(Digits, s[i + 1..]));
    Cut(RealLiteral, n, hex + errors)
  }

  function NumberAt(s: string): (r: Cut)
    requires s != []
    ensures 0 < r.n <= |s|
  {
    var i := 1 + Span(Hexes, s[1..]);
    var hex := if AllOf(Digits, s[1..i]) then [] else [HexDigitInDecimal];
    if At(s, i) == 'H' then Cut(IntegerLiteral, i + 1, [])
    else if At(s, i) == '.' && At(s, i + 1) != '.' then FractionAt(s, i, hex)
    else Cut(IntegerLiteral, i, hex)
  }

  function StringAt(s: string): (r: Cut)
    requires s != []
    ensures 0 < r.n <= |s|
  {
    var i := 1 + Span(Inside(s[0]), s[1..]);
    Cut(StringLiteral, if i < |s| then i + 1 else i, if IsNewline(At(s, i)) then [UnterminatedString] else [])
  }

  /** Punctuation that is one character whatever follows. */
  predicate IsSingle(c: char) {
    c == '=' || c == '#' || c == '+' || c == '-' || c == '*' || c == '/' || c == ',' || c == ';' || c == ')' ||
      c == '[' || c == ']'
  }

  /** One or two characters of punctuation; none where there is no token. */
  function PunctuationAt(s: string): (n: nat)
    requires s != []
    ensures n <= 2 && n <= |s|
  {
    var c := At(s, 1);
    if IsSingle(s[0]) || s[0] == '(' then 1
    else if s[0] == '.' then if c == '.' then 2 else 1
    else if s[0] == ':' || s[0] == '<' || s[0] == '>' then if c == '=' then 2 else 1
    else 0
  }

  predicate StartsComment(s: string) { At(s, 0) == '(' && At(s, 1) == '*' }
  predicate EndsComment(s: string) { At(s, 0) == '*' && At(s, 1) == ')' }

  /** What follows a comment, open comments nested so deep being closed. */
  function AfterComment(s: string, level: nat): (r: string)
    ensures |r| <= |s|
    decreases |s|
  {
    if s == [] || level == 0 then s
    else if StartsComment(s) then AfterComment(s[2..], level + 1)
    else if EndsComment(s) then AfterComment(s[2..], level - 1)
    else AfterComment(s[1..], level)
  }

  /** The next token, what follows it, and the errors on the way. */
  datatype Scan = Scan(tok: Lexeme, rest: string, errors: seq<LexError>)

  function CutOff(s: string, c: Cut): Scan
    requires c.n <= |s|
  {
    Scan(Lexeme(c.kind, s[..c.n]), s[c.n..], c.errors)
  }

  function SkipBlanks(s: string): (r: string)
    ensures |r| <= |s| && (r != [] ==> !IsBlank(r[0]))
  {
    s[Span(Blanks, s)..]
  }

  function Next(ks: set<string>, s0: string): (r: Scan)
    ensures |r.rest| <= |s0|
    ensures !r.tok.kind.EndOfFile? && !r.tok.kind.Unknown? ==> |r.rest| < |s0|
    decreases |s0|
  {
    var s := SkipBlanks(s0);
    if s == [] then Scan(Lexeme(EndOfFile, ""), s, [])
    else if StartsComment(s) then
      var rest := AfterComment(s[2..], 1);
      var r := Next(ks, rest);
      r.(errors := (if rest == [] then [UnterminatedComment] else []) + r.errors)
    else TokenAt(ks, s)
  }

  function TokenAt(ks: set<string>, s: string): (r: Scan)
    requires s != []
    ensures |r.rest| <= |s| && (!r.tok.kind.Unknown? ==> |r.rest| < |s|) && !r.tok.kind.EndOfFile?
  {
    if IsHead(s[0]) then CutOff(s, WordAt(ks, s))
    else if IsDigit(s[0]) then CutOff(s, NumberAt(s))
    else if s[0] == '"' || s[0] == '\'' then CutOff(s, StringAt(s))
    else if PunctuationAt(s) > 0 then CutOff(s, Cut(Punctuator, PunctuationAt(s), []))
    else Scan(Lexeme(Unknown, ""), s, [])
  }

  /** All tokens to the end, or to a character no token starts with. */
  function LexAll(ks: set<string>, s: string): (seq<Lexeme>, seq<LexError>)
    decreases |s|
  {
    var r := Next(ks, s);
    if r.tok.kind.EndOfFile? || r.tok.kind.Unknown? then ([], r.errors)
    else
      var (toks, errors) := LexAll(ks, r.rest);
      ([r.tok] + toks, r.errors + errors)
  }

  // ----- tokens that stand in a text -----

  lemma WordReads(ks: set<string>, t: string, rest: string)
    requires WordEnds(t, rest)
    ensures WordAt(ks, t + rest) == Cut(if t in ks then Keyword else Identifier, |t|, [])
    ensures IsHead(t[0])
  {
    assert (t + rest)[1..] == t[1..] + rest;
    assert InWord(t[0]);
    SpanIs(Bodies, t[1..], rest);
    Back(t, rest);
  }

  /** Digits up to something that is no digit; an H, or no fraction. */
  lemma IntegerReads(t: string, rest: string)
    requires IntegerEnds(t, rest)
    ensures NumberAt(t + rest) == Cut(IntegerLiteral, |t|, IntegerReports(t))
  {
    var s, n := t + rest, |t| - 1;
    if |t| >= 2 && t[n] == 'H' && Hexadecimals(t[..n]) {
      var tail := "H" + rest;
      assert s[1..] == t[1..n] + tail;
      var inner := t[1..n];
      forall i | 0 <= i < |inner| ensures Hexadecimal(inner[i]) { assert Hexadecimal(t[..n][i + 1]); }
      SpanIs(Hexes, t[1..n], tail);
      assert At(s, n) == 'H';
    } else {
      DigitsReads(t, rest);
    }
  }

  lemma DigitsReads(t: string, rest: string)
    requires t != "" && Decimal(t[0]) && Hexadecimals(t) && !Hexadecimal(At(rest, 0)) && At(rest, 0) != 'H'
    requires At(rest, 0) == '.' ==> At(rest, 1) == '.'
    ensures NumberAt(t + rest) == Cut(IntegerLiteral, |t|, HexReport(t)) && t[|t| - 1] != 'H'
  {
    var s := t + rest;
    WholeSpan(t, rest);
    assert At(s, |t|) == At(rest, 0) && At(s, |t| + 1) == At(rest, 1);
    assert Hexadecimal(t[|t| - 1]);
  }

  lemma WholeSpan(t: string, rest: string)
    requires t != "" && Decimal(t[0]) && Hexadecimals(t) && !Hexadecimal(At(rest, 0))
    ensures var s := t + rest;
            1 + Span(Hexes, s[1..]) == |t| && (AllOf(Digits, s[1..|t|]) <==> Decimals(t))
  {
    var s := t + rest;
    assert s[1..] == t[1..] + rest;
    assert rest != [] ==> At(rest, 0) == rest[0];
    SpanIs(Hexes, t[1..], rest);
    assert s[1..|t|] == t[1..];
    if AllOf(Digits, t[1..]) {
      forall i | 0 <= i < |t| ensures Decimal(t[i]) { if i > 0 { assert In(Digits, t[1..][i - 1]); } }
    }
  }

  lemma ScaleReads(s: string, i: nat, scale: string, rest: string)
    requires i <= |s| && s[i..] == scale + rest && ScaleEnds(scale, rest)
    ensures ScaleOrNot(s, i) == (i + |scale|, ScaleReports(scale))
  {
    if scale == "" {
      assert scale + rest == rest;
      FrontOf(s, i, rest);
    } else {
      ExponentReads(s, i, scale, rest);
    }
  }

  lemma ExponentReads(s: string, i: nat, scale: string, rest: string)
    requires i <= |s| && s[i..] == scale + rest && scale != "" && ScaleEnds(scale, rest)
    ensures ScaleOrNot(s, i) == (i + |scale|, ScaleReports(scale))
  {
    var j := if Signed(scale) then 2 else 1;
    assert s[i] == s[i..][0] == scale[0];
    assert At(s, i + 1) == At(s[i..], 1) == if |scale| > 1 then scale[1] else At(rest, 0);
    assert s[i + j..] == s[i..][j..] == scale[j..] + rest;
    FrontOf(s, i + j, scale[j..] + rest);
    assert rest != [] ==> At(rest, 0) == rest[0];
    assert scale[j..] == "" ==> scale[j..] + rest == rest;
    SpanIs(Digits, scale[j..], rest);
  }

  lemma RealReads(n: RealText, rest: string)
    requires RealEnds(n, rest)
    ensures NumberAt(TextOf(n) + rest) == Cut(RealLiteral, |TextOf(n)|, HexReport(n.whole) + ScaleReports(n.scale))
  {
    var more := n.fraction + (n.scale + rest);
    RealTokens(n, rest);
    DotFirst(n.whole, more);
    FractionReads(n.whole + ("." + more), |n.whole|, n, rest);
    WholeReads(n.whole, more);
  }

  lemma WholeReads(whole: string, more: string)
    requires whole != "" && Decimal(whole[0]) && Hexadecimals(whole) && At(more, 0) != '.'
    ensures var s := whole + ("." + more); NumberAt(s) == FractionAt(s, |whole|, HexReport(whole))
  {
    WholeSpan(whole, "." + more);
    DotFirst(whole, more);
  }

  lemma RealTokens(n: RealText, rest: string)
    ensures TextOf(n) + rest == n.whole + ("." + (n.fraction + (n.scale + rest)))
    ensures n.fraction + n.scale + rest == n.fraction + (n.scale + rest)
  {
  }

  lemma DotFirst(whole: string, more: string)
    ensures var s := whole + ("." + more);
            s[|whole| + 1..] == more && At(s, |whole|) == '.' && At(s, |whole| + 1) == At(more, 0)
  {
  }

  lemma FractionReads(s: string, i: nat, n: RealText, rest: string)
    requires i < |s| && s[i + 1..] == n.fraction + (n.scale + rest) && Decimals(n.fraction) && ScaleEnds(n.scale, rest)
    ensures FractionAt(s, i, HexReport(n.whole))
            == Cut(RealLiteral, i + 1 + |n.fraction| + |n.scale|, HexReport(n.whole) + ScaleReports(n.scale))
  {
    var j, behind := i + 1 + |n.fraction|, n.scale + rest;
    Drop(s, i + 1, n.fraction, behind);
    assert behind != [] ==> behind[0] == if n.scale == "" then At(rest, 0) else n.scale[0];
    SpanIs(Digits, n.fraction, behind);
    ScaleReads(s, j, n.scale, rest);
    FractionIs(s, i, j, j + |n.scale|, HexReport(n.whole), ScaleReports(n.scale));
  }

  lemma FractionIs(s: string, i: nat, j: nat, n: nat, hex: seq<LexError>, errors: seq<LexError>)
    requires i < |s| && j == i + 1 + Span(Digits, s[i + 1..]) && ScaleOrNot(s, j) == (n, errors)
    ensures FractionAt(s, i, hex) == Cut(RealLiteral, n, hex + errors)
  {
  }

  lemma StringReads(t: string, rest: string)
    requires StringEnds(t, rest)
    ensures StringAt(t + rest) == Cut(StringLiteral, |t|, StringReports(t))
  {
    if rest == "" && NoneOf(t[0], t[1..]) {
      OpenReads(t);
      assert t + rest == t;
    } else {
      ClosedReads(t, rest);
    }
  }

  lemma OpenReads(t: string)
    requires t != "" && (t[0] == '"' || t[0] == '\'') && NoneOf(t[0], t[1..])
    ensures StringAt(t) == Cut(StringLiteral, |t|, StringReports(t))
  {
    var inner := t[1..];
    assert inner + "" == inner;
    SpanIs(Inside(t[0]), inner, "");
    assert inner != "" ==> t[|t| - 1] == inner[|inner| - 1];
  }

  lemma ClosedReads(t: string, rest: string)
    requires |t| >= 2 && (t[|t| - 1] == t[0] || EndsLine(t[|t| - 1])) && NoneOf(t[0], t[1..|t| - 1])
    requires t[0] == '"' || t[0] == '\''
    ensures StringAt(t + rest) == Cut(StringLiteral, |t|, StringReports(t))
  {
    var s, n := t + rest, |t| - 1;
    var inner, tail := t[1..n], [t[n]] + rest;
    assert s[1..] == inner + tail;
    SpanIs(Inside(t[0]), inner, tail);
    assert s[n] == t[n];
  }

  lemma MarkReads(t: string, rest: string)
    requires MarkEnds(t, rest)
    ensures t != "" && PunctuationAt(t + rest) == |t| && !StartsComment(t + rest)
    ensures !IsHead(t[0]) && !IsDigit(t[0]) && !IsBlank(t[0]) && t[0] != '"' && t[0] != '\''
  {
    assert At(t + rest, 1) == if |t| == 2 then t[1] else At(rest, 0);
  }

  /** A token that stands before rest is read, with its reports, and exactly it. */
  lemma TokenReads(ks: set<string>, l: Lexeme, reports: seq<LexError>, rest: string)
    requires Stands(ks, l, reports, rest)
    ensures l.text != [] && !IsBlank(l.text[0]) && !StartsComment(l.text + rest)
    ensures TokenAt(ks, l.text + rest) == Scan(l, rest, reports)
  {
    var t := l.text;
    Back(t, rest);
    match l.kind
    case Identifier => WordReads(ks, t, rest);
    case Keyword => WordReads(ks, t, rest);
    case IntegerLiteral => IntegerReads(t, rest);
    case RealLiteral =>
      var n: RealText :| t == TextOf(n) && RealEnds(n, rest) && reports == HexReport(n.whole) + ScaleReports(n.scale);
      RealReads(n, rest);
    case StringLiteral => StringReads(t, rest);
    case Punctuator => MarkReads(t, rest);
  }

  // ----- what separates tokens -----

  /** The inside of a comment: characters, and comments. */
  datatype Part = Plain(c: char) | Inner(parts: seq<Part>)

  /** No character makes a delimiter with the one printed next. */
  predicate PartsOk(ps: seq<Part>)
    decreases ps, 1
  {
    ps == [] || (PartOk(ps[0], At(PrintParts(ps[1..]) + "*)", 0)) && PartsOk(ps[1..]))
  }

  predicate PartOk(p: Part, next: char)
    decreases p, 0
  {
    match p
    case Plain(c) => !Delimits(c, next)
    case Inner(qs) => PartsOk(qs)
  }

  predicate Delimits(c: char, next: char) { (c == '(' && next == '*') || (c == '*' && next == ')') }

  function PrintParts(ps: seq<Part>): string
    decreases ps
  {
    if ps == [] then ""
    else (match ps[0] case Plain(c) => [c] case Inner(qs) => "(*" + PrintParts(qs) + "*)") + PrintParts(ps[1..])
  }

  lemma {:induction false} PartsSkipped(ps: seq<Part>, rest: string, level: nat)
    requires PartsOk(ps) && level > 0 && EndsComment(rest)
    ensures AfterComment(PrintParts(ps) + rest, level) == AfterComment(rest, level)
    decreases ps
  {
    if ps == [] {
      assert PrintParts(ps) + rest == rest;
    } else {
      var tail := PrintParts(ps[1..]) + rest;
      PartsSkipped(ps[1..], rest, level);
      match ps[0] {
        case Plain(c) =>
          Cat([c], PrintParts(ps[1..]), rest);
          NextPrinted(PrintParts(ps[1..]), rest);
          PlainSkipped(c, tail, level);
        case Inner(qs) =>
          InnerText(PrintParts(qs), PrintParts(ps[1..]), rest);
          PartsSkipped(qs, "*)" + tail, level + 1);
          InnerSkipped(PrintParts(qs), tail, level);
      }
    }
  }

  lemma NextPrinted(inside: string, rest: string)
    requires EndsComment(rest)
    ensures At(inside + rest, 0) == At(inside + "*)", 0)
  {
  }

  lemma PlainSkipped(c: char, tail: string, level: nat)
    requires !Delimits(c, At(tail, 0)) && level > 0
    ensures AfterComment([c] + tail, level) == AfterComment(tail, level)
  {
    var s := [c] + tail;
    assert s[1..] == tail && At(s, 1) == At(tail, 0);
  }

  lemma InnerSkipped(inside: string, tail: string, level: nat)
    requires level > 0 && AfterComment(inside + ("*)" + tail), level + 1) == AfterComment("*)" + tail, level + 1)
    ensures AfterComment("(*" + (inside + ("*)" + tail)), level) == AfterComment(tail, level)
  {
    var close := "*)" + tail;
    var s := "(*" + (inside + close);
    assert s[2..] == inside + close && close[2..] == tail;
  }

  lemma InnerText(q: string, p: string, rest: string)
    ensures "(*" + q + "*)" + p + rest == "(*" + (q + ("*)" + (p + rest)))
  {
  }

  datatype Piece = Blank(c: char) | Comment(parts: seq<Part>)

  predicate PieceOk(p: Piece) {
    match p
    case Blank(c) => Separates(c)
    case Comment(parts) => PartsOk(parts)
  }

  function PrintPiece(p: Piece): string {
    match p
    case Blank(c) => [c]
    case Comment(parts) => "(*" + PrintParts(parts) + "*)"
  }

  function PrintPieces(ps: seq<Piece>): string {
    if ps == [] then "" else PrintPiece(ps[0]) + PrintPieces(ps[1..])
  }

  lemma BlankSkipped(ks: set<string>, c: char, rest: string)
    requires IsBlank(c) && rest != []
    ensures Next(ks, [c] + rest) == Next(ks, rest)
  {
    var s := [c] + rest;
    assert s[1..] == rest;
    assert Span(Blanks, s) == 1 + Span(Blanks, rest);
    assert SkipBlanks(s) == SkipBlanks(rest);
  }

  lemma CommentSkipped(ks: set<string>, s: string, rest: string)
    requires StartsComment(s) && AfterComment(s[2..], 1) == rest && rest != []
    ensures Next(ks, s) == Next(ks, rest)
  {
    assert Span(Blanks, s) == 0 && SkipBlanks(s) == s;
  }

  /** A whole comment, and what follows it. */
  lemma CommentEnds(parts: seq<Part>, rest: string)
    requires PartsOk(parts)
    ensures var s := PrintPiece(Comment(parts)) + rest; StartsComment(s) && AfterComment(s[2..], 1) == rest
  {
    var close := "*)" + rest;
    CommentText(PrintParts(parts), rest);
    PartsSkipped(parts, close, 1);
    Back("*)", rest);
    assert AfterComment(close, 1) == AfterComment(rest, 0) == rest;
  }

  lemma CommentText(inside: string, rest: string)
    ensures var s := "(*" + inside + "*)" + rest; s[..2] == "(*" && s[2..] == inside + ("*)" + rest)
  {
  }

  /** A text behind an opening delimiter: closed after parts, with rest behind. */
  ghost predicate Closes(t: string, parts: seq<Part>, rest: string) {
    PartsOk(parts) && t == PrintParts(parts) + "*)" + rest
  }

  ghost predicate Closed(t: string) {
    exists parts, rest :: Closes(t, parts, rest)
  }

  /** Either a comment is closed or everything to the end belongs to it. */
  lemma {:induction false} SplitComment(t: string) returns (closed: bool, parts: seq<Part>, rest: string)
    ensures closed ==> Closes(t, parts, rest) && |rest| < |t|
    ensures !closed ==> forall level: nat :: level > 0 ==> AfterComment(t, level) == ""
    decreases |t|
  {
    closed, parts, rest := false, [], "";
    if t == "" {
      return;
    } else if StartsComment(t) {
      var inner, qs, behind := SplitComment(t[2..]);
      if inner {
        forall level: nat | level > 0 ensures AfterComment(t, level) == AfterComment(behind, level) {
          CommentClosed(t[2..], qs, behind, level + 1);
        }
        closed, parts, rest := SplitComment(behind);
        if closed {
          InnerCloses(t, qs, behind, parts, rest);
          parts := [Inner(qs)] + parts;
        }
      }
    } else if EndsComment(t) {
      closed, rest := true, t[2..];
      assert t == PrintParts(parts) + "*)" + rest;
    } else {
      closed, parts, rest := SplitComment(t[1..]);
      if closed {
        PlainCloses(t, parts, rest);
        parts := [Plain(t[0])] + parts;
      }
    }
  }

  lemma CommentClosed(t: string, parts: seq<Part>, rest: string, level: nat)
    requires Closes(t, parts, rest) && level > 0
    ensures AfterComment(t, level) == AfterComment(rest, level - 1)
  {
    var close := "*)" + rest;
    assert t == PrintParts(parts) + close && close[2..] == rest;
    PartsSkipped(parts, close, level);
  }

  lemma PlainCloses(t: string, parts: seq<Part>, rest: string)
    requires t != "" && !StartsComment(t) && !EndsComment(t) && Closes(t[1..], parts, rest)
    ensures Closes(t, [Plain(t[0])] + parts, rest)
  {
    var all := [Plain(t[0])] + parts;
    assert all[1..] == parts;
    assert At(t, 1) == At(PrintParts(parts) + "*)", 0);
    assert t == [t[0]] + t[1..];
  }

  lemma InnerCloses(t: string, qs: seq<Part>, behind: string, parts: seq<Part>, rest: string)
    requires StartsComment(t) && Closes(t[2..], qs, behind) && Closes(behind, parts, rest)
    ensures Closes(t, [Inner(qs)] + parts, rest)
  {
    var all := [Inner(qs)] + parts;
    assert all[1..] == parts && all[0] == Inner(qs);
    assert PartsOk(all);
    assert t == "(*" + t[2..];
    assert PrintParts(all) == "(*" + PrintParts(qs) + "*)" + PrintParts(parts);
  }

  /** A blank or a comment before something else makes no difference. */
  lemma PieceSkipped(ks: set<string>, p: Piece, rest: string)
    requires PieceOk(p) && rest != []
    ensures Next(ks, PrintPiece(p) + rest) == Next(ks, rest)
  {
    if p.Blank? {
      BlankSkipped(ks, p.c, rest);
    } else {
      CommentEnds(p.parts, rest);
      CommentSkipped(ks, PrintPiece(p) + rest, rest);
    }
  }

  lemma {:induction false} PiecesSkipped(ks: set<string>, ps: seq<Piece>, rest: string)
    requires (forall i :: 0 <= i < |ps| ==> PieceOk(ps[i])) && rest != []
    ensures Next(ks, PrintPieces(ps) + rest) == Next(ks, rest)
    decreases |ps|
  {
    if ps == [] {
      assert PrintPieces(ps) + rest == rest;
    } else {
      var more := PrintPieces(ps[1..]) + rest;
      Cat(PrintPiece(ps[0]), PrintPieces(ps[1..]), rest);
      PieceSkipped(ks, ps[0], more);
      PiecesSkipped(ks, ps[1..], rest);
    }
  }

  /** A token, what stands before it, and what is wrong with it. */
  datatype Item = Item(before: seq<Piece>, tok: Lexeme, reports: seq<LexError>)

  predicate TrailOk(trail: seq<Piece>) { forall i :: 0 <= i < |trail| ==> PieceOk(trail[i]) }

  ghost predicate ItemOk(ks: set<string>, item: Item, rest: string) {
    Stands(ks, item.tok, item.reports, rest) && TrailOk(item.before)
  }

  /** Tokens each of which stands before the next, with or without something
      between them. */
  ghost predicate ItemsOk(ks: set<string>, items: seq<Item>, tail: string)
    decreases |items|
  {
    items == [] || (ItemOk(ks, items[0], PrintItems(items[1..], tail)) && ItemsOk(ks, items[1..], tail))
  }

  /** Tokens, and the text behind them. */
  function PrintItems(items: seq<Item>, tail: string): string {
    if items == [] then tail
    else PrintPieces(items[0].before) + items[0].tok.text + PrintItems(items[1..], tail)
  }

  function TokensOf(items: seq<Item>): seq<Lexeme> {
    if items == [] then [] else [items[0].tok] + TokensOf(items[1..])
  }

  function ReportsOf(items: seq<Item>): seq<LexError> {
    if items == [] then [] else items[0].reports + ReportsOf(items[1..])
  }

  /** What the lexer reports about text that ends in trail. */
  function TrailErrors(trail: seq<Piece>): seq<LexError> {
    if trail != [] && trail[|trail| - 1].Comment? then [UnterminatedComment] else []
  }

  /** Behind the last token there is only the end, and an error if the text ends
      in a comment. */
  lemma {:induction false} TrailSkipped(ks: set<string>, trail: seq<Piece>)
    requires TrailOk(trail)
    ensures Next(ks, PrintPieces(trail)) == Scan(Lexeme(EndOfFile, ""), "", TrailErrors(trail))
    decreases |trail|
  {
    if trail != [] {
      var more := PrintPieces(trail[1..]);
      TrailSkipped(ks, trail[1..]);
      if trail[1..] == [] {
        assert PrintPiece(trail[0]) + more == PrintPiece(trail[0]);
        LastPiece(ks, trail[0]);
      } else {
        assert more == PrintPiece(trail[1]) + PrintPieces(trail[1..][1..]);
        PieceSkipped(ks, trail[0], more);
      }
    }
  }

  lemma LastPiece(ks: set<string>, p: Piece)
    requires PieceOk(p)
    ensures Next(ks, PrintPiece(p)) == Scan(Lexeme(EndOfFile, ""), "", TrailErrors([p]))
  {
    assert Next(ks, "") == Scan(Lexeme(EndOfFile, ""), "", []);
    var s := PrintPiece(p);
    if p.Blank? {
      assert s[1..] == "";
      assert Span(Blanks, s) == 1;
    } else {
      assert s + "" == s;
      CommentEnds(p.parts, "");
      CommentReport(ks, s);
    }
  }

  /** Tokens as they stand in a text are read back with their reports; then the
      lexer goes on with what is behind them. */
  lemma {:induction false} ItemsRead(ks: set<string>, items: seq<Item>, tail: string)
    requires ItemsOk(ks, items, tail)
    ensures LexAll(ks, PrintItems(items, tail))
            == (TokensOf(items) + LexAll(ks, tail).0, ReportsOf(items) + LexAll(ks, tail).1)
    decreases |items|
  {
    if items != [] {
      var rest := items[1..];
      NextItem(ks, items[0], PrintItems(rest, tail));
      ItemsRead(ks, rest, tail);
      OneMore(ks, PrintItems(items, tail), items[0].tok, items[0].reports, PrintItems(rest, tail));
      Regrouped([items[0].tok], TokensOf(rest), LexAll(ks, tail).0);
      Regrouped(items[0].reports, ReportsOf(rest), LexAll(ks, tail).1);
    } else {
      var (toks, errors) := LexAll(ks, tail);
      assert [] + toks == toks && [] + errors == errors;
    }
  }

  lemma Regrouped<T>(a: seq<T>, b: seq<T>, c: seq<T>)
    ensures a + b + c == a + (b + c)
  {
  }

  /** With blanks and comments behind the last token, the only further report is one
      for a comment at the very end, closed as it is. */
  lemma LexRoundTrip(ks: set<string>, items: seq<Item>, trail: seq<Piece>)
    requires ItemsOk(ks, items, PrintPieces(trail)) && TrailOk(trail)
    ensures LexAll(ks, PrintItems(items, PrintPieces(trail))) ==
            (TokensOf(items), ReportsOf(items) + TrailErrors(trail))
  {
    ItemsRead(ks, items, PrintPieces(trail));
    TrailSkipped(ks, trail);
    assert TokensOf(items) + [] == TokensOf(items);
  }

  lemma NextItem(ks: set<string>, item: Item, rest: string)
    requires ItemOk(ks, item, rest)
    ensures Next(ks, PrintPieces(item.before) + item.tok.text + rest) == Scan(item.tok, rest, item.reports)
    ensures !item.tok.kind.EndOfFile? && !item.tok.kind.Unknown?
  {
    var s := item.tok.text + rest;
    TokenReads(ks, item.tok, item.reports, rest);
    Cat(PrintPieces(item.before), item.tok.text, rest);
    PiecesSkipped(ks, item.before, s);
    FrontToken(ks, s);
  }

  lemma OneMore(ks: set<string>, s: string, l: Lexeme, reports: seq<LexError>, rest: string)
    requires Next(ks, s) == Scan(l, rest, reports) && !l.kind.EndOfFile? && !l.kind.Unknown?
    ensures LexAll(ks, s) == ([l] + LexAll(ks, rest).0, reports + LexAll(ks, rest).1)
  {
  }

  /** No blank and no comment in front: the token is the next. */
  lemma FrontToken(ks: set<string>, s: string)
    requires s != [] && !IsBlank(s[0]) && !StartsComment(s)
    ensures Next(ks, s) == TokenAt(ks, s)
  {
    assert Span(Blanks, s) == 0;
    assert SkipBlanks(s) == s;
  }

  /** 1..2 is an integer, two dots, and an integer. */
  lemma RangeSplits(ks: set<string>, a: string, b: string)
    requires a != "" && Decimals(a) && b != "" && Decimals(b)
    ensures LexAll(ks, a + (".." + b)) ==
            ([Lexeme(IntegerLiteral, a), Lexeme(Punctuator, ".."), Lexeme(IntegerLiteral, b)], [])
  {
    var x, dots, y := Lexeme(IntegerLiteral, a), Lexeme(Punctuator, ".."), Lexeme(IntegerLiteral, b);
    assert Stands(ks, x, [], ".." + b) && Stands(ks, dots, [], b) && Stands(ks, y, [], "");
    ThreeTokens(ks, x, dots, y);
  }

  /** p.x is two names and a dot, if neither is a keyword. */
  lemma SelectorSplits(ks: set<string>, a: string, b: string)
    requires WordEnds(a, "") && WordEnds(b, "") && a !in ks && b !in ks
    ensures LexAll(ks, a + ("." + b)) == ([Lexeme(Identifier, a), Lexeme(Punctuator, "."), Lexeme(Identifier, b)], [])
  {
    var x, dot, y := Lexeme(Identifier, a), Lexeme(Punctuator, "."), Lexeme(Identifier, b);
    assert InWord(b[0]);
    assert Stands(ks, x, [], "." + b) && Stands(ks, dot, [], b) && Stands(ks, y, [], "");
    ThreeTokens(ks, x, dot, y);
  }

  lemma ThreeTokens(ks: set<string>, x: Lexeme, y: Lexeme, z: Lexeme)
    requires Stands(ks, x, [], y.text + z.text) && Stands(ks, y, [], z.text) && Stands(ks, z, [], "")
    ensures LexAll(ks, x.text + (y.text + z.text)) == ([x, y, z], [])
  {
    LastToken(ks, z);
    FrontStands(ks, y, z.text, [z]);
    ThreeIn(x, y, z);
    FrontStands(ks, x, y.text + z.text, [y, z]);
  }

  lemma ThreeIn<T>(x: T, y: T, z: T)
    ensures [x] + ([y] + [z]) == [x, y, z] && [y] + [z] == [y, z]
  {
  }

  lemma LastToken(ks: set<string>, z: Lexeme)
    requires Stands(ks, z, [], "")
    ensures LexAll(ks, z.text) == ([z], [])
  {
    EndOfText(ks);
    FrontStands(ks, z, "", []);
    assert z.text + "" == z.text && [z] + [] == [z];
  }

  lemma EndOfText(ks: set<string>)
    ensures LexAll(ks, "") == ([], [])
  {
  }

  lemma FrontStands(ks: set<string>, l: Lexeme, rest: string, toks: seq<Lexeme>)
    requires Stands(ks, l, [], rest) && LexAll(ks, rest) == (toks, [])
    ensures LexAll(ks, l.text + rest) == ([l] + toks, [])
  {
    var none: seq<LexError> := [];
    TokenReads(ks, l, none, rest);
    FrontToken(ks, l.text + rest);
    OneMore(ks, l.text + rest, l, none, rest);
    assert none + none == none;
  }

  lemma CommentReport(ks: set<string>, s: string)
    requires StartsComment(s)
    ensures var rest := AfterComment(s[2..], 1);
            Next(ks, s) == Next(ks, rest).(errors := (if rest == [] then [UnterminatedComment] else []) +
                                           Next(ks, rest).errors)
  {
    assert Span(Blanks, s) == 0 && SkipBlanks(s) == s;
  }

  /** When a comment is reported as unterminated: it is not closed, as it should
      be, or it is closed and the text ends there. Otherwise nothing is reported
      and the next token is the one behind it. */
  lemma CommentReportedIff(ks: set<string>, s: string)
    requires StartsComment(s)
    ensures !Closed(s[2..]) ==> Next(ks, s) == Scan(Lexeme(EndOfFile, ""), "", [UnterminatedComment])
    ensures forall parts, rest :: Closes(s[2..], parts, rest) ==>
              Next(ks, s) == if rest == "" then Scan(Lexeme(EndOfFile, ""), "", [UnterminatedComment])
                else Next(ks, rest)
  {
    var none: seq<LexError> := [];
    CommentReport(ks, s);
    assert Next(ks, "") == Scan(Lexeme(EndOfFile, ""), "", none);
    assert [UnterminatedComment] + none == [UnterminatedComment];
    var closed, parts0, rest0 := SplitComment(s[2..]);
    if closed { assert Closed(s[2..]); }
    forall parts, rest | Closes(s[2..], parts, rest)
      ensures Next(ks, s) == if rest == "" then Scan(Lexeme(EndOfFile, ""), "", [UnterminatedComment])
              else Next(ks, rest)
    {
      CommentClosed(s[2..], parts, rest, 1);
      assert AfterComment(rest, 0) == rest;
      assert none + Next(ks, rest).errors == Next(ks, rest).errors;
    }
  }

  /** So a text that is one closed comment is reported. */
  lemma ClosedCommentReported(ks: set<string>, parts: seq<Part>)
    requires PartsOk(parts)
    ensures LexAll(ks, PrintPiece(Comment(parts))) == ([], [UnterminatedComment])
  {
    var trail := [Comment(parts)];
    assert trail[1..] == [] && PrintPieces(trail) == PrintPiece(Comment(parts));
    LexRoundTrip(ks, [], trail);
    assert [] + TrailErrors(trail) == TrailErrors(trail);
  }
}
