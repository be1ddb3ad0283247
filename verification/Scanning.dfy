/** The other half of reading tokens: what the lexer takes from a text is a token
    that stands there, and its reports are what is wrong with it. */
module Scanning {
  import opened Characters
  import opened Tokens
  import opened Lexing

  lemma AtCut(s: string, n: nat)
    requires n <= |s|
    ensures s == s[..n] + s[n..] && At(s[n..], 0) == At(s, n) && At(s[n..], 1) == At(s, n + 1)
  {
  }

  lemma WordStands(ks: set<string>, s: string)
    requires s != "" && IsHead(s[0])
    ensures var c := WordAt(ks, s);
            && WordEnds(s[..c.n], s[c.n..]) && c.errors == []
            && c.kind == if s[..c.n] in ks then Keyword else Identifier
  {
    var n := 1 + Span(Bodies, s[1..]);
    AtCut(s, n);
    forall i | 0 <= i < n ensures InWord(s[..n][i]) { if i > 0 { assert In(Bodies, s[1..][i - 1]); } }
    if n < |s| { assert !In(Bodies, s[1..][n - 1]); }
  }

  /** Where the digits of a number end. */
  lemma WholeStands(s: string)
    requires s != "" && IsDigit(s[0])
    ensures var i := 1 + Span(Hexes, s[1..]);
            && i <= |s| && Hexadecimals(s[..i]) && !Hexadecimal(At(s, i))
            && (AllOf(Digits, s[1..i]) <==> Decimals(s[..i]))
  {
    var i := 1 + Span(Hexes, s[1..]);
    forall k | 0 <= k < i ensures Hexadecimal(s[..i][k]) { if k > 0 { assert In(Hexes, s[1..][k - 1]); } }
    if i < |s| { assert !In(Hexes, s[1..][i - 1]); }
    if AllOf(Digits, s[1..i]) {
      forall k | 0 <= k < i ensures Decimal(s[..i][k]) { if k > 0 { assert In(Digits, s[1..i][k - 1]); } }
    }
    if Decimals(s[..i]) {
      forall k | 0 <= k < i - 1 ensures In(Digits, s[1..i][k]) { assert Decimal(s[..i][k + 1]); }
    }
  }

  lemma NumberStands(s: string)
    requires s != "" && IsDigit(s[0])
    ensures var c := NumberAt(s);
            if c.kind.IntegerLiteral? then IntegerEnds(s[..c.n], s[c.n..]) && c.errors == IntegerReports(s[..c.n])
            else c.kind.RealLiteral? && exists n: RealText ::
                   s[..c.n] == TextOf(n) && RealEnds(n, s[c.n..]) &&
                     c.errors == HexReport(n.whole) + ScaleReports(n.scale)
  {
    var i := 1 + Span(Hexes, s[1..]);
    WholeStands(s);
    if At(s, i) == 'H' {
      AtCut(s, i + 1);
      assert s[..i + 1][..i] == s[..i];
    } else if At(s, i) == '.' && At(s, i + 1) != '.' {
      var n := RealStands(s, i);
    } else {
      AtCut(s, i);
      assert Hexadecimal(s[..i][i - 1]);
    }
  }

  lemma DigitsSpan(s: string, i: nat) returns (j: nat)
    requires i <= |s|
    ensures j == i + Span(Digits, s[i..]) && i <= j <= |s| && Decimals(s[i..j]) && !Decimal(At(s, j))
  {
    j := i + Span(Digits, s[i..]);
    var digits := s[i..j];
    forall m | 0 <= m < |digits| ensures Decimal(digits[m]) { assert In(Digits, s[i..][m]); }
    if j < |s| { assert !In(Digits, s[i..][j - i]); }
  }

  lemma RealStands(s: string, i: nat) returns (n: RealText)
    requires 0 < i < |s| && IsDigit(s[0]) && Hexadecimals(s[..i]) && s[i] == '.' && At(s, i + 1) != '.'
    ensures var c := FractionAt(s, i, HexReport(s[..i]));
            s[..c.n] == TextOf(n) && RealEnds(n, s[c.n..]) && c.errors == HexReport(n.whole) + ScaleReports(n.scale)
  {
    var j, k := FractionStands(s, i, HexReport(s[..i]));
    n := RealText(s[..i], s[i + 1..j], s[j..k]);
    RealPartsEnd(s, i, j, k);
  }

  lemma FractionStands(s: string, i: nat, hex: seq<LexError>) returns (j: nat, k: nat)
    requires i < |s|
    ensures i < j <= k <= |s| && Decimals(s[i + 1..j]) && ScaleEnds(s[j..k], s[k..])
    ensures FractionAt(s, i, hex) == Cut(RealLiteral, k, hex + ScaleReports(s[j..k]))
  {
    j := DigitsSpan(s, i + 1);
    k := ScaleOrNot(s, j).0;
    ScaleStands(s, j);
    FractionIs(s, i, j, k, hex, ScaleOrNot(s, j).1);
  }

  lemma RealPartsEnd(s: string, i: nat, j: nat, k: nat)
    requires 0 < i < j <= k <= |s| && IsDigit(s[0]) && Hexadecimals(s[..i]) && s[i] == '.' && At(s, i + 1) != '.'
    requires Decimals(s[i + 1..j]) && ScaleEnds(s[j..k], s[k..])
    ensures var n := RealText(s[..i], s[i + 1..j], s[j..k]); s[..k] == TextOf(n) && RealEnds(n, s[k..])
  {
    RealJoined(s, i, j, k);
  }

  lemma RealJoined(s: string, i: nat, j: nat, k: nat)
    requires i < j <= k <= |s| && s[i] == '.'
    ensures s[..k] == s[..i] + ("." + (s[i + 1..j] + s[j..k]))
    ensures s[i + 1..j] + s[j..k] + s[k..] == s[i + 1..] && At(s[i + 1..], 0) == At(s, i + 1)
  {
    assert s[..k] == s[..i] + s[i..k];
    assert s[i..k] == "." + s[i + 1..k];
    assert s[i + 1..k] == s[i + 1..j] + s[j..k];
  }

  lemma ScaleStands(s: string, j: nat)
    requires j <= |s| && !Decimal(At(s, j))
    ensures var (k, errors) := ScaleOrNot(s, j);
            j <= k <= |s| && ScaleEnds(s[j..k], s[k..]) && errors == ScaleReports(s[j..k])
  {
    var (k, errors) := ScaleOrNot(s, j);
    AtCut(s, k);
    if IsScaleLetter(At(s, j)) {
      var scale := s[j..k];
      var d := if At(s, j + 1) == '+' || At(s, j + 1) == '-' then j + 2 else j + 1;
      assert scale[0] == s[j];
      assert |scale| > 1 ==> scale[1] == s[j + 1];
      assert ExponentOf(scale) == s[d..k];
      if k > d { var end := DigitsSpan(s, d); }
    } else {
      assert s[j..k] == "";
    }
  }

  lemma StringStands(s: string)
    requires s != "" && (s[0] == '"' || s[0] == '\'')
    ensures var c := StringAt(s); StringEnds(s[..c.n], s[c.n..]) && c.errors == StringReports(s[..c.n])
  {
    var q, i := s[0], 1 + Span(Inside(s[0]), s[1..]);
    var t := s[..if i < |s| then i + 1 else i];
    var inner := s[1..i];
    forall m | 0 <= m < |inner| ensures inner[m] != q && !EndsLine(inner[m]) { assert In(Inside(q), s[1..][m]); }
    if i < |s| {
      assert !In(Inside(q), s[1..][i - 1]);
      assert t[1..|t| - 1] == inner;
    } else {
      assert t[1..] == inner;
      assert i > 1 ==> t[i - 1] == inner[i - 2];
    }
  }

  lemma MarkStands(s: string)
    requires s != "" && PunctuationAt(s) > 0 && !StartsComment(s)
    ensures MarkEnds(s[..PunctuationAt(s)], s[PunctuationAt(s)..])
  {
    var n := PunctuationAt(s);
    AtCut(s, n);
    assert n == 1 ==> s[..1] == [s[0]];
    assert n == 2 ==> s[..2] == [s[0], s[1]];
  }

  /** The token taken from the front of a text stands there, reports included. */
  lemma TokenStands(ks: set<string>, s: string)
    requires s != "" && !IsBlank(s[0]) && !StartsComment(s) && !TokenAt(ks, s).tok.kind.Unknown?
    ensures var r := TokenAt(ks, s); s == r.tok.text + r.rest && Stands(ks, r.tok, r.errors, r.rest)
  {
    var r := TokenAt(ks, s);
    AtCut(s, |r.tok.text|);
    if IsHead(s[0]) {
      WordStands(ks, s);
    } else if IsDigit(s[0]) {
      NumberStands(s);
    } else if s[0] == '"' || s[0] == '\'' {
      StringStands(s);
    } else {
      MarkStands(s);
    }
  }

  /** A text has at its front exactly the token that stands there. */
  lemma TokenIff(ks: set<string>, s: string, l: Lexeme, reports: seq<LexError>, rest: string)
    requires s != "" && !IsBlank(s[0]) && !StartsComment(s) && !l.kind.Unknown?
    ensures TokenAt(ks, s) == Scan(l, rest, reports) <==> s == l.text + rest && Stands(ks, l, reports, rest)
  {
    if TokenAt(ks, s) == Scan(l, rest, reports) { TokenStands(ks, s); }
    if s == l.text + rest && Stands(ks, l, reports, rest) { TokenReads(ks, l, reports, rest); }
  }

  /** In front of the next token there are only blanks and comments. */
  lemma {:induction false} NextStands(ks: set<string>, s: string) returns (before: seq<Piece>)
    requires var r := Next(ks, s); !r.tok.kind.EndOfFile? && !r.tok.kind.Unknown?
    ensures var r := Next(ks, s);
            TrailOk(before) && s == PrintPieces(before) + r.tok.text + r.rest && Stands(ks, r.tok, r.errors, r.rest)
    decreases |s|
  {
    before := [];
    assert s != "";
    if IsBlank(s[0]) {
      assert s == [s[0]] + s[1..];
      AfterBlank(ks, s);
      var more := NextStands(ks, s[1..]);
      before := [Blank(s[0])] + more;
      PieceBefore(s, Blank(s[0]), s[1..], more, Next(ks, s).tok.text, Next(ks, s).rest);
    } else if StartsComment(s) {
      var parts, rest := CommentStands(ks, s);
      var more := NextStands(ks, rest);
      before := [Comment(parts)] + more;
      PieceBefore(s, Comment(parts), rest, more, Next(ks, s).tok.text, Next(ks, s).rest);
    } else {
      FrontToken(ks, s);
      TokenStands(ks, s);
    }
  }

  lemma PieceBefore(s: string, p: Piece, rest: string, more: seq<Piece>, text: string, end: string)
    requires PieceOk(p) && TrailOk(more) && s == PrintPiece(p) + rest && rest == PrintPieces(more) + text + end
    ensures TrailOk([p] + more) && s == PrintPieces([p] + more) + text + end
  {
    var all := [p] + more;
    assert all[0] == p && all[1..] == more;
    Joined4(PrintPiece(p), PrintPieces(more), text, end);
  }

  lemma Joined4(a: string, b: string, c: string, d: string)
    ensures a + (b + c + d) == a + b + c + d
  {
  }

  lemma AfterBlank(ks: set<string>, s: string)
    requires s != "" && IsBlank(s[0])
    ensures Next(ks, s) == Next(ks, s[1..])
  {
    assert Span(Blanks, s) == 1 + Span(Blanks, s[1..]);
    assert SkipBlanks(s) == SkipBlanks(s[1..]);
  }

  /** A comment before a token is closed. */
  lemma CommentStands(ks: set<string>, s: string) returns (parts: seq<Part>, rest: string)
    requires StartsComment(s) && !Next(ks, s).tok.kind.EndOfFile?
    ensures PartsOk(parts) && s == PrintPiece(Comment(parts)) + rest && |rest| < |s| && Next(ks, s) == Next(ks, rest)
  {
    var closed;
    closed, parts, rest := SplitComment(s[2..]);
    CommentReportedIff(ks, s);
    if !closed { Unclosed(ks, s); }
    WholeComment(s, parts, rest);
  }

  lemma WholeComment(s: string, parts: seq<Part>, rest: string)
    requires StartsComment(s) && Closes(s[2..], parts, rest)
    ensures s == PrintPiece(Comment(parts)) + rest && |rest| < |s|
  {
    assert s == "(*" + s[2..];
    Joined4("(*", PrintParts(parts), "*)", rest);
  }

  lemma Unclosed(ks: set<string>, s: string)
    requires StartsComment(s) && AfterComment(s[2..], 1) == ""
    ensures Next(ks, s).tok.kind.EndOfFile?
  {
    CommentReport(ks, s);
  }

  /** So every text is the tokens the lexer finds, as they stand in it, and a rest
      in which it finds no more. */
  lemma {:induction false} TextRead(ks: set<string>, s: string) returns (items: seq<Item>, tail: string)
    ensures s == PrintItems(items, tail) && ItemsOk(ks, items, tail) && LexAll(ks, s).0 == TokensOf(items)
    ensures LexAll(ks, s).1 == ReportsOf(items) + Next(ks, tail).errors
    ensures Next(ks, tail).tok.kind.EndOfFile? || Next(ks, tail).tok.kind.Unknown?
    decreases |s|
  {
    var r := Next(ks, s);
    items, tail := [], s;
    if !r.tok.kind.EndOfFile? && !r.tok.kind.Unknown? {
      var before := NextStands(ks, s);
      var more;
      more, tail := TextRead(ks, r.rest);
      items := [Item(before, r.tok, r.errors)] + more;
      assert items[1..] == more && items[0] == Item(before, r.tok, r.errors);
      OneMore(ks, s, r.tok, r.errors, r.rest);
      Regrouped(r.errors, ReportsOf(more), Next(ks, tail).errors);
    } else {
      assert [] + r.errors == r.errors;
    }
  }
}
