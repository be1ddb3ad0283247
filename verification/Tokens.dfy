/** The tokens of the language as they stand in a text: which characters each kind
    has, where it ends, and what is wrong with the malformed ones. */
module Tokens {
  datatype Kind = Identifier | Keyword | IntegerLiteral | RealLiteral | StringLiteral | Punctuator | EndOfFile | Unknown

  datatype Lexeme = Lexeme(kind: Kind, text: string)

  datatype LexError =
    HexDigitInDecimal | InvalidReal | LongRealNotImplemented | UnterminatedString | UnterminatedComment

  /** The character at position i, NUL at the end. */
  function At(s: string, i: nat): char { if i < |s| then s[i] else 0 as char }

  predicate Decimal(c: char) { '0' <= c <= '9' }
  predicate Hexadecimal(c: char) { '0' <= c <= '9' || 'A' <= c <= 'F' }
  predicate InWord(c: char) { 'a' <= c <= 'z' || 'A' <= c <= 'Z' || '0' <= c <= '9' || c == '_' }
  predicate EndsLine(c: char) { c == '\r' || c == '\n' }
  predicate Separates(c: char) { c == ' ' || c == '\t' || EndsLine(c) || c == 11 as char || c == 12 as char }
  predicate Exponent(c: char) { c == 'E' || c == 'e' || c == 'D' || c == 'd' }

  predicate Decimals(t: string) { forall i :: 0 <= i < |t| ==> Decimal(t[i]) }
  predicate Hexadecimals(t: string) { forall i :: 0 <= i < |t| ==> Hexadecimal(t[i]) }

  /** A word ends before the first character that cannot be in one. */
  predicate WordEnds(t: string, rest: string) {
    t != "" && !Decimal(t[0]) && (forall i :: 0 <= i < |t| ==> InWord(t[i])) && !InWord(At(rest, 0))
  }

  /** Digits, with an H if they are hexadecimal; or without it before anything but
      a digit, an H and a fraction: 1..2 has none. */
  predicate IntegerEnds(t: string, rest: string) {
    && t != "" && Decimal(t[0])
    && (|| (|t| >= 2 && t[|t| - 1] == 'H' && Hexadecimals(t[..|t| - 1]))
        || (&& Hexadecimals(t) && !Hexadecimal(At(rest, 0)) && At(rest, 0) != 'H'
            && (At(rest, 0) == '.' ==> At(rest, 1) == '.')))
  }

  function HexReport(digits: string): seq<LexError> { if Decimals(digits) then [] else [HexDigitInDecimal] }

  function IntegerReports(t: string): seq<LexError>
    requires t != ""
  {
    if t[|t| - 1] == 'H' then [] else HexReport(t)
  }

  /** The parts of a real number: digits, a dot, digits, and a scale factor. */
  datatype RealText = RealText(whole: string, fraction: string, scale: string)

  function TextOf(n: RealText): string { n.whole + ("." + (n.fraction + n.scale)) }

  predicate Signed(scale: string) { At(scale, 1) == '+' || At(scale, 1) == '-' }

  function ExponentOf(scale: string): string
    requires scale != ""
  {
    if Signed(scale) then scale[2..] else scale[1..]
  }

  /** No scale factor, and none that starts; or a letter, a sign if there is one,
      and all the digits there are. */
  predicate ScaleEnds(scale: string, rest: string) {
    if scale == "" then !Decimal(At(rest, 0)) && !Exponent(At(rest, 0))
    else
      && Exponent(scale[0]) && Decimals(ExponentOf(scale)) && !Decimal(At(rest, 0))
      && (|scale| == 1 ==> At(rest, 0) != '+' && At(rest, 0) != '-')
  }

  function ScaleReports(scale: string): seq<LexError> {
    if scale == "" then []
    else if ExponentOf(scale) == "" then [InvalidReal]
    else if scale[0] == 'D' || scale[0] == 'd' then [LongRealNotImplemented]
    else []
  }

  predicate RealEnds(n: RealText, rest: string) {
    && n.whole != "" && Decimal(n.whole[0]) && Hexadecimals(n.whole) && Decimals(n.fraction) && ScaleEnds(n.scale, rest)
    && At(n.fraction + n.scale + rest, 0) != '.'
  }

  /** A string up to its quote, to the end of the line, or to the end of the text. */
  predicate StringEnds(t: string, rest: string) {
    && t != "" && (t[0] == '"' || t[0] == '\'')
    && (|| (|t| >= 2 && (t[|t| - 1] == t[0] || EndsLine(t[|t| - 1])) && NoneOf(t[0], t[1..|t| - 1]))
        || (rest == "" && NoneOf(t[0], t[1..])))
  }

  predicate NoneOf(quote: char, t: string) { forall i :: 0 <= i < |t| ==> t[i] != quote && !EndsLine(t[i]) }

  function StringReports(t: string): seq<LexError>
    requires t != ""
  {
    if EndsLine(t[|t| - 1]) then [UnterminatedString] else []
  }

  /** The marks, and what may not follow the first half of a longer one. */
  predicate MarkEnds(t: string, rest: string) {
    || t == "=" || t == "#" || t == "+" || t == "-" || t == "*" || t == "/" || t == "," || t == ";"
    || t == ")" || t == "[" || t == "]" || t == ".." || t == ":=" || t == "<=" || t == ">="
    || (t == "." && At(rest, 0) != '.')
    || ((t == ":" || t == "<" || t == ">") && At(rest, 0) != '=')
    || (t == "(" && At(rest, 0) != '*')
  }

  /** Token l stands before rest and ends there, and the reports are what is wrong
      with it. */
  ghost predicate Stands(ks: set<string>, l: Lexeme, reports: seq<LexError>, rest: string) {
    match l.kind
    case Identifier => WordEnds(l.text, rest) && l.text !in ks && reports == []
    case Keyword => WordEnds(l.text, rest) && l.text in ks && reports == []
    case IntegerLiteral => IntegerEnds(l.text, rest) && reports == IntegerReports(l.text)
    case RealLiteral =>
      exists n: RealText :: l.text == TextOf(n) && RealEnds(n, rest) &&
        reports == HexReport(n.whole) + ScaleReports(n.scale)
    case StringLiteral => StringEnds(l.text, rest) && reports == StringReports(l.text)
    case Punctuator => MarkEnds(l.text, rest) && reports == []
    case _ => false
  }
}
