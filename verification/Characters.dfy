/** The classes of characters the lexer tells apart. */
module Characters {
  predicate IsBlank(c: char) { c == '\r' || c == '\n' || c == ' ' || c == '\t' || c == 12 as char || c == 11 as char }
  predicate IsNewline(c: char) { c == '\r' || c == '\n' }
  predicate IsDigit(c: char) { '0' <= c <= '9' }
  predicate IsHexDigit(c: char) { IsDigit(c) || 'A' <= c <= 'F' }
  predicate IsHead(c: char) { c == '_' || 'A' <= c <= 'Z' || 'a' <= c <= 'z' }
  predicate IsBody(c: char) { IsHead(c) || IsDigit(c) }
}
