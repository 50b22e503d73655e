/** Tokens, and the characters the tokenizer tells apart. */
module Lexemes {
  import opened Prelude
  import opened Unicode

  /** A number keeps its literal without separators, from which its value is computed. */
  datatype Token =
    | LineTerminator
    | StringLit(units: seq<u16>)
    | Template(parts: seq<Part>)
    | Number(text: string)
    | BigInt(text: string)
    | Regex(pattern: string, flags: string)
    | Identifier(name: string)
    | PrivateIdentifier(name: string)
    | Keyword(word: string)
    | Punct(sign: string)

  datatype Part = Str(cooked: Option<seq<u16>>, raw: seq<u16>) | Expr(tokens: seq<TokenData>)

  datatype TokenData = TokenData(token: Token, byteOffset: nat)

  function Kinds(ts: seq<TokenData>): (ks: seq<Token>)
    ensures |ks| == |ts|
  {
    seq(|ts|, k requires 0 <= k < |ts| => ts[k].token)
  }

  /** What the tokenizer asks of Unicode tables for characters outside ASCII, of the regular expression library, and
      of its surroundings. */
  datatype Tables = Tables(
    idStart: char -> bool,
    idContinue: char -> bool,
    otherContinue: char -> bool,
    alphabetic: char -> bool,
    regexOk: (string, string) -> bool,
    inModule: bool)

  predicate IsAscii(c: char) { c as int < 0x80 }

  predicate IsLetter(c: char) { 'a' <= c <= 'z' || 'A' <= c <= 'Z' }

  /** char::is_alphabetic. */
  predicate IsAlphabetic(c: char, tables: Tables) {
    if IsAscii(c) then IsLetter(c) else tables.alphabetic(c)
  }

  /** ID_Start and the additional table of such characters. */
  predicate IsIdStart(c: char, tables: Tables) {
    if IsAscii(c) then IsLetter(c) else tables.idStart(c)
  }

  /** ID_Continue and the additional tables, those of ID_Start included. */
  predicate IsIdContinue(c: char, tables: Tables) {
    if IsAscii(c) then IsLetter(c) || IsDigit(c) || c == '_' else tables.idContinue(c)
  }

  predicate IsSpace(c: char) {
    var p := c as int;
    p == 0x20 || p == 9 || p == 11 || p == 12 || p == 0xa0 || p == 0xfeff || p == 0x1680 || 0x2000 <= p <= 0x200a
    || p == 0x202f || p == 0x205f || p == 0x3000
  }

  const LF: char := '\n'
  const CR: char := '\r'
  const LS: char := '\U{2028}'
  const PS: char := '\U{2029}'

  predicate IsLineEnd(c: char) { c == LF || c == CR || c == LS || c == PS }

  predicate Begins(t: string, p: string) {
    p <= t
  }
}
