/** Bytes and the ASCII constants the tokenizer, the writer and the generated
    code compare against. Go strings and []byte are both byte sequences. */
module Bytes {

  newtype byte = x: int | 0 <= x < 256

  type Bytes = seq<byte>

  const QUOTE: byte := 0x22      // '"'
  const BACKSLASH: byte := 0x5C  // '\\'
  const COMMA: byte := 0x2C      // ','
  const COLON: byte := 0x3A      // ':'
  const LBRACE: byte := 0x7B     // '{'
  const RBRACE: byte := 0x7D     // '}'
  const LBRACKET: byte := 0x5B   // '['
  const RBRACKET: byte := 0x5D   // ']'
  const SPACE: byte := 0x20
  const TAB: byte := 0x09
  const LF: byte := 0x0A
  const CR: byte := 0x0D
  const MINUS: byte := 0x2D      // '-'
  const PLUS: byte := 0x2B       // '+'
  const DOT: byte := 0x2E        // '.'
  const ZERO: byte := 0x30       // '0'

  /** "true", "false", "null" */
  const TRUE_LIT: Bytes := [0x74, 0x72, 0x75, 0x65]
  const FALSE_LIT: Bytes := [0x66, 0x61, 0x6C, 0x73, 0x65]
  const NULL_LIT: Bytes := [0x6E, 0x75, 0x6C, 0x6C]

  predicate IsDigit(b: byte) { 0x30 <= b <= 0x39 }
}
