# protoc-gen-fastjsonpb in Dafny

This project models the core of protoc-gen-fastjsonpb, a protoc plugin that
generates fast JSON codecs for Go protobuf messages. The model has three parts.

- **The JSON tokenizer** (`x/jsonparser/jsonparser.go`): a single-token
  lookahead scanner over a byte slice. Its state is an offset, one cached
  token and one pending separator ("assert") byte. Separator checks are
  deferred: `AssertSymbol` only records the expected byte, and the next
  `getToken` checks it.
  - `parser_spec.dfy` gives every operation as a function on a `PState` value
    that returns `Ok(state, value)` or `Panic(state)`; every `syntaxErr` and
    `panic` is a `Panic`.
  - `parser.dfy` is the `Parser` class with the same fields. Its methods,
    each with the scanning loop of the source, are proved against those
    functions.
  - `parser_props.dfy` proves the accept/reject rules of `getToken`.
  - `parse_tree.dfy` models the generic `Parse`/`obj`/`arr` reader.
- **The output buffer** (`x/buffer/buffer.go`): a class over a backing
  array and a length, with doubling growth in `grow`, the append writers,
  `FixSymbol` and the `WriteString` escaper (one loop over the input
  proved against the specification function `Escape`). The escaper is
  proved inverse to a JSON unescaper up to the replacement of invalid UTF-8.
  `base64.dfy`, `decimal.dfy` and `utf8.dfy` give the standard-library
  encodings the writers use, each with its inverse.
- **The generator** (`gen/gen.go`):
  - `schema.dfy`: a small descriptor IR replacing `protogen`.
  - `gen_rules.dfy`: the per-kind tables.
  - `generator.dfy`: the `Generator` class, holding the indexes and the
    loops that append declarations.
  - `gen_code.dfy`: the code emitted, as structured declarations.
  - `runtime.dfy`, `marshal_run.dfy`, `unmarshal_run.dfy` and
    `lifecycle.dfy`: the meaning of that emitted code, i.e. what
    `FastMarshal` writes, what `FastUnmarshal` reads on the tokenizer model,
    and what `Destructor`, the pools and the enum helpers do.
  - `roundtrip.dfy` and `flat_roundtrip.dfy`: the end-to-end result. For
    messages of singular fields, the text `FastMarshal` writes (with its
    trailing commas retracted by `FixSymbol`) is accepted by the generated
    `FastUnmarshal`. Reading it back sets exactly the fields that were
    written.
  - `decode_findings.dfy`: the places where that round trip is lossy.

Quirks of the code are reproduced, not fixed:
- the nil branch of `FastMarshal` has no `return`;
- integer map keys are written unquoted;
- `IsSymbol` does not skip whitespace;
- a truncated literal is rejected;
- an unterminated string leaves the offset one past the end, so the next
  read fails.

Where the source does something its authors evidently did not intend, the
model keeps that behaviour and a corrected variant side by side, selected by
`Build = AsWritten | Corrected`. These cases are listed under "## Findings".
The generated code skips the value of an unknown key with
`p.PassParse()`. The parser library declares no `PassParse`, so the model
takes the call to be `Parse`. The `AsWritten` build then uses `Parse` as
written, which recovers at every nesting level. `Corrected` uses `Parse`
with the recovery at the outermost call only.

## Model

The rows name the members whose contracts state something. The functions
that compute the model's results have no row of their own; the lemmas
that speak for them do:
- `MarshalRun.MarshalText` (what `FastMarshal` writes): `MarshalRun.NilMarshal`, `MarshalRun.ListBlockText`, `MarshalRun.MapBlockText`, `FlatRoundTrip.MarshalFlat`.
- `UnmarshalRun.Unmarshal` (what `FastUnmarshal` reads): `UnmarshalRun.NilUnmarshal`, `UnmarshalRun.EmptyObjectKeeps`, `FlatRoundTrip.UnmarshalObject`, `FlatRoundTrip.FlatRoundTrip`.
- `Lifecycle.Destruct` (what `Destructor` does): `Lifecycle.DestructClears`, `Lifecycle.NilDestruct`, `Lifecycle.NilFieldPanics`, `Lifecycle.NilFieldSkipped`.
- The `GenRules` tables (`ValWriter`, `KeyWriter`, `ValReader`, `TypeName`, `EmptyTestOf`, `ResetOf`): `GenRules.ReaderMatchesWriter`, `GenRules.KeyWriterAgrees`, `GenRules.TypeNameMatchesWriter`, `GenRules.EmptyMatchesReset`.
- The emitted declarations (`GenCode.MarshalDecl`, `UnmarshalDecl`, `DestructorDecl`, `EmptyDecls`, `MessageDecls`, `FileDecls`): `CodeGen.MarshalOf`, `CodeGen.UnmarshalOf`, `CodeGen.DestructorOf`, `CodeGen.EmptiesOf`, `CodeGen.Generator.GenerateFile`.
- `ParseTree.ParseWritten` (`Parse` as written): `ParseTree.ValueAgrees`, `ParseTree.ArrayElementLoops`.

| member | source | states |
|---|---|---|
| Base64.Index | x/buffer/buffer.go:71-73 | the position of an alphabet byte is below 64 and maps back to that byte |
| Base64.CharIndex | x/buffer/buffer.go:71-73 | every 6-bit value maps to an alphabet byte whose position is that value |
| Base64.Encode | x/buffer/buffer.go:71-73 | standard base64 of n bytes is 4*ceil(n/3) bytes long, padding included |
| Base64.BlockRoundTrip | x/buffer/buffer.go:71-73 | the four characters of a full 3-byte group are alphabet bytes and decode to those 3 bytes |
| Base64.DecodeLastGroup | x/buffer/buffer.go:71-73 | a final group padded with "==" or "=" decodes to 1 or 2 bytes |
| Base64.TwoByteRoundTrip | x/buffer/buffer.go:71-73 | a 2-byte tail encoded with one '=' decodes back to itself |
| Base64.OneByteRoundTrip | x/buffer/buffer.go:71-73 | a 1-byte tail encoded with "==" decodes back to itself |
| Base64.DecodeFullGroup | x/buffer/buffer.go:71-73 | decoding a full group followed by more text decodes the group, then the rest |
| Base64.GroupStep | x/buffer/buffer.go:71-73 | if the round trip holds for the input after its first 3 bytes, it holds for the whole input |
| Base64.EncodeRoundTrip | x/buffer/buffer.go:71-73 | decoding what WriteBytes encodes gives back exactly the input bytes |
| Base64.EncodeAlphabet | x/buffer/buffer.go:71-73 | every byte of the encoding is an alphabet byte or '=' (so none needs escaping inside quotes) |
| Decimal.Digits | x/buffer/buffer.go:46-60 | decimal text is non-empty, all digits, and has no leading zero |
| Decimal.ParseUint | x/jsonparser/jsonparser.go:263-292 | ParseUint(s, 10, bits) succeeds iff s is a non-empty digit string whose value is below 2^bits, and the value fits |
| Decimal.ParseInt | x/jsonparser/jsonparser.go:231-260 | ParseInt(s, 10, bits) succeeds only with a value in the signed range of the width |
| Decimal.DigitsRoundTrip | x/buffer/buffer.go:46-60 | the value of the decimal text of n is n |
| Decimal.FormatIntRoundTrip | x/jsonparser/jsonparser.go:231-260 | Int32/Int64 read back what WriteInt32/WriteInt64 write exactly when the value fits the width, and fail otherwise |
| Decimal.FormatUintRoundTrip | x/jsonparser/jsonparser.go:263-292 | Uint32/Uint64 read back what WriteUint32/WriteUint64 write exactly when the value fits the width, and fail otherwise |
| Decimal.FormatIntBytes | x/buffer/buffer.go:46-52 | integer text is non-empty and made of digits and '-' only, so the tokenizer's number scan takes all of it |
| Utf8.DecodeRune | x/buffer/buffer.go:271-272 | DecodeRuneInString reads 1 to 4 bytes; an ASCII byte is itself; a multi-byte result has the length its first byte announces, all bytes >= 0x80 |
| Utf8.EncodeRune | x/buffer/buffer.go:271-272 | a scalar value encodes to 1 to 4 bytes |
| Utf8.DecodeTwo | x/buffer/buffer.go:271-272 | decoding the 2-byte encoding of a rune gives the rune and size 2 |
| Utf8.DecodeThree | x/buffer/buffer.go:271-272 | decoding the 3-byte encoding of a rune gives the rune and size 3 |
| Utf8.FourGroups | x/buffer/buffer.go:271-272 | a supplementary rune splits into 3+6+6+6 bits, and those are the payloads of its 4-byte encoding |
| Utf8.DecodeFour | x/buffer/buffer.go:271-272 | decoding the 4-byte encoding of a rune gives the rune and size 4 |
| Utf8.DecodeEncode | x/buffer/buffer.go:271-272 | decoding the encoding of any scalar value gives it back, with the encoding's length as size, whatever follows |
| Utf8.EncodeDecodeTwo | x/buffer/buffer.go:271-272 | a well-formed 2-byte sequence is the encoding of the rune it denotes |
| Utf8.EncodeDecodeThree | x/buffer/buffer.go:271-272 | a well-formed 3-byte sequence is the encoding of the rune it denotes |
| Utf8.EncodeDecodeFour | x/buffer/buffer.go:271-272 | a well-formed 4-byte sequence is the encoding of the rune it denotes |
| Utf8.EncodeDecode | x/buffer/buffer.go:271-272 | where decoding does not fail, the bytes consumed are exactly the encoding of the rune returned |
| JsonEscape.UnitSize | x/buffer/buffer.go:243-291 | each step of the WriteString loop consumes at least one byte and no more than remain |
| JsonEscape.HexValue | x/buffer/buffer.go:264-265 | a lowercase hex digit has a value below 16 |
| JsonEscape.HexDigitValue | x/buffer/buffer.go:134 | the hex table maps each nibble to a digit whose value is that nibble |
| JsonEscape.EscapePassThrough | x/buffer/buffer.go:136-233 | a string of safe-set bytes is written unchanged |
| JsonEscape.UnescapeHigh | x/buffer/buffer.go:271-291 | bytes >= 0x80 copied verbatim are read back verbatim |
| JsonEscape.UnescapeHighByte | x/buffer/buffer.go:291 | one byte >= 0x80 is read back as itself |
| JsonEscape.UnescapeAsciiUnit | x/buffer/buffer.go:244-269 | an ASCII byte, whether copied or written as \\, \", \n, \r, \t or \u00XX, is read back as that byte |
| JsonEscape.UnescapeReplacement | x/buffer/buffer.go:272-279 | the \ufffd written for an invalid byte reads back as the UTF-8 of U+FFFD |
| JsonEscape.UnescapeLineSep | x/buffer/buffer.go:281-289 | \u2028 and \u2029 read back as the UTF-8 of U+2028 / U+2029 |
| JsonEscape.UnescapeUnit | x/buffer/buffer.go:243-291 | each unit of the loop reads back as its own bytes, or as U+FFFD when it is an invalid UTF-8 byte |
| JsonEscape.EscapeRoundTrip | x/buffer/buffer.go:241-296 | unescaping what WriteString writes gives the input with each invalid UTF-8 byte replaced by U+FFFD |
| JsonEscape.SanitizeValid | x/buffer/buffer.go:271-280 | on valid UTF-8 nothing is replaced, so the round trip is exact |
| JsonEscape.EscapeExamples | x/buffer/buffer.go:252-266 | `s"r` becomes `s\"r`, a newline becomes `\n`, byte 0x01 becomes `\u0001` |
| JsonEscape.EscapeUnicodeExamples | x/buffer/buffer.go:271-291 | 0xFF becomes `\ufffd`, U+2028 becomes `\u2028`, the UTF-8 of U+00E9 is copied |
| OutputBuffer.Buffer.constructor | x/buffer/buffer.go:25-27 | a new buffer is empty with capacity 0 |
| OutputBuffer.Buffer.Reset | x/buffer/buffer.go:30-32 | reset empties the content and keeps the backing array |
| OutputBuffer.Buffer.Grow | x/buffer/buffer.go:103-113 | returns the old length l; the new length is l+n; the first l bytes are kept; past capacity the new backing array is fresh with capacity exactly 2*(l+n), otherwise the array is untouched |
| OutputBuffer.Buffer.WriteStr | x/buffer/buffer.go:34-40 | appends the data after the existing content and returns its length |
| OutputBuffer.Buffer.Write | x/buffer/buffer.go:84-90 | appends the data after the existing content and returns its length |
| OutputBuffer.Buffer.WriteByte | x/buffer/buffer.go:75-82 | appends the one byte and returns 1 |
| OutputBuffer.Buffer.WriteBool | x/buffer/buffer.go:42-44 | appends `true` or `false` |
| OutputBuffer.Buffer.WriteInt32 | x/buffer/buffer.go:46-48 | appends the decimal text of the value |
| OutputBuffer.Buffer.WriteInt64 | x/buffer/buffer.go:50-52 | appends the decimal text of the value |
| OutputBuffer.Buffer.WriteUint32 | x/buffer/buffer.go:54-56 | appends the decimal text of the value |
| OutputBuffer.Buffer.WriteUint64 | x/buffer/buffer.go:58-60 | appends the decimal text of the value |
| OutputBuffer.Buffer.WriteBytes | x/buffer/buffer.go:71-73 | appends `"` + standard base64 of the data + `"` |
| OutputBuffer.Buffer.FixSymbol | x/buffer/buffer.go:92-97 | removes the last byte iff there are at least 2 bytes and the last is ','; otherwise the content is unchanged |
| OutputBuffer.Buffer.WriteString | x/buffer/buffer.go:241-296 | appends exactly Escape(s), the escaped text whose unescaping is proved above |
| OutputBuffer.Buffer.WriteUnit | x/buffer/buffer.go:243-291 | one loop step keeps the invariant: written so far + pending run + Escape(rest) is the final text, and i advances |
| OutputBuffer.Buffer.AsciiUnit | x/buffer/buffer.go:244-269 | an ASCII step keeps the invariant and advances i by exactly 1 |
| OutputBuffer.Buffer.FlushAscii | x/buffer/buffer.go:249-268 | an unsafe ASCII byte flushes the pending run and its escape, and the run restarts after it |
| OutputBuffer.Buffer.MultiByteUnit | x/buffer/buffer.go:271-291 | a non-ASCII step (invalid byte, line separator or copied sequence) keeps the invariant |
| OutputBuffer.Buffer.WriteAsciiEscape | x/buffer/buffer.go:252-266 | appends the two-byte short escape or the \u00XX form for an unsafe ASCII byte |
| OutputBuffer.Buffer.WriteHexEscape | x/buffer/buffer.go:263-265 | appends `u00` and the two lowercase hex digits of the byte |
| OutputBuffer.Buffer.WriteLineSep | x/buffer/buffer.go:285-286 | appends `\u202` and the last hex digit of U+2028 / U+2029 |
| OutputBuffer.Buffer.WriteStringWithQuote | x/buffer/buffer.go:235-239 | appends `"` + Escape(s) + `"` |
| OutputBuffer.New | x/buffer/buffer.go:19-28 | returns the pooled buffer when there is one, otherwise a fresh one; either way it is empty |
| OutputBuffer.Retract | x/buffer/buffer.go:92-97 | the trailing-comma rule: a content of length >= 2 ending in ',' loses exactly that ',', any other is unchanged |
| OutputBuffer.SkipUnit | x/buffer/buffer.go:244-248 | a byte that passes through extends the pending run without changing the final text |
| OutputBuffer.FlushUnit | x/buffer/buffer.go:243-291 | the escape of the rest is the output of its first unit followed by the escape of what follows it |
| OutputBuffer.KeepStep | x/buffer/buffer.go:244-248 | skipping a pass-through unit keeps the loop invariant |
| OutputBuffer.FlushStep | x/buffer/buffer.go:249-291 | flushing the run and writing a unit's output keeps the loop invariant |
| OutputBuffer.RetractComma | x/buffer/buffer.go:92-97 | FixSymbol after a ',' written on a non-empty content removes exactly that ',' |
| OutputBuffer.RetractKeeps | x/buffer/buffer.go:92-97 | FixSymbol leaves a content that does not end in ',' (or has fewer than 2 bytes) alone |
| ParserSpec.Init | x/jsonparser/jsonparser.go:41-48 | a new parser starts at offset 0 with no token cached and no separator pending |
| ParserSpec.StringEnd | x/jsonparser/jsonparser.go:122-134 | the string scan stops at a '"' or past the end, never before where it started |
| ParserSpec.NumberEnd | x/jsonparser/jsonparser.go:166-175 | the number scan takes every number byte (0-9 . e E + -) from the start and stops at the first other byte or at the end |
| ParserSpec.Scan | x/jsonparser/jsonparser.go:51-120 | getToken keeps the input, never moves the offset back nor more than one past the end, and moves forward whenever it produces a token |
| ParserSpec.Fetch | x/jsonparser/jsonparser.go:192-194 | the extractors' "scan only if no token is cached" step has the same bounds |
| ParserSpec.Str | x/jsonparser/jsonparser.go:191-200 | Str keeps the input and never moves back |
| ParserSpec.Bol | x/jsonparser/jsonparser.go:203-212 | Bol keeps the input and never moves back |
| ParserSpec.Null | x/jsonparser/jsonparser.go:355-364 | Null keeps the input and never moves back |
| ParserSpec.Symbol | x/jsonparser/jsonparser.go:366-374 | Symbol keeps the input and never moves back |
| ParserSpec.Int | x/jsonparser/jsonparser.go:231-260 | Int32/Int64 return only values in the signed range of the width |
| ParserSpec.Uint | x/jsonparser/jsonparser.go:263-292 | Uint32/Uint64 return only values in the unsigned range of the width |
| ParserSpec.Number | x/jsonparser/jsonparser.go:215-228 | Number succeeds exactly when the token (scanned if none is cached) is a number in the syntax ParseFloat accepts; it then returns the token's text and resets the token |
| ParserSpec.Enum | x/jsonparser/jsonparser.go:339-352 | Enum keeps the input and never moves back |
| ParserSpec.IsSymbol | x/jsonparser/jsonparser.go:404-406 | IsSymbol changes nothing; it panics exactly when the offset is at or past the end, and otherwise says whether the byte there is the symbol |
| ParserSpec.SkipsWhitespace | x/jsonparser/jsonparser.go:71-72 | a blank byte is skipped: scanning from it is scanning from the next byte |
| ParserSpec.SeparatorRule | x/jsonparser/jsonparser.go:81-87 | ':' or ',' is a syntax error unless it is the pending separator; if it is, the separator and the cached token are cleared and the scan goes on past it |
| JsonParser.Parser.constructor | x/jsonparser/jsonparser.go:41-48 | New(data) is in the state Init(data) |
| JsonParser.Parser.Reset | x/jsonparser/jsonparser.go:408-410 | reset forgets the cached token and keeps everything else |
| JsonParser.Parser.AssertSymbol | x/jsonparser/jsonparser.go:412-414 | AssertSymbol only records the separator |
| JsonParser.Parser.GetToken | x/jsonparser/jsonparser.go:51-120 | the scanning loop ends in the state Scan computes, and panics exactly when Scan does |
| JsonParser.Parser.SkipOne | x/jsonparser/jsonparser.go:71-87 | a blank or a matching separator advances one byte without changing what the rest of the scan gives; a separator that does not match panics in place |
| JsonParser.Parser.TokenStart | x/jsonparser/jsonparser.go:54-117 | a byte that ends the loop is handled as Scan says |
| JsonParser.Parser.ValueStart | x/jsonparser/jsonparser.go:73-117 | a string, number or literal start (or a bad byte) is handled as Scan says |
| JsonParser.Parser.GetString | x/jsonparser/jsonparser.go:122-138 | the string loop ends in the state the specification gives, panicking exactly when it does |
| JsonParser.Parser.GetNumber | x/jsonparser/jsonparser.go:166-178 | the number loop ends in the state NumberEnd gives |
| JsonParser.Parser.GetTrue | x/jsonparser/jsonparser.go:143-152 | matches the specification of getTrue, failure included |
| JsonParser.Parser.GetFalse | x/jsonparser/jsonparser.go:154-164 | matches the specification of getFalse, failure included |
| JsonParser.Parser.GetNull | x/jsonparser/jsonparser.go:180-188 | matches the specification of getNull, failure included |
| JsonParser.Parser.Fetch | x/jsonparser/jsonparser.go:192-194 | scans only when no token is cached, as the specification says |
| JsonParser.Parser.Str | x/jsonparser/jsonparser.go:191-200 | returns the raw text and state of ParserSpec.Str, and fails exactly when it does |
| JsonParser.Parser.Bol | x/jsonparser/jsonparser.go:203-212 | returns the value and state of ParserSpec.Bol, and fails exactly when it does |
| JsonParser.Parser.Null | x/jsonparser/jsonparser.go:355-364 | ends in the state of ParserSpec.Null, and fails exactly when it does |
| JsonParser.Parser.Symbol | x/jsonparser/jsonparser.go:366-374 | ends in the state of ParserSpec.Symbol, and fails exactly when it does |
| JsonParser.Parser.Int | x/jsonparser/jsonparser.go:231-260 | returns the value and state of ParserSpec.Int, and fails exactly when it does |
| JsonParser.Parser.Uint | x/jsonparser/jsonparser.go:263-292 | returns the value and state of ParserSpec.Uint, and fails exactly when it does |
| JsonParser.Parser.Number | x/jsonparser/jsonparser.go:215-228 | returns the number text and state of ParserSpec.Number, and fails exactly when it does |
| JsonParser.Parser.Enum | x/jsonparser/jsonparser.go:339-352 | returns the triple and state of ParserSpec.Enum, and fails exactly when it does |
| JsonParser.Parser.IsSymbol | x/jsonparser/jsonparser.go:404-406 | reads the byte at the offset without changing anything; at the end of the input it panics |
| JsonParser.Parser.Leaf | x/jsonparser/jsonparser.go:437-446 | the non-container arm of Parse's switch, as ParseTree.Leaf gives it |
| JsonParser.Parser.ParseValue | x/jsonparser/jsonparser.go:431-455 | one value read as ParseTree.ParseValue gives it |
| JsonParser.Parser.Container | x/jsonparser/jsonparser.go:446-452 | a '{' or '[' token dispatches to obj or arr as ParseTree.Container gives it |
| JsonParser.Parser.Close | x/jsonparser/jsonparser.go:386-387 | the closing AssertSymbol(',') and Symbol as ParseTree.Close gives them, keeping the result |
| JsonParser.Parser.Obj | x/jsonparser/jsonparser.go:377-389 | the obj loop builds the map ParseTree.ObjLoop gives |
| JsonParser.Parser.Arr | x/jsonparser/jsonparser.go:392-402 | the arr loop builds the list ParseTree.ArrLoop gives |
| JsonParser.Parser.Parse | x/jsonparser/jsonparser.go:423-456 | corrected, with the recovery at the outermost call only: Parse ends in the state and value ParseTree.Parse gives, the value read or null after a recovered panic |
| ParserProps.OpenRule | x/jsonparser/jsonparser.go:54-61 | '{' / '[' is accepted iff no separator is pending; the token is that symbol and the offset advances by exactly 1; otherwise it panics in place |
| ParserProps.CloseRule | x/jsonparser/jsonparser.go:62-70 | '}' / ']' is accepted iff the pending separator is ','; it clears the separator and gives that symbol one byte on |
| ParserProps.CommaBeforeCloser | x/jsonparser/jsonparser.go:62-65 | a ',' directly before '}' or ']' is always rejected: if it is accepted it clears the ',' the closer needs |
| ParserProps.ValueNeedsNoPending | x/jsonparser/jsonparser.go:73-115 | a string, number or literal start is rejected while any separator is pending |
| ParserProps.OtherByteRejected | x/jsonparser/jsonparser.go:116-117 | any byte that starts nothing is a syntax error |
| ParserProps.EndKeepsToken | x/jsonparser/jsonparser.go:51-52 | at the end of the input getToken returns without changing anything |
| ParserProps.SkipsBlanks | x/jsonparser/jsonparser.go:71-72 | a run of blanks is skipped |
| ParserProps.SkipBody | x/jsonparser/jsonparser.go:125-133 | a '\' skips the byte after it, so an escaped '"' does not end the string |
| ParserProps.StringSpan | x/jsonparser/jsonparser.go:122-138 | the raw text runs from after the opening quote to the first unescaped '"', backslashes kept, and the offset lands just past the closing quote |
| ParserProps.DemoString | x/jsonparser/jsonparser.go:122-138 | on the input `"te\"st"` Str returns the raw text `te\"st` and stops after the closing quote |
| ParserProps.UnterminatedString | x/jsonparser/jsonparser.go:135-137 | an unterminated string succeeds with the offset one past the end, and every later scan or IsSymbol then fails |
| ParserProps.NumberRun | x/jsonparser/jsonparser.go:169-175 | the number scan passes over any run of number bytes |
| ParserProps.NumberSpan | x/jsonparser/jsonparser.go:166-178 | the number token is the longest run of number bytes at the offset, and the offset lands just after it |
| ParserProps.TrueLiteral | x/jsonparser/jsonparser.go:143-152 | getTrue succeeds iff the four bytes `true` are there, gives the value true and advances 4; a truncated literal panics |
| ParserProps.FalseLiteral | x/jsonparser/jsonparser.go:154-164 | getFalse succeeds iff the five bytes `false` are there, gives false and advances 5 |
| ParserProps.NullLiteral | x/jsonparser/jsonparser.go:180-188 | getNull succeeds iff the four bytes `null` are there and advances 4 |
| ParserProps.ConsumedOnce | x/jsonparser/jsonparser.go:191-374 | after any successful extractor the next read scans a new token |
| ParserProps.IntWidth | x/jsonparser/jsonparser.go:231-260 | a number token holding the decimal text of v reads back v iff v fits the signed width, and panics otherwise |
| ParserProps.UintWidth | x/jsonparser/jsonparser.go:263-292 | a number token holding the decimal text of v reads back v iff v fits the unsigned width, and panics otherwise |
| ParserProps.HoldsSlice | x/jsonparser/jsonparser.go:35-36 | the input holds the bytes w at an offset iff the slice at that offset is w |
| ParserProps.QuotedStr | x/jsonparser/jsonparser.go:191-200 | a quoted string body with no bad escapes reads back as that body and leaves the parser just after the closing quote |
| ParserProps.QuotedSpan | x/jsonparser/jsonparser.go:73-80 | the opening quote switches to the string scan, which ends after the closing quote |
| ParserProps.QuoteOpens | x/jsonparser/jsonparser.go:73-80 | Str on a '"' with nothing pending is the string scan followed by reset |
| ParserProps.EnumForms | x/jsonparser/jsonparser.go:339-352 | Enum gives (EnumString, raw text, 0) for a string token, (EnumNumber, "", n) with n an int32 for a number token, and panics on any other token |
| ParserProps.IsSymbolNoSkip | x/jsonparser/jsonparser.go:404-406 | IsSymbol does not skip whitespace: before a blank it says false although the next token is that symbol |
| ParseTree.Leaf | x/jsonparser/jsonparser.go:437-446 | a value token is read by its extractor, which consumes it |
| ParseTree.ParseValue | x/jsonparser/jsonparser.go:431-455 | a value read successfully consumes at least one byte and leaves no token cached |
| ParseTree.Container | x/jsonparser/jsonparser.go:446-452 | reading a container never moves the offset back |
| ParseTree.Close | x/jsonparser/jsonparser.go:386-387 | the closer keeps the collected value |
| ParseTree.ObjLoop | x/jsonparser/jsonparser.go:377-389 | the obj loop never moves back and ends with no token cached |
| ParseTree.ObjMember | x/jsonparser/jsonparser.go:380-383 | one key/value member of obj never moves back |
| ParseTree.ArrLoop | x/jsonparser/jsonparser.go:392-402 | the arr loop never moves back and ends with no token cached |
| ParseTree.ArrElement | x/jsonparser/jsonparser.go:395-396 | one element of arr never moves back |
| ParseTree.Parse | x/jsonparser/jsonparser.go:423-456 | corrected, with the recovery at the outermost call only: Parse returns the value read, or null with the state at the panic when reading fails |
| ParseTree.StuckForever | x/jsonparser/jsonparser.go:392-397 | in the Go recovery scheme, the arr loop on an element that fails without consuming input never returns |
| ParseTree.ArrayElementLoops | x/jsonparser/jsonparser.go:423-428 | on `[x]`, Parse as written never returns, whatever the fuel |
| ParseTree.ArrayElementFails | x/jsonparser/jsonparser.go:423-456 | with recovery at the outermost call only, `[x]` gives null at the failing byte |
| ParseTree.ValueAgrees | x/jsonparser/jsonparser.go:423-456 | where the single-recovery Parse succeeds, the as-written Parse gives the same value and state |
| ParseTree.ContainerAgrees | x/jsonparser/jsonparser.go:446-452 | the same agreement for a container |
| ParseTree.ObjAgrees | x/jsonparser/jsonparser.go:377-389 | the same agreement for the obj loop |
| ParseTree.MemberAgrees | x/jsonparser/jsonparser.go:380-383 | the same agreement for one member |
| ParseTree.ArrAgrees | x/jsonparser/jsonparser.go:392-402 | the same agreement for the arr loop |
| ParseTree.ElementAgrees | x/jsonparser/jsonparser.go:395-396 | the same agreement for one element |
| Schema.PlainFieldsMembers | gen/gen.go:162-163 | the fields handled as simple fields are exactly those not in a oneof, in order |
| GenRules.ReaderMatchesWriter | gen/gen.go:260-289 | valMarshal and valUnmarshal agree: a kind has a writer iff it has a reader (iff it is not a group), and the reader is the one that reads that writer's output |
| GenRules.KeyWriterAgrees | gen/gen.go:292-336 | keyMarshal writes a key iff mapKeyTypeName accepts the kind, and then with the same writer valMarshal uses |
| GenRules.KeyKindsRejected | gen/gen.go:320-336 | mapKeyTypeName accepts only protobuf key kinds, and panics on the key kinds bool, sfixed32 and sfixed64 |
| GenRules.TypeNameMatchesWriter | gen/gen.go:381-413 | typeName panics only on groups; for scalars it names the Go type of the writer valMarshal picks; sfixed32 / sfixed64 are named float32 / float64 like their writers |
| GenRules.MapValTypeNameAgrees | gen/gen.go:338-379 | mapValTypeName is typeName, except that enum and message values must be in the index (else it panics) |
| GenRules.EmptyMatchesReset | gen/gen.go:680-695 | for a singular field the emptiness test of generateEmpty and the reset of typeDestructor go kind for kind: zero with zero, false with false, "" with "", ordinal 0 with Set(0), nil with nil |
| GenCode.EachElements | gen/gen.go:162-173 | the per-field loop emits one item per field, the i-th from the i-th field |
| GenCode.CollectAborts | gen/gen.go:480-497 | once a step panics the rest of the loop changes nothing: the panic is the result |
| GenCode.TopAborts | gen/gen.go:121-123 | once a top-level message panics, the later ones change nothing |
| GenCode.TopStep | gen/gen.go:121-123 | each top-level message appends its declarations or aborts the whole run with its panic |
| GenCode.NestedStep | gen/gen.go:141-146 | each nested message that is not a map entry appends its declarations, or aborts with its panic |
| GenCode.NestedAborts | gen/gen.go:141-146 | once a nested message panics, the later ones change nothing |
| CodeGen.MessageIndexFirstWins | gen/gen.go:78-87 | addMessageType adds exactly the full names of the message and its nested messages; a name already present keeps its first message; each new name maps to a message of that name |
| CodeGen.ChildrenIndexed | gen/gen.go:84-86 | the loop over nested messages adds exactly their names, first wins |
| CodeGen.FileMessagesIndexed | gen/gen.go:71-76 | buildMessageIndex adds exactly the names of all messages of the file, first wins |
| CodeGen.EnumsIndexed | gen/gen.go:91-106 | addTopEnumType adds each enum under its full name unless it is present |
| CodeGen.NestedEnumsIndexed | gen/gen.go:108-116 | addNestedEnumType adds exactly the enums nested anywhere in the message, first wins |
| CodeGen.NestedChildrenIndexed | gen/gen.go:113-115 | the loop over nested messages adds exactly their enums |
| CodeGen.FileEnumsIndexed | gen/gen.go:89-99 | buildEnumIndex adds exactly the top-level enums and the enums nested in every message, first wins |
| CodeGen.AllNestedIndexed | gen/gen.go:95-98 | the loop over top-level messages adds exactly their nested enums |
| CodeGen.MarshalOf | gen/gen.go:155-199 | generateMarshal's loops build a block per simple field and a chain per oneof, as MarshalDecl gives them |
| CodeGen.UnmarshalOf | gen/gen.go:469-510 | generateUnmarshal's loops build the switch cases as UnmarshalDecl gives them, stopping at the first panic |
| CodeGen.DestructorOf | gen/gen.go:762-808 | generateDestructor's loops build a reset per simple field and per oneof the chain over its message variants |
| CodeGen.EmptiesOf | gen/gen.go:672-702 | generateEmpty's loop builds an IsEmpty method per simple field |
| CodeGen.Generator.constructor | gen/gen.go:23-27 | the indexes start empty |
| CodeGen.Generator.AddMessageType | gen/gen.go:78-87 | updates the message index as AddMessage gives and nothing else |
| CodeGen.Generator.BuildMessageIndex | gen/gen.go:71-76 | registers every top-level message in order and changes nothing else |
| CodeGen.Generator.AddTopEnumType | gen/gen.go:101-106 | registers the enum unless its name is present, and changes nothing else |
| CodeGen.Generator.AddNestedEnumType | gen/gen.go:108-116 | registers the message's enums, then recurses into its nested messages |
| CodeGen.Generator.BuildEnumIndex | gen/gen.go:89-99 | registers the top-level enums, then the nested ones |
| CodeGen.Generator.GenerateMarshal | gen/gen.go:155-199 | appends the FastMarshal declaration and nothing else |
| CodeGen.Generator.GenerateUnmarshal | gen/gen.go:469-510 | appends FastUnmarshal, or reports the panic of a type name exactly when UnmarshalDecl crashes |
| CodeGen.Generator.GeneratePool | gen/gen.go:705-713 | appends the pool declaration and nothing else |
| CodeGen.Generator.GenerateDestructor | gen/gen.go:762-808 | appends the Destructor declaration and nothing else |
| CodeGen.Generator.GenerateEmpty | gen/gen.go:672-702 | appends the IsEmpty methods and nothing else |
| CodeGen.Generator.GenerateEnum | gen/gen.go:716-719 | appends the getters, then the setters |
| CodeGen.Generator.GenerateEnums | gen/gen.go:119-150 | appends the declarations of each enum in order |
| CodeGen.Generator.GenMessage | gen/gen.go:133-152 | appends what MessageDecls gives, or reports its panic |
| CodeGen.Generator.GenerateOwn | gen/gen.go:135-139 | the five generate calls for the message itself, in the source's order |
| CodeGen.Generator.GenerateNested | gen/gen.go:141-146 | the loop over nested messages, skipping map entries |
| CodeGen.Generator.GenerateChild | gen/gen.go:142-145 | one nested message: skipped if a map entry, generated otherwise; a panic ends the loop with that panic |
| CodeGen.Generator.GenerateMessage | gen/gen.go:119-130 | the top-level messages, then the top-level enums, as FileDecls gives; a panic is reported as the result |
| CodeGen.Generator.GenerateTop | gen/gen.go:121-123 | the loop over top-level messages |
| CodeGen.Generator.GenerateTopStep | gen/gen.go:122 | one top-level message appended, or the panic that ends the run |
| CodeGen.Generator.GenerateFile | gen/gen.go:32-41 | one file: a new generated file, both indexes extended with the file's messages and enums, then its declarations or its panic |
| Runtime.Arm | gen/gen.go:175-193 | the oneof type switch, as FastMarshal (and Destructor, `gen/gen.go:787-800`) emits it, takes an arm for the wrapper's type if one exists, and none only when no arm names it |
| Runtime.IsEmpty | gen/gen.go:672-702 | a generated IsEmpty<F> with no return statement (a group field) gives no answer; on a nil receiver or an unset field it reports empty |
| Runtime.EmptyIffZero | gen/gen.go:672-702 | the IsEmpty<F> generated for a field outside every oneof answers for every value of the field's type and says empty exactly when the field holds its zero value (false, 0, a float zero, "", ordinal 0, a nil []byte or pointer); a non-nil slice or map is never empty; a group field's method has no return |
| Runtime.InstallKeeps | gen/gen.go:119-130 | declaring one generated function keeps every declaration of a different name |
| Runtime.LinkProvides | gen/gen.go:119-130 | a generated file declares each of its functions that no later declaration redeclares, and keeps the enum tables it was given |
| Runtime.LinkEnums | gen/gen.go:119-130 | the enum tables of a generated file are the ones protoc-gen-go emitted beside it |
| MarshalRun.SymbolsAsThemselves | gen/gen.go:311-313 | writing a delimiter with WriteString writes that one byte unescaped |
| MarshalRun.RetractLocal | x/buffer/buffer.go:92-97 | FixSymbol's retraction of a trailing ',' touches only the last text written |
| MarshalRun.NilBlocks | gen/gen.go:202-250 | on a nil receiver every field block is skipped, since each IsEmpty<F> reports empty |
| MarshalRun.NilMarshal | gen/gen.go:155-199 | FastMarshal on a nil receiver writes `{}{}` when the message has no oneof, and panics on the first oneof otherwise |
| MarshalRun.NilOneofs | gen/gen.go:174-176 | reading a oneof field of a nil receiver panics |
| MarshalRun.TerminatedJoin | gen/gen.go:206-210 | an element loop that writes each text and ',' writes the texts joined by ',' and one trailing ',' |
| MarshalRun.SealTerminated | gen/gen.go:211-212 | FixSymbol then the closer turn that output into a JSON array or object, `[]` or `{}` when the loop wrote nothing |
| MarshalRun.SealedField | gen/gen.go:204-213 | the list or map block writes the quoted key, the sealed container and ',' |
| MarshalRun.ListItemsText | gen/gen.go:206-210 | listMarshal's loop writes each element's text followed by ',', in slice order |
| MarshalRun.MapItemsText | gen/gen.go:226-236 | mapMarshal's loop writes key ':' value ',' for each entry, in range order |
| MarshalRun.EntryWrites | gen/gen.go:229-235 | one map entry writes its key, ':', its value and ',' |
| MarshalRun.ListBlockText | gen/gen.go:202-215 | a repeated field that is not empty writes `"name":[e1,...,en],` |
| MarshalRun.MapBlockText | gen/gen.go:218-241 | a map field that is not empty writes `"name":{k1:v1,...},` |
| UnmarshalRun.Put | gen/gen.go:655 | `m[key] = v` stores the entry and keeps every entry of another key; every existing key stays at its index, and a new key is added at the end |
| UnmarshalRun.CaseFor | gen/gen.go:478-499 | the switch on the key picks a case labelled with that key, or none only when no case carries it |
| UnmarshalRun.NilUnmarshal | gen/gen.go:471-473 | FastUnmarshal on a nil receiver panics before reading anything |
| UnmarshalRun.EmptyObjectKeeps | gen/gen.go:474-506 | `{}` is accepted and leaves the receiver unchanged |
| UnmarshalRun.UnknownKeyIgnored | gen/gen.go:498-499 | a key no case names, whose value reads, is skipped by the default branch in both builds: the message is unchanged and the parser is just past the value |
| UnmarshalRun.UnknownArrayLoops | gen/gen.go:498-499 | as generated, reading `{"zz":[x]}` into a message with no field `zz` never finishes, whatever the fuel: the default branch's Parse loops on the array |
| UnmarshalRun.PutReplaces | gen/gen.go:651-655 | a later value for a map key replaces the earlier one, so the map keeps one entry per key |
| Lifecycle.SeqNothing | gen/gen.go:762-808 | a step that does nothing leaves the sequence's outcome unchanged |
| Lifecycle.Elems | gen/gen.go:843-850 | the loop over a repeated message field only pools messages and clears no field |
| Lifecycle.Values | gen/gen.go:852-859 | the loop over a map of messages only pools messages and clears no field |
| Lifecycle.PutAll | gen/gen.go:804 | Pool.Put never removes a pool |
| Lifecycle.New | gen/gen.go:707-712 | `<T>New` returns `&T{}` when the pool is empty, and otherwise an instance taken out of the pool |
| Lifecycle.NilDestruct | gen/gen.go:764-766 | Destructor on a nil receiver panics |
| Lifecycle.NewAfterPut | gen/gen.go:705-713 | `<T>New` right after a Destructor hands back the instance just pooled |
| Lifecycle.ResetsClear | gen/gen.go:768-778 | after the field resets, every field whose reset clears it is cleared, and no oneof is |
| Lifecycle.ResetClears | gen/gen.go:810-859 | one field reset clears its field when its kind is cleared, and touches no oneof |
| Lifecycle.OneofsClear | gen/gen.go:780-803 | every oneof that was set is cleared |
| Lifecycle.DestructClears | gen/gen.go:762-808 | Destructor pools the receiver last, with each cleared field and every oneof removed and every other field as it was |
| Lifecycle.NilFieldPanics | gen/gen.go:833-835 | as written, Destructor on a message whose message field is nil panics |
| Lifecycle.NilFieldSkipped | gen/gen.go:833-835 | corrected, that nil field is skipped and the receiver is pooled |
| Lifecycle.SetFieldDestructed | gen/gen.go:833-835 | a set message field is destructed and pooled before its parent, in both builds |
| Lifecycle.StaleEnumRecycled | gen/gen.go:816 | as written, a destructed message keeps its enum value, New hands it back, and `{}` read into it leaves the stale value |
| Lifecycle.EnumZeroedOnDestruct | gen/gen.go:816 | corrected, Destructor zeroes the enum field |
| DecodeFindings.EnumKeyRead | gen/gen.go:474-477 | the generated FastUnmarshal reads `{` and the key of `{"e":1}` |
| DecodeFindings.EnumValueRead | x/jsonparser/jsonparser.go:339-352 | Enum reads the number 1 as a number-form enum value |
| DecodeFindings.EnumDecode | gen/gen.go:516-522 | `{"e":1}` is accepted; the field holds what Set stores |
| DecodeFindings.EnumDroppedOnDecode | gen/gen.go:516-522 | as written, Set on a value receiver stores nothing: the decoded message has no enum |
| DecodeFindings.EnumKeptOnDecode | gen/gen.go:516-522 | corrected, the decoded message holds the enum number 1 |
| DecodeFindings.Base64Body | x/jsonparser/jsonparser.go:122-138 | base64 text has no quote or backslash, so it is a plain string body |
| DecodeFindings.WrittenBytesStr | x/jsonparser/jsonparser.go:191-200 | the quoted base64 text WriteBytes writes is read back by Str as that text |
| DecodeFindings.WrittenBytesValue | x/jsonparser/jsonparser.go:327-336 | Bytes gives the base64 text itself as written, and the original bytes once corrected |
| DecodeFindings.WrittenBytesRead | gen/gen.go:537-538 | a bytes field written by WriteBytes is read back as its base64 text as written, and as the original bytes corrected |
| DecodeFindings.BytesChangedOnDecode | x/buffer/buffer.go:71-73 | the base64 text of non-empty bytes differs from the bytes, so the as-written read changes the value |
| DecodeFindings.BytesExample | x/buffer/buffer.go:71-73 | the byte `a` is written as `"YQ=="` |
| RoundTrip.BodyConcat | x/jsonparser/jsonparser.go:122-138 | two texts the string scanner accepts whole are accepted together |
| RoundTrip.EscapedBody | x/buffer/buffer.go:241-296 | whatever WriteString writes is scanned by getToken as one string body |
| RoundTrip.IntRead | x/jsonparser/jsonparser.go:231-258 | Int32 and Int64 read back the decimal text WriteInt32 and WriteInt64 write |
| RoundTrip.UintRead | x/jsonparser/jsonparser.go:262-292 | Uint32 and Uint64 read back the decimal text WriteUint32 and WriteUint64 write |
| RoundTrip.BoolRead | x/jsonparser/jsonparser.go:203-212 | Bol reads back what WriteBool writes |
| RoundTrip.EnumOfString | x/jsonparser/jsonparser.go:339-345 | Enum on a string token gives the string form with the text Str gives |
| RoundTrip.EnumNameRead | x/jsonparser/jsonparser.go:339-345 | a quoted enum name is read back as that name |
| RoundTrip.WrittenAgrees | gen/gen.go:260-289 | the text the round trip expects for a value is exactly what valMarshal writes, for every writer it covers |
| RoundTrip.ValueRead | gen/gen.go:512-547 | every value valMarshal writes is read back by valUnmarshal (corrected) as the same value, up to string escaping |
| RoundTrip.BoolValueRead | gen/gen.go:514-515 | a bool field reads back |
| RoundTrip.IntValueRead | gen/gen.go:523-528 | an int32 or int64 field in range reads back |
| RoundTrip.UintValueRead | gen/gen.go:525-530 | a uint32 or uint64 field in range reads back |
| RoundTrip.StrValueRead | gen/gen.go:535-536 | a string field reads back as its escaped text |
| RoundTrip.EnumValueRead | gen/gen.go:516-522 | an enum written by name reads back, corrected, as its number |
| RoundTrip.KeyText | gen/gen.go:292-308 | a key without characters to escape is written as `"key":` |
| RoundTrip.KeyRead | gen/gen.go:475-476 | the member loop sees no `}` and Str reads the key |
| RoundTrip.KeyAt | gen/gen.go:475-477 | the same after a pending ',' from the previous member |
| RoundTrip.CaseRead | gen/gen.go:477-499 | the case for the key reads the value after ':' and stores it |
| RoundTrip.MemberAt | gen/gen.go:475-502 | one turn of the member loop reads one written member and stores its value |
| RoundTrip.CloseAt | gen/gen.go:502-506 | the member loop ends on `}` with the message as it is |
| RoundTrip.ReadMembers | gen/gen.go:475-506 | the member loop reads every written member in order and stores each, ending after `}` |
| FlatRoundTrip.OpenAt | gen/gen.go:474 | `p.Symbol('{')` consumes the opening brace |
| FlatRoundTrip.UnmarshalObject | gen/gen.go:469-510 | FastUnmarshal (corrected) reads an object of written members into the message that stores each of them |
| FlatRoundTrip.ListedSnoc | gen/gen.go:162-172 | each field block adds its member text and ',' after the earlier ones |
| FlatRoundTrip.ListedJoined | gen/gen.go:162-172 | the blocks' output is the members joined by ',' with one trailing ',' |
| FlatRoundTrip.BlockText | gen/gen.go:244-250 | a singular field writes `"name":value,` unless IsEmpty<F> says it is empty, when it writes nothing |
| FlatRoundTrip.BlocksText | gen/gen.go:162-172 | the field blocks write the shown fields' members in declaration order |
| FlatRoundTrip.MarshalFlat | gen/gen.go:155-199 | FastMarshal on a message of singular fields writes `{` the shown members joined by ',' `}` |
| FlatRoundTrip.SealObject | gen/gen.go:195-196 | FixSymbol and `}` close the object |
| FlatRoundTrip.GeneratedPair | gen/gen.go:244-250 | for a singular field, the generator emits a marshal block and an unmarshal case that agree on key and value type |
| FlatRoundTrip.AllOKSnoc | gen/gen.go:480-491 | members the cases read, extended by one more such member |
| FlatRoundTrip.ItemsOK | gen/gen.go:480-491 | every member FastMarshal writes has a case in FastUnmarshal that reads it |
| FlatRoundTrip.FoldSnoc | gen/gen.go:475-502 | reading one more member stores it on top of the earlier ones |
| FlatRoundTrip.FieldStored | gen/gen.go:549-552 | reading a shown field stores its value and keeps the fields read before it |
| FlatRoundTrip.FieldSkipped | gen/gen.go:245 | a field not shown is not read |
| FlatRoundTrip.ReadFields | gen/gen.go:469-510 | after the first n members, exactly the shown fields among the first n are set, each to its value |
| FlatRoundTrip.FlatRoundTrip | gen/gen.go:155-199 | the text FastMarshal writes for a message of singular fields is read completely by FastUnmarshal (corrected) |
| FlatRoundTrip.FieldsComeBack | gen/gen.go:469-510 | reading it back sets exactly the fields that were written, each to its value, and no oneof |

## Left out

- The plugin plumbing of `gen/gen.go:17-69` (`New`, `GenerateAllFiles`, comments, package name and imports) and `main.go`: protoc I/O and `protogen` objects. A small descriptor IR (`Schema`) stands in for the descriptor graph.
- The text of the emitted Go code: declarations are structured values (`GenCode`) and their behaviour is given by `MarshalRun`, `UnmarshalRun` and `Lifecycle`. Formatting, comments and identifiers as strings are not modelled.
- `generateDebug` (`gen/gen.go:416-466`): debug output, never called.
- Floating point: `WriteFloat32`/`WriteFloat64` and `Float32`/`Float64` are not modelled as IEEE 754. A float value is its `FormatFloat` text, `Number` checks the token against the syntax `ParseFloat` accepts, and the zero test is on that text.
- `sync.Pool` and `BufPool`: each `<T>Pool` is a free list that hands back the instance put last. `Lifecycle.New` therefore promises less than any real pool choice, and concurrent use is out of scope.
- `Bytes2Str`/`Str2Bytes` (`x/buffer/buffer.go:121-132`): unsafe conversions, taken as the identity.
- The `fmt.Println` in `Parse`'s recover (`x/jsonparser/jsonparser.go:424-428`): output only. The recovery is modelled as returning null in the state at the panic.
- The `encoding/json` wrappers, the tests and the demos: forwarding code, and code that depends on a generated package that is not part of this model.
- Go map iteration order: a map is the sequence of its entries in the order a range visits them, given as input.
- Recursion over nested messages and the parser's loops carry a `fuel` argument. `NoFuel`/`OutOfFuel` only means the bound was too small; the round-trip lemmas give a sufficient bound.
- After a panic, the model keeps the parser state at the panic and drops the partly built value; what Go code would observe through `recover` beyond `Parse` is not modelled.
- A value of the wrong Go type for its writer or reader (for example an `sfixed32` field, which the tables send to `WriteFloat32`) is treated as code that does not compile (`Ill`), not given a meaning.
- FlatRoundTrip.FlatRoundTrip: the end-to-end round trip is proved only for messages whose fields are all singular, have no oneof and use a one-token writer (bool, integers, string, bytes, enum by name). Lists, maps, nested messages and floats have their marshal shape proved (`MarshalRun.ListBlockText`, `MarshalRun.MapBlockText`) but not the read back.
- FlatRoundTrip.FieldsComeBack: a string comes back as its escaped text (`RoundTrip.ReadBack`), since `Str` does not decode escapes; the equality holds up to that.
- RoundTrip.ValueRead: stated for the corrected build; as written, bytes come back as their base64 text (see Findings).
- Lifecycle.New: states that the result is taken from the pool, not which instance, beyond the free-list choice above.
- ParserSpec.Number: `ParseFloat`'s range error is not modelled. `1e400` panics in Go but is accepted here, and so is `1e39` for `Float32`, which parses with bitSize 32. `Number`, `Float32` and `Float64` share this one syntax test.
- ParserSpec.GetString: the capacity of the input slice is taken equal to its length. A trailing `\` takes the scan to `len+1`, and the slice up to there panics only under that assumption.
- UnmarshalRun.Dispatch: the generated `default: p.PassParse()` (`gen/gen.go:499`) names a method `x/jsonparser/jsonparser.go` does not declare, so the generated `FastUnmarshal` does not compile against the library as given. The model takes the call to be `Parse`, and `UnmarshalRun.UnknownKeyIgnored` and `UnmarshalRun.UnknownArrayLoops` rest on that mapping.
- UnmarshalRun.ReadValue: a nested message is read into a fresh `EMPTY` message; the `<T>New()` the generated code calls (`gen/gen.go:540`) is taken as returning a cleared instance. The stale enum of a recycled instance (Findings, third row) therefore never reaches a nested field here.
- An enum number without a name is written by `String()` as its decimal text, quoted; reading that text back as a name fails, so the round trip requires a named value.

## Findings

| source | as written | input that shows it | evidently intended | confidence | as-written member | corrected member |
|---|---|---|---|---|---|---|
| x/jsonparser/jsonparser.go:392-402 | `Parse` recovers from a panic at every nesting level, and `arr` calls `Parse` for each element without checking progress, so an element that fails without consuming input is retried forever | `[x]` | a failing element ends the outermost `Parse`, which returns null | not executed | ParseTree.ArrayElementLoops | ParseTree.ArrayElementFails |
| gen/gen.go:723-739 | `Set`/`SetByStr` have value receivers, so the assignment is lost and `FastUnmarshal` never stores an enum field | `{"e":1}` for a message with enum field `e` whose value 1 is named | the field holds 1 | not executed | DecodeFindings.EnumDroppedOnDecode | DecodeFindings.EnumKeptOnDecode |
| gen/gen.go:816 | `Destructor` resets an enum field with `Set(0)`, which stores nothing, so a pooled instance keeps its enum value and `New` hands it back dirty | a message with enum field set to a named non-zero value, destructed, then reused | the pooled instance has the enum zeroed | not executed | Lifecycle.StaleEnumRecycled | Lifecycle.EnumZeroedOnDestruct |
| x/jsonparser/jsonparser.go:327-336 | `Bytes` returns the raw string text, while `WriteBytes` writes base64, so a bytes field is read back as its base64 text | the bytes `a`, written as `"YQ=="` and read back as `YQ==` | `Bytes` decodes base64 | not executed | DecodeFindings.BytesChangedOnDecode | RoundTrip.ValueRead |
| gen/gen.go:833-835 | `typeDestructor` calls `Destructor` on a message field without a nil check, and `Destructor` panics on nil | a message whose message field is unset | a nil field is skipped | not executed | Lifecycle.NilFieldPanics | Lifecycle.NilFieldSkipped |
