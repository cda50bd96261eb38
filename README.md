# A Dafny model of the go-midl front end

This project models the hand-written front end of a MIDL-to-Go translator. It has three parts:

- **The byte-level scanner** (`scanner.go`). A `Scanner` reads its input one byte at a time. It skips blanks, `//` comments and `#` lines, and each call to `Read` produces one token:
  - a literal run, classified as keyword, NUM or IDENT;
  - a quoted string;
  - a single-byte punctuation token.
- **The token kinds** (`scanner/token.go`). This covers:
  - the `TokenType` bands and their spellings (`tokenEnumMap`);
  - the lookup table that `init` builds (`tokenStringMap`) and `keyword` reads;
  - the rendering `Token.String`.
- **The token-stream parser** (`parser.go`). A `Parser` walks a token sequence with a cursor `pos` and a `step`. At root scope it recognises `import "a", "b";` statements and a leading `[attr(val), ...]` list.

Modules:

- `Wrappers`: Option and Result.
- `Sequences`: the first index satisfying a predicate.
- `Tokens`: token kinds, table and rendering.
- `Scanning`: the scanner's specification functions and its `Scanner` class.
- `ScannerProperties`: what one `Read` yields, input shape by input shape.
- `Parsing`: the parser's specification functions and its `Parser` class.
- `ParserProperties`: round trips and outcomes of the parser.

The scanner and the parser keep the source's imperative form: classes whose methods update fields, with loops carrying invariants. Each method is proved against a specification function of the old state (`SkipLineSpec`, `FindKeywordSpec`, `ReadSpec`, `AttrScan`, `ParseSpec`, ...). The properties are lemmas about those functions.

How the model represents the Go program:

- **Bytes.** Each input byte is a `char` below 256, the rune Go builds with `rune(buf[0])`. `unicode.IsLetter` and `unicode.IsDigit` on such a rune are written out exactly: ASCII and Latin-1 letters, and ASCII digits. Token text is a sequence of these characters, where Go holds the UTF-8 encoding of the same runes. `findKeyword` compares `len(token)` in bytes only while the token consists of ASCII digits, so the two views agree there.
- **The reader.** `io.Reader` is the sequence of bytes it delivers, plus a cursor. Once the data is exhausted it reports one final error: `EndOfInput` (`io.EOF`) or `ReadFailure` (any other failure, including the short read).
- **Scanner errors.** They are values of `ScanError`. `UnexpectedCharacter` carries the byte that `%c` would print.
- **The keyword table.** The scanner takes it as a parameter. `IsKeywordTable` requires it to be the table `Init` builds, and `Tokens.Init` is proved to build exactly that table.
- **Parser failures.** Every `log.Fatal*` call in `parser.go` becomes a `Fatal` value, and so does the run-time panic of indexing `ts[len(ts)]`. Parse's outcome is one of four statuses:
  - `Finished` (it returns nil);
  - `RootError(msg)` (it returns that error);
  - `Aborted(reason)` (the process ends);
  - `Stuck` (it loops forever).
- **Logged nodes.** The nodes Parse passes to `log.Printf` are returned, in order, as `logged`.

Several behaviours a reader of MIDL input would expect do not hold of this code. The model follows the code in each case:

- **Hexadecimal runs.** In MIDL, `0x1F` is a hexadecimal number. The scanner keeps NUM only while decimal digits follow `0x`, so `0x1F` is IDENT (`HexExamples`).
- **Unterminated strings.** A MIDL compiler rejects a string that is never closed. The scanner emits no token and goes round Read's loop again with the last byte of the input. When that byte is the opening quote itself, Read never returns (`UnterminatedString`).
- **Empty attribute lists.** MIDL accepts `[]`. In the parser, `[]` consumes its `]` as the end of the attributes, and Parse then demands a second `]` (`ParseEmptyAttributeList`).
- **Keyword vocabulary.** MIDL has the attribute `noncreatable`. `scanner/token.go` has no such kind, so it scans as IDENT.
- **The `-` byte.** `scanner/token.go` declares the kind DASH for `-`. The scanner treats `-` as a literal character, so it never yields DASH (`DashOrDotIsIdent`, `ReadEmitsScannedKinds`).
- **Error positions.** `Token` has a `Position` field, but the scanner never sets it, and the parser's failures carry only the offending token.
- **Parse's result.** `parser.go` declares nodes for interfaces, enums, typedefs, libraries, modules and structs. Its `Parse` builds only imports and attribute lists, returns only an error, and logs the nodes it builds.

## Model

| member | source | states |
|---|---|---|
| Tokens.EnumName | scanner/token.go:84-140 | Definition of `tokenEnumMap`, one spelling per kind and "" for unlisted kinds. Its properties are stated by `SpellingIsWord`, `OtherSpellingIsNotWord` and `RenderRoundTrip`. |
| Tokens.Keyword | scanner/token.go:169-174 | Definition of `keyword(s)` over the table `init` builds. Its properties are stated by `KeywordSound`, `KeywordIff` and `KeywordRoundTrip`. |
| Tokens.KeywordIn | scanner/token.go:169-174 | Definition of a lookup in a given map, ILLEGAL when `s` is not a key. `KeywordInTable` states that on the table `init` builds it agrees with `Keyword`. |
| Tokens.Token.String | scanner/token.go:148-152 | Definition of the rendering: the kind's spelling, two tabs, then the value in brackets. `RenderRoundTrip` proves that the spelling and the value can be read back. |
| Tokens.BandsAscending | scanner/token.go:10-82 | The kind bands are disjoint and ascend: literals < operators < keywords < attributes < parameter attributes, each strictly between its `_beg` and `_end` markers. |
| Tokens.KeywordEntriesSound | scanner/token.go:158-160 | Every entry the keyword-band loop of `init` makes is a keyword kind, filed under its own `tokenEnumMap` spelling. |
| Tokens.AttributeEntriesSound | scanner/token.go:161-163 | Every entry the attribute-band loop of `init` makes is an attribute kind, filed under its own spelling. |
| Tokens.ParamAttributeEntriesSound | scanner/token.go:164-166 | Every entry the parameter-attribute loop of `init` makes is a parameter-attribute kind, filed under its own spelling. |
| Tokens.KeywordSound | scanner/token.go:169-174 | Anything `keyword(s)` returns other than ILLEGAL lies strictly inside the keyword, attribute or parameter-attribute band, and its spelling is `s`. |
| Tokens.KeywordEntriesComplete | scanner/token.go:89-119 | Every keyword kind is found under its spelling among the keyword-band entries. |
| Tokens.AttributeEntriesComplete | scanner/token.go:89-120 | Every attribute kind is found under its spelling among the attribute-band entries, and no keyword shadows it. |
| Tokens.ParamAttributeEntriesComplete | scanner/token.go:110-124 | Every parameter attribute is found under its spelling in its own band, and neither earlier band shadows it. |
| Tokens.KeywordRoundTrip | scanner/token.go:156-167 | Round trip: `keyword(tokenEnumMap[t]) == t` for every `t` in the three lookup bands, so no two of those spellings collide. |
| Tokens.KeywordIff | scanner/token.go:169-174 | Both directions: `keyword(s)` returns `t` (other than ILLEGAL) exactly when `t` is in a lookup band and is spelled `s`. |
| Tokens.StringIsAttribute | scanner/token.go:116 | `"string"` resolves to ATTR_STRING, while `"STRING"`, the spelling of the literal kind STRING, resolves to ILLEGAL. |
| Tokens.BandPlacement | scanner/token.go:52-71 | `"helpstring"` resolves into the keyword band; `"default"` and `"v1_enum"` resolve into the attribute band. |
| Tokens.SpellingIsWord | scanner/token.go:89-124 | Every lookup-band spelling is a word: a lower-case letter, then lower-case letters, digits and `_`. |
| Tokens.KeywordSpellingIsWord | scanner/token.go:89-119 | Every keyword spelling is a word. |
| Tokens.AttributeSpellingIsWord | scanner/token.go:90-120 | Every attribute spelling is a word. |
| Tokens.OtherSpellingIsNotWord | scanner/token.go:84-140 | Every other spelling ("IDENT", "(", "-", ...) is empty or does not start with a lower-case letter, and none contains a tab. |
| Tokens.OtherSpellingsNotLooked | scanner/token.go:156-174 | Literal, operator and unspelled kinds are never returned by lookup: `keyword` of their spelling is ILLEGAL. |
| Tokens.SpellingHasNoTab | scanner/token.go:84-140 | No spelling contains a tab. |
| Tokens.KeywordInTable | scanner/token.go:169-174 | Looking `s` up in a table built by `init` gives `Keyword(s)`, or ILLEGAL when `s` is not a key. |
| Tokens.FilledStep | scanner/token.go:158-166 | One iteration of an `init` loop keeps the table holding exactly the lookup kinds entered so far, each under its spelling. |
| Tokens.FilledComplete | scanner/token.go:156-167 | After the last band, the table's keys are exactly the spellings `keyword` recognises, each mapped to its kind. |
| Tokens.Init | scanner/token.go:156-167 | The three loops of `init` build exactly the lookup table that `Keyword` describes. |
| Tokens.RenderRoundTrip | scanner/token.go:148-152 | `String()` is the spelling, two tabs, then the value in brackets. Splitting at the first tab gives back both the spelling and the value. |
| Scanning.IsDigit | scanner.go:102-112 | Definition of `unicode.IsDigit` on a byte: the ASCII digits. |
| Scanning.IsLetter | scanner.go:102-112 | Definition of `unicode.IsLetter` on a byte: ASCII letters and the Latin-1 letters. |
| Scanning.LiteralChar | scanner.go:102-108 | Definition of `literalChar`: letters, digits, `-`, `_` and `.`. `FindKeywordStops` and `ActOnRun` state how a run of such bytes is read. |
| Scanning.KeywordChar | scanner.go:110-112 | Definition of `keywordChar`: letters, digits and `_`. `WordIsKeywordBytes` and `KeywordSpellingScanned` state that every table spelling consists of such bytes. |
| Scanning.PunctKind | scanner.go:66-89 | Definition of the kind each punctuation case of Read's switch emits. `PunctuationKinds` states that each is an operator other than DASH, spelled by its byte. |
| Scanning.ClassifyRun | scanner.go:149-158 | Definition of the end of `findKeyword`: keyword unless `-` or `.` followed the first byte, then NUM, else IDENT. `ClassifyRunIff` states both directions of each outcome. |
| Scanning.ReadSpec | scanner.go:25-100 | Definition of one `Read` call: fetch a byte when `c` is 0, then run the loop. `Scanner.Read` is proved to follow it, and `ReadEmitsScannedKinds` and the lemmas of `ScannerProperties` state what it yields. |
| Scanning.Dispatch | scanner.go:36-39 | Definition of one round of Read's loop: skip blanks, failing at the end of input, then act on the current byte. `Scanner.Round` is proved to follow it. |
| Scanning.Act | scanner.go:41-99 | Definition of Read's switch on the current byte: emit, fail, or go round again from a strictly later position. Its cases are stated by `ActOnPunct`, `ActOnRun`, `ActOnString`, `ActOnComment`, `ActOnDirective` and `ActWellEmitted`. |
| Scanning.ExhaustedStep | scanner.go:193-206 | A successful `next` does not change where calling `next` until it fails ends up: all input consumed, `c` holding the last input byte, `err` the reader's end error. |
| Scanning.ExhaustedAtEnd | scanner.go:193-199 | With no byte left, that end state is exactly what one failing `next` leaves: only `err` changes, to the reader's end error. |
| Scanning.SkipWhitespaceSpec | scanner.go:161-171 | On a non-blank current byte `skipWhitespace` returns true and changes nothing. Whenever it returns true the current byte is non-blank; when it returns false the input is exhausted, as by `next` failing. It never moves backwards. |
| Scanning.SkipLineSpec | scanner.go:173-180 | `skipLine` either consumes up to and including the next newline, leaving `c == '\n'`, or exhausts the input. |
| Scanning.SkipCommentSpec | scanner.go:182-191 | `skipComment` succeeds only when the current byte and the next input byte are both `/`. It then has consumed at least two bytes and ends on `'\n'`. |
| Scanning.FindStringSpec | scanner.go:208-218 | `findString` returns exactly the input bytes from the current position up to the next `"`, which contain no quote, and consumes that quote. At end of input it returns nothing and the input is exhausted. |
| Scanning.FlagsStep | scanner.go:126-146 | How one more byte updates `findKeyword`'s `number` and `literal` flags, stated on the whole run. |
| Scanning.FindKeywordSpec | scanner.go:114-159 | `findKeyword` consumes at least one byte or exhausts the input. |
| Scanning.FindKeywordStops | scanner.go:122-148 | A run ended by a non-literal byte at index `j`: the run is classified by `ClassifyRun`, and byte `j` is read into `c` but not consumed. |
| Scanning.FindKeywordRunsOut | scanner.go:122-125 | A run that reaches the end of the input yields EOF with an empty value, and the input is exhausted. |
| Scanning.Scanner.constructor | scanner.go:18-23 | `NewScanner`: nothing read, no current byte, no error, last token ILLEGAL. |
| Scanning.Scanner.Next | scanner.go:193-206 | `next` reads exactly one byte into `c` when one remains. Otherwise it records the reader's error and leaves `c` unchanged. |
| Scanning.Scanner.SkipWhitespace | scanner.go:161-171 | The loop computes `SkipWhitespaceSpec` of the old state. |
| Scanning.Scanner.SkipLine | scanner.go:173-180 | The loop computes `SkipLineSpec` of the old state. |
| Scanning.Scanner.SkipComment | scanner.go:182-191 | `skipComment` computes `SkipCommentSpec` of the old state. |
| Scanning.Scanner.FindString | scanner.go:208-218 | The loop computes `FindStringSpec` of the old state; on failure the value is empty. |
| Scanning.Scanner.FindKeyword | scanner.go:114-159 | The loop, with its two flags, computes `FindKeywordSpec` of the old state. |
| Scanning.Scanner.UpdateFlags | scanner.go:126-146 | The body of `findKeyword`'s loop stops exactly on a non-literal byte. Otherwise it sets the flags to those of the extended run. |
| Scanning.Scanner.Classify | scanner.go:149-158 | The end of `findKeyword` returns `ClassifyRun` of the token: keyword (unless `literal`), then NUM, else IDENT. |
| Scanning.Scanner.Read | scanner.go:25-100 | `Read` returns true with `lastToken` and the new state as `ReadSpec` emits them. It returns false with the `ReadSpec` failure state and an ILLEGAL last token. |
| Scanning.Scanner.Round | scanner.go:36-99 | One pass of Read's loop either finishes as `Dispatch` says, or goes round again with the same `Dispatch` outcome and strictly more input consumed. |
| Scanning.Scanner.LastToken | scanner.go:220-222 | `LastToken` returns the last token. |
| Scanning.Scanner.Error | scanner.go:224-226 | `Error` returns the recorded error. |
| ScannerProperties.ReadReaches | scanner.go:30-42 | Read skips the leading blanks of the pending bytes, and acts on the first non-blank byte as if it had just been read. |
| ScannerProperties.DispatchOnNonBlank | scanner.go:37-42 | On a non-blank current byte, Read's loop acts on it at once. |
| ScannerProperties.DispatchOnBlank | scanner.go:161-171 | On a blank current byte, Read's loop reads on to the first non-blank input byte. |
| ScannerProperties.EndBetweenTokens | scanner.go:30-39 | When only blanks are pending, Read fails with the reader's end-of-input error. |
| ScannerProperties.PendingFrom | scanner.go:95-97 | Resetting `c` to 0 makes the next Read fetch a fresh byte. A non-zero `c` is itself examined next. |
| ScannerProperties.ActOnPunct | scanner.go:66-98 | A punctuation byte yields its kind with an empty value, and `c` is reset to 0. |
| ScannerProperties.PunctuationToken | scanner.go:66-98 | Each of the twelve punctuation bytes, `(` to `=` and the bar, after blanks yields its kind with an empty value. It is consumed, so the next Read starts at the following byte. |
| ScannerProperties.PunctuationKinds | scanner.go:66-89 | Each punctuation byte maps to an operator kind other than DASH, whose spelling is that byte. |
| ScannerProperties.ActOnRun | scanner.go:42-48 | A literal byte whose run is ended at input index `j` yields the run's `ClassifyRun` token, and byte `j` is left in `c`. |
| ScannerProperties.RunToken | scanner.go:42-48 | A literal run after blanks is one token, classified by `ClassifyRun`. The terminating byte is the first byte the next Read examines, unless it is 0. |
| ScannerProperties.ActOnRunToEnd | scanner.go:122-125 | A literal run that reaches the end of the input yields EOF with an empty value. |
| ScannerProperties.EofFixpoint | scanner.go:122-125 | After EOF, every later Read yields the same EOF token and changes nothing, because `c` is unchanged. |
| ScannerProperties.RunAtEnd | scanner.go:30-48 | A literal run reaching the end of the input yields EOF with no value, and so does the next Read. |
| ScannerProperties.ActOnString | scanner.go:59-65 | An opening quote with a closing quote at index `j` yields STRING of the bytes between them, and `c` is reset. |
| ScannerProperties.StringToken | scanner.go:59-65 | A quoted string yields STRING whose value is exactly the bytes between the quotes, with no escape processing. The closing quote is consumed. |
| ScannerProperties.UnterminatedString | scanner.go:59-65 | An unterminated string yields no token. Read goes round again with the last input byte, and never returns when that byte is the opening quote. |
| ScannerProperties.ActOnComment | scanner.go:49-53 | `//` with a newline at index `j` goes round Read's loop again, with `c == '\n'` after index `j`. |
| ScannerProperties.CommentSkipped | scanner.go:49-53 | A `//` comment ending in a newline produces no token; Read continues as if only the newline were pending. |
| ScannerProperties.ActOnDirective | scanner.go:54-58 | `#` with a newline at index `j` goes round Read's loop again, with `c == '\n'` after index `j`. |
| ScannerProperties.DirectiveSkipped | scanner.go:54-58 | A `#` line ending in a newline produces no token; Read continues as if only the newline were pending. |
| ScannerProperties.SlashNotComment | scanner.go:49-53 | A `/` that is last or not followed by `/` makes Read fail with the non-comment error. |
| ScannerProperties.CommentRunsOut | scanner.go:49-53 | A `//` comment without a newline before the end makes Read fail with the non-comment error. |
| ScannerProperties.DirectiveRunsOut | scanner.go:54-58 | A `#` line without a newline before the end makes Read fail with the directive error. |
| ScannerProperties.UnexpectedByte | scanner.go:90-92 | Any byte no case handles makes Read fail with an error naming that byte. |
| ScannerProperties.NumberRunNotKeyword | scanner.go:149-156 | A run that keeps the `number` flag is never a keyword, because every spelling starts with a letter. |
| ScannerProperties.DashOrDotNotWord | scanner.go:139-146 | A run with `-` or `.` after its first byte is not shaped like a table spelling. |
| ScannerProperties.DashOrDotNotKeyword | scanner.go:139-154 | A run with `-` or `.` after its first byte is never a keyword. |
| ScannerProperties.WordIsKeywordBytes | scanner.go:110-112 | Every byte of a word-shaped spelling satisfies `keywordChar`. |
| ScannerProperties.ClassifyRunIff | scanner.go:149-158 | A run yields a keyword (with an empty value) exactly when its text is a table spelling. Otherwise it yields NUM exactly when it is a number run, else IDENT; NUM and IDENT carry the text. |
| ScannerProperties.KeywordRunScanned | scanner.go:149-153 | A run spelled like a table entry yields that entry's kind with an empty value. |
| ScannerProperties.DashOrDotIsIdent | scanner.go:139-158 | Once `-` or `.` follows the first byte, the run is IDENT carrying its text, so `-` never yields DASH. |
| ScannerProperties.KeywordSpellingScanned | scanner.go:139-153 | Every keyword, attribute and parameter-attribute spelling consists of keyword bytes, and scans as its own kind. |
| ScannerProperties.HexExamples | scanner.go:126-137 | `0x10` is NUM, `0x1F` and `1x0` are IDENT, and `1.5` is IDENT. |
| ScannerProperties.DispatchWellEmitted | scanner.go:36-99 | Every token a round of Read's loop emits has a scanned kind, and EOF comes with the exhausted end state. |
| ScannerProperties.ActWellEmitted | scanner.go:41-93 | Every token one case of Read's switch emits has a scanned kind, and EOF comes with the exhausted end state. |
| ScannerProperties.ReadEmitsScannedKinds | scanner.go:25-100 | Read never reports ILLEGAL, COMMENT or DASH as a token. An EOF token has an empty value, the input is consumed, and the next Read repeats it. |
| Parsing.TokenAt | parser.go:134-147 | Definition that `Parser.Next` and `Parser.Peek` are proved to return: the token at `pos` when `pos < len(ts)`, EndOfFile beyond `len(ts)` (the `log.Fatal` guard), IndexOutOfRange at exactly `len(ts)` (the index panic). |
| Parsing.MustFindNextSpec | parser.go:149-155 | `mustFindNext(tt)` succeeds exactly when the token at `pos` exists and has kind `tt`, and fails naming the token otherwise. |
| Parsing.ImportScan | parser.go:193-203 | On success `importNode`'s loop ends just after a `;`, with fewer files than tokens consumed. |
| Parsing.ImportSpec | parser.go:186-208 | `importNode` succeeds only on an `import` token with at least one file, ending inside the tokens. |
| Parsing.AttrValue | parser.go:168-176 | The optional value after an attribute succeeds exactly when the next token is not `(`, or is `(` followed by an identifier and `)`. Without `(` it keeps nothing and consumes nothing. With `( v )` it keeps one node of the attribute's kind with value `v` and consumes three tokens. A `(` followed by a non-identifier fails expecting IDENT, naming that token. `( v` followed by anything but `)` fails expecting RPAREN. Running off the end fails with the index panic, and only then. |
| Parsing.AttrScan | parser.go:157-184 | On success `objAttributes` consumes at least one token and stops inside the tokens. What it keeps and how it fails are stated by `AttrScanList`, `AttrScanPrefix` and the `AttrList*` lemmas. |
| Parsing.RootErrorMessage | parser.go:120 | Definition of the root-scope error text. `RootScopeError` states when Parse returns it, quoting the token after the bad one. |
| Parsing.ParseSpec | parser.go:107-131 | Parse finishes only once `pos` reaches the end of the tokens. |
| Parsing.Parser.constructor | parser.go:18-22 | The zero `Parser`: step ROOT, `pos` 0, no tokens. |
| Parsing.Parser.Next | parser.go:134-140 | `next` returns the token at `pos` and advances `pos` by exactly one, unless the end-of-file guard fires. |
| Parsing.Parser.Peek | parser.go:142-147 | `peek` returns the token at `pos` and changes nothing. |
| Parsing.Parser.MustFindNext | parser.go:149-155 | `mustFindNext` consumes exactly one token and computes `MustFindNextSpec`. |
| Parsing.Parser.ObjAttributes | parser.go:157-184 | The loop of `objAttributes` computes `AttrScan`: the kept nodes and the new `pos`, or the failure. |
| Parsing.Parser.ParenValue | parser.go:168-176 | The parenthesised-value branch computes `AttrValue`: the node to append and the new `pos`, or the failure. |
| Parsing.Parser.ImportStatement | parser.go:186-208 | The loop of `importNode` computes `ImportSpec`: the node and the new `pos`, or the failure. |
| Parsing.Parser.Parse | parser.go:107-131 | Parse's loop ends with the status and logged nodes of `ParseSpec`, and with its step and `pos` unless it aborted. |
| ParserProperties.ImportScanIs | parser.go:193-203 | `importNode`'s loop finds the first token that is neither a string nor a comma. If it is `;`, the loop returns the preceding string values in order and consumes the `;`. Any other token, or the end, fails. |
| ParserProperties.ImportRoundTrip | parser.go:186-208 | Round trip: `import f1, ..., fn ;` yields exactly `[f1, ..., fn]` and stops after the `;`. With no files it fails with the no-files error. |
| ParserProperties.ParseImport | parser.go:112-116 | At root scope an import statement is logged as its ImportNode, and parsing continues after the `;`. |
| ParserProperties.AttrValueOfItem | parser.go:168-176 | An attribute item as written yields its node if it is parenthesised and nothing otherwise, and `pos` ends after it. |
| ParserProperties.AttrScanList | parser.go:157-184 | On a comma-separated item list closed by `]`, `objAttributes` keeps exactly the parenthesised items, in order, and stops at the `]` without consuming it. |
| ParserProperties.AttrScanStep | parser.go:168-181 | After one attribute, `objAttributes` stops unless a comma follows, and otherwise prepends the item's node to the rest. |
| ParserProperties.AttrScanOfList | parser.go:157-184 | The tokens of any non-empty attribute list followed by `]` yield the list's parenthesised items, stopping at the `]`. |
| ParserProperties.ParseAttributeList | parser.go:117-126 | `[ items ]` at root scope logs only the parenthesised items, consumes the `]`, and moves to STEP_INTERFACE. There Parse finishes if nothing follows, and is stuck otherwise. |
| ParserProperties.OpenBracket | parser.go:117-118 | At root scope `[` switches to ATTRIBUTES. |
| ParserProperties.AttributesClosed | parser.go:122-126 | An attribute list closed by `]` is logged, and the step becomes STEP_INTERFACE after the `]`. |
| ParserProperties.ParseEmptyAttributeList | parser.go:122-126 | For `[]`, the `]` ends the attributes, so a second `]` is required. Without one Parse aborts, at the end of the tokens or naming the wrong token. |
| ParserProperties.AttrScanStops | parser.go:161-181 | `objAttributes` stops either just after a `]` in attribute position, or at a non-comma token after an attribute. Every kept node has an attribute kind. |
| ParserProperties.AttrScanPrefix | parser.go:157-184 | Items each followed by a comma are passed over: `objAttributes` keeps their parenthesised nodes, in order, in front of whatever it yields from the first token after them, a failure included. |
| ParserProperties.AttributesAborted | parser.go:122-124 | A failure of `objAttributes` aborts Parse with that failure and logs nothing. |
| ParserProperties.AttributesNotClosed | parser.go:122-124 | An attribute list that `objAttributes` reads but that is not followed by `]` aborts Parse, expecting RBRACK and naming the token found. |
| ParserProperties.AttrListRejectsNonAttribute | parser.go:161-166 | After comma-terminated items, a token that is neither `]` nor an attribute fails `objAttributes` with the not-an-attribute error naming it. |
| ParserProperties.AttrListRejectsBadValue | parser.go:170-172 | After comma-terminated items, an attribute and `(` followed by a non-identifier fail `objAttributes`, expecting IDENT and naming the token. |
| ParserProperties.AttrListRejectsUnclosedValue | parser.go:170-174 | After comma-terminated items, `attr ( v` followed by anything but `)` fails `objAttributes`, expecting RPAREN and naming the token. |
| ParserProperties.LastItemRunsOut | parser.go:168-178 | An attribute item that ends the tokens fails `objAttributes` with the index panic when it peeks for `,`. |
| ParserProperties.AttrListRunsOut | parser.go:157-184 | Attribute items each followed by a comma, then a last item that ends the tokens: `objAttributes` fails with the index panic. |
| ParserProperties.AttrListStops | parser.go:177-183 | Attribute items each followed by a comma, then a last item, then a token other than `,` and `(`: `objAttributes` keeps the parenthesised nodes of all items in order and stops at that token without consuming it. |
| ParserProperties.ParseRejectsNonAttribute | parser.go:117-124 | `[` then comma-terminated items then a token that is neither `]` nor an attribute (the `in` of `[in]`): Parse aborts with the not-an-attribute error naming it, logging nothing. |
| ParserProperties.ParseRejectsBadValue | parser.go:117-124 | `[ ..., attr (` followed by a non-identifier: Parse aborts expecting IDENT, naming that token. |
| ParserProperties.ParseRejectsUnclosedValue | parser.go:117-124 | `[ ..., attr ( v` followed by anything but `)`: Parse aborts expecting RPAREN, naming that token. |
| ParserProperties.ParseListRunsOut | parser.go:117-124 | `[`, attribute items each followed by a comma, then a last item that ends the tokens: Parse aborts with the index panic. |
| ParserProperties.ParseUnclosedList | parser.go:122-124 | `[`, attribute items each followed by a comma, a last item, then a token that is not `,`, `(` or `]` (as in `[uuid(x) interface`): Parse aborts expecting RBRACK, naming that token. |
| ParserProperties.ParseLogs | parser.go:107-131 | Parse logs only imports with files and attribute lists, and an attribute list only last. In STEP_INTERFACE it logs nothing: it finishes if no token is left and is stuck otherwise. |
| ParserProperties.RootScopeError | parser.go:119-120 | At root scope any token other than `import` or `[` makes Parse return the root-scope error, quoting the token after it; when there is none, the index panics. |

## Left out

- `main.go`, `main/`, `main2/`, `parser/`, `backend/`, `ast/` and `wintypes/` are not part of this model. They hold command-line entry points, adapters for a generated parser whose grammar and tables are not available, a code generator calling methods that are not available, declarations only, and aliases over an external library.
- Reader failures other than end of input, and the short read of `next` (scanner.go:196-203), are collapsed into one `ReadFailure` value. The error text of each failure is not modelled.
- Scanning.Scanner.Read: requires that `ReadSpec` is not `Diverges`. When an unterminated string's opening quote is the last input byte, the source loops forever; that case is stated as a value by `UnterminatedString` instead of being run.
- Scanning.Scanner.Round: requires that `Dispatch` is not `Diverges`, for the same reason.
- `Token.Position` is never set by `scanner.go`, so it is not part of `Token`. The scanner's unused `lookupMap` field is left out too: the keyword table is a parameter of the scanner, required to be the table `init` builds.
- `log.Printf` in `Parse` is modelled as the `logged` sequence it would print. The text of `log.Fatal*` messages is replaced by `Fatal` values carrying the offending token.
- Parsing.Parser.Parse: after an abort, the contract says nothing about `step` and `pos`, because the process would have ended. A parse stuck in STEP_INTERFACE returns `Stuck` instead of looping forever.
- Parsing.Parser.ObjAttributes: requires `pos <= len(ts)`, which every call from Parse meets. Past that bound the `next` guard would fail with `EndOfFile`.
- Parsing.Parser.ParenValue: requires `pos <= len(ts)`, for the same reason.
- Parsing.Parser.ImportStatement: requires `pos <= len(ts)`, for the same reason.
- The node records `parser.go` declares besides `ImportNode` and `AttributeNode` are declared as datatypes but never built, because no code in `parser.go` builds them.
