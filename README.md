# Kod, modelled in Dafny

Kod is a small scripting language that exists in two generations. This project models the core of both and proves properties of the model.

The older generation is a C++ lexer (`Dev/KodLib`):
- a cursor over wide-character text, with a `Location` of file, line and column;
- `Token` records and the kind tables;
- the `Lexer` class with `get_next_token`, `peek_token` and its helpers.

The newer generation is a Rust pipeline (`src/kod`):
- a second lexer, with its own operator table, number scanning and comment skipping;
- a recursive-descent parser that folds integer constants;
- the syntax tree's queries (`pushes`, `returns`, `is_constant`, `to_constant`, `to_string`);
- the compilation of every node into bytecode, interning names and constants into the module's pools and patching jump operands;
- the bytecode buffer `Code`, with its opcode table and little-endian operands;
- the tagged 64-bit value word `Object`;
- the runtime's garbage-collector bookkeeping and table of globals;
- the x86-64 encoder of the JIT: ModR/M and REX bytes, the instruction methods of `Assembler`, and `Label` back-patching.

Each file of the source keeps its own form.
- Pure code becomes datatypes, functions and lemmas.
- Code that updates objects in place becomes classes. Their methods have `modifies` clauses and loops with invariants.
- Every such method is proved against a specification function. The function sits in a `...Spec` module: `CppLexerSpec`, `RustLexerSpec`, `ParserSpec`, `CompileSpec`, `RuntimeSpec` and `AssemblerSpec`. The lemmas about those functions live in the `...Props` modules or beside the functions.
- A Rust panic is an explicit outcome (`Panic`, `Panicked`, `None`), and so is a C++ exception (`Throw`). Preconditions are the ones the source imposes on its callers, with two exceptions, both listed under "Left out". The `assert!` and `unreachable!` conditions of the encoder become preconditions. `CppLexer.Lexer.GetNextToken` requires that no comment start follows the whitespace, because the source loops forever there.
- Machine integers are bit-vectors (`bv8` to `bv64`), or integers with explicit wrap-around (`u32`, `i64`).

## Model

| member | source | states |
|---|---|---|
| Ints.Le16 | src/kod/compiler/bytekod.rs:83 | `u16::to_le_bytes` gives two bytes |
| Ints.Le16RoundTrip | src/kod/compiler/bytekod.rs:83 | the two little-endian bytes read back as the word they were written from |
| Ints.Le32 | src/kod/compiler/bytekod.rs:85 | `u32::to_le_bytes` gives four bytes |
| Ints.Le64 | src/kod/compiler/bytekod.rs:87 | `u64::to_le_bytes` gives eight bytes |
| Ints.Le32RoundTrip | src/kod/compiler/bytekod.rs:95-103 | four little-endian bytes read back as the word they were written from |
| Ints.Le64RoundTrip | src/kod/compiler/bytekod.rs:105-117 | eight little-endian bytes read back as the word they were written from |
| Chars.NatToDecimal | src/kod/parser/node.rs:595-597 | the decimal rendering of an integer is one or more digits |
| Chars.DecimalRoundTrip | src/kod/parser/node.rs:595-597 | reading the decimal rendering back gives the integer |
| Chars.DecimalInjective | src/kod/parser/node.rs:595-597 | two integers with the same rendering are equal |
| CppToken.Location.NewLine | Dev/KodLib/Token.hpp:103 | `new_line`: the line goes up by one (wrapping at 2^32), the column is back to 1, the file is kept |
| CppToken.Location.AddColumn | Dev/KodLib/Token.hpp:104 | `add_column`: the column goes up by one (wrapping at 2^32), line and file are kept |
| CppToken.DefaultLocation | Dev/KodLib/Token.hpp:93 | the default arguments of `Location`: empty path, line 1, column 1 |
| CppToken.AddColumns | Dev/KodLib/Token.hpp:104 | `k` calls of `add_column` add `k` to the column modulo 2^32 and change nothing else |
| CppToken.NewLineForgetsColumns | Dev/KodLib/Token.hpp:103-104 | columns added on a line make no difference once `new_line` is called |
| CppToken.TypeCode | Dev/KodLib/Token.hpp:7-72 | the `uint32_t` code of every kind is below 57 |
| CppToken.TypeOfCode | Dev/KodLib/Token.hpp:7-72 | exactly the codes below 57 name a kind |
| CppToken.TypeCodeRoundTrip | Dev/KodLib/Token.hpp:7-72 | decoding the code of a kind gives the kind back, so distinct kinds have distinct codes |
| CppToken.DefaultToken | Dev/KodLib/Token.hpp:118 | the default arguments of `Token`: the default location, `END_OF_INPUT`, empty text |
| CppToken.Is | Dev/KodLib/Token.hpp:129 | `is(type)` holds exactly when the token has that kind |
| CppToken.KeywordTablesAgree | Dev/KodLib/Lexer.cpp:211-216 | the C++ keyword table knows a word exactly when the Rust table knows it and it is not `fn` |
| CppToken.SymbolToTypeKnown | Dev/KodLib/Lexer.cpp:230-240 | the C++ operator table gives a kind other than `UNKNOWN` exactly for the keys of the Rust operator table |
| CppToken.RenderLocationInjective | Dev/KodLib/Token.cpp:11-15 | within one file, `path:line:column` determines line and column |
| CppToken.RenderTokenInjective | Dev/KodLib/Token.cpp:23-27 | at one location, `location: (code): text` determines kind and text |
| CppLexerSpec.Start | Dev/KodLib/Lexer.cpp:6-10 | the constructor starts at index 0, line 1, column 1 of the given file |
| CppLexerSpec.CurrentChar | Dev/KodLib/Lexer.cpp:93-100 | the character at the index when `_can_advance`, else `GET_CURRENT_CHAR_INDEX_OUT_OF_RANGE` with the index |
| CppLexerSpec.PeekChar | Dev/KodLib/Lexer.cpp:102-109 | the next character (the terminating NUL at the end) when `_can_advance`, else `PEEK_CHAR_INDEX_OUT_OF_RANGE` |
| CppLexerSpec.Advance | Dev/KodLib/Lexer.cpp:111-123 | nothing at the end or on a NUL; otherwise one index on, a new line after `'\n'` and one column on after anything else |
| CppLexerSpec.SkipWhitespace | Dev/KodLib/Lexer.cpp:76-86 | never moves back, passes only whitespace other than `'\n'`, and stops at the end, on a non-space or on `'\n'` |
| CppLexerSpec.IsBin | Dev/KodLib/Lexer.hpp:34 | `_s_is_bin` holds exactly for `'0'` and `'1'` |
| CppLexerSpec.IsOct | Dev/KodLib/Lexer.hpp:35 | `_s_is_oct` holds exactly for `'0'` to `'8'`, so `'8'` is admitted |
| CppLexerSpec.StringBody | Dev/KodLib/Lexer.cpp:148-177 | the string loop never moves back and stops at the end or on the closing quote |
| CppLexerSpec.CollectString | Dev/KodLib/Lexer.cpp:139-190 | a string token is stamped with the opening quote's location; the only exception that can come out is `GET_CURRENT_CHAR_INDEX_OUT_OF_RANGE` |
| CppLexerSpec.CollectNumber | Dev/KodLib/Lexer.cpp:192-196 | the number stub gives the default token and consumes nothing |
| CppLexerSpec.IdentRun | Dev/KodLib/Lexer.cpp:204-209 | the identifier loop collects exactly the characters it passes, all letters, digits or `_`, and stops before one that is not |
| CppLexerSpec.NextStep | Dev/KodLib/Lexer.cpp:12-59 | a pass of the `for (;;)` loop never throws `UNTERMINATED_STRING` |
| CppLexer.Lexer.constructor | Dev/KodLib/Lexer.cpp:6-10 | the fields start as `CppLexerSpec.Start` |
| CppLexer.Lexer.CanAdvance | Dev/KodLib/Lexer.cpp:125-129 | `_can_advance` on the fields |
| CppLexer.Lexer.GetCurrentChar | Dev/KodLib/Lexer.cpp:93-100 | `_get_current_char` returns `CurrentChar` of the fields |
| CppLexer.Lexer.PeekChar | Dev/KodLib/Lexer.cpp:102-109 | `_peek_char` returns `PeekChar` of the fields |
| CppLexer.Lexer.Advance | Dev/KodLib/Lexer.cpp:111-123 | `_advance` updates index and location in place as `Advance` says |
| CppLexer.Lexer.SkipWhitespace | Dev/KodLib/Lexer.cpp:76-86 | the loop ends in the state `SkipWhitespace` gives, having passed only whitespace other than `'\n'` |
| CppLexer.Lexer.IsStartOfComments | Dev/KodLib/Lexer.cpp:131-137 | `_is_start_of_comments`: `/` followed by `/` or `*` |
| CppLexer.Lexer.CollectString | Dev/KodLib/Lexer.cpp:139-190 | the loop and the final check end with the token or exception and the state `CollectString` gives |
| CppLexer.Lexer.CollectNumber | Dev/KodLib/Lexer.cpp:192-196 | the stub's token, the state untouched |
| CppLexer.Lexer.CollectIdentifier | Dev/KodLib/Lexer.cpp:198-220 | the loop ends with the token and state `CollectIdentifier` gives |
| CppLexer.Lexer.CollectSymbol | Dev/KodLib/Lexer.cpp:222-249 | one or two characters, as `CollectSymbol` gives |
| CppLexer.Lexer.GetNextToken | Dev/KodLib/Lexer.cpp:12-59 | from a state where the loop returns, the token or exception and the state `GetNextToken` gives |
| CppLexer.Lexer.PeekToken | Dev/KodLib/Lexer.cpp:61-74 | the token `get_next_token` gives, with index and location put back unless it threw |
| CppLexerProps.EndOfInputRepeats | Dev/KodLib/Lexer.cpp:16-19 | at the end of the text the result is `END_OF_INPUT` at the current location, and the state stays, so it repeats |
| CppLexerProps.SkipWhitespaceStops | Dev/KodLib/Lexer.cpp:76-86 | skipping is the identity on a character that is not skipped |
| CppLexerProps.AgainOnlyOnCommentStart | Dev/KodLib/Lexer.cpp:39-46 | the loop goes round again exactly when the skipped whitespace is followed by `//` or `/*` |
| CppLexerProps.CommentStartLoopsForever | Dev/KodLib/Lexer.cpp:14-46 | after such a pass the next pass starts from the same state and does the same, so `get_next_token` never returns |
| CppLexerProps.PeekTokenAgrees | Dev/KodLib/Lexer.cpp:61-74 | `peek_token` returns what `get_next_token` returns, leaves the state as it was on success, and where the throw left it on an exception |
| CppLexerProps.DigitGivesDefaultToken | Dev/KodLib/Lexer.cpp:28-31 | a digit after the whitespace gives the default token and leaves the lexer on the digit, so the next call gives it again |
| CppLexerProps.NewLineToken | Dev/KodLib/Lexer.cpp:50-55 | `'\n'` gives `NEW_LINE` with empty text at the location before it, and the lexer goes to column 1 of the next line |
| CppLexerProps.UnknownCharacterThrows | Dev/KodLib/Lexer.cpp:57 | any other character throws `UNKNOWN_CHARARCTER` carrying the character |
| CppLexerProps.SkipWhitespaceToEnd | Dev/KodLib/Lexer.cpp:76-86 | whitespace up to the end of the text is skipped entirely |
| CppLexerProps.TrailingWhitespaceOutOfRange | Dev/KodLib/Lexer.cpp:16-22 | trailing whitespace other than `'\n'` throws `GET_CURRENT_CHAR_INDEX_OUT_OF_RANGE` at the length of the text instead of giving `END_OF_INPUT` |
| CppLexerProps.UnknownEscapeDropped | Dev/KodLib/Lexer.cpp:161-173 | a backslash and a character outside the escape table are both consumed and nothing is kept |
| CppLexerProps.EscapedCharStep | Dev/KodLib/Lexer.cpp:152-173 | an escaped backslash or quote is kept as that character, two places on |
| CppLexerProps.PlainCharStep | Dev/KodLib/Lexer.cpp:175-176 | a plain character is kept, one place on |
| CppLexerProps.StringBodyOfEscaped | Dev/KodLib/Lexer.cpp:148-177 | the loop reads an escaped text back to the text and stops on the closing quote |
| CppLexerProps.StringRoundTrip | Dev/KodLib/Lexer.cpp:139-190 | a quote, an escaped text and the same quote give a string token with the text, just past the closing quote |
| CppLexerProps.StringBodyToEnd | Dev/KodLib/Lexer.cpp:148-177 | without quote, backslash or NUL the loop runs to the end of the text |
| CppLexerProps.UnterminatedStringThrows | Dev/KodLib/Lexer.cpp:179-184 | a literal the text ends inside throws `GET_CURRENT_CHAR_INDEX_OUT_OF_RANGE` at the length of the text, never `UNTERMINATED_STRING` |
| CppLexerProps.CollectIdentifierSound | Dev/KodLib/Lexer.cpp:198-220 | the identifier is the longest run of letters, digits and `_` at the start location, `KEYWORD` exactly when the keyword table knows it and `ID` otherwise |
| CppLexerProps.CollectSymbolLongestMatch | Dev/KodLib/Lexer.cpp:222-249 | two characters when the second is a symbol character and the pair has a kind, else one, with the kind from the table |
| CppLexerProps.BinDigitsAreOctDigits | Dev/KodLib/Lexer.hpp:34-35 | every binary digit is an octal digit and every octal digit a decimal digit |
| RustToken.NewToken | src/kod/lexer/token.rs:153-163 | `Token::new`: the given kind, text, line and column, keyword kind `Unknown`, integer payload 0 |
| RustToken.Eof | src/kod/lexer/token.rs:172-182 | `eof()`: kind `EndOfFile`, empty text, keyword kind `Unknown`, line 0, column 0, payload 0 |
| RustToken.FindSymbolKey | src/kod/lexer/token.rs:100-150 | a key found for a kind is listed and maps to that kind; none is found only when no listed key maps to it |
| RustToken.SymbolText | src/kod/parser/node.rs:359 | the text found for an operator kind is a key of `get_symbols()` that maps back to that kind |
| RustToken.SymbolKeyShapes | src/kod/lexer/token.rs:100-150 | every key has one or two characters, and a two-character key begins with a one-character key and ends in a character `is_symbol` accepts |
| RustToken.SymbolCharsAreKeys | src/kod/lexer/lexer.rs:388-390 | every character `is_symbol` accepts is a one-character key of the table |
| RustToken.SingleKeysAreSymbolChars | src/kod/lexer/token.rs:117-148 | every one-character key is a character `is_symbol` accepts |
| RustToken.CommentMarkersInTable | src/kod/lexer/token.rs:106-108 | `//`, `/*` and `*/` are ordinary table entries with the comment kinds |
| RustLexerSpec.Start | src/kod/lexer/lexer.rs:35-44 | `Lexer::new` starts at position 0, line 1, column 1, on the first character (NUL for an empty text) |
| RustLexerSpec.Advance | src/kod/lexer/lexer.rs:147-161 | nothing once `ch` is NUL; otherwise one position on, a new line at column 0 after `'\n'` and one column on after anything else |
| RustLexerSpec.SkipWhitespace | src/kod/lexer/lexer.rs:102-106 | passes only spaces and tabs and stops on anything else |
| RustLexerSpec.SkipUntilChar | src/kod/lexer/lexer.rs:131-135 | stops on the character or at the end, passing neither it nor a NUL |
| RustLexerSpec.SkipUntilString | src/kod/lexer/lexer.rs:137-145 | stops where the rest of the text starts with the pattern or at the end, passing no place where it starts |
| RustLexerSpec.SkipComments | src/kod/lexer/lexer.rs:108-129 | moves exactly when the cursor is on `//` or `/*`, and otherwise leaves it as it is |
| RustLexerSpec.IdentRun | src/kod/lexer/lexer.rs:181-184 | the identifier loop keeps the cursor valid and never moves back |
| RustLexerSpec.CollectIdentifier | src/kod/lexer/lexer.rs:175-195 | `collect_identifier` keeps the cursor valid |
| RustLexerSpec.NumberPrefix | src/kod/lexer/lexer.rs:209-234 | the prefix step keeps at most a `"0"`, and keeps nothing when `0x`, `0b` or `0o` selects a radix |
| RustLexerSpec.DigitRun | src/kod/lexer/lexer.rs:236-248 | the main number loop keeps the cursor valid and never moves back |
| RustLexerSpec.DigitRunShape | src/kod/lexer/lexer.rs:236-248 | the main loop only appends, what it appends is accepted by the radix, and without the `dot` flag it appends no `'.'` |
| RustLexerSpec.FractionRun | src/kod/lexer/lexer.rs:250-257 | the fraction loop keeps the cursor valid and never moves back |
| RustLexerSpec.ParseI64 | src/kod/lexer/lexer.rs:261-270 | `from_str_radix` / `parse` succeed exactly on a non-empty digit text whose value fits in `i64`, and give that value |
| RustLexerSpec.CollectNumber | src/kod/lexer/lexer.rs:197-274 | `collect_number` keeps the cursor valid |
| RustLexerSpec.IntTextIsDigits | src/kod/lexer/lexer.rs:259-270 | without a point, the text handed to the integer parser consists of digits of the selected radix |
| RustLexerSpec.StringBody | src/kod/lexer/lexer.rs:286-314 | the string loop keeps the cursor valid and never moves back |
| RustLexerSpec.CollectString | src/kod/lexer/lexer.rs:276-325 | `collect_string` keeps the cursor valid |
| RustLexerSpec.CollectSymbol | src/kod/lexer/lexer.rs:327-350 | `collect_symbol` keeps the cursor valid |
| RustLexerSpec.NextPass | src/kod/lexer/lexer.rs:48-82 | a pass of the loop of `next` that goes round again has moved the cursor forward |
| RustLexerSpec.Dispatch | src/kod/lexer/lexer.rs:52-79 | a dispatch that goes round again has moved the cursor forward |
| RustLexerSpec.OtherPass | src/kod/lexer/lexer.rs:64-81 | only a symbol that starts a comment sends the loop round again, and then further on |
| RustLexerSpec.Next | src/kod/lexer/lexer.rs:47-83 | `next` terminates and keeps the cursor valid |
| RustLexerSpec.Peek | src/kod/lexer/lexer.rs:86-100 | `peek` keeps the cursor valid |
| RustLexer.Lexer.constructor | src/kod/lexer/lexer.rs:35-44 | the fields start as `RustLexerSpec.Start` |
| RustLexer.Lexer.CanAdvance | src/kod/lexer/lexer.rs:163-165 | `can_advance` holds exactly when the position is inside the text and not on a NUL |
| RustLexer.Lexer.PeekChar | src/kod/lexer/lexer.rs:171-173 | `peek_char(offset)` is the character that far on, or NUL |
| RustLexer.Lexer.Advance | src/kod/lexer/lexer.rs:147-161 | `advance` updates the fields in place as `Advance` says |
| RustLexer.Lexer.SkipWhitespace | src/kod/lexer/lexer.rs:102-106 | the loop ends where `SkipWhitespace` says |
| RustLexer.Lexer.SkipUntilChar | src/kod/lexer/lexer.rs:131-135 | the loop ends where `SkipUntilChar` says |
| RustLexer.Lexer.SkipUntilString | src/kod/lexer/lexer.rs:137-145 | the loop ends where `SkipUntilString` says |
| RustLexer.Lexer.IsStartOfComment | src/kod/lexer/lexer.rs:167-169 | `/` followed by `/` or `*` |
| RustLexer.Lexer.SkipComments | src/kod/lexer/lexer.rs:108-129 | the fields end where `SkipComments` says |
| RustLexer.Lexer.CollectIdentifier | src/kod/lexer/lexer.rs:175-195 | the loop ends with the token and cursor of `CollectIdentifier` |
| RustLexer.Lexer.ScanNumberPrefix | src/kod/lexer/lexer.rs:202-234 | at most one of `is_hex`, `is_bin`, `is_oct` is set, and the flags, text and cursor are those of `NumberPrefix` |
| RustLexer.Lexer.CollectNumber | src/kod/lexer/lexer.rs:197-274 | both loops end with the outcome and cursor of `CollectNumber` |
| RustLexer.Lexer.CollectString | src/kod/lexer/lexer.rs:276-325 | the loop ends with the outcome and cursor of `CollectString` |
| RustLexer.Lexer.CollectSymbol | src/kod/lexer/lexer.rs:327-350 | the outcome and cursor of `CollectSymbol` |
| RustLexer.Lexer.NextPass | src/kod/lexer/lexer.rs:48-82 | one pass of the loop, as `NextPass` says |
| RustLexer.Lexer.Dispatch | src/kod/lexer/lexer.rs:52-79 | the collector the current character picks, as `Dispatch` says |
| RustLexer.Lexer.OtherPass | src/kod/lexer/lexer.rs:64-81 | identifiers, symbols, newlines and the error, as `OtherPass` says |
| RustLexer.Lexer.Next | src/kod/lexer/lexer.rs:47-83 | the loop ends with the outcome and cursor of `Next` |
| RustLexer.Lexer.Peek | src/kod/lexer/lexer.rs:86-100 | the outcome of `next` with the four fields put back, unless `next` panicked |
| RustLexerProps.NextAtEnd | src/kod/lexer/lexer.rs:52-54 | once `ch` is NUL, `next` returns `eof()` and leaves the cursor, so it repeats |
| RustLexerProps.EofOnlyAtEnd | src/kod/lexer/lexer.rs:47-83 | an `EndOfFile` token comes only at the end of the text, and the next call returns it again |
| RustLexerProps.PeekAgreesWithNext | src/kod/lexer/lexer.rs:86-100 | `peek` returns what `next` returns and, unless `next` panics, leaves the cursor where it was |
| RustLexerProps.SymbolTableHasNoEof | src/kod/lexer/token.rs:100-150 | no operator text maps to `EndOfFile` |
| RustLexerProps.LoneNewlineSwallowsNextChar | src/kod/lexer/lexer.rs:75-79 | a lone `'\n'` gives `NewLine` but advances twice, consuming the character after it; the token carries the position after both steps |
| RustLexerProps.CrLfIsOneNewline | src/kod/lexer/lexer.rs:75-79 | `"\r\n"` gives one `NewLine`, stamped at column 0 of the next line |
| RustLexerProps.SkipUntilCharFinds | src/kod/lexer/lexer.rs:131-135 | the search stops on the first occurrence of the character; a search for `'\n'` keeps the line |
| RustLexerProps.SkipUntilStringFinds | src/kod/lexer/lexer.rs:137-145 | the search stops on the first place the pattern starts |
| RustLexerProps.LineCommentSkipped | src/kod/lexer/lexer.rs:117-120 | a line comment is skipped through its newline, so that newline gives no token, and the cursor is at column 0 of the next line |
| RustLexerProps.BlockCommentSkipped | src/kod/lexer/lexer.rs:121-125 | a block comment is skipped through its first closing marker |
| RustLexerProps.OpeningStarCanClose | src/kod/lexer/lexer.rs:121-125 | the search for `*/` starts on the opening `/`, so `/*/` is a whole comment |
| RustLexerProps.EscapedCharStep | src/kod/lexer/lexer.rs:289-310 | an escaped backslash or quote is kept as that character, two places on |
| RustLexerProps.PlainCharStep | src/kod/lexer/lexer.rs:312-313 | a plain character is kept, one place on |
| RustLexerProps.StringBodyOfEscaped | src/kod/lexer/lexer.rs:286-314 | the loop reads an escaped text back to the text and stops on the closing quote |
| RustLexerProps.CollectStringClosed | src/kod/lexer/lexer.rs:316-324 | once the loop stops on the closing quote, the result is a `STRING` token at the opening position, one past that quote |
| RustLexerProps.StringRoundTrip | src/kod/lexer/lexer.rs:276-325 | a quote, an escaped text and the same quote give a `STRING` token holding the text, just past the closing quote |
| RustLexerProps.StringBodyToEnd | src/kod/lexer/lexer.rs:286-314 | without quote, backslash or NUL the loop collects the rest of the text unchanged |
| RustLexerProps.UnterminatedStringError | src/kod/lexer/lexer.rs:316-319 | a literal whose closing quote never comes is `UnterminatedString` carrying everything after the opening quote |
| RustLexerProps.InvalidEscapePanics | src/kod/lexer/lexer.rs:304-307 | a backslash and a character outside the escape table panic |
| RustLexerProps.IdentRunIsMaximal | src/kod/lexer/lexer.rs:181-184 | the identifier loop takes the longest run of letters, digits and `_` |
| RustLexerProps.CollectIdentifierSound | src/kod/lexer/lexer.rs:175-195 | the token is that run at the starting position, `KEYWORD` with its keyword kind exactly for a reserved word and `ID` with `Unknown` otherwise |
| RustLexerProps.KeywordsAreIdentifiers | src/kod/lexer/lexer.rs:362-378 | every reserved word starts with a letter and consists of identifier characters, so `next` reaches `collect_identifier` for it |
| RustLexerProps.CollectSymbolLongestMatch | src/kod/lexer/lexer.rs:327-350 | two characters when they form a table key, else the single character with its kind |
| RustLexerProps.DigitRunStops | src/kod/lexer/lexer.rs:236-239 | the number loop stops on a character it does not accept |
| RustLexerProps.CollectNumberInt | src/kod/lexer/lexer.rs:259-273 | without a point, the digits are parsed in the radix; an empty text or a value beyond `i64` panics in the `unwrap` |
| RustLexerProps.CollectNumberFloat | src/kod/lexer/lexer.rs:250-259 | with a point, the fraction loop finishes a `FLOAT` token |
| RustLexerProps.PlainDecimal | src/kod/lexer/lexer.rs:197-274 | digits without prefix or point, not starting with `0`, are the text, and their value is the payload when it fits |
| RustLexerProps.LoneZero | src/kod/lexer/lexer.rs:209-231 | a lone `0` is an `INT` token `"0"` with value 0 |
| RustLexerProps.DecimalNumberRoundTrip | src/kod/lexer/lexer.rs:197-274 | the decimal rendering of `n` lexes to an `INT` token of value `n` when `n` fits in `i64`, and panics otherwise |
| RustLexerProps.RadixNumber | src/kod/lexer/lexer.rs:209-266 | `0x`, `0b` and `0o` numbers: the prefix is dropped, the digits are read in base 16, 2 or 8, and an empty or too large number panics |
| RustLexerProps.FloatLiteral | src/kod/lexer/lexer.rs:232-257 | digits, a point and digits make a `FLOAT` token holding the literal, with `"0"` put before a leading point; a second point ends it |
| Ast.ToConstants | src/kod/parser/node.rs:585-587 | a tuple's constants, when all convert, are one per element |
| Ast.ToConstantExactlyLiterals | src/kod/parser/node.rs:581-587 | `to_constant` succeeds exactly on integer and string literals and tuples or lists of them, and every such tree is one `is_constant` accepts |
| Ast.ToConstantsExactlyLiterals | src/kod/parser/node.rs:585-587 | the element-wise `to_constant` of a tuple succeeds exactly when every element is a literal tree, and then every element is constant |
| Ast.ConstantOperationHasNoConstant | src/kod/parser/node.rs:392-394 | `is_constant` accepts `1 + 2` while `to_constant` on it panics: being constant does not make a node convertible |
| Ast.TextsOf | src/kod/parser/node.rs:564 | the element texts of a tuple, when all are defined, are one per element |
| Ast.ToStringDefined | src/kod/parser/node.rs:359 | `to_string` returns text exactly when every operator in the tree has a key in the symbol table; otherwise the reverse lookup's `unwrap` panics |
| Ast.TextsOfDefined | src/kod/parser/node.rs:564 | a list of nodes has texts exactly when every operator in every node is named |
| Ast.StatementsTextDefined | src/kod/parser/node.rs:210-218 | a block's text is defined exactly when every operator in every statement is named |
| Ast.Returns | src/kod/parser/node.rs:447-453 | only a `return` statement returns, and a node that returns pushes nothing |
| ParserSpec.Step | src/kod/lexer/lexer.rs:47-83 | one `next` call moves one token on, except at the end of the stream, where the lexer keeps giving end-of-file; `getting_params` is unchanged |
| ParserSpec.NotEndInside | src/kod/lexer/lexer.rs:47-83 | a token other than end-of-file is always inside the stream |
| ParserSpec.PeekToken | src/kod/lexer/lexer.rs:86-100 | `peek()?` succeeds exactly when the lexer gives a token at the current position, returns that token and moves nothing |
| ParserSpec.PeekOrPanic | src/kod/parser/parser.rs:47 | `peek().unwrap()` either returns the current token without moving or panics, and panics exactly on a lexer error |
| ParserSpec.NextToken | src/kod/lexer/lexer.rs:47-83 | `next()?` succeeds exactly on a token, returns it and moves one step |
| ParserSpec.Unexpected | src/kod/parser/parser.rs:172 | `Err(UnexpectedToken(peek().unwrap()))` fails with the current token, or panics when the lexer errs there |
| ParserSpec.Eat | src/kod/parser/parser.rs:37-44 | `eat` succeeds exactly when the next token has the expected kind and then moves one step; on any other token it fails with `UnexpectedTokenExpected` naming that token and the kind |
| ParserSpec.Skip | src/kod/parser/parser.rs:46-53 | `skip_newline_or_semicolon` only moves forward, keeps `getting_params`, never fails (it may panic) and stops at a token that is neither a newline nor `;` |
| ParserSpec.ShiftRight | src/kod/parser/parser.rs:436 | `>>` on an `i64` keeps the sign and does not grow the magnitude |
| ParserSpec.WrapI64 | src/kod/parser/parser.rs:444 | truncation to `i64` leaves a value that already fits unchanged |
| ParserSpec.Ops | src/kod/parser/parser.rs:116-158 | every level has one to four operators, and none of them is `BoolAnd` or `BoolOr`: the two outer levels look for `OR` and `AND` |
| ParserSpec.ParseStatement | src/kod/parser/parser.rs:71-73 | a statement only moves forward; a found statement consumes a token, and a missing one consumes nothing and is at end-of-file or a newline |
| ParserSpec.ParseAssignment | src/kod/parser/parser.rs:75-91 | the same forward-only contract for `parse_assignment` |
| ParserSpec.ParseCommas | src/kod/parser/parser.rs:93-114 | the same forward-only contract for `parse_commas` |
| ParserSpec.CommaLoop | src/kod/parser/parser.rs:93-114 | the comma loop always yields a tuple (not a list) that extends the values collected so far |
| ParserSpec.ParseLevel | src/kod/parser/parser.rs:349-456 | the same forward-only contract at each precedence level |
| ParserSpec.LevelOperand | src/kod/parser/parser.rs:116-158 | the operand of a level obeys the same contract |
| ParserSpec.BinaryLoop | src/kod/parser/parser.rs:352-453 | the operator loop keeps an operand exactly when it had one, moves nothing without one, and with `getting_params` set does nothing at all |
| ParserSpec.ParseBefore | src/kod/parser/parser.rs:160-205 | prefix operators obey the forward-only contract; what a prefix operator yields is stated by `ParserProps.PrefixOperator` and `ParserProps.UnaryFolds` |
| ParserSpec.ParseAfter | src/kod/parser/parser.rs:207-251 | postfix parsing only moves forward, and keeps a value when one is given |
| ParserSpec.Postfix | src/kod/parser/parser.rs:210-248 | the postfix `match` keeps a value when given one, and with none it stays where it is |
| ParserSpec.CallOf | src/kod/parser/parser.rs:211-229 | a call consumes its argument tuple and always yields a node |
| ParserSpec.ParseFactor | src/kod/parser/parser.rs:253-273 | a factor obeys the forward-only contract; none is found only at end-of-file or a newline |
| ParserSpec.ParseId | src/kod/parser/parser.rs:287-289 | `parse_id` succeeds exactly on a token, of any kind, and gives a name of its text one step on |
| ParserSpec.ParseKeyword | src/kod/parser/parser.rs:291-301 | a keyword construct always consumes tokens and yields a node |
| ParserSpec.ParseConditionBlock | src/kod/parser/parser.rs:303-315 | a condition and its block consume tokens |
| ParserSpec.ParseFn | src/kod/parser/parser.rs:317-333 | a function definition consumes tokens and yields a function-definition node |
| ParserSpec.ParseTuple | src/kod/parser/parser.rs:512-526 | a parenthesised body consumes tokens and yields a node, a non-list tuple when a tuple is required; which node is stated by `ParserProps.TupleOrSole` |
| ParserSpec.ParseList | src/kod/parser/parser.rs:528-534 | a list consumes tokens, yields a list tuple and leaves `getting_params` cleared |
| ParserSpec.ParseBlock | src/kod/parser/parser.rs:536-538 | a block consumes tokens |
| ParserSpec.ParseBody | src/kod/parser/parser.rs:458-510 | a successful body starts at the opening delimiter and consumes at least it |
| ParserSpec.BodyLoop | src/kod/parser/parser.rs:474-507 | the body loop succeeds only by consuming a closing delimiter as its last token |
| ParserSpec.Element | src/kod/parser/parser.rs:482-490 | an element of a body always consumes tokens, and exists only where a statement starts (`ParserProps.ElementIsStatement`) |
| ParserSpec.Separator | src/kod/parser/parser.rs:492-506 | the end of a round succeeds only by consuming a closing delimiter as its last token |
| ParserSpec.AfterComma | src/kod/parser/parser.rs:492-500 | after a comma, the rest of the body succeeds only by consuming a closing delimiter as its last token |
| ParserSpec.Parse | src/kod/parser/parser.rs:55-69 | a parsed program is one block, and parsing ends at end-of-file |
| ParserSpec.ParseLoop | src/kod/parser/parser.rs:58-66 | the statement loop keeps the statements collected so far as a prefix and ends at end-of-file |
| Parsing.Parser.constructor | src/kod/parser/parser.rs:30-35 | a new parser stands at the first token with `getting_params` false |
| Parsing.Parser.PeekToken | src/kod/parser/parser.rs:353 | returns what `ParserSpec.PeekToken` gives for the current state and changes nothing |
| Parsing.Parser.PeekOrPanic | src/kod/parser/parser.rs:47 | returns what `ParserSpec.PeekOrPanic` gives for the current state and changes nothing |
| Parsing.Parser.Advance | src/kod/parser/parser.rs:51 | moves the lexer one token on, except at the end |
| Parsing.Parser.Eat | src/kod/parser/parser.rs:37-44 | returns `ParserSpec.Eat` from the state it starts in and moves one step |
| Parsing.Parser.SkipNewlineOrSemicolon | src/kod/parser/parser.rs:46-53 | its loop ends with the outcome of `ParserSpec.Skip` and in the state that outcome carries |
| Parsing.Parser.ParseAll | src/kod/parser/parser.rs:30-69 | a new parser run over a token stream gives the outcome of `ParserSpec.Parse`, so one block ending at end-of-file |
| Parsing.Parser.Parse | src/kod/parser/parser.rs:55-69 | its loop gives the outcome of `ParserSpec.ParseLoop` from no statements, and on success stands where that outcome says |
| Parsing.Parser.ParseStatement | src/kod/parser/parser.rs:71-73 | gives the outcome of `ParserSpec.ParseStatement` from the state it starts in, and on success stands in the state it carries |
| Parsing.Parser.ParseAssignment | src/kod/parser/parser.rs:75-91 | the same, against `ParserSpec.ParseAssignment` |
| Parsing.Parser.ParseCommas | src/kod/parser/parser.rs:93-114 | the same, against `ParserSpec.ParseCommas`, with its loop kept equal to `ParserSpec.CommaLoop` |
| Parsing.Parser.ParseBinaryOp | src/kod/parser/parser.rs:349-456 | the same, against `ParserSpec.ParseLevel` at the given level, with its loop kept equal to `ParserSpec.BinaryLoop` |
| Parsing.Parser.Operand | src/kod/parser/parser.rs:116-158 | the same, against `ParserSpec.LevelOperand` |
| Parsing.Parser.ParseBefore | src/kod/parser/parser.rs:160-205 | the same, against `ParserSpec.ParseBefore` |
| Parsing.Parser.ParseAfter | src/kod/parser/parser.rs:207-251 | the same, against `ParserSpec.ParseAfter` |
| Parsing.Parser.Postfix | src/kod/parser/parser.rs:210-248 | the same, against `ParserSpec.Postfix` |
| Parsing.Parser.CallOf | src/kod/parser/parser.rs:211-229 | the same, against `ParserSpec.CallOf` |
| Parsing.Parser.ParseFactor | src/kod/parser/parser.rs:253-285 | the same, against `ParserSpec.ParseFactor` |
| Parsing.Parser.ParseId | src/kod/parser/parser.rs:287-289 | the same, against `ParserSpec.ParseId` |
| Parsing.Parser.ParseKeyword | src/kod/parser/parser.rs:291-347 | the same, against `ParserSpec.ParseKeyword` |
| Parsing.Parser.ParseConditionBlock | src/kod/parser/parser.rs:303-315 | the same, against `ParserSpec.ParseConditionBlock` |
| Parsing.Parser.ParseFn | src/kod/parser/parser.rs:317-333 | the same, against `ParserSpec.ParseFn`, setting and clearing `getting_params` around the parameters |
| Parsing.Parser.ParseBody | src/kod/parser/parser.rs:458-510 | ends as `ParserSpec.ParseBody` says: the same outcome, and on success the state that outcome carries |
| Parsing.Parser.ParseElements | src/kod/parser/parser.rs:474-507 | the loop of `parse_body` gives `ParserSpec.BodyLoop` from no elements, with the nodes pushed so far in its invariant |
| Parsing.Parser.AfterElement | src/kod/parser/parser.rs:492-506 | ends a round of the loop as `ParserSpec.Separator` says: either the outcome, or the loop state whose continuation equals it |
| Parsing.Parser.AfterComma | src/kod/parser/parser.rs:492-500 | eats the comma and, without a `got_comma` flag, refuses a closing delimiter right after it as an unfinished list, as `ParserSpec.AfterComma` says |
| Parsing.Parser.NextElement | src/kod/parser/parser.rs:482-490 | gives `ParserSpec.Element` from the state it starts in, which is an element only where a statement starts (`ParserProps.ElementIsStatement`) |
| Parsing.Parser.ParseTuple | src/kod/parser/parser.rs:512-526 | the same, against `ParserSpec.ParseTuple` |
| Parsing.Parser.ParseList | src/kod/parser/parser.rs:528-534 | the same, against `ParserSpec.ParseList` |
| Parsing.Parser.ParseBlock | src/kod/parser/parser.rs:536-538 | the same, against `ParserSpec.ParseBlock` |
| ParserProps.BodyLoopAtEnd | src/kod/parser/parser.rs:477-478 | a body that reaches end-of-file fails with `UnexpectedTokenExpected` for the closing delimiter |
| ParserProps.ElementIsStatement | src/kod/parser/parser.rs:482-490 | an element of a body is the statement found after the skipped newlines and `;`, so where no statement starts there is no element |
| ParserProps.TupleOrSole | src/kod/parser/parser.rs:512-526 | parentheses give a tuple of the body's elements, except that one element without a comma, where no tuple is required, is that element itself |
| ParserProps.AllOps | src/kod/parser/parser.rs:116-158 | one set holds the operators of every level |
| ParserProps.StopsInward | src/kod/parser/parser.rs:116-158 | a token that stops a level is not its operator, and also stops every tighter level |
| ParserProps.LevelStops | src/kod/parser/parser.rs:349-456 | unless parameters are being read, a level ends at a token that no level from it inwards takes |
| ParserProps.LoopStops | src/kod/parser/parser.rs:352-453 | the operator loop of a level ends at a token that no level from it inwards takes |
| ParserProps.OuterLevelsNeverConsume | src/kod/parser/parser.rs:116-126 | `parse_bool_or` and `parse_bool_and` parse exactly as `parse_bitwise_or`: the `OR` and `AND` tokens they look for are always taken further in |
| ParserProps.BinaryLoopAtStop | src/kod/parser/parser.rs:353-355 | at a token that is not one of its operators, the loop returns the operand it has and moves nothing |
| ParserProps.BinaryLoopRound | src/kod/parser/parser.rs:357-452 | one round of the loop eats the operator, parses the right operand and combines the two, or panics on a fold overflow |
| ParserProps.AtomBefore | src/kod/parser/parser.rs:160-289 | a literal or name followed by no postfix operator is parsed by `parse_before` as that single node, one step on |
| ParserProps.AtomAtLevel | src/kod/parser/parser.rs:349-456 | at any level, a literal or name followed by a token no level from it inwards takes is that single node |
| ParserProps.AssignmentIsRightAssociative | src/kod/parser/parser.rs:75-91 | after a name and an assignment operator the right side is a whole statement, so `a = b = c` is `a = (b = c)` |
| ParserProps.SubtractionIsLeftAssociative | src/kod/parser/parser.rs:352-453 | `a - b - c` on names parses as `(a - b) - c` |
| ParserProps.OneOperation | src/kod/parser/parser.rs:352-453 | one operator between two literals or names gives their combination, a binary node or a folded literal, or a panic on overflow |
| ParserProps.AdditionFolds | src/kod/parser/parser.rs:365-370 | `x + y` on integer literals becomes the literal `x + y` when it fits in `i64`, and panics otherwise |
| ParserProps.AddCombines | src/kod/parser/parser.rs:365-370 | `+` on two integer literals folds to their sum or overflows |
| ParserProps.NegationFolds | src/kod/parser/parser.rs:183-185 | `-x` on an integer literal becomes the literal `-x`, and panics on the least `i64` |
| ParserProps.NegationOverflows | src/kod/parser/parser.rs:183-185 | unary `-` folds to the negation except on the least `i64`, where it overflows |
| ParserProps.PrefixOperator | src/kod/parser/parser.rs:160-205 | a prefix operator before an operand that parses to `v` gives a unary-operation node on `v` when `v` is no integer literal, and otherwise the literal folded by `FoldUnary`, or a panic when folding overflows |
| ParserProps.UnaryFolds | src/kod/parser/parser.rs:175-189 | on an integer literal, `~` folds to the value whose 64 bits are the complement of the operand's, `!` to 1 exactly for 0 and to 0 otherwise, `-` to the value that adds up to 0 with the operand (overflowing exactly when that leaves `i64`), and `+` to the operand |
| ParserProps.ShiftFolds | src/kod/parser/parser.rs:433-447 | `<<` and `>>` on integer literals fold exactly for amounts 0 to 63 and otherwise overflow; the folded value's 64 bits are the operand's shifted left with zeros in, or right with copies of the sign bit in |
| ParserProps.HalvingShifts | src/kod/parser/parser.rs:433-439 | halving an `i64` `b` times, rounding down, has the bits of its arithmetic shift right by `b` |
| ParserProps.WordDeterminesValue | src/kod/parser/parser.rs:175-189 | two `i64` values with the same 64 bits are equal, so the bit patterns above fix the folded values |
| TwosComplement.Bits | src/kod/parser/parser.rs:175-189 | the low `n` bits of an integer in two's complement, least significant first, are `n` bits |
| TwosComplement.NotBits | src/kod/parser/parser.rs:178 | two integers that add up to -1 are each other's bitwise complement, which is what `!` on an `i64` is |
| TwosComplement.ScaleBits | src/kod/parser/parser.rs:441-447 | multiplying by `2^b` shifts the bits left by `b`, zeros entering at the bottom and the top bits falling off |
| TwosComplement.HalveBits | src/kod/parser/parser.rs:433-439 | halving a number that fits in `n` signed bits, rounding down, shifts its bits right by one with the sign bit copied in |
| TwosComplement.BitsModulo | src/kod/parser/parser.rs:441-447 | adding a multiple of `2^n` leaves the low `n` bits alone, so wrapping to `i64` keeps the bit pattern |
| TwosComplement.SignBit | src/kod/parser/parser.rs:433-439 | the top bit of a number that fits in `n` signed bits is its sign |
| TwosComplement.BitsInjective | src/kod/parser/parser.rs:175-189 | two numbers that fit in `n` signed bits and share their `n` bits are equal |
| TwosComplement.Complement | src/kod/parser/parser.rs:178 | bitwise not flips every bit and keeps the width |
| TwosComplement.ShiftLeft | src/kod/parser/parser.rs:441-447 | `<<` by `b` keeps the width, puts zeros in the bottom `b` bits and moves every other bit up by `b` |
| TwosComplement.ShiftRightArith | src/kod/parser/parser.rs:433-439 | arithmetic `>>` by `b` keeps the width, moves every bit down by `b` and fills the top `b` bits with the sign bit |
| Bytekod.Index | src/kod/compiler/bytekod.rs:158-217 | every opcode's position in the declaration is at most `0x28` |
| Bytekod.Encode | src/kod/compiler/bytekod.rs:219-223 | `encode` gives the opcode's position in the declaration |
| Bytekod.TryFrom | src/kod/compiler/bytekod.rs:225-292 | `try_from` decodes exactly the bytes `0x00..=0x28`, fails with "Unknown opcode" on `0x80..=0xFF` and with "Invalid opcode" in between |
| Bytekod.DecodeEncode | src/kod/compiler/bytekod.rs:219-292 | `try_from(op.encode())` is `Ok(op)` for every opcode |
| Bytekod.EncodeDecode | src/kod/compiler/bytekod.rs:219-292 | a byte `try_from` accepts encodes back to itself |
| Bytekod.EncodeInjective | src/kod/compiler/bytekod.rs:219-223 | two opcodes with the same byte are the same opcode |
| Bytekod.OperandLength | src/kod/compiler/bytekod.rs:23-68 | an opcode is followed by four operand bytes exactly when `print` reads a 32-bit operand after it, and by none otherwise |
| Bytekod.Patched32 | src/kod/compiler/bytekod.rs:119-124 | `patch32` leaves the length and every byte outside the four at the offset unchanged, and writes the value there little-endian |
| Bytekod.ReadAfterEmit32 | src/kod/compiler/bytekod.rs:85-103 | `read32` at the offset `emit32(v)` returned reads `v`, whatever was emitted after |
| Bytekod.TwoInstructions | src/kod/compiler/bytekod.rs:81-103 | two instructions with 32-bit operands after some code keep that code and read back both operands |
| Bytekod.ReadAfterEmit64 | src/kod/compiler/bytekod.rs:87-117 | `read64` at the offset `emit64(v)` returned reads `v` |
| Bytekod.ReadAfterPatch32 | src/kod/compiler/bytekod.rs:95-124 | `read32` at a patched offset reads the patched value |
| Bytekod.ReadBesidePatch32 | src/kod/compiler/bytekod.rs:95-124 | a patch leaves every non-overlapping 4-byte read unchanged |
| Bytekod.PatchTwice | src/kod/compiler/bytekod.rs:119-124 | a second patch at the same offset overrides the first |
| Bytekod.EncodeInstr | src/kod/compiler/bytekod.rs:81-85 | an instruction takes one opcode byte plus its operand length |
| Bytekod.PrependLine | src/kod/compiler/bytekod.rs:15-74 | writing listing lines one by one is writing them all at once |
| Bytekod.ListFromOpcode | src/kod/compiler/bytekod.rs:18-72 | one pass of the `print` loop: an opcode without operand gives a line and moves one byte; one with an operand reads four more bytes, or panics in `read32` when they are cut off |
| Bytekod.ListInstr | src/kod/compiler/bytekod.rs:15-74 | `print` reads an emitted instruction back as its own line and goes on right after it |
| Bytekod.ListAssembled | src/kod/compiler/bytekod.rs:15-74 | round trip: `print` over emitted instructions lists exactly those instructions, each at the offset it was emitted at |
| Bytekod.Code.constructor | src/kod/compiler/bytekod.rs:11-13 | `Code::new` holds the given name, parameters and bytes |
| Bytekod.Code.Emit | src/kod/compiler/bytekod.rs:76-79 | `emit` appends the bytes and returns the offset they start at |
| Bytekod.Code.Emit8 | src/kod/compiler/bytekod.rs:81 | `emit8` appends one byte and returns its offset |
| Bytekod.Code.Emit16 | src/kod/compiler/bytekod.rs:83 | `emit16` appends the word little-endian and returns its offset |
| Bytekod.Code.Emit32 | src/kod/compiler/bytekod.rs:85 | `emit32` appends the value little-endian and returns its offset |
| Bytekod.Code.Emit64 | src/kod/compiler/bytekod.rs:87 | `emit64` appends the value little-endian and returns its offset |
| Bytekod.Code.Read8 | src/kod/compiler/bytekod.rs:89-93 | `read8` returns the byte at the offset and the offset past it, and panics exactly when the offset is past the code |
| Bytekod.Code.Read32 | src/kod/compiler/bytekod.rs:95-103 | `read32` returns the four bytes at the offset as a little-endian value and the offset moved by four, and panics exactly when the four bytes are not all inside the code |
| Bytekod.Code.Read64 | src/kod/compiler/bytekod.rs:105-117 | `read64` returns the eight bytes at the offset as a little-endian value and the offset moved by eight, and panics exactly when the eight bytes are not all inside the code |
| Bytekod.Code.Patch32 | src/kod/compiler/bytekod.rs:119-124 | `patch32` overwrites exactly the four bytes at the offset with the value, and panics exactly when they are not all inside the code |
| Bytekod.Code.Print | src/kod/compiler/bytekod.rs:15-74 | the loop of `print` writes exactly the listing `ListFrom` describes, or ends in the panic it names |
| Bytekod.Module.constructor | src/kod/compiler/bytekod.rs:152-155 | `Module::new` has the name, empty pools and an unnamed, empty, parameterless entry code |
| Objects.TagCode | src/kod/compiler/object.rs:12-17 | a tag's code is its declaration index, at most 2 |
| Objects.TagFrom | src/kod/compiler/object.rs:20-27 | `ObjectTag::from` names a tag exactly for codes 0 to 2 and panics with "Invalid object tag" on any other |
| Objects.New | src/kod/compiler/object.rs:31-33 | `Object::new` puts the tag code in bits 48 and up and the value's low 48 bits below |
| Objects.Encode | src/kod/compiler/object.rs:35-37 | `encode` returns the raw word, from which the object is rebuilt |
| Objects.Value | src/kod/compiler/object.rs:39-41 | `value` is the low 48 bits of the word |
| Objects.Tag | src/kod/compiler/object.rs:43-45 | `tag` succeeds exactly when the top 16 bits hold a code of at most 2 |
| Objects.ValueOfNew | src/kod/compiler/object.rs:31-41 | the payload of a new object is the given value cut to 48 bits, and the value itself when it fits |
| Objects.TagOfNew | src/kod/compiler/object.rs:31-45 | the tag of a new object is the tag it was built with |
| Objects.NewOfParts | src/kod/compiler/object.rs:31-45 | rebuilding an object from its value and tag gives the same word |
| Objects.NewInjective | src/kod/compiler/object.rs:31-33 | two new objects are equal exactly when their tags and 48-bit payloads are |
| RuntimeSpec.StoreName | src/kod/runtime/runtime.rs:138-144 | `store_name` succeeds exactly when the index is inside the table or inside the name pool; the table is then as long as before or resized to the pool's length, holds the word at the index, and keeps every other entry (zero where the resize added it) |
| RuntimeSpec.Resize | src/kod/runtime/runtime.rs:140 | `resize(n, 0)` has length `n`, keeps the entries below the old length and fills the rest with zero |
| RuntimeSpec.LoadName | src/kod/runtime/runtime.rs:146-151 | `load_name` succeeds exactly when the index is inside the table |
| RuntimeSpec.LoadAfterStore | src/kod/runtime/runtime.rs:138-151 | a stored word is loaded back at its index, and every other existing index loads what it held before |
| Runtime.VMObject.constructor | src/kod/runtime/runtime.rs:54-57 | a new object holds `Null` and is unmarked |
| Runtime.MarkedOnlyExact | src/kod/runtime/runtime.rs:89-99 | sweeping keeps exactly the marked objects and adds none |
| Runtime.MarkedOnlyInOrder | src/kod/runtime/runtime.rs:89-99 | sweeping keeps the objects in their original order |
| Runtime.MarkedOnlyIdempotent | src/kod/runtime/runtime.rs:89-99 | sweeping twice keeps what sweeping once kept |
| Runtime.GarbageCollector.constructor | src/kod/runtime/runtime.rs:46-51 | a new collector has no objects and no roots |
| Runtime.GarbageCollector.Allocate | src/kod/runtime/runtime.rs:53-61 | `allocate` appends exactly one fresh unmarked `Null` object at the end, returns it, and leaves the roots alone |
| Runtime.GarbageCollector.AddRoot | src/kod/runtime/runtime.rs:63-65 | `add_root` inserts by identity into the root set, so adding a root twice changes nothing, and leaves the objects alone |
| Runtime.GarbageCollector.MarkRecursive | src/kod/runtime/runtime.rs:82-87 | the object ends marked with its value unchanged, whether or not it was marked before |
| Runtime.GarbageCollector.MarkPhase | src/kod/runtime/runtime.rs:72-80 | every root that is still alive (every listed object is, since the list holds it) ends marked, dead roots keep their mark, no mark is cleared and no value changes |
| Runtime.GarbageCollector.SweepPhase | src/kod/runtime/runtime.rs:89-99 | the object list becomes the marked objects in their order, with marks not cleared and the roots unchanged |
| Runtime.GarbageCollector.Collect | src/kod/runtime/runtime.rs:67-70 | the roots stay the same and the list becomes its marked objects in order; every listed root survives, and every listed object that was unmarked and is no root is gone |
| Runtime.VM.constructor | src/kod/runtime/runtime.rs:129-136 | a new VM holds the module and an empty table of globals |
| Runtime.VM.StoreName | src/kod/runtime/runtime.rs:138-144 | `store_name` returns the object and leaves the table `RuntimeSpec.StoreName` describes, or panics exactly when that says so |
| Runtime.VM.LoadName | src/kod/runtime/runtime.rs:146-151 | `load_name` returns the object whose word is stored at the index, or panics exactly past the table |
| CompileSpec.Find | src/kod/parser/node.rs:608-613 | the pool search gives the first index holding the value, or the pool's length when none does |
| CompileSpec.FindAppended | src/kod/parser/node.rs:621-623 | a value absent from a pool is found at the old length once appended |
| CompileSpec.InternFindsFirst | src/kod/parser/node.rs:608-625 | interning emits the index of the value's first occurrence (cut to 32 bits); the pool only grows, by at most one entry and exactly when the value was absent; it can only panic, in `len() as u32 - 1`, for an absent value when the pool has `2^32 - 1` entries or more |
| CompileSpec.InternIdempotent | src/kod/parser/node.rs:608-625 | interning a value twice adds it once and emits the same operand both times |
| CompileSpec.OpIfMapped | src/kod/parser/node.rs:366-389 | an operator with an opcode emits exactly that opcode byte; one without panics |
| CompileSpec.CallOp | src/kod/parser/node.rs:864-865 | `CALL` panics exactly when `args.len() as u32 + 1` overflows, for a method call on `u32::MAX` truncated arguments |
| CompileSpec.LoadConstant | src/kod/parser/node.rs:607-626 | `LOAD_CONST` leaves the name pool alone and only grows the constant pool and the code |
| CompileSpec.LoadNull | src/kod/parser/node.rs:759-778 | `load_null` leaves the name pool alone and only grows the constant pool and the code |
| CompileSpec.NameOp | src/kod/parser/node.rs:736-752 | `LOAD_NAME`/`STORE_NAME` leave the constant pool alone and only grow the name pool and the code |
| CompileSpec.BinaryOpcodeInverse | src/kod/parser/node.rs:366-387 | the binary operator table is one to one: reading an opcode back as its operator maps to that opcode again |
| CompileSpec.BinaryOpcodeLayout | src/kod/parser/node.rs:366-387 | binary operators compile to the opcodes 12 to 30, which take no operand |
| CompileSpec.UnaryOpcodeInverse | src/kod/parser/node.rs:409-415 | each unary operator compiles to its own opcode among 8 to 11, which takes no operand and gives the operator back |
| CompileSpec.Assign | src/kod/parser/node.rs:281-314 | assigning to a target leaves the constant pool alone and only grows the name pool and the code |
| CompileSpec.AssignAll | src/kod/parser/node.rs:309-311 | assigning to the elements of a tuple in turn keeps the same contract |
| CompileSpec.Push | src/kod/parser/node.rs:330-350 | `push` leaves the constant pool alone and only grows the name pool and the code |
| CompileSpec.Compile | src/kod/parser/node.rs:66-68 | compiling any node only grows the two pools |
| CompileSpec.CompileNode | src/kod/parser/node.rs:228-866 | the dispatch of `compile` on the node's kind only grows the pools |
| CompileSpec.CompileAssignment | src/kod/parser/node.rs:272-279 | `AssignmentNode::compile` only grows the pools |
| CompileSpec.CompileBinary | src/kod/parser/node.rs:362-390 | `BinaryOpNode::compile` only grows the pools |
| CompileSpec.Operand | src/kod/parser/node.rs:362-418 | an operand followed by its opcode only grows the pools |
| CompileSpec.CompileUnary | src/kod/parser/node.rs:406-418 | `UnaryOpNode::compile` only grows the pools |
| CompileSpec.CompileReturn | src/kod/parser/node.rs:434-445 | `ReturnNode::compile` only grows the pools |
| CompileSpec.CompileBlock | src/kod/parser/node.rs:228-265 | `BlockNode::compile` only grows the pools; its code is laid out as `CompileSpec.BlockLayout` states |
| CompileSpec.CompileFuncDef | src/kod/parser/node.rs:780-843 | `FuncDefNode::compile` only grows the pools and only appends to the code it is given, since the body goes into a fresh code; what it appends is stated by `CompileSpec.FuncDefLayout` |
| CompileSpec.CompileCall | src/kod/parser/node.rs:859-866 | `FuncCallNode::compile` only grows the pools |
| CompileSpec.CompileIf | src/kod/parser/node.rs:493-509 | `IfNode::compile` only grows the pools |
| CompileSpec.CompileWhile | src/kod/parser/node.rs:525-546 | `WhileNode::compile` only grows the pools |
| CompileSpec.CompileValue | src/kod/parser/node.rs:275-278 | compiling a value, with `push` after a node that pushes nothing, only grows the pools |
| CompileSpec.Statements | src/kod/parser/node.rs:231-238 | the statement loop only grows the pools; its code is laid out as `CompileSpec.StatementsAppend` and `CompileSpec.StatementsOne` state |
| CompileSpec.CompileAll | src/kod/parser/node.rs:862 | compiling the arguments in turn only grows the pools |
| CompileSpec.BlockEnd | src/kod/parser/node.rs:240-264 | a block's end leaves the names alone and only appends to the constants and the code; what it appends is in `CompileSpec.BlockLayout` |
| CompileSpec.FunctionEnd | src/kod/parser/node.rs:796-798 | a function body's end leaves the names alone and only appends to the constants and the code |
| CompileSpec.PatchExit | src/kod/parser/node.rs:508 | `patch32` succeeds only with all four bytes inside the code, keeps the length and the pools, and keeps every byte before the patch |
| CompileSpec.CloseIf | src/kod/parser/node.rs:508 | the end of an `if` succeeds only after its body compiled, and keeps the body's pools |
| CompileSpec.CloseWhile | src/kod/parser/node.rs:542-545 | the end of a `while` succeeds only after its body compiled, and keeps the body's pools |
| CompileSpec.CompileKeepsCode | src/kod/parser/node.rs:66-866 | compiling a node that compiles no block into the same code leaves what was in the code untouched, as a prefix of the result |
| CompileSpec.CallKeepsCode | src/kod/parser/node.rs:859-866 | the same for a call |
| CompileSpec.IfKeepsCode | src/kod/parser/node.rs:493-509 | the same for an `if`, whose patch lies after the old code |
| CompileSpec.WhileKeepsCode | src/kod/parser/node.rs:525-546 | the same for a `while` |
| CompileSpec.CompileValueKeepsCode | src/kod/parser/node.rs:275-278 | the same for a value with `push` |
| CompileSpec.StatementsKeepCode | src/kod/parser/node.rs:231-238 | the same for a statement loop |
| CompileSpec.CompileAllKeepsCode | src/kod/parser/node.rs:862 | the same for a call's arguments |
| CompileSpec.LoadConstantLayout | src/kod/parser/node.rs:607-626 | `LOAD_CONST` appends the opcode and the index of the constant's first occurrence, which `read32` reads back; the pool grows exactly when the constant is new, and never panics while the pool has room |
| CompileSpec.NameOpLayout | src/kod/parser/node.rs:736-752 | a name instruction appends the opcode and the index of the name's first occurrence, read back by `read32`; the pool grows exactly when the name is new |
| CompileSpec.NullReturnLayout | src/kod/parser/node.rs:759-778 | `load_null` then `RETURN` appends six bytes: `LOAD_CONST` with the index of the first null constant, then `RETURN` |
| CompileSpec.BlockLayout | src/kod/parser/node.rs:228-264 | a block's code does not depend on what the code held before; it always ends in `RETURN`, its own unless the last statement is a `return`; it ends in a load of the first null constant and `RETURN` when the block is empty or its last statement neither returns nor pushes; an empty block compiles to those six bytes alone |
| CompileSpec.LastReturnLayout | src/kod/parser/node.rs:231-238 | statements whose last one is a `return` end in the `RETURN` of that statement |
| CompileSpec.StatementsAppend | src/kod/parser/node.rs:231-238 | the statements are compiled left to right: the code of a first part, with `POP_TOP` after each of its pushing statements, then the rest, where only the very last statement may keep its value |
| CompileSpec.StatementsOne | src/kod/parser/node.rs:231-238 | one statement compiles to its own code followed by `POP_TOP` exactly when it pushes a value that is not kept |
| CompileSpec.FuncDefLayout | src/kod/parser/node.rs:780-843 | a function definition appends ten bytes to the outer code: `LOAD_CONST` of a pool entry holding a code constant with the function's name and parameter texts, then `STORE_NAME` of an entry holding the name; parameters that are not all named panic |
| CompileSpec.LoadThenStore | src/kod/parser/node.rs:823-843 | `LOAD_CONST` of a constant then `STORE_NAME` of a name append ten bytes whose operands read back pool entries holding the two |
| CompileSpec.AssignOnlyTargets | src/kod/parser/node.rs:281-314 | an assignment compiles only when its target is a name assigned with `=` or a tuple of such targets; anything else panics |
| CompileSpec.AssignAllOnlyTargets | src/kod/parser/node.rs:305-311 | the elements of a tuple target must all be targets |
| CompileSpec.BinaryLayout | src/kod/parser/node.rs:362-390 | a binary operation ends with its operator's opcode, and an operator outside the table panics |
| CompileSpec.UnaryLayout | src/kod/parser/node.rs:406-418 | a unary operation ends with its operator's opcode, and an operator outside the table panics |
| CompileSpec.CallLayout | src/kod/parser/node.rs:859-866 | a call ends with `CALL` and the argument count, one more for a method call |
| CompileSpec.CallOpLayout | src/kod/parser/node.rs:864-865 | `CALL` is followed by the argument count, one more when the object is passed |
| CompileSpec.ReturnLayout | src/kod/parser/node.rs:434-445 | a `return` ends with `RETURN` |
| CompileSpec.IfLayout | src/kod/parser/node.rs:493-509 | an `if` is the condition's code, then `POP_JUMP_IF_FALSE` whose patched target is the end of the code |
| CompileSpec.WhileLayout | src/kod/parser/node.rs:525-546 | a `while` is laid out like an `if`, and its code ends with `JUMP` back to where the condition starts |
| CompileSpec.IfCloseExits | src/kod/parser/node.rs:499-508 | the patch of an `if` makes its exit jump target the end of the code |
| CompileSpec.WhileCloseLoops | src/kod/parser/node.rs:533-545 | the patch and jump of a `while` make its exit target the end and its last jump target the start |
| CompileSpec.ExitLayout | src/kod/parser/node.rs:499-508 | after the patch, the exit jump's operand is the code's length |
| CompileSpec.LoopLayout | src/kod/parser/node.rs:542-545 | after the jump back and the patch, the code ends with `JUMP` to the start |
| CompileSpec.JumpLayout | src/kod/parser/node.rs:542-543 | `JUMP` to a target ends the code with that jump |
| CompileSpec.PatchKeepsJump | src/kod/parser/node.rs:545 | patching the exit leaves the final jump back as it was |
| NodeCompile.FindFirst | src/kod/parser/node.rs:608-613 | the search loop gives the first index holding the value, or the length when none does |
| NodeCompile.LastIndex | src/kod/parser/node.rs:623 | `len() as u32 - 1` panics exactly when the length cut to 32 bits is zero, else gives the last index cut to 32 bits |
| NodeCompile.InternConstant | src/kod/parser/node.rs:608-625 | interns into the constant pool as `CompileSpec.Intern` says and leaves the name pool alone |
| NodeCompile.InternName | src/kod/parser/node.rs:737-751 | interns into the name pool as `CompileSpec.Intern` says and leaves the constant pool alone |
| NodeCompile.LoadConstant | src/kod/parser/node.rs:607-626 | leaves the pools and the code as `CompileSpec.LoadConstant` says, and reports a panic exactly where it panics |
| NodeCompile.NameOp | src/kod/parser/node.rs:736-752 | the same, against `CompileSpec.NameOp` |
| NodeCompile.Assign | src/kod/parser/node.rs:272-315 | the same, against `CompileSpec.Assign` |
| NodeCompile.AssignEach | src/kod/parser/node.rs:309-311 | the loop over a tuple target, the same against `CompileSpec.AssignAll` |
| NodeCompile.Push | src/kod/parser/node.rs:330-350 | the same, against `CompileSpec.Push` |
| NodeCompile.Compile | src/kod/parser/node.rs:66-68 | the same, against `CompileSpec.Compile`, for every node |
| NodeCompile.CompileValue | src/kod/parser/node.rs:275-278 | the same, against `CompileSpec.CompileValue` |
| NodeCompile.CompileAssignment | src/kod/parser/node.rs:322-324 | the same, against `CompileSpec.CompileAssignment` |
| NodeCompile.CompileBinary | src/kod/parser/node.rs:362-390 | the same, against `CompileSpec.CompileBinary` |
| NodeCompile.CompileUnary | src/kod/parser/node.rs:406-418 | the same, against `CompileSpec.CompileUnary` |
| NodeCompile.Operand | src/kod/parser/node.rs:363-389 | the same, against `CompileSpec.Operand` |
| NodeCompile.CompileReturn | src/kod/parser/node.rs:434-445 | the same, against `CompileSpec.CompileReturn` |
| NodeCompile.Statements | src/kod/parser/node.rs:231-238 | the statement loop, the same against `CompileSpec.Statements` |
| NodeCompile.CompileEach | src/kod/parser/node.rs:862 | the argument loop, the same against `CompileSpec.CompileAll` |
| NodeCompile.CompileBlock | src/kod/parser/node.rs:228-265 | the same, against `CompileSpec.CompileBlock` |
| NodeCompile.CompileFuncDef | src/kod/parser/node.rs:780-843 | the same, against `CompileSpec.CompileFuncDef` |
| NodeCompile.CompileCall | src/kod/parser/node.rs:859-866 | the same, against `CompileSpec.CompileCall` |
| NodeCompile.CompileIf | src/kod/parser/node.rs:493-509 | the same, against `CompileSpec.CompileIf` |
| NodeCompile.IfBody | src/kod/parser/node.rs:499-508 | the exit jump, the body and the patch, the same against `CompileSpec.CloseIf` |
| NodeCompile.CompileWhile | src/kod/parser/node.rs:525-546 | the same, against `CompileSpec.CompileWhile` |
| NodeCompile.WhileBody | src/kod/parser/node.rs:533-545 | the exit jump, the body, the jump back and the patch, the same against `CompileSpec.CloseWhile` |
| NodeCompile.EmitMapped | src/kod/parser/node.rs:389 | emits the operator's opcode, or reports the panic of an operator without one |
| NodeCompile.EmitCall | src/kod/parser/node.rs:864-865 | emits `CALL` and the count, or reports the overflow panic |
| NodeCompile.EmitExit | src/kod/parser/node.rs:499-500 | emits `POP_JUMP_IF_FALSE` with a zero placeholder and returns the placeholder's offset |
| NodeCompile.JumpBack | src/kod/parser/node.rs:542-545 | emits `JUMP` to the start and patches the exit |
| NodeCompile.PatchExit | src/kod/parser/node.rs:508 | patches the exit operand to the code's length, or reports the index panic |
| AssemblerSpec.ModRmNew | src/kod/compiler/assembler.rs:52-56 | `ModRm::new` puts `mod`, `reg` and `rm`, each cut to its width, in bits 7-6, 5-3 and 2-0 |
| AssemblerSpec.SetMode | src/kod/compiler/assembler.rs:62-64 | `set_mode` replaces bits 7-6 and keeps the other six |
| AssemblerSpec.RexLayout | src/kod/compiler/assembler.rs:104-108 | `Rex::new` on single bits gives the fixed `0100` nibble with W, R, X, B in bits 3 to 0 |
| AssemblerSpec.RexDecodeAsWritten | src/kod/compiler/assembler.rs:114-121 | `decode` as written returns four single bits |
| AssemblerSpec.RexDecodeAsWrittenLosesFields | src/kod/compiler/assembler.rs:114-121 | as written, decoding any REX byte gives `(1, 0, 0, W)`: B, X and R are lost |
| AssemblerSpec.RexDecode | src/kod/compiler/assembler.rs:70-76 | the corrected decode reads B, X, R, W from bits 0 to 3 as the field layout declares |
| AssemblerSpec.RexRoundTrip | src/kod/compiler/assembler.rs:103-121 | the corrected decode undoes `Rex::new` on single bits |
| AssemblerSpec.RexWEncode | src/kod/compiler/assembler.rs:97-100 | `RexW::encode` is a single bit, 1 exactly for `Yes` |
| AssemblerSpec.RegisterIndex | src/kod/compiler/assembler.rs:125-158 | the register enumeration has fewer than 32 members |
| AssemblerSpec.RegisterEncode | src/kod/compiler/assembler.rs:162-182 | `Register::encode` is a 4-bit register number |
| AssemblerSpec.RegisterEncodeIsIndexMod16 | src/kod/compiler/assembler.rs:162-182 | Rn and XMMn share the number n: the encoding is the declaration index modulo 16 |
| AssemblerSpec.ConditionEncode | src/kod/compiler/assembler.rs:226-242 | `Condition::encode` is a 4-bit `tttn` field |
| AssemblerSpec.ConditionCodes | src/kod/compiler/assembler.rs:226-242 | a condition and its opposite differ exactly in the low bit, and the unsigned and parity aliases share their codes |
| AssemblerSpec.ImmediateBytes | src/kod/compiler/assembler.rs:193-199 | `to_le_bytes` gives one, four or eight bytes |
| AssemblerSpec.ImmediateBytesRoundTrip | src/kod/compiler/assembler.rs:193-199 | the bytes have the immediate's width and read back little-endian as its value |
| AssemblerSpec.BaseNumber | src/kod/compiler/assembler.rs:262-268 | a register operand gives its number; a memory base gives its number cut to three bits |
| AssemblerSpec.OffsetOrImmediate | src/kod/compiler/assembler.rs:270-278 | a memory operand gives its offset unchanged |
| AssemblerSpec.SignExtendLowByte | src/kod/compiler/assembler.rs:304-307 | a word fits in eight signed bits exactly when its low byte sign-extends back to it |
| AssemblerSpec.SignExtendLowDword | src/kod/compiler/assembler.rs:309-312 | a word fits in 32 signed bits exactly when its low four bytes sign-extend back to it |
| AssemblerSpec.FitsInI8AsWrittenAcceptsTooSmall | src/kod/compiler/assembler.rs:304-307 | as written, `fits_in_i8` accepts -256, whose low byte sign-extends to 0 |
| AssemblerSpec.FitsCorrectedNarrower | src/kod/compiler/assembler.rs:304-312 | the corrected range checks accept a subset of what the checks as written accept |
| AssemblerSpec.ModRmBytes | src/kod/compiler/assembler.rs:376-405 | `emit_modrm`: register mode for a register; for memory, no displacement at offset 0, one byte for offsets 1 to 126, four bytes otherwise |
| AssemblerSpec.ModRmDisplacement | src/kod/compiler/assembler.rs:376-405 | for an offset that fits in 32 signed bits, the displacement the processor reads back is the offset itself, and the mode is never register mode |
| AssemblerSpec.ModRmRm | src/kod/compiler/assembler.rs:407-420 | `emit_modrm_rm` is one register-mode byte with `reg` from the source's number and `rm` from the destination's |
| AssemblerSpec.ModRmMr | src/kod/compiler/assembler.rs:422-431 | `emit_modrm_mr` starts with a ModR/M byte whose `reg` names the source and whose `rm` and mode name the destination |
| AssemblerSpec.ModRmSlash | src/kod/compiler/assembler.rs:433-436 | `emit_modrm_slash` starts with a ModR/M byte whose `reg` is the opcode extension and whose `rm` and mode name the operand; a register operand takes that byte alone |
| AssemblerSpec.RexForRm | src/kod/compiler/assembler.rs:438-459 | `emit_rex_for_rm` emits nothing exactly when W is clear and both numbers are below 8, and otherwise one REX byte with B set for a high source, R set for a high destination, X clear and W as given |
| AssemblerSpec.RexForMr | src/kod/compiler/assembler.rs:461-482 | `emit_rex_for_mr` emits nothing exactly when W is clear and both numbers are below 8, and otherwise one REX byte with B set for a high destination, R set for a high source, X clear and W as given |
| AssemblerSpec.RexForSlash | src/kod/compiler/assembler.rs:484-500 | `emit_rex_for_slash` emits nothing exactly when W is clear and the number is below 8, and otherwise one REX with B set for a high register |
| AssemblerSpec.MovAsWrittenDropsStore | src/kod/compiler/assembler.rs:502-536 | as written, `mov [rax+8], rax` emits nothing |
| AssemblerSpec.Mov | src/kod/compiler/assembler.rs:502-536 | the corrected `mov` from a general register to a register or memory emits nothing exactly when the destination is that same register |
| AssemblerSpec.MovImmediate | src/kod/compiler/assembler.rs:502-536 | `mov r, 0` becomes `xor` of the register with itself, with no REX.W |
| AssemblerSpec.MovEncodings | src/kod/compiler/assembler.rs:502-536 | a store to memory is `REX.W 89 /r` and at least three bytes; zeroing a low register is exactly `31` and a register-mode ModR/M |
| AssemblerSpec.Push | src/kod/compiler/assembler.rs:573-591 | `push` of a register is `50+r`, with `41` before it for R8 to R15 |
| AssemblerSpec.Pop | src/kod/compiler/assembler.rs:593-603 | `pop` of a register is `58+r`, with `41` before it for R8 to R15 |
| AssemblerSpec.PushImmediateValue | src/kod/compiler/assembler.rs:573-591 | an immediate `push` is `6A ib` or `68 id`, and the processor sign-extends either back to the value pushed |
| AssemblerSpec.PopMatchesPush | src/kod/compiler/assembler.rs:573-603 | `pop` matches `push` of the same register: the same prefix and the opcode with bit 3 set |
| AssemblerSpec.ArithImmediateValue | src/kod/compiler/assembler.rs:623-683 | `sub` and `add` with an immediate are `83 /ext ib` when the value fits in eight signed bits and `81 /ext id` otherwise, and the processor sign-extends the immediate back to the value |
| AssemblerSpec.Inc32 | src/kod/compiler/assembler.rs:685-700 | `inc32` is `FF /0` naming the operand, after its REX |
| AssemblerSpec.Dec32 | src/kod/compiler/assembler.rs:702-717 | `dec32` is `FF /1` naming the operand, after its REX |
| AssemblerSpec.JumpOp | src/kod/compiler/assembler.rs:734-738 | an indirect jump is `FF /4` naming the operand, after its REX |
| AssemblerSpec.SetIf | src/kod/compiler/assembler.rs:752-757 | `set_if` is `0F 90+cc` with the condition's code, then a ModR/M naming the destination |
| AssemblerSpec.MovIf | src/kod/compiler/assembler.rs:759-769 | `mov_if` is four bytes: a REX with W set, `0F 40+cc`, and a register-mode ModR/M with `reg` from the source and `rm` from the destination |
| AssemblerSpec.TestImmediateValue | src/kod/compiler/assembler.rs:771-789 | `test` with an immediate is `F7 /0 id`, and the processor sign-extends the immediate back to the value |
| AssemblerSpec.CmpImmediateValue | src/kod/compiler/assembler.rs:791-826 | `cmp` with an immediate is `83 /7 ib` when the value fits in eight signed bits and `81 /7 id` otherwise, and the processor sign-extends the immediate back to the value |
| AssemblerSpec.Shr | src/kod/compiler/assembler.rs:833-843 | `shr` of a register by a constant is four bytes: a REX with W set, `C1 /5` naming the register, and the count |
| AssemblerSpec.Ret | src/kod/compiler/assembler.rs:542-550 | `ret` is `C3`, or `C2` and the count little-endian |
| AssemblerSpec.Enter | src/kod/compiler/assembler.rs:556-561 | `enter` is `push rbp; mov rbp, rsp` |
| AssemblerSpec.Exit | src/kod/compiler/assembler.rs:563-566 | `exit` is `leave; ret` |
| AssemblerSpec.JumpBytes | src/kod/compiler/assembler.rs:719-732 | a jump is `E9` and a 4-byte displacement |
| AssemblerSpec.JumpIfBytes | src/kod/compiler/assembler.rs:740-745 | a conditional jump is six bytes |
| AssemblerSpec.CallRax | src/kod/compiler/assembler.rs:828-831 | `call_rax` is `FF D0` |
| AssemblerSpec.DisplacementReachesTarget | src/kod/compiler/assembler.rs:343-350 | when the distance fits in 32 signed bits, the displacement `link_jump` writes sign-extends to the label's offset minus the jump's end |
| AssemblerSpec.LinkJump | src/kod/compiler/assembler.rs:343-350 | `link_jump` writes the displacement into the four bytes before the slot end and changes nothing else |
| AssemblerSpec.LinkAll | src/kod/compiler/assembler.rs:338-340 | patching every slot keeps the length of the code |
| AssemblerSpec.LinkAllKeeps | src/kod/compiler/assembler.rs:334-341 | linking a label changes no byte outside its slots |
| AssemblerSpec.LinkAllPatches | src/kod/compiler/assembler.rs:334-341 | after linking, every one of a label's disjoint slots holds its displacement to the label |
| Assembly.AfterJump | src/kod/compiler/assembler.rs:323-328 | recording a jump on a bound label patches its slot at once, and on an unbound one leaves the code alone |
| Assembly.Assembler.constructor | src/kod/compiler/assembler.rs:354-358 | a new assembler has no code |
| Assembly.Assembler.Emit | src/kod/compiler/assembler.rs:360-362 | `emit` appends the bytes |
| Assembly.Assembler.Emit8 | src/kod/compiler/assembler.rs:364 | `emit8` appends one byte |
| Assembly.Assembler.Emit16 | src/kod/compiler/assembler.rs:366 | `emit16` appends the word little-endian |
| Assembly.Assembler.Emit32 | src/kod/compiler/assembler.rs:368-370 | `emit32` appends the value little-endian |
| Assembly.Assembler.Emit64 | src/kod/compiler/assembler.rs:372-374 | `emit64` appends the value little-endian |
| Assembly.Assembler.EmitModRm | src/kod/compiler/assembler.rs:376-405 | appends exactly `AssemblerSpec.ModRmBytes` |
| Assembly.Assembler.EmitModRmRm | src/kod/compiler/assembler.rs:407-420 | appends the ModR/M with `reg` from the source and `rm` from the destination |
| Assembly.Assembler.EmitModRmMr | src/kod/compiler/assembler.rs:422-431 | appends the same fields with the mode taken from the destination |
| Assembly.Assembler.EmitModRmSlash | src/kod/compiler/assembler.rs:433-436 | appends the ModR/M with the opcode extension in `reg` |
| Assembly.Assembler.EmitRexForRm | src/kod/compiler/assembler.rs:438-459 | appends exactly `AssemblerSpec.RexForRm`, whose presence and W, R and B bits that function states |
| Assembly.Assembler.EmitRexForMr | src/kod/compiler/assembler.rs:461-482 | appends exactly `AssemblerSpec.RexForMr`, whose presence and W, R and B bits that function states |
| Assembly.Assembler.EmitRexForSlash | src/kod/compiler/assembler.rs:484-500 | appends exactly `AssemblerSpec.RexForSlash` |
| Assembly.Assembler.Mov | src/kod/compiler/assembler.rs:502-536 | appends exactly the corrected `AssemblerSpec.Mov` |
| Assembly.Assembler.MovImmediate | src/kod/compiler/assembler.rs:518-534 | appends exactly `AssemblerSpec.MovImmediate` |
| Assembly.Assembler.Trap | src/kod/compiler/assembler.rs:538-540 | appends `CC` |
| Assembly.Assembler.Ret | src/kod/compiler/assembler.rs:542-550 | appends exactly `AssemblerSpec.Ret` |
| Assembly.Assembler.Leave | src/kod/compiler/assembler.rs:552-554 | appends `C9` |
| Assembly.Assembler.Enter | src/kod/compiler/assembler.rs:556-561 | appends exactly `AssemblerSpec.Enter` |
| Assembly.Assembler.Exit | src/kod/compiler/assembler.rs:563-566 | appends exactly `AssemblerSpec.Exit` |
| Assembly.Assembler.Push | src/kod/compiler/assembler.rs:573-591 | appends exactly `AssemblerSpec.Push` |
| Assembly.Assembler.Pop | src/kod/compiler/assembler.rs:593-603 | appends exactly `AssemblerSpec.Pop` |
| Assembly.Assembler.PushCalleeSaved | src/kod/compiler/assembler.rs:605-612 | appends the pushes of RBX, RBP, R12, R13, R14, R15 |
| Assembly.Assembler.PopCalleeSaved | src/kod/compiler/assembler.rs:614-621 | appends the pops of the same registers in reverse order |
| Assembly.Assembler.Arith | src/kod/compiler/assembler.rs:623-683 | appends the common form of `sub` and `add` |
| Assembly.Assembler.Sub | src/kod/compiler/assembler.rs:623-652 | appends exactly `AssemblerSpec.Sub` |
| Assembly.Assembler.Add | src/kod/compiler/assembler.rs:654-683 | appends exactly `AssemblerSpec.Add` |
| Assembly.Assembler.Inc32 | src/kod/compiler/assembler.rs:685-700 | appends the increment and, with a label, a conditional jump on overflow whose slot is recorded in the label and patched at once when it is bound |
| Assembly.Assembler.Dec32 | src/kod/compiler/assembler.rs:702-717 | the same for the decrement |
| Assembly.Assembler.Jump | src/kod/compiler/assembler.rs:719-726 | appends a jump and returns a new unbound label whose only slot is that jump's displacement |
| Assembly.Assembler.JumpLabel | src/kod/compiler/assembler.rs:728-732 | appends a jump, records its slot in the label and patches it when the label is bound |
| Assembly.Assembler.JumpOp | src/kod/compiler/assembler.rs:734-738 | appends `FF /4` |
| Assembly.Assembler.JumpIfLabel | src/kod/compiler/assembler.rs:740-745 | appends a conditional jump, records its slot and patches it when the label is bound |
| Assembly.Assembler.EmitJumpIf | src/kod/compiler/assembler.rs:740-744 | appends `0F 80+cc` and the placeholder |
| Assembly.Assembler.JumpIfCmp | src/kod/compiler/assembler.rs:747-750 | appends the comparison, then a conditional jump recorded in the label |
| Assembly.Assembler.SetIf | src/kod/compiler/assembler.rs:752-757 | appends exactly `AssemblerSpec.SetIf` |
| Assembly.Assembler.MovIf | src/kod/compiler/assembler.rs:759-769 | appends exactly `AssemblerSpec.MovIf` |
| Assembly.Assembler.Test | src/kod/compiler/assembler.rs:771-789 | appends exactly `AssemblerSpec.Test` |
| Assembly.Assembler.Cmp | src/kod/compiler/assembler.rs:791-826 | appends exactly `AssemblerSpec.Cmp` |
| Assembly.Assembler.CallRax | src/kod/compiler/assembler.rs:828-831 | appends `FF D0` |
| Assembly.Assembler.Shr | src/kod/compiler/assembler.rs:833-843 | appends exactly `AssemblerSpec.Shr` |
| Assembly.Label.constructor | src/kod/compiler/assembler.rs:316-321 | a new label is unbound with no slots |
| Assembly.Label.AddJump | src/kod/compiler/assembler.rs:323-328 | `add_jump` records the slot and, when the label is bound, patches it at once |
| Assembly.Label.Link | src/kod/compiler/assembler.rs:330-332 | `link` binds the label to the end of the code and patches every slot |
| Assembly.Label.LinkTo | src/kod/compiler/assembler.rs:334-341 | `link_to` binds the label to the offset and patches every recorded slot |
| Assembly.Label.LinkJump | src/kod/compiler/assembler.rs:343-350 | `link_jump` writes exactly `AssemblerSpec.LinkJump` |

## Left out

- Floating point is not modelled: `FloatNode`, the `f64` folding in `parse_binary_op` and `parse_before`, `float_value` in the Rust lexer, and `Constant::Float`. The Rust lexer's `collect_number` still recognises a `FLOAT` token and its text. The parser stops with a `FloatLiteral` outcome as soon as a float literal would be parsed or folded.
- The lexer owned by the parser is represented by the sequence of outcomes its successive `next` calls give, with the end-of-file token repeated past the end. That sequence is not tied to `RustLexerSpec.Next` over a text.
- Integer folding in the parser uses debug-build `i64` semantics: `+`, `-` and `*` that overflow, a negation of the least `i64`, and a shift by 64 or more are panics. A release build would wrap instead, and that is not modelled.
- Driver and I/O code is not modelled: the command-line programs, file reading and the REPL. `Code::print` is modelled as the list of decoded instructions it walks; its console output is not.
- `compiler.rs` is not part of this model: executable memory, calls into generated code and its second `Assembler`. `disassemble_machine_code` (a foreign disassembler) is not part of this model either.
- `VM::run`, `VM::rust_add` and `VM::rust_lt` depend on JIT code and object types that are not in the modelled files, and are not part of this model.
- `object.rs`'s `test` reinterprets a word as machine code to call, and is not modelled.
- Runtime.GarbageCollector.MarkPhase: whether a weak root still upgrades is not modelled as reference counting. The mark phase takes the set of objects that upgrade as a parameter, and requires that it holds every listed object, because the list keeps a strong reference to each. Objects hold no references yet, so `mark_recursive` marks one object.
- Bytekod.Code.Patch32: a patch that runs past the end panics after writing the bytes that fit. The model reports the panic and leaves the code unchanged, since a panic ends the compilation.
- Runtime.GarbageCollector.MarkPhase: the roots are visited in the unspecified order of a hash set, and the contract does not depend on that order.
- RustToken.SymbolText: `get_symbols()` is a `HashMap`, and the reverse lookups of `to_string` take the first key in its iteration order. The model searches the keys in a fixed order and states only that the key found maps back to the kind.
- RustToken.FindSymbolKey: the model does not state that each kind has only one key, so which key is found when two keys share a kind is not claimed.
- The C++ kind tables (`s_symbol_to_type`, `s_keyword_to_type`, `_s_is_symbol`) and `TokenType::UNKNOWN` are used by `Lexer.cpp` but are not declared in `Token.hpp`. They are mirrored from the Rust tables in `token.rs`: the keywords without `fn`, and the same operators. `UNKNOWN` is given the code 56, after the declared kinds.
- The C++ `Token` constructor with a keyword argument, called from `_collect_identifier`, has no declaration in `Token.hpp`. The model builds the token without a keyword field.
- CppLexer.Lexer.GetNextToken: requires that no comment start follows the skipped whitespace. `_skip_comments` is empty, so the `for (;;)` loop never ends there; `CppLexerProps.CommentStartLoopsForever` states that case instead.
- Wide-character and Unicode classification (`iswalpha`, `is_alphanumeric` and the like) is modelled by ASCII predicates. The Rust lexer's byte-indexed slicing agrees with character indexing only on ASCII text.
- `Code`'s parameters are filled in right after `Code::new`; the model folds that into the constructor, and only the bytes change afterwards.
- The compilation of `Access`, `Subscript` and `Tuple` nodes falls back to the trait's default `compile`, and that is modelled as a panic.
- Assembly.Assembler: every `assert!` and `unreachable!` of the encoder, and every operand shape an instruction method does not handle, is a precondition rather than a panic outcome. This covers, for example, a float register compared with memory.
- Assembly.Assembler: the methods use the corrected `mov`, `fits_in_i8` and `fits_in_i32` listed under Findings.
- Label offsets and jump slots are bounded by 2^63, the range in which the source's `as i64` conversions are exact.

## Findings

| source | as written | input that shows it | evidently intended | confidence | as-written member | corrected member |
|---|---|---|---|---|---|---|
| src/kod/compiler/assembler.rs:114-121 | `Rex::decode` reads bits 6, 5, 4 and 3 as B, X, R and W | `Rex::new(0, 1, 1, 1)` decodes to `(1, 0, 0, 1)` | read B, X, R, W from bits 0 to 3, the inverse of `Rex::new` | not executed | AssemblerSpec.RexDecodeAsWrittenLosesFields | AssemblerSpec.RexRoundTrip |
| src/kod/compiler/assembler.rs:503-508 | `mov` emits nothing when the destination's base number equals the source register's, even for a memory destination | `mov [rax+8], rax` emits no bytes, so the store is lost | skip only a register moved onto itself | not executed | AssemblerSpec.MovAsWrittenDropsStore | AssemblerSpec.Mov |
| src/kod/compiler/assembler.rs:304-312 | `fits_in_i8` and `fits_in_i32` test only the upper bound of the signed value | `push -256` takes the `6A ib` form, and the processor pushes 0 | test both bounds of the signed range | not executed | AssemblerSpec.FitsInI8AsWrittenAcceptsTooSmall | AssemblerSpec.PushImmediateValue |
