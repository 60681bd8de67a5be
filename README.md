# A model of the `none` compiler

The compiler translates programs of a tiny statement language
(`do <ops>;`, `for <count> <ops>;`, `write;`) into a C program that drives
a "buffer machine": 512 `int` cells and an `int` pointer. `doCompile`
runs three stages in a row:

- the tokenizer turns the text into tokens;
- the parser cuts the token list at each `;` into statements;
- the code generator turns each statement into a fragment of C text and
  joins the fragments between a fixed preamble and `main`'s epilogue.

The preamble (`BASE_CODE`) defines the C runtime every generated program
carries: `make_buffer`, `clear_buffer`, `write` and `execute`.

The Dafny project models all of this:

| module | file | models |
|---|---|---|
| `Syntax` | `syntax.dfy` | tokens, statements, the program tree, the three errors the pipeline throws, `Result`/`Option` |
| `Lexer` | `lexer.dfy` | the JavaScript character classes and `RegExp.test`, the tokenizer as a function `LexFrom`, and the imperative `Tokenize` proved equal to it |
| `LexerFacts` | `lexer.dfy` | what the tokenizer guarantees: well-formed tokens, a spelling round trip, maximal munch, where an error is reported; also the identifier loop as written |
| `Parser` | `parser.dfy` | `Statements`, the caller's token array as a `TokenList` object, and the imperative `Parse` that splices it |
| `Runtime` | `runtime.dfy` | the C runtime: a `Step`/`Run` semantics of `execute`, and a `Buffer` class over an `array<int>` whose methods are the four C routines |
| `CodeGen` | `codegen.dfy` | the exact preamble text, the fragment of each statement, `GenerateCode`, and the imperative `Generate` |
| `Semantics` | `semantics.dfy` | what the generated `main` does to the buffer, stated through `Runtime.Run` |
| `Compiler` | `compiler.dfy` | `doCompile` as a function and as a method, which stage rejects which program, and a worked example |

Each stage that the source writes as a loop over mutable state is a
method. `Tokenize`, `Parse`, `Generate`, `DoCompile` and the `Buffer`
methods each prove an `ensures` that ties them to a specification
function. The lemmas then prove properties of those functions.

Errors are values. `UnknownIdentifier(text, line)` is the tokenizer's
`Unknown identifier` error. `MissingSemicolon` is the parser's error.
`UndefinedTokenValue` is the `TypeError` JavaScript raises when the
generator reads `.value` of a token that is not there: an empty
statement, `do` without an operand, or `for` with fewer than two.

C undefined behaviour is the state `Runtime.Faulted`. That covers a cell
index outside the array, signed overflow of a cell, of the pointer or of
`cell + 64` in `write`. `Execute` requires a run that does not fault.

The model keeps these behaviours of the code, which a reader might not
expect:
- Tokens carry no line number; only the tokenizer's error does.
- A statement whose first token is not `do`, `for` or `write` is dropped
  silently, with no error.
- Tokens after the operands a statement uses are ignored.
- The parser empties the caller's token array in place.
- `write` with no `;` does not reach the parser: the identifier loop
  never stops (see Findings). The model takes the evidently intended
  behaviour, in which the parser reports the missing `;`.

## Model

| member | source | states |
|---|---|---|
| Lexer.ContainsAt | src/compiler.js:58 | the keyword test `RE_KEYWORDS.test(value)` holds exactly when one of the keywords occurs at some position of the text |
| Lexer.TestAt | src/compiler.js:6-10 | testing a present character with `\d`, `\w` or the operator pattern is membership in its class; testing `undefined` (past the end) succeeds for `\w` only |
| Lexer.RunEnd | src/compiler.js:37-76 | the end of a run lies in the input, every character before it is in the class, and the character at it is not (maximal run) |
| Lexer.RunEndUnique | src/compiler.js:37-76 | any position with those three properties is the run's end |
| Lexer.ScanRun | src/compiler.js:38-43 | the inner loop returns the run's end and exactly the text of the run |
| Lexer.Tokenize | src/compiler.js:13-82 | the cursor/row loop returns what `Lex` gives: the same tokens or the same `Unknown identifier` error |
| LexerFacts.LexWellFormed | src/compiler.js:13-82 | every token is `;`, a digit run, an operator run, or a word run that starts with a non-digit and contains a keyword |
| LexerFacts.LexSpelling | src/compiler.js:13-82 | round trip: the token texts concatenated are the input without white space and unrecognised characters |
| LexerFacts.LexPositions | src/compiler.js:13-82 | each token is the text at its start; each run cannot be extended to the right; only skipped characters lie before, between and after the tokens |
| LexerFacts.TokenStep | src/compiler.js:31-76 | at a character that starts an emitted token, the scan is that token followed by the scan from the end of its run |
| LexerFacts.OkEmits | src/compiler.js:50-64 | when the scan from a significant character succeeds, the token at that character is emitted, not rejected |
| LexerFacts.OkAllEmit | src/compiler.js:50-64 | when the scan succeeds, the token at every token start it passes is emitted: no word run it meets is rejected |
| LexerFacts.LexErrorLocated | src/compiler.js:50-64 | a failing scan reports the FIRST token start whose token is not emitted, with every earlier start emitted: a word run that starts with a non-digit and contains no keyword; the error carries that whole run's text and the starting line plus the line feeds before it |
| LexerFacts.KeywordRule | src/compiler.js:50-64 | from the start: tokenizing succeeds if and only if the token at every token start is emitted; on failure the error names the whole word run at the first token start that is not (a run starting with a non-digit, with no keyword in it) and the line `1 + line feeds before it`; on success every keyword token contains a keyword |
| LexerFacts.WordLoopAsWrittenNeverStops | src/compiler.js:53-56 | the identifier loop as written, on a word run that reaches the end of the input, has not stopped after any number of turns |
| LexerFacts.WordLoopAsWrittenAgrees | src/compiler.js:53-56 | when the run ends before the end of the input, the loop as written stops where `RunEnd` does, with the run's text |
| LexerFacts.WriteAtEndOfInput | src/compiler.js:53-56 | on `write` the loop as written never stops, while the corrected tokenizer gives the one keyword token `write` |
| Parser.FirstPunctuation | src/compiler.js:95-97 | `findIndex` gives -1 exactly when there is no `;` token, and otherwise the index of a `;` with none before it |
| Parser.Parse | src/compiler.js:88-114 | the splice loop returns `ParseTree` of the original list; on success the list is empty, on the error it holds the `;`-free tail left after the last `;` |
| Parser.Spliced | src/compiler.js:103-110 | one turn (slice, push, splice) keeps the loop's two invariants |
| Parser.RestAfterStatement | src/compiler.js:110 | after a splice, what is left is a suffix of the input that follows a `;` |
| Parser.StatementsSucceed | src/compiler.js:94-101 | parsing succeeds exactly when the list is empty or its last token is a `;` |
| Parser.StatementsError | src/compiler.js:99-101 | the only parse error is the missing `;` |
| Parser.StatementsCount | src/compiler.js:94-111 | there is one statement per `;` and no statement contains a `;` |
| Parser.FlattenStatements | src/compiler.js:88-114 | round trip: each statement followed by `;`, concatenated, gives back the token list |
| Parser.StatementsFlatten | src/compiler.js:88-114 | round trip: statements without `;`, flattened and parsed, come back unchanged |
| Runtime.RunFaulted | src/compiler.js:163-192 | once undefined behaviour has happened, the run stays faulted |
| Runtime.RunAppend | src/compiler.js:163-192 | executing `s + t` is executing `s` and then `t` |
| Runtime.PrefixDefined | src/compiler.js:163-192 | a run that does not fault does not fault on any prefix |
| Runtime.StepValid | src/compiler.js:168-190 | one turn of the switch keeps 512 `int` cells and an `int` pointer |
| Runtime.RunValid | src/compiler.js:163-192 | a whole `execute` keeps 512 `int` cells and an `int` pointer |
| Runtime.StepOutput | src/compiler.js:168-190 | one turn of the switch does the same whatever was printed before, and only appends to the output |
| Runtime.RunOutput | src/compiler.js:163-192 | `execute` does the same whatever was printed before, and only appends to the output |
| Runtime.OutputGrows | src/compiler.js:183-185 | what has been printed is never taken back |
| Runtime.MovesOnlyMovePointer | src/compiler.js:171-176 | a string of `>` and `<` leaves the cells and output alone and moves the pointer by `#>` minus `#<` |
| Runtime.OthersDoNothing | src/compiler.js:188-189 | characters other than the six operators do nothing: executing the string is executing its operators alone |
| Runtime.ResetForgets | src/compiler.js:186-187 | after a `,` the cells and pointer no longer depend on anything before it |
| Runtime.ResetThen | src/compiler.js:186-187 | after a `,` the cells and pointer are those of the rest run on a fresh buffer |
| Runtime.Buffer.constructor | src/compiler.js:130-141 | `make_buffer`: a new array of 512 zero cells and pointer 0 |
| Runtime.Buffer.Clear | src/compiler.js:143-151 | `clear_buffer`: pointer 0 and all 512 cells zero |
| Runtime.Buffer.Write | src/compiler.js:153-161 | `write` prints cells `0..pointer` each plus 64, then a newline; only the newline for a negative pointer |
| Runtime.Buffer.Apply | src/compiler.js:169-190 | one case of the switch changes the buffer and prints as `Step` says |
| Runtime.Buffer.Execute | src/compiler.js:163-192 | `execute` leaves the buffer, and prints, what `Run` of the old state gives |
| CodeGen.Translate | src/compiler.js:203-219 | a statement fails exactly when it is empty or lacks an operand its `do`/`for` reads; otherwise it gives a call exactly when its first token is `do`, `for` or `write`, named by that token and with the next tokens as operands |
| CodeGen.Emit | src/compiler.js:203-219 | the three `if`s push the fragment of the statement's call, push nothing for other statements, or fail with the `TypeError` |
| CodeGen.Generate | src/compiler.js:195-226 | the push/join loop returns what `GenerateCode` gives |
| CodeGen.CallsErrorStays | src/compiler.js:202-220 | once a statement has failed, the whole generation fails with that error |
| CodeGen.CallsAppend | src/compiler.js:202-220 | the calls of two statement lists in a row are the calls of each, in order |
| CodeGen.CallsSucceed | src/compiler.js:203-219 | generation succeeds exactly when every statement is well shaped |
| CodeGen.CallsError | src/compiler.js:203-211 | the only generation error is the `TypeError` |
| CodeGen.CallsCount | src/compiler.js:202-220 | there is one call per statement whose first token is `do`, `for` or `write` |
| CodeGen.Dropped | src/compiler.js:203-219 | a well-shaped statement with another first token changes nothing in the output |
| CodeGen.JoinAppend | src/compiler.js:225 | joining two non-empty lists with newlines is joining each and putting a newline between |
| CodeGen.GenerateShape | src/compiler.js:195-226 | the C text is the preamble, `int main(void) {`, the `make_buffer` line, the fragments in statement order, `return 0;` and `}`, separated by newlines |
| Semantics.IterateRepeat | src/compiler.js:213 | the emitted `for` loop of `n` rounds acts as one `execute` of `n` copies of the operand |
| Semantics.EffectIsRun | src/compiler.js:205-219 | each emitted call acts as `execute` of its instructions: `do` as its operand, `for` as the operand repeated and one `>`, `write` as `.` |
| Semantics.EffectsAreRun | src/compiler.js:195-226 | the whole `main` acts as one `execute` of all the statements' instructions in order |
| Semantics.ZeroRounds | src/compiler.js:213 | a `for` with count `0` only advances the pointer |
| Compiler.DoCompile | src/compiler.js:228-245 | `doCompile` returns what `Compile` gives: tokenizer, then parser, then generator, stopping at the first error |
| Compiler.CompileErrors | src/compiler.js:228-245 | the tokenizer's error happens exactly when the scan fails; the missing `;` exactly when the tokens do not end with one; success exactly when they do and every statement is well shaped |
| Compiler.WriteWithoutDelimiter | src/compiler.js:228-245 | `write` without `;` is rejected for its missing `;` |
| Compiler.ExampleTokens | src/compiler.js:13-82 | `for 2 +;write;` gives the tokens `for`, `2`, `+`, `;`, `write`, `;` |
| Compiler.ExampleStatements | src/compiler.js:88-114 | those tokens make the statements `for 2 +` and `write` |
| Compiler.ExampleCalls | src/compiler.js:228-245 | `for 2 +;write;` compiles, to a loop of two `+` and a `write` |
| Compiler.ExampleOutput | src/compiler.js:163-192 | that program's `main` prints `B`, `@` and a newline, leaving cell 0 at 2 and the pointer at 1 |

## Left out

- `src/index.js` is not part of this model. It reads the file, writes the C file, runs `gcc` and removes artefacts, all I/O.
- The logger calls and the `DEBUG` dumps of tokens and tree in `doCompile` are left out. They are I/O and do not change the result.
- Tokens have no `type` string; `Kind` stands for it. The tree's `type: 'Program'` and `type: 'Expression'` tags are left out because they are constant.
- Characters are Unicode scalar values. JavaScript strings are UTF-16 code units, so surrogate pairs are not modelled. The character classes are those of non-Unicode JavaScript regexes: `\d` is `0-9`, `\w` is `[A-Za-z0-9_]`, and `\s` is the JavaScript white-space and line-terminator set.
- Semantics.EffectsAreRun: requires every `for` count to be a decimal numeral with no leading zero that fits in `int` (`IsCount`). How C reads other counts is not modelled: octal and out-of-range counts come from digit runs, and non-numeral counts from any other token after `for` (`for write +;` pastes `i < write`).
- Runtime.Buffer.Write: `printf("%c", …)` converts to `unsigned char`; the model prints the `int` code `cell + 64` without that truncation.
- Runtime.Buffer.Execute: `strlen` stops at the first NUL. The model runs every character of the string, since a token never holds a NUL.
- CodeGen.Render: operand text is pasted into a C string literal as is. The model does not escape or lex the C text, so it does not model how `gcc` reads it.
- LexerFacts.WordLoopAsWritten: the identifier loop as written runs forever at the end of the input. It is modelled with a `fuel` bound on its turns, and `None` stands for "still running when the fuel ran out".
- The C preamble is modelled as text in `CodeGen.BaseCode`. Its four routines are modelled by `Runtime.Buffer`, which the generated text does not link to.
- `Runtime.Buffer.Execute` and `Runtime.Buffer.Write` require runs free of undefined behaviour. Their faulting runs are described only by `Runtime.Step`.

## Findings

| source | as written | input that shows it | evidently intended | confidence | as-written member | corrected member |
|---|---|---|---|---|---|---|
| src/compiler.js:53-56 | the identifier loop tests `program[++current]` even past the end; `/[\w]/.test(undefined)` tests the text "undefined", which matches, so a word run that ends the input never ends: `value` grows by "undefined" each turn and no token is emitted (a real engine would at last stop with a string-length or out-of-memory error) | `write` (no `;`) | the run ends at the end of the input, the keyword token is emitted, and the parser reports the missing `;` | not executed | LexerFacts.WordLoopAsWrittenNeverStops | Lexer.ScanRun |
