# A verified model of the C bytecode pipeline

This project models the bytecode half of the language implementation under
`src/c_vm/src`:

- the on-demand **scanner** (`scanner.c`);
- the single-pass Pratt **compiler** that turns one expression into
  bytecode (`compiler.c`);
- the growable **chunk** of code, lines and constants (`chunk.c`), and its
  **value array** (`values.c`);
- the growth rule of `memory.h`;
- the string keyed, open-addressed **hashtable** (`tools/hashtable.c`);
- the **object** heap with its intrusive list of allocations (`object.c`);
- the **virtual machine** loop (`vm.c`);
- the **disassembler** (`debug.c`);
- the `_max` and `_min` **natives** (`builtin_natives/math.c`), under the
  calling convention of `builtin_natives/natives.h`.

Each file keeps the form of its source. The scanner, parser, chunk, value
array, hashtable, heap and VM are classes whose methods update their fields
in place. Each of those methods is proved against a pure specification
function:

- the scanner's `ScanToken` against `Scan`;
- the parser's methods against `CodeOf`/`Unparse` of the expression tree
  they recognise;
- the VM's `Run` against `Halts`/`Printed`;
- the disassembler's loop against `Walk`.

The properties are proved about those functions, as lemmas.

The main results are:

- `Compiling.Compile`: compilation appends `CodeOf(e) + [OP_RET]` to the
  chunk. It reports at most one error. When it succeeds, `e` is complete
  and well shaped under the precedence table, and `e` spans the whole token
  stream. Every literal of `e` indexes a constant that is in the pool.
  Compiled into an empty chunk, the code halts and prints `e`'s literals.
- `Machine.CompiledRuns`: running that code halts at its OP_RET and prints
  the expression's literals in source order. OP_CONST is the only opcode
  with an effect in `run`.
- `Disassembler.CompiledIsDecodable`: the disassembler walks compiled code
  instruction by instruction and ends on the OP_RET.
- The hashtable methods keep a lookup-map abstraction. `Set` overwrites or
  adds one binding, `Delete` removes one, and growth preserves every
  binding, all under the probing invariant.

Integers that the source keeps in `int` are unbounded here. Doubles are
`real`. The value a C `double` value would print with `%g`, and `strtod`,
are parameters.

## Model

| member | source | states |
|---|---|---|
| Memory.GrowCapacity | src/c_vm/src/memory.h:11-12 | the new capacity is 8 below 8 and doubles from 8 on, so it always exceeds the old one |
| Memory.Reallocate | src/c_vm/src/memory.c:3-21 | the grown buffer is fresh, has the new length and keeps the old contents as its prefix |
| Values.ValueArray.Init | src/c_vm/src/values.c:7-11 | an empty array of the requested capacity |
| Values.ValueArray.Write | src/c_vm/src/values.c:13-24 | the value is appended: contents grow by exactly `value`, and the capacity grows to GrowCapacity exactly when the array was full |
| Values.ValueArray.Destroy | src/c_vm/src/values.c:26-31 | the array is reset to count 0 and capacity 0 |
| Chunks.Chunk.Init | src/c_vm/src/chunk.c:7-13 | no code or lines, the requested capacity, and an empty constant pool of capacity VALUES_ARRAY_INIT_CAP |
| Chunks.Chunk.Write | src/c_vm/src/chunk.c:15-29 | corrected write: byte and line are appended on every call, and the capacity grows to GrowCapacity exactly when full |
| Chunks.Chunk.WriteAsWritten | src/c_vm/src/chunk.c:15-29 | as written: a write into a full chunk grows it but stores nothing; a write with room appends |
| Chunks.Chunk.AddConstant | src/c_vm/src/chunk.c:31-34 | the constant is appended to the pool and its index is the old pool size |
| Chunks.Chunk.Destroy | src/c_vm/src/chunk.c:36-43 | count, capacity and constant pool are reset to empty |
| Objects.WalkVisitsAll | src/c_vm/src/object.c:10-18 | following `next` from the newest of n objects visits all n, newest first |
| Objects.WalkUnchangedByAppend | src/c_vm/src/object.c:14-15 | allocating a new object does not change the chain below an older object |
| Objects.ListEnumeratesAll | src/c_vm/src/object.c:10-18 | the VM's object list holds every allocated object exactly once, newest first |
| Objects.Heap.Init | src/c_vm/src/vm.c:3 | no objects, and an empty object list |
| Objects.Heap.IsObjType | src/c_vm/src/object.c:6-8 | holds exactly for an object value whose object carries the given type tag; never for a non-object |
| Objects.Heap.AllocateObj | src/c_vm/src/object.c:10-18 | the new object gets the requested type, links to the previous list head, and becomes the head |
| Objects.Heap.AllocateString | src/c_vm/src/object.c:37-42 | a new string object holding exactly the given characters and length, at the list head; older objects unchanged |
| Objects.Heap.NewString | src/c_vm/src/object.c:44-46 | the same as allocate_string, without copying |
| Objects.Heap.CopyString | src/c_vm/src/object.c:48-53 | a new string whose characters are the first `length` characters followed by '\0' |
| Scanning.SkipWhitespace | src/c_vm/src/scanner.c:64-84 | stops at the first non-blank character, and the line count grows by the newlines passed |
| Scanning.WhitespaceRun | src/c_vm/src/scanner.c:64-84 | every character skipped is blank |
| Scanning.DigitsEnd | src/c_vm/src/scanner.c:109-119 | stops at the first non-digit, crossing no newline |
| Scanning.DigitsRun | src/c_vm/src/scanner.c:109-119 | every character passed is a digit |
| Scanning.IdentEnd | src/c_vm/src/scanner.c:201-204 | stops at the first character that is neither letter nor digit, crossing no newline |
| Scanning.IdentRun | src/c_vm/src/scanner.c:201-204 | every character passed is a letter or digit |
| Scanning.QuoteEnd | src/c_vm/src/scanner.c:97-107 | stops at the closing quote or at the end of input |
| Scanning.QuoteRun | src/c_vm/src/scanner.c:97-107 | no character passed is a quote or the terminator |
| Scanning.LineEnd | src/c_vm/src/scanner.c:230-235 | a line comment runs to the newline or the end of input, crossing no newline |
| Scanning.NumberEnd | src/c_vm/src/scanner.c:109-119 | a number lexeme ends inside the line it started on |
| Scanning.NoNewlines | src/c_vm/src/scanner.c:64-84 | a stretch without '\n' adds no lines |
| Scanning.IdentifierType | src/c_vm/src/scanner.c:130-199 | the keyword trie never yields an error or end-of-file kind |
| Scanning.ScanString | src/c_vm/src/scanner.c:97-107 | the string token starts at its opening quote and consumes at least that quote |
| Scanning.ScanStringShape | src/c_vm/src/scanner.c:97-107 | a string token spans from its opening quote to its closing quote; the only other outcome is the "Unterminated enless string." error (the source's own text); lines are counted inside the string |
| Scanning.ScanLexeme | src/c_vm/src/scanner.c:210-248 | a token that is not a comment starts at the character found and consumes at least one character |
| Scanning.ScanLexemeLines | src/c_vm/src/scanner.c:15-22 | a token carries the line the scanner reached, counted by the newlines inside it |
| Scanning.ScanLexemeToken | src/c_vm/src/scanner.c:15-40 | a lexeme token is never EOF; an error token carries a non-empty message, any other token points at exactly its source text |
| Scanning.Scan | src/c_vm/src/scanner.c:206-249 | scanning never moves the cursor backwards or past the input |
| Scanning.ScanLines | src/c_vm/src/scanner.c:206-249 | the line after a scan is the old line plus the newlines consumed, and the token carries it |
| Scanning.ScanEof | src/c_vm/src/scanner.c:24-31 | an EOF token is produced only at the end of input, with empty text |
| Scanning.ScanStart | src/c_vm/src/scanner.c:206-212 | every token other than EOF starts at or after the old cursor and is non-empty |
| Scanning.ScanLexemeText | src/c_vm/src/scanner.c:15-40 | an error token has a non-empty static message; any other non-EOF token is exactly the span from `start` to `current` |
| Scanning.ScanAtEnd | src/c_vm/src/scanner.c:208-212 | after blanks, at the end of input, the scan yields EOF on the current line |
| Scanning.ScanRestartsAfterComment | src/c_vm/src/scanner.c:230-235 | corrected comment branch: a "//" comment is skipped to the end of its line and scanning starts again |
| Scanning.ScanOfLexeme | src/c_vm/src/scanner.c:206-249 | after blanks and outside a comment, scanning is the lexeme switch |
| Scanning.Scanner.Init | src/c_vm/src/scanner.c:251-255 | the cursor is at the first character, on line 1 |
| Scanning.Scanner.NextChar | src/c_vm/src/scanner.c:42-45 | returns the current character and advances by one |
| Scanning.Scanner.Match | src/c_vm/src/scanner.c:47-53 | advances by one exactly when the next character is the expected one, and answers whether it did |
| Scanning.Scanner.SkipWhitespaces | src/c_vm/src/scanner.c:64-84 | the cursor and line end where SkipWhitespace says |
| Scanning.Scanner.String | src/c_vm/src/scanner.c:97-107 | returns the token and cursor ScanString defines |
| Scanning.Scanner.Number | src/c_vm/src/scanner.c:109-119 | consumes the number NumberEnd defines and returns a number token over it |
| Scanning.Scanner.Identifier | src/c_vm/src/scanner.c:201-204 | consumes letters and digits and returns the keyword kind or identifier of that text |
| Scanning.Scanner.ScanToken | src/c_vm/src/scanner.c:206-249 | scan_token returns the token, and leaves the cursor, that Scan defines |
| Scanning.Scanner.ScanStep | src/c_vm/src/scanner.c:206-249 | one pass of scan_token: either the token Scan defines, or a comment consumed without changing what Scan answers |
| Scanning.Scanner.SkipLineComment | src/c_vm/src/scanner.c:230-235 | corrected comment loop: advances to the end of the line |
| Scanning.Scanner.LexemeToken | src/c_vm/src/scanner.c:213-248 | the switch on the first character returns what ScanLexeme defines |
| ScannerFacts.CheckKeywordExact | src/c_vm/src/scanner.c:121-128 | check_keyword answers the keyword type or an identifier, and the keyword type exactly when the lexeme is the prefix followed by the rest |
| ScannerFacts.CharacterClasses | src/c_vm/src/scanner.c:86-95 | is_digit holds exactly for the ten decimal digits; is_alpha exactly for the 52 Latin letters and '_', never for a digit |
| ScannerFacts.AtEndWithinText | src/c_vm/src/scanner.c:11-13 | the end of input is the end of the text or its first '\0' |
| ScannerFacts.PeekWithinText | src/c_vm/src/scanner.c:55-57 | peek answers '\0' past the text and otherwise a character of the text at the read position |
| ScannerFacts.PeekNextWithinText | src/c_vm/src/scanner.c:59-62 | peek_next answers '\0' at the end of input and never reads past the terminator |
| ScannerFacts.ScannerPeeks | src/c_vm/src/scanner.c:55-62 | the scanner object's peek and peek_next read its own text at and after the read position, and answer '\0' at the end |
| ScannerFacts.TokenSpellings | src/c_vm/src/scanner.c:15-40 | make_token's lexeme spells the source from the lexeme start to the read position; the EOF token spells nothing; an error token spells its message; each keeps the given type and line |
| ScannerFacts.CheckKeywordHit | src/c_vm/src/scanner.c:121-128 | check_keyword answers a keyword only when the lexeme is exactly the prefix plus the rest |
| ScannerFacts.KeywordEntriesAToIf | src/c_vm/src/scanner.c:130-199 | the keyword table maps and, class, case, continue, else and if to their kinds |
| ScannerFacts.KeywordEntriesNullToSwitch | src/c_vm/src/scanner.c:130-199 | the keyword table maps null, or, print, return, super and switch to their kinds |
| ScannerFacts.KeywordEntriesVarToLet | src/c_vm/src/scanner.c:130-199 | the keyword table maps var, while, default, break and let to their kinds |
| ScannerFacts.KeywordEntriesFalseToTrue | src/c_vm/src/scanner.c:130-199 | the keyword table maps false, for, fun, this and true to their kinds |
| ScannerFacts.KeywordTypesAToIf | src/c_vm/src/scanner.c:130-199 | the trie classifies and, class, case, continue, else and if as keywords |
| ScannerFacts.KeywordTypesNullToSwitch | src/c_vm/src/scanner.c:130-199 | the trie classifies null, or, print, return, super and switch as keywords |
| ScannerFacts.KeywordTypesVarToLet | src/c_vm/src/scanner.c:130-199 | the trie classifies var, while, default, break and let as keywords |
| ScannerFacts.KeywordTypesFalseToTrue | src/c_vm/src/scanner.c:130-199 | the trie classifies false, for, fun, this and true as keywords |
| ScannerFacts.KeywordsRecognised | src/c_vm/src/scanner.c:130-199 | whatever the trie calls a keyword is in the keyword table with that kind (no false positives) |
| ScannerFacts.KeywordsClassified | src/c_vm/src/scanner.c:130-199 | every keyword in the table is recognised by the trie with its kind (no misses) |
| ScannerFacts.KeywordClassification | src/c_vm/src/scanner.c:130-204 | the trie is exactly a lookup in the keyword table, defaulting to identifier |
| ScannerFacts.IdentifierToken | src/c_vm/src/scanner.c:201-204 | an identifier token is the longest run of letters and digits, and its kind is the keyword's or identifier |
| ScannerFacts.NumberToken | src/c_vm/src/scanner.c:109-119 | a number token is digits with at most one '.', ends on a digit, and is not followed by a digit |
| ScannerFacts.OneOrTwoCharToken | src/c_vm/src/scanner.c:237-240 | `!`, `=`, `<`, `>` followed by '=' form the two-character token, otherwise the one-character one |
| ScannerFacts.StringToken | src/c_vm/src/scanner.c:97-107 | a string token runs to the first closing quote; without one the scan stops at the end with the unterminated-string error |
| ScannerFacts.UnexpectedCharacterToken | src/c_vm/src/scanner.c:245-247 | any other character yields the "Unexpected character." error token and consumes one character |
| ScannerFacts.ScanAtEndStays | src/c_vm/src/scanner.c:208-212 | at the end of input, scanning yields EOF and leaves the cursor where it is |
| ScannerFacts.EofIsSticky | src/c_vm/src/scanner.c:208-212 | after EOF has been returned, every further scan returns it again |
| ScannerFacts.TokenSpan | src/c_vm/src/scanner.c:15-22 | a token that is neither EOF nor error lies inside the input, after the old cursor, and is exactly its source text |
| ScannerFacts.SlashAsWritten | src/c_vm/src/scanner.c:230-235 | as written, '/' yields a slash token exactly when the character after next is not '/'; otherwise the loop spins without advancing or the branch falls through with no return |
| ScannerFacts.CommentScannedAsSlash | src/c_vm/src/scanner.c:230-235 | "//x": as written, the first token is a slash; corrected, the comment is skipped and the token is EOF |
| ScannerFacts.SlashSpaceSlashLoops | src/c_vm/src/scanner.c:230-235 | "/ /": as written, the scanner never returns; corrected, the first token is a slash |
| TokenStream.Scanned | src/c_vm/src/compiler.c:238-243 | a bounded scan never moves backwards or past the input, and consumes input unless it is at EOF |
| TokenStream.ScannedIsScan | src/c_vm/src/scanner.c:206-249 | the bounded scan equals Scan |
| TokenStream.NextToken | src/c_vm/src/compiler.c:238-243 | advance's loop yields a token that is never an error, and makes progress unless at EOF |
| TokenStream.NextTokenStream | src/c_vm/src/compiler.c:235-244 | the kinds the parser reads are the next non-error token's kind, followed by the rest, ending at the first EOF |
| CompilerRules.GetRule | src/c_vm/src/compiler.c:123-168 | the rule table: `(` groups, `-` is unary, numbers are literals, `+ - * /` are the binary operators with term/factor precedence, and only they and `or` bind at assignment level or tighter |
| CompilerFacts.TokensShape | src/c_vm/src/compiler.c:235-244 | the token stream the parser reads ends with exactly one EOF and holds no error token |
| CompilerFacts.InfixCallAsWritten | src/c_vm/src/compiler.c:181-185 | as written, the loop calls the operator's infix rule whenever it binds at `prec`, and calls NULL when the table has none |
| CompilerFacts.OrCallsNullInfix | src/c_vm/src/compiler.c:154 | as written, `or` after an operand calls the NULL infix rule at the level of `expression`, and it is the only token that does so |
| CompilerFacts.LeftAssociative | src/c_vm/src/compiler.c:204-207 | operators of equal precedence group to the left |
| CompilerFacts.FactorBindsTighter | src/c_vm/src/compiler.c:149-152 | `*` and `/` bind more tightly than `+` and `-` |
| CompilerFacts.UnaryBindsTightest | src/c_vm/src/compiler.c:188-194 | unary minus never takes a binary operation as its operand |
| ParseSteps.AdvanceStep | src/c_vm/src/compiler.c:235-244 | an advance emits nothing and moves one token kind from the pending stream to the consumed ones |
| ParseSteps.AdvanceStream | src/c_vm/src/compiler.c:235-244 | one advance over a non-EOF token consumes the head of the pending stream and decreases the measure |
| ParseSteps.EmitTrans | src/c_vm/src/compiler.c:98-105 | bytes emitted one after the other concatenate |
| ParseSteps.NoPrefixStep | src/c_vm/src/compiler.c:173-177 | a token with no prefix rule is reported, and the parse still accounts for its code and tokens |
| ParseSteps.UnaryStep | src/c_vm/src/compiler.c:188-202 | unary emits the operand's code followed by OP_NEGATE for '-' |
| ParseSteps.BinaryStep | src/c_vm/src/compiler.c:204-218 | binary emits the right operand parsed one level tighter, then the operator's opcode |
| ParseSteps.GroupStep | src/c_vm/src/compiler.c:220-224 | grouping emits the inner expression's code and consumes the ')' or reports its absence |
| ParseSteps.NumberStep | src/c_vm/src/compiler.c:113-116 | a number literal emits OP_CONST and its index, an index of a constant in the pool |
| ParseSteps.NegateStep | src/c_vm/src/compiler.c:188-202 | the prefix step through '-' recognises a negation |
| ParseSteps.ParenStep | src/c_vm/src/compiler.c:220-224 | the prefix step through '(' recognises a group |
| ParseSteps.ClimbStart | src/c_vm/src/compiler.c:179 | after the prefix expression, the loop invariant of parse_precedence holds |
| ParseSteps.ClimbEnd | src/c_vm/src/compiler.c:181 | when the loop stops, the expression is parsed at `prec` and the next token binds more loosely |
| ParseSteps.InfixStep | src/c_vm/src/compiler.c:181-185 | one turn of the loop with a binary operator extends the expression to the left-nested infix node and keeps the invariant |
| ParseSteps.InfixFollows | src/c_vm/src/compiler.c:181-185 | an infix node's code is its left code, its right code and its opcode, and its tokens are left, operator, right |
| ParseSteps.NoInfixStep | src/c_vm/src/compiler.c:181-185 | corrected `or`: the operator is reported and the loop invariant still holds |
| ParseSteps.CompileStep | src/c_vm/src/compiler.c:246-259 | compile appends the expression's code and OP_RET, reports at most one error, and on success the tree is well shaped and spans all tokens; every literal of the tree indexes a constant of the final pool |
| ParseSteps.CompileOutput | src/c_vm/src/compiler.c:246-259 | compile's code is the expression's code then OP_RET; existing constants are kept; panic mode lets through at most one message |
| ParseSteps.CompileInput | src/c_vm/src/compiler.c:253-255 | when the parse ends at EOF, the tokens consumed followed by EOF are the whole token stream |
| Compiling.LocationOf | src/c_vm/src/compiler.c:35-51 | an error is located at the end exactly for EOF, nowhere exactly for an error token, and otherwise at the lexeme |
| Compiling.Parser.Init | src/c_vm/src/compiler.c:246-251 | the scanner at the start of the source, the target chunk, no error and no messages |
| Compiling.Parser.ErrorAt | src/c_vm/src/compiler.c:35-51 | in panic mode nothing is reported; otherwise exactly one diagnostic is added and the error and panic flags are set |
| Compiling.Parser.ErrorAtPrevious | src/c_vm/src/compiler.c:53-55 | error_at on the previous token |
| Compiling.Parser.ErrorAtCurrent | src/c_vm/src/compiler.c:57-59 | error_at on the current token |
| Compiling.Parser.Advance | src/c_vm/src/compiler.c:235-244 | the current token becomes previous, and the next non-error token becomes current; the parse measure decreases unless at EOF |
| Compiling.Parser.SkipErrorTokens | src/c_vm/src/compiler.c:238-243 | scans until a non-error token, reporting at most one new message |
| Compiling.Parser.Consume | src/c_vm/src/compiler.c:61-68 | advances when the current token has the expected kind, otherwise reports and leaves the token |
| Compiling.Parser.EmitByte | src/c_vm/src/compiler.c:90-92 | appends one byte to the code, tagged with the previous token's line |
| Compiling.Parser.EmitBytes | src/c_vm/src/compiler.c:98-101 | appends two bytes in order, both tagged with the previous token's line |
| Compiling.Parser.MakeConstant | src/c_vm/src/compiler.c:77-85 | the value is added to the pool; the operand is its index, or 0 with "too many constants in one chunk." past 255 |
| Compiling.Parser.EmitConstant | src/c_vm/src/compiler.c:103-105 | appends OP_CONST and the constant's index, and adds the value to the pool |
| Compiling.Parser.EndCompiler | src/c_vm/src/compiler.c:94-96 | appends OP_RET |
| Compiling.Parser.Number | src/c_vm/src/compiler.c:113-116 | the previous token's number, read from its first character on, becomes a constant loaded by OP_CONST |
| Compiling.Parser.Unary | src/c_vm/src/compiler.c:188-202 | parses the operand at unary precedence, then emits the operator's opcode |
| Compiling.Parser.Binary | src/c_vm/src/compiler.c:204-218 | parses the right operand one level tighter, then emits the operator's opcode |
| Compiling.Parser.EmitOperator | src/c_vm/src/compiler.c:209-217 | the switch in binary emits the operator's opcode, and nothing for other tokens |
| Compiling.Parser.Grouping | src/c_vm/src/compiler.c:220-224 | an expression followed by a ')' that is consumed or reported missing |
| Compiling.Parser.Expression | src/c_vm/src/compiler.c:229-231 | an expression parsed at assignment precedence |
| Compiling.Parser.ParsePrecedence | src/c_vm/src/compiler.c:170-186 | emits CodeOf(e) and consumes Unparse(e); without an error, `e` is well shaped, binds at `prec` or tighter, and the next token binds more loosely |
| Compiling.Parser.ParseInfixes | src/c_vm/src/compiler.c:181-185 | the loop of parse_precedence ends with the expression parsed at `prec` |
| Compiling.Parser.ParsePrefix | src/c_vm/src/compiler.c:173-179 | the call through the prefix rule recognises a literal, a negation or a group |
| Compiling.Parser.ParseInfix | src/c_vm/src/compiler.c:182-184 | one loop turn keeps the loop invariant and decreases the measure; for `or` it reports "Expect expression." instead of calling NULL |
| CompilerRules.IndicesBelowGrow | src/c_vm/src/compiler.c:77-85 | the constant pool only grows, so a literal index below the pool's old size stays below its new size |
| Compiling.Compile | src/c_vm/src/compiler.c:246-259 | appends the expression's code then OP_RET; keeps the existing constants; fails exactly when an error was reported, and reports at most one; on success, `e` is well shaped and its tokens followed by EOF are the whole input; every literal of `e` indexes a constant of the pool; compiled into an empty chunk and successful, the code halts under `run` and prints `e`'s literals in order |
| Hashtables.FindEntry | src/c_vm/src/tools/hashtable.c:16-34 | corrected probe: the slot is what Probe defines, that is the key's slot, else the first tombstone before the first empty slot, else that empty slot |
| Hashtables.Hashtable.Init | src/c_vm/src/tools/hashtable.c:5-9 | an empty table of capacity 0 that binds no key |
| Hashtables.Hashtable.Destroy | src/c_vm/src/tools/hashtable.c:11-14 | the table is reset to empty and binds no key |
| Hashtables.Hashtable.Get | src/c_vm/src/tools/hashtable.c:88-96 | found exactly when the table binds the key, and the value is the bound one |
| Hashtables.Hashtable.AdjustCapacity | src/c_vm/src/tools/hashtable.c:36-63 | corrected rebuild: every binding is kept, tombstones are dropped, and count becomes the number of live entries |
| Hashtables.Hashtable.Set | src/c_vm/src/tools/hashtable.c:65-78 | grows first past 3/4 load; the key is bound to the value and every other binding is kept; the answer is whether the key was new; count grows only when a never-used slot is taken |
| Hashtables.Hashtable.Delete | src/c_vm/src/tools/hashtable.c:98-107 | answers whether the key was bound, removes exactly that binding by leaving a tombstone, and keeps count |
| Hashtables.Copy | src/c_vm/src/tools/hashtable.c:80-86 | the target binds every key of the source to the source's value, and keeps its own other bindings |
| Probing.Home | src/c_vm/src/tools/hashtable.c:18 | the home slot lies inside the table |
| Probing.Slot | src/c_vm/src/tools/hashtable.c:31-32 | the d-th probe slot lies inside the table |
| Probing.Dist | src/c_vm/src/tools/hashtable.c:31-32 | the probe distance from home is below the capacity |
| Probing.SlotDist | src/c_vm/src/tools/hashtable.c:31-32 | probe slot and probe distance are inverse |
| Probing.ProbeFrom | src/c_vm/src/tools/hashtable.c:21-33 | the probe loop always answers a slot inside the table |
| Probing.Probe | src/c_vm/src/tools/hashtable.c:16-34 | find_entry always answers a slot inside the table |
| Probing.EmptyAhead | src/c_vm/src/tools/hashtable.c:21-33 | with an empty slot somewhere, the probe meets one before it wraps around |
| Probing.ProbeFromFacts | src/c_vm/src/tools/hashtable.c:21-33 | the probe answers the key's slot, or a free slot when no slot on the probe path holds the key |
| Probing.ProbeFacts | src/c_vm/src/tools/hashtable.c:16-34 | under the probing invariant, the probe finds the key exactly when the table binds it |
| Probing.LookupAt | src/c_vm/src/tools/hashtable.c:88-96 | a slot holding the key gives its binding |
| Probing.UsedBound | src/c_vm/src/tools/hashtable.c:89 | count never exceeds the capacity; below it an empty slot exists; count 0 means all slots are empty |
| Probing.UsedUpdate | src/c_vm/src/tools/hashtable.c:72-75 | overwriting one slot changes the used count only by whether the slot was and is empty |
| Probing.LiveBelowUsed | src/c_vm/src/tools/hashtable.c:36-63 | live entries are at most the used slots, and equal them without tombstones |
| Probing.AllEmptyTable | src/c_vm/src/tools/hashtable.c:38-42 | a table of never-used slots is valid and binds no key |
| Probing.LookupExtend | src/c_vm/src/tools/hashtable.c:88-96 | a lookup over one more slot sees that slot's key or the earlier binding |
| Probing.ChainedUpdate | src/c_vm/src/tools/hashtable.c:72-77 | storing a key in the slot the probe found keeps the probing invariant |
| Probing.InsertFacts | src/c_vm/src/tools/hashtable.c:72-77 | storing at the probed slot binds the key, keeps every other binding and the invariant, and counts one more used slot only for a never-used slot |
| Probing.DeleteFacts | src/c_vm/src/tools/hashtable.c:102-106 | a tombstone at the probed slot removes exactly that binding, keeps the invariant and the used count |
| Probing.RehashStep | src/c_vm/src/tools/hashtable.c:45-56 | re-inserting one live entry into the rebuilt table lands on a never-used slot and extends the bindings by that entry |
| Probing.SkipStep | src/c_vm/src/tools/hashtable.c:45-48 | a free slot of the old table adds no binding and no live entry |
| Probing.FreshKey | src/c_vm/src/tools/hashtable.c:45-56 | a key of the old table does not appear earlier in it |
| Probing.RehashLookup | src/c_vm/src/tools/hashtable.c:45-56 | the rebuilt bindings after one more entry are those of the old table's prefix |
| Probing.CopyStep | src/c_vm/src/tools/hashtable.c:80-86 | after one more slot, the target's bindings are the merge of the copied prefix over its own |
| Probing.ProbeStepAsWritten | src/c_vm/src/tools/hashtable.c:21-33 | as written, a search step that does not return stays at the same index |
| Probing.FindAsWrittenNeverReturns | src/c_vm/src/tools/hashtable.c:21-33 | as written, a home slot holding another key makes find_entry spin forever on it |
| Probing.FindAsWrittenCollision | src/c_vm/src/tools/hashtable.c:21-33 | a concrete collision: as written, the loop never returns; corrected, the probe answers the next slot |
| Probing.AdjustAsWrittenFaults | src/c_vm/src/tools/hashtable.c:45-57 | as written, growing reads past the old slots, and even at equal capacity count exceeds the live entries |
| Machine.Width | src/c_vm/src/vm.c:16-25 | OP_CONST occupies two bytes, every other opcode one |
| Machine.StopAt | src/c_vm/src/vm.c:18-19 | a halting run stops just after an OP_RET, inside the code |
| Machine.VM.Init | src/c_vm/src/vm.c:3 | no chunk, instruction pointer 0, nothing printed |
| Machine.VM.Run | src/c_vm/src/vm.c:5-34 | prints exactly the constants Printed defines, stops where StopAt says, and answers INTERPRET_OK |
| Machine.VM.Interpret | src/c_vm/src/vm.c:36-40 | runs the chunk from its first byte |
| Machine.ThroughTrans | src/c_vm/src/vm.c:9-30 | two stretches of execution compose, and so does their output |
| Machine.PassOver | src/c_vm/src/vm.c:27-28 | an opcode other than OP_RET and OP_CONST is passed over without output |
| Machine.PrintConstant | src/c_vm/src/vm.c:21-25 | OP_CONST prints the constant its operand indexes and moves two bytes on |
| Machine.RunsThrough | src/c_vm/src/vm.c:9-30 | the compiled code of a complete expression, wherever it sits, runs through to its end and prints its literals in order |
| Machine.CompiledRuns | src/c_vm/src/vm.c:5-40 | compiled code with OP_RET halts at its end, and its output is the expression's literals in order |
| Disassembler.CodeOffset | src/c_vm/src/debug.c:3-32 | the listing steps 2 bytes over OP_CONST and 1 otherwise, the same widths the VM uses |
| Disassembler.OneByteName | src/c_vm/src/debug.c:45-81 | names exist only for one-byte opcodes other than OP_RET and OP_NULL |
| Disassembler.DisasmInstr | src/c_vm/src/debug.c:41-96 | corrected decoder: the entry carries offset and line; it lists an operand and constant exactly for OP_CONST, and unknown exactly for unnamed opcodes |
| Disassembler.DisasmInstrAsWritten | src/c_vm/src/debug.c:55-96 | as written: every named one-byte opcode reads the next byte as a constant index, and can read past the code or the pool |
| Disassembler.AsWrittenAgrees | src/c_vm/src/debug.c:45-89 | for OP_RET, OP_CONST and unnamed opcodes the as-written decoder agrees with the corrected one |
| Disassembler.AsWrittenMisdecodes | src/c_vm/src/debug.c:55-81 | for every named one-byte opcode the as-written decoder differs from the corrected one |
| Disassembler.AsWrittenNegateNegate | src/c_vm/src/debug.c:55-81 | for the compiled `--0`, as written, one OP_NEGATE reads past the pool and the other lists a constant |
| Disassembler.WalkOffsets | src/c_vm/src/debug.c:34-39 | the listing starts at the offset, stays in the code, steps by CodeOffset, carries each line, and reaches the end |
| Disassembler.WalkIncreasing | src/c_vm/src/debug.c:36-38 | the listed offsets strictly increase |
| Disassembler.HaltingIsDecodable | src/c_vm/src/debug.c:34-39 | code the VM runs to its last byte is decodable, and its listing ends with that OP_RET |
| Disassembler.CompiledIsDecodable | src/c_vm/src/debug.c:34-39 | compiled code is decodable, and its listing ends with the final OP_RET |
| Disassembler.DisasmChunkCode | src/c_vm/src/debug.c:41-89 | lists the instruction DisasmInstr defines and returns its width |
| Disassembler.DisasmChunk | src/c_vm/src/debug.c:34-39 | the loop lists exactly Walk from offset 0 |
| Disassembler.PrintValue | src/c_vm/src/debug.c:98-108 | booleans print as True/False, null as Null, numbers with the number format, objects as nothing |
| Natives.PickMax | src/c_vm/src/builtin_natives/math.c:8-12 | the result is one of the two numbers and is at least both; it is the first exactly when the first is strictly greater or they are equal values |
| Natives.PickMin | src/c_vm/src/builtin_natives/math.c:22-26 | the result is one of the two numbers and is at most both; it is the first exactly when the first is strictly smaller or they are equal values |
| Natives.MaxMinSplit | src/c_vm/src/builtin_natives/math.c:3-29 | max and min together give back both arguments, and each is symmetric |
| Natives.CallError | src/c_vm/src/builtin_natives/natives.h:12-19 | fails, returns null, and writes a fresh string holding the message (with its terminator counted) into the error slot |
| Natives.Max | src/c_vm/src/builtin_natives/math.c:3-15 | succeeds exactly with two number arguments and answers their max, changing nothing; otherwise fails with the arity or type message |
| Natives.Min | src/c_vm/src/builtin_natives/math.c:17-29 | succeeds exactly with two number arguments and answers their min, changing nothing; otherwise fails with the arity or type message |

## Left out

- Output: the listing layout of `disasm_chunk`, the VM's `printf`, the "[line N] Error" text of `error_at`, and `dump_pass`. The disassembler returns listing entries, the VM collects printed values in `output`, and the parser collects diagnostics.
- `strtod` and `%g` are parameters (`toNumber`, `formatNumber`). Numbers are `real`: no NaN, infinities or rounding.
- `malloc`, `free` and `exit` on allocation failure: allocation always succeeds. `freeObj` and the release half of the `*_destroy` functions are not modelled. `Destroy` reinitialises the structure.
- `main.c`, the `vm_init`/`vm_destroy` stubs beyond initial state, and the tree-walking C++ interpreter are outside this model.
- Opcode byte values are chosen by the model (RET 0, CONST 1, NEGATE 2, …); `chunk.h` is not part of this model.
- Compiling.Parser.EmitOperator, ParseInfixes, ParsePrefix and ParseInfix are pieces of `binary` and `parse_precedence`. Scanning.Scanner.ScanStep, SkipLineComment and LexemeToken are pieces of `scan_token`. They were split out so that each can be verified on its own.
- Hashtables.FindEntry: the loop's exit test is its guard rather than a `return` inside `for (;;)`. The key hash is a function of the table (`hash`), because the string object carries none.
- Hashtables.FindEntry requires a never-used slot: on a full table the source loop would not end; the table's 3/4 load bound guarantees one.
- Hashtables.Hashtable.Get: the C out-parameter is left untouched on a miss; that value is passed in as `previous`.
- Disassembler.DisasmChunk: the chunk `name` and the header line are output only. Its precondition `Decodable` (every OP_CONST has an operand byte and a pool entry) is not checked by the C, which reads past the code otherwise.
- Disassembler.OneByteName: OP_NULL has no case in `disasm_chunk_code`, so it is listed as an unknown opcode, as in the source.
- Compiling.Compile: states that every literal indexes an existing constant, not which number each constant holds (strtod of the literal's text); `toNumber` stays a parameter.
- Hashtables.Copy: requires two distinct tables. Copying a table into itself is accepted by src/c_vm/src/tools/hashtable.c:80-86 but is not modelled: below the load bound it rewrites each binding with its own value, and at the bound src/c_vm/src/tools/hashtable.c:66-68 frees the entry array the copy loop is still reading.
- Natives.Max and Natives.Min: the error slot `args[-1]` is `args[0]` of the model, and the arguments are `args[1..]`.
- Machine.VM.Run requires a chunk that halts (reaches an OP_RET through valid constant indices). The source reads out of bounds otherwise.
- `valueArray_write` in `values.h` has the same dropped-write defect as `chunk_write`; the model follows `values.c`, which stores on every call.

## Findings

| source | as written | input that shows it | evidently intended | confidence | as-written member | corrected member |
|---|---|---|---|---|---|---|
| src/c_vm/src/chunk.c:16-28 | a write into a full chunk grows the buffers but stores neither byte nor line | the first write into a chunk of capacity 0 | grow, then store, as `valueArray_write` in values.c does | not executed | Chunks.Chunk.WriteAsWritten | Chunks.Chunk.Write |
| src/c_vm/src/tools/hashtable.c:21-33 | the probe index is never advanced, so a home slot holding another key loops forever | capacity 8, hash = identity, key 1 stored at slot 1, then looking up key 9 | linear probing to the next slot, wrapping at the capacity | not executed | Probing.FindAsWrittenCollision | Hashtables.FindEntry |
| src/c_vm/src/tools/hashtable.c:45-57 | the rebuild reads old entries up to the new capacity, and count is bumped without being reset | any growth, for example capacity 0 to 8 | read the old capacity's entries and set count to the number of live entries copied | not executed | Probing.AdjustAsWrittenFaults | Hashtables.Hashtable.AdjustCapacity |
| src/c_vm/src/scanner.c:230-235 | the comment test looks one character too far, and the skip loop never advances | "//x" scans as '/', and "/ /" never returns | on "//", skip to the end of the line and scan again | not executed | ScannerFacts.CommentScannedAsSlash | Scanning.Scanner.ScanToken |
| src/c_vm/src/debug.c:55-81 | one-byte opcodes are listed through the constant path, reading the next byte as a constant index | the compiled code of `--0` | list one-byte opcodes by name alone | not executed | Disassembler.AsWrittenNegateNegate | Disassembler.DisasmInstr |
| src/c_vm/src/compiler.c:154 | TOKEN_OR has a precedence but a NULL infix rule, which parse_precedence calls | `1 or 2` | report "Expect expression." at the operator, as for a missing prefix rule | not executed | CompilerFacts.OrCallsNullInfix | Compiling.Parser.ParseInfix |
