# PINS'24 back end and lexer, modelled in Dafny

This project models three parts of the PINS'24 compiler, each with its
state-changing code kept imperative and proved against a functional
specification:

- **The lexical analyser** (`LexAn`), in module `Lexer`. It is a
  character-at-a-time scanner with three parts:
  - a replay buffer: the characters read so far, and an offset into them
    that can step back;
  - a one-token lookahead buffer;
  - line and column tracking, with tab stops every eighth column.

  The reader is a sequence of UTF-16 code units ending in the end-of-file
  mark -1. The scanner sees that sequence behind the start-of-file mark -2.
  - `Lex` says which token, or which error, the scanner produces when it
    stands on a given offset.
  - Every method of class `Lexer.LexAn` is proved to act exactly as that
    definition says (`nextChar`, `stepBack`, `getEndPosition`, `makeToken`,
    `skipToken`, `skipLineComment`, `readCharLexeme`, `consumeNumber`,
    `consumeKeywordOrIdentifier`, the arms of `nextToken`, `peekToken` and
    `takeToken`).

- **The memory organizer** (`Memory.MemoryOrganizer`), in module `Memory`.
  It does four things:
  - computes the call frame of every function;
  - computes the access of every parameter and variable;
  - builds the flat initializer encoding `[count, num, len, vals…, …]`;
  - derives sizes and printed text from that encoding.

  The visitor is class `Memory.MemoryOrganizer`: a stack of per-function
  accumulators and three attribute tables. Its methods are proved to
  produce what the walk functions `DefsWalk`/`StmtsWalk` define. Lemmas
  then prove four layout properties:
  - parameters sit at `FP + 4 + 4i`;
  - locals sit below `FP - 8`, do not overlap and add up to the locals
    size;
  - a frame's depth is its nesting depth;
  - the initializer encoding round-trips.

- **The code generator** (`CodeGen.CodeGenerator.Generator`), in module
  `CodeGen`. Its per-node visitors produce PDM instructions, a code table
  for functions and variables, and a data table for variables. The state
  is a label counter and the two tables, kept as fields of class
  `CodeGen.Generator`. Its methods are proved to produce what `StmtGen`,
  `DefGen` and `ExprCode` define. Lemmas prove further properties:
  - how variables are read (static-link chains);
  - call sequences, with arguments evaluated right to left;
  - mirrored relational operators;
  - the prologue and epilogue agree with the memory layout;
  - the label counter advances by exactly one per `if`, `while` and
    variable;
  - no function's code defines a label twice.

  The segment builders `CodeSegmentGenerator` and `DataSegmentGenerator`
  are modelled in module `Segments`. Lemmas give the exact shape of the
  code segment and the data segment.

Module `Ast` holds the abstract syntax tree the phases walk, with a node
identity per node in place of Java object identity. It also holds the
shared `Result` and `Option` wrappers. Module `Numbers` holds
`Integer.decode`, `Integer.toString` and the decimal text of a label
counter.

The model keeps the following behaviour of the code as it stands:
- A call follows `max(0, caller.depth - callee.depth)` static links
  (`src/pins24/phase/CodeGen.java:237-247`); the code's own TODO at line
  242 notes that a call at equal depth may need one more LOAD.
- `consumeNumber` does not step back (`src/pins24/phase/LexAn.java:284-291`).
  The character after a number is passed over and is part of the
  number's end position (`NumberTokens`).
- The `'` arm of `nextToken` reads the character while it still stands on
  the opening quote (`src/pins24/phase/LexAn.java:137-144`). Only `''` is
  accepted, with lexeme `'` (`CharConstants`).
- `makeToken(symbol)` takes the current character as the lexeme
  (`src/pins24/phase/LexAn.java:358-360`), so `!=`, `>=` and `<=`, made on
  their second character, get the lexeme `=`, and the end-of-file token's
  lexeme is `(char) -1`.
- The `-`, `/` and `%` binary operators emit no instruction
  (`src/pins24/phase/CodeGen.java:505-507`).
- `CALL` carries the caller's frame (`src/pins24/phase/CodeGen.java:256`).

## Model

| member | source | states |
|---|---|---|
| Numbers.NatToStringDigits | src/pins24/phase/CodeGen.java:294-295 | the decimal text of a counter is all digits and starts with `0` only for 0 |
| Numbers.NatToStringInjective | src/pins24/phase/CodeGen.java:294-295 | distinct counters give distinct label texts |
| Numbers.ParseDigitsDefined | src/pins24/phase/Memory.java:362-368 | a digit string has a value in a radix exactly when it is non-empty and all its characters are digits of that radix |
| Numbers.Decode | src/pins24/phase/Memory.java:362-368 | `Integer.decode` yields a 32-bit value or fails |
| Numbers.DecodeNatToString | src/pins24/phase/Memory.java:362-368 | decimal text of a natural in range decodes back to it |
| Numbers.DecodeDecimalText | src/pins24/phase/Memory.java:362-368 | decimal text without a redundant leading zero decodes to its decimal value |
| Numbers.DigitsDecodeNonNegative | src/pins24/phase/Memory.java:362-368 | a string of decimal digits never decodes to a negative value |
| Numbers.DecodeOctalText | src/pins24/phase/Memory.java:362-368 | `0` followed by octal digits decodes to their base-8 value when it fits in 32 bits; `0` followed by text that is not a hexadecimal prefix and holds a non-octal character does not decode |
| Numbers.DecodeLeadingZeroIsOctal | src/pins24/phase/Memory.java:362-368 | example: `017` is read in octal as 15 |
| Numbers.DecodeOctalRejectsEight | src/pins24/phase/Memory.java:362-368 | example: `08` is rejected |
| Memory.DecodeConst | src/pins24/phase/Memory.java:350-371 | a character constant gives the code of its first character (failing on an empty one); a string gives one code per character in order; an integer gives its `Integer.decode` value, else the error "Illegal integer value." at the atom |
| Memory.DecodeInits | src/pins24/phase/Memory.java:330-348 | succeeds exactly when every initializer decodes; the result is the count, then per initializer `num`, the group length and the values; a failure is the first initializer's failure |
| Memory.DecodedGroupsStep | src/pins24/phase/Memory.java:336-345 | one more initializer appends its group, or its failure is the result |
| Memory.PrefixFailure | src/pins24/phase/Memory.java:336-345 | a failure on a prefix of the initializers is the failure of the whole list |
| Memory.EncodeGroupsRoundTrip | src/pins24/phase/Memory.java:330-348 | the flat form tiles into whole groups and reads back as exactly the original groups |
| Memory.GroupsOfRoundTrip | src/pins24/phase/Memory.java:318-328 | any tiling sequence is the flat form of the groups read from it |
| Memory.EncodeHeader | src/pins24/phase/Memory.java:334 | the first word of the encoding is the number of initializers |
| Memory.GetVariableSizeInBytes | src/pins24/phase/Memory.java:318-328 | stepping over the groups by `2 + len` gives Σ `num * len * 4` over the groups of the encoding |
| Memory.EncodedSize | src/pins24/phase/Memory.java:318-328 | the size of a variable's encoding is the sum over its initializers of `num * len * 4` |
| Memory.SizeOfNonNegative | src/pins24/phase/Memory.java:318-328 | with non-negative repetition counts the size is non-negative |
| Memory.DecodedCountsNonNegative | src/pins24/phase/Memory.java:336-339 | counts written as digits, characters or strings never decode to a negative count |
| Memory.InitsToString | src/pins24/phase/Memory.java:128-148 | (corrected) the text is every group expanded `num` times, values in decimal separated by commas, cut with `...` after ten values |
| Memory.PrintGroupAt | src/pins24/phase/Memory.java:132-146 | one turn of the outer loop: the group's copies are printed and the pointer moves past its values, or the text is cut and final |
| Memory.PrintCopies | src/pins24/phase/Memory.java:136-145 | `num` copies of one value group appended to the text, or the final cut text |
| Memory.PrintGroup | src/pins24/phase/Memory.java:138-144 | the values of one group appended one by one, comma-separated, or the final cut text |
| Memory.AsWrittenAgrees | src/pins24/phase/Memory.java:128-148 | as written, the text is the intended one whenever every group has a positive count and some values |
| Memory.AsWrittenSkips | src/pins24/phase/Memory.java:133-137 | as written, a group copied no times leaves the value pointer on its first value |
| Memory.AsWrittenRereadsValues | src/pins24/phase/Memory.java:128-148 | as written, `0 * 7, 5` prints `1` seven times instead of `5` |
| Memory.MemoryOrganizer.constructor | src/pins24/phase/Memory.java:189-197 | the stack and the three attribute tables start empty |
| Memory.MemoryOrganizer.Organize | src/pins24/phase/Memory.java:199-204 | the tables become exactly those of the walk of the top-level definitions at depth 0, or the walk's failure is raised |
| Memory.MemoryOrganizer.VisitDefs | src/pins24/phase/Memory.java:199-204 | a list of definitions visited in order: the tables and innermost locals size are those of `DefsWalk` |
| Memory.MemoryOrganizer.VisitDef | src/pins24/phase/Memory.java:233-283 | one definition: tables and locals size as `DefWalk` says |
| Memory.MemoryOrganizer.VisitVarDef | src/pins24/phase/Memory.java:233-258 | a global gets an absolute access; a local gets offset `-8 - varsSize - size` at the current depth and grows the locals; an undecodable initializer is raised |
| Memory.MemoryOrganizer.PutVarDef | src/pins24/phase/Memory.java:236-255 | the variable's one put and the new locals size, as `VarWalk` says |
| Memory.MemoryOrganizer.PutVarAccess | src/pins24/phase/Memory.java:236-251 | records one variable access and leaves the stack alone |
| Memory.MemoryOrganizer.AddVarsSize | src/pins24/phase/Memory.java:252 | only the innermost accumulator's locals size grows by the variable's size |
| Memory.MemoryOrganizer.VisitParDef | src/pins24/phase/Memory.java:286-305 | a parameter gets offset `parsSize + 4`, size 4, the current depth and no initializers; only the innermost parameter size grows, by 4 |
| Memory.MemoryOrganizer.VisitPars | src/pins24/phase/Memory.java:286-305 | the parameters in order, as `ParsWalk` says |
| Memory.MemoryOrganizer.VisitFunDef | src/pins24/phase/Memory.java:261-283 | a fresh accumulator is pushed and popped; the frame gets depth `d + 1`, parameter size + 4 and locals size + 8; outer locals are untouched |
| Memory.MemoryOrganizer.VisitStmts | src/pins24/phase/Memory.java:308-310 | statements visited in order, as `StmtsWalk` says |
| Memory.MemoryOrganizer.VisitStmt | src/pins24/phase/Memory.java:308-310 | only `let` definitions, also nested in `if` and `while`, lay anything out |
| Memory.ParamLayout | src/pins24/phase/Memory.java:286-305 | parameter `i` sits at `p + 4 + 4i` with size 4 and no initializers; the block grows by 4 per parameter |
| Memory.ParsSize | src/pins24/phase/Memory.java:302 | the parameter block grows by 4 per parameter |
| Memory.VarDefWalkOk | src/pins24/phase/Memory.java:233-258 | a variable whose initializers decode has one put, absolute at depth 0 and FP-relative below the locals otherwise |
| Memory.VarDefWalkLocal | src/pins24/phase/Memory.java:243-253 | a local gets offset `-8 - b - size` and grows the locals by its size |
| Memory.DefKeepsOuterVars | src/pins24/phase/Memory.java:261-283 | a function definition, or any definition at depth 0, leaves the enclosing locals size alone |
| Memory.FunDefWalk | src/pins24/phase/Memory.java:261-283 | a function's walk is its parameters, its body and then its frame, or the body's failure |
| Memory.DefsWalkAppend | src/pins24/phase/Memory.java:199-204 | walking two lists one after the other is walking their concatenation |
| Memory.LocalsOfStmts | src/pins24/phase/Memory.java:243-253 | a body lays out in its own frame exactly the variables it declares, nested functions excluded, and nothing in outer frames |
| Memory.FunDefLocals | src/pins24/phase/Memory.java:261-283 | a nested function lays out nothing in the frames around it and leaves their locals size as it was |
| Memory.LocalsSize | src/pins24/phase/Memory.java:243-253 | a run of locals has one put each, and the locals size grows by the sum of their sizes |
| Memory.LocalAt | src/pins24/phase/Memory.java:243-253 | local `i` gets an FP-relative access at depth `d` with offset `-8 - b` minus the sizes of locals `0..i` |
| Memory.LocalsLayout | src/pins24/phase/Memory.java:243-253 | a whole run of locals laid out one after another |
| Memory.LocalsDisjoint | src/pins24/phase/Memory.java:243-253 | with non-negative sizes every local lies below `FP - 8`, and a later local lies wholly below an earlier one |
| Memory.LexedSizesNonNegative | src/pins24/phase/Memory.java:318-348 | when counts are lexed literals every local has a non-negative size |
| Memory.FunDefFrame | src/pins24/phase/Memory.java:261-283 | a frame's parameter size is `4 + 4 * pars` (≥ 4) and its locals size is `8 +` the sizes of exactly its own variables (≥ 8 with non-negative sizes) |
| Memory.BodyLocalsSize | src/pins24/phase/Memory.java:251-276 | a body's locals size is the sum of its own variables' sizes |
| Memory.OwnLocalPuts | src/pins24/phase/Memory.java:261-276 | the locals a function's walk lays out at its own depth are those of its body's variables, its frame is the last put, and the frame's locals size is `8 +` their total |
| Memory.LocalsInFrame | src/pins24/phase/Memory.java:243-253 | a run of locals starting at size 0 places one local per variable, in order; with non-negative sizes each lies in `[FP - (8 + sizes), FP - 8)` and no two overlap |
| Memory.FunDefOwnLocals | src/pins24/phase/Memory.java:243-276 | a function's own locals are exactly its body's variables, in order; with non-negative sizes each lies within its frame's locals block, between `FP - varsSize` and `FP - 8`, and no two overlap |
| Memory.DepthsOfDefs | src/pins24/phase/Memory.java:264-273 | every function's frame depth is the number of function definitions enclosing it, itself included, listed in the order frames are recorded: a function after the functions nested in it |
| CodeGen.Loads | src/pins24/phase/CodeGen.java:366-372 | `n` LOADs, none for `n <= 0` |
| CodeGen.FrameWalk | src/pins24/phase/CodeGen.java:243-248 | `n` steps of `PUSH -4, ADD, LOAD`, none for `n <= 0` |
| CodeGen.FrameWalkShape | src/pins24/phase/CodeGen.java:243-248 | step `i` of a frame walk is instruction `i % 3` of a step |
| CodeGen.WithoutLastLoad | src/pins24/phase/CodeGen.java:543-552 | the result exists exactly when the list ends in LOAD, and is the list without it |
| CodeGen.Generator.TemporarilyRemoveLastLoad | src/pins24/phase/CodeGen.java:543-552 | drops the trailing LOAD, fails on an empty list ("getLast") or another last instruction |
| CodeGen.AddressOfName | src/pins24/phase/CodeGen.java:335-351 | the address of a name is its value's code without the final LOAD |
| CodeGen.MirroredOperators | src/pins24/phase/CodeGen.java:485-512 | the second operand is pushed first; every operator that emits code, applied to `(y, x)`, computes the source operator on `(x, y)`; `-`, `/` and `%` emit nothing |
| CodeGen.MirrorPairs | src/pins24/phase/CodeGen.java:500-503 | `a >= b` equals `b <= a` and `a > b` equals `b < a` |
| CodeGen.AccessOf | src/pins24/phase/CodeGen.java:353-366 | a name resolves to its parameter's or variable's access, or fails |
| CodeGen.AddressCode | src/pins24/phase/CodeGen.java:366-404 | FP-relative: FP, the static links followed `frame.depth - depth` times, the offset and ADD; absolute: the variable's name |
| CodeGen.VarCode | src/pins24/phase/CodeGen.java:353-407 | the address of a name, then LOAD |
| CodeGen.NonLocalRead | src/pins24/phase/CodeGen.java:353-407 | reading a name `k` levels out is FP, `k` LOADs, its offset, ADD and LOAD |
| CodeGen.CallTail | src/pins24/phase/CodeGen.java:225-259 | after the arguments: FP, the frame walk, the callee's name and CALL with the caller's frame; a callee nested deeper than one level is an internal error |
| CodeGen.ArgsRightToLeft | src/pins24/phase/CodeGen.java:231-235 | the arguments' code is the last argument's code first, down to the first |
| CodeGen.CallCode | src/pins24/phase/CodeGen.java:222-261 | a call's code is the arguments last to first, FP, `caller.depth - callee.depth` frame-walk steps, NAME and CALL |
| CodeGen.CounterOfStmt | src/pins24/phase/CodeGen.java:137 | in `visit(VarDef)`, `visit(IfStmt)` and `visit(WhileStmt)`, the counter advances by exactly one per `if`, `while` and variable generated, and by nothing else |
| CodeGen.CounterOfDefs | src/pins24/phase/CodeGen.java:294-295 | the same for lists of definitions |
| CodeGen.LabelInjective | src/pins24/phase/CodeGen.java:413-416 | two synthesized labels are equal exactly when prefix and counter are |
| CodeGen.OwnLabelsDiffer | src/pins24/phase/CodeGen.java:413-416 | the four labels of one `if` differ, and so do the three of one `while` |
| CodeGen.IfNamesDistinct | src/pins24/phase/CodeGen.java:409-449 | an `if` whose branches drew later counters defines no label twice |
| CodeGen.WhileNamesDistinct | src/pins24/phase/CodeGen.java:514-541 | a `while` whose body drew later counters defines no label twice |
| CodeGen.StmtLabelsDistinct | src/pins24/phase/CodeGen.java:409-541 | a statement's code defines no label twice, and draws only counters from its own range |
| CodeGen.StmtsLabelsDistinct | src/pins24/phase/CodeGen.java:208-215 | the same for a statement list |
| CodeGen.DefsNoLabels | src/pins24/phase/CodeGen.java:200-204 | definitions hand no instruction with a label to their parent |
| CodeGen.FunDefCode | src/pins24/phase/CodeGen.java:169-205 | a function's table code is its label, `PUSH -(varsSize - 8)`, POPN, its body, `PUSH parsSize - 4`, RETN; nothing goes to the parent; no label is defined twice |
| CodeGen.PrologueMatchesLayout | src/pins24/phase/CodeGen.java:187-196 | the prologue reserves exactly the bytes of the function's own variables; the epilogue releases exactly its parameters |
| CodeGen.VarDefData | src/pins24/phase/CodeGen.java:289-333 | a variable draws label `:n` from the counter; its data is the label, one DATA per encoded word, and for a global its name and size |
| CodeGen.Generator.constructor | src/pins24/phase/CodeGen.java:145-153 | counter 0 and empty tables |
| CodeGen.Generator.Generate | src/pins24/phase/CodeGen.java:155-159 | the final counter and tables are those `Generated` defines, or its failure |
| CodeGen.Generator.VisitExpr | src/pins24/phase/CodeGen.java:222-512 | an expression's code is `ExprCode` |
| CodeGen.Generator.VisitAtomExpr | src/pins24/phase/CodeGen.java:264-277 | one PUSH per decoded value, in order |
| CodeGen.Generator.VisitVarExpr | src/pins24/phase/CodeGen.java:353-407 | the code is `VarCode` of the name |
| CodeGen.Generator.VisitCallExpr | src/pins24/phase/CodeGen.java:222-261 | the code is `ExprCode` of the call |
| CodeGen.Generator.VisitArgs | src/pins24/phase/CodeGen.java:231-235 | the arguments' code is `ArgsCode`, the last argument's code first, and the first failing argument's error |
| CodeGen.Generator.StaticLinkCode | src/pins24/phase/CodeGen.java:243-248 | the static-link walk is `FrameWalk(n)`: `n` groups of `PUSH -4, ADD, LOAD`, none when `n <= 0` |
| CodeGen.Generator.VisitUnExpr | src/pins24/phase/CodeGen.java:451-483 | the operand (its address for `^`), then the operator |
| CodeGen.Generator.VisitBinExpr | src/pins24/phase/CodeGen.java:485-512 | the second operand, the first, then the mirrored operator |
| CodeGen.Generator.VisitStmt | src/pins24/phase/CodeGen.java:335-351 | for an expression, `let` or assignment statement, code, counter and tables are those `StmtGen` gives |
| CodeGen.Generator.VisitIfStmt | src/pins24/phase/CodeGen.java:409-449 | one counter value for its four labels; the code is as `StmtGen` gives |
| CodeGen.Generator.VisitWhileStmt | src/pins24/phase/CodeGen.java:514-541 | one counter value for its three labels; the code is as `StmtGen` gives |
| CodeGen.Generator.VisitStmts | src/pins24/phase/CodeGen.java:208-215 | statements in order, their code concatenated |
| CodeGen.Generator.VisitDefs | src/pins24/phase/CodeGen.java:208-215 | definitions in order |
| CodeGen.Generator.VisitDef | src/pins24/phase/CodeGen.java:169-205 | one function or variable definition, as `DefGen` gives |
| CodeGen.Generator.VisitFunDef | src/pins24/phase/CodeGen.java:169-205 | the function's code goes to the code table; a locals size below 8 is an internal error |
| CodeGen.Generator.DataBlock | src/pins24/phase/CodeGen.java:296-302 | the data label, then one DATA per encoded word |
| CodeGen.Generator.VisitVarDef | src/pins24/phase/CodeGen.java:289-333 | draws the data label, records the data block and the code copying it to the variable |
| Segments.CodeSegmentLayout | src/pins24/phase/CodeGen.java:593-645 | the code segment is the globals' initializing code in tree order, the stub calling `main` with the last `main` frame, then the code of every function with a body in preorder |
| Segments.DefSegOrder | src/pins24/phase/CodeGen.java:617-645 | one definition adds exactly its functions' code, its globals' code, and updates `main` |
| Segments.DefDataOrder | src/pins24/phase/CodeGen.java:695-709 | when no atom carries data, the data segment is every variable's data block in tree order |
| Segments.DefsGenData | src/pins24/phase/CodeGen.java:328 | generating a list of definitions adds data-table entries only for the variables they define |
| Segments.GeneratedDataKeys | src/pins24/phase/CodeGen.java:328 | every entry of the generated data table is keyed by a variable definition of the program |
| Segments.GeneratedDataOrder | src/pins24/phase/CodeGen.java:680-709 | for the generated tables, when no atom shares its node id with a variable definition, the data segment is every variable's data block in tree order |
| Segments.CodeSegmentGenerator.constructor | src/pins24/phase/CodeGen.java:584-586 | empty segments and no `main` |
| Segments.CodeSegmentGenerator.CodeSegment | src/pins24/phase/CodeGen.java:593-605 | the segment is `CodeSegmentOf` of the program |
| Segments.CodeSegmentGenerator.VisitDef | src/pins24/phase/CodeGen.java:617-645 | a function with a body adds its code; a global adds its code; a local adds nothing |
| Segments.DataSegmentGenerator.constructor | src/pins24/phase/CodeGen.java:671-673 | an empty data segment |
| Segments.DataSegmentGenerator.DataSegment | src/pins24/phase/CodeGen.java:680-683 | the segment is the data of every node that has some, in tree order |
| Segments.DataSegmentGenerator.AddData | src/pins24/phase/CodeGen.java:694-707 | appends a node's data when it has some |
| Segments.DataSegmentGenerator.VisitDef | src/pins24/phase/CodeGen.java:695-701 | a variable's data, then its initializers' atoms |
| Segments.Segments | src/pins24/phase/CodeGen.java:593-605 | both segments from fresh generators |
| Lexer.JavaChar | src/pins24/phase/LexAn.java:359 | `(char) c` is the code unit itself for a code unit |
| Lexer.TextOfInput | src/pins24/phase/LexAn.java:35-42 | the start mark in front of the input gives a well-formed text |
| Lexer.LexAn.constructor | src/pins24/phase/LexAn.java:35-42 | the buffer holds the start mark at offset 0, and no token is buffered |
| Lexer.LexAn.CurrentChar | src/pins24/phase/LexAn.java:92-94 | the buffer at the offset holds the text there |
| Lexer.LexAn.NextChar | src/pins24/phase/LexAn.java:76-90 | stays at the end mark; otherwise moves one on, replaying or reading one character |
| Lexer.LexAn.StepBack | src/pins24/phase/LexAn.java:96-98 | the offset moves one back and nothing else changes |
| Lexer.LexAn.GetEndPosition | src/pins24/phase/LexAn.java:335-356 | the position after the current character: a newline starts a new line, a tab goes to the next tab stop, the marks count nothing |
| Lexer.TabStopSpec | src/pins24/phase/LexAn.java:345-350 | a tab lands one past the first multiple of 8 at or after the column |
| Lexer.AdvanceForward | src/pins24/phase/LexAn.java:335-356 | positions only move forward |
| Lexer.LexAn.MakeLexemeToken | src/pins24/phase/LexAn.java:370-381 | the token spans the start position to the one after the current character; the next token starts after it |
| Lexer.LexAn.MakeToken | src/pins24/phase/LexAn.java:358-360 | the lexeme is the current character |
| Lexer.LexAn.SkipToken | src/pins24/phase/LexAn.java:362-368 | the next token starts after the current character, which is passed |
| Lexer.LexAn.SkipLineComment | src/pins24/phase/LexAn.java:244-248 | every character up to a newline or the end mark is skipped |
| Lexer.LexAn.UnexpectedTokenError | src/pins24/phase/LexAn.java:318-333 | the report is the current character at the position after it |
| Lexer.LexAn.ReadCharLexeme | src/pins24/phase/LexAn.java:250-282 | `\n`, the escaped quote, `\\`, `\` with two hexadecimal digits, or one printable character; anything else is reported |
| Lexer.ReadQuoted | src/pins24/phase/LexAn.java:250-282 | every character with a code below 256, written with escapes, is read back |
| Lexer.LexAn.ConsumeNumber | src/pins24/phase/LexAn.java:284-291 | the longest run of digits, with the scanner left after it |
| Lexer.LexAn.ConsumeKeywordOrIdentifier | src/pins24/phase/LexAn.java:293-316 | the longest run of word characters, a keyword when it spells one exactly, an identifier otherwise |
| Lexer.LexAn.ScanString | src/pins24/phase/LexAn.java:128-136 | the characters up to the closing quote, read by readCharLexeme |
| Lexer.LexAn.ReadStringBody | src/pins24/phase/LexAn.java:130-133 | the characters before the closing quote, on which the scanner stops |
| Lexer.LexAn.ScanCharConst | src/pins24/phase/LexAn.java:137-144 | one character read on the opening quote, then a quote, or an error |
| Lexer.LexAn.MatchOrThrow | src/pins24/phase/LexAn.java:383-389 | (corrected) passes exactly when the current character is the expected one |
| Lexer.LexAn.ScanDoubled | src/pins24/phase/LexAn.java:172-181 | (corrected) `&&` and `\|\|` give AND and OR; a single one reports the next character |
| Lexer.LexAn.ScanPair | src/pins24/phase/LexAn.java:182-217 | with a following `=` the two-character operator, else a step back and the one-character one |
| Lexer.LexAn.NextToken | src/pins24/phase/LexAn.java:113-242 | the token or error is exactly `Lex` at the next offset |
| Lexer.LexAn.SkipBlankOrComment | src/pins24/phase/LexAn.java:119-127 | a comment or blank is skipped and the scanner moves forward |
| Lexer.LexAn.ScanToken | src/pins24/phase/LexAn.java:128-240 | the arm chosen by the character at hand makes `Lex` at that offset |
| Lexer.LexAn.PeekToken | src/pins24/phase/LexAn.java:403-407 | the buffered token with nothing changed, or the next token, which is then buffered, with the scanner standing on that token's last character |
| Lexer.LexAn.TakeToken | src/pins24/phase/LexAn.java:414-420 | the token peekToken would return, the buffer emptied; a freshly read token leaves the scanner on its last character, so the next take reads the token after it |
| Lexer.BlanksSkipped | src/pins24/phase/LexAn.java:122-127 | blanks produce no token |
| Lexer.CommentSkipped | src/pins24/phase/LexAn.java:244-248 | a comment runs to the end of its line or of the input |
| Lexer.TwoCharOperators | src/pins24/phase/LexAn.java:182-217 | `=`, `!`, `>`, `<` followed by `=` give EQU, NEQ, GEQ, LEQ; otherwise ASSIGN, NOT, GTH, LTH and the next token starts at the following character |
| Lexer.DoubledOperators | src/pins24/phase/LexAn.java:172-181 | `&` must be followed by `&` and `\|` by `\|`, otherwise the second character is reported |
| Lexer.EndOfFileRepeats | src/pins24/phase/LexAn.java:77-79 | at the end mark the scanner stays put, so EOF repeats |
| Lexer.LexAtWordStart | src/pins24/phase/LexAn.java:233-240 | no other token begins with a word character |
| Lexer.WordTokens | src/pins24/phase/LexAn.java:293-316 | a word is the longest run of word characters: the keyword it spells exactly, else an identifier |
| Lexer.KeywordSpelling | src/pins24/phase/LexAn.java:303-315 | keywords are recognised by their exact spelling only |
| Lexer.CapitalsMakeIdentifiers | src/pins24/phase/LexAn.java:295 | a word with a capital letter is an identifier, although the patterns ignore case |
| Lexer.NumberTokens | src/pins24/phase/LexAn.java:284-291 | a number is the longest run of digits, and the character after it never begins a token of its own |
| Lexer.CharConstants | src/pins24/phase/LexAn.java:137-144 | the lexeme is the opening quote, and the constant is accepted only when a second quote follows at once |
| Lexer.StringConstants | src/pins24/phase/LexAn.java:128-136 | a string written with escapes is read back as that string |
| Lexer.AmpersandAsWritten | src/pins24/phase/LexAn.java:172-176 | the pattern `&` matches exactly `&` |
| Lexer.BarAsWrittenAcceptsAnything | src/pins24/phase/LexAn.java:383-389 | as written, a `\|` followed by any character makes OR with that character as its lexeme; for any character but `\|` this differs from the check for a second `\|`, which reports it |
| Lexer.BarAsWrittenOnBarX | src/pins24/phase/LexAn.java:383-389 | the input `\|x`: OR with lexeme `x` as written, an error when checked |

## Left out

- Numbers.DigitValue reads ASCII digits and letters only. Java's
  `Character.digit`, behind `Integer.decode`, also accepts other Unicode
  decimal digits and the fullwidth Latin letters. The lexer makes integer constants of `0`-`9` only, so no
  constant the lexer produces is read differently.
- Printing of attributes (`head`, `desc`) is not modelled, apart from
  initsToString. The `attrCode` entries of expression nodes are not
  modelled: only a function's and a variable's code go to the table.
- Executing the generated code on the PDM machine is not modelled. Java
  `int` overflow in sizes, offsets and counters is not modelled: all
  arithmetic is on unbounded integers.
- Reading the source (`Reader`, `IOException`, `close()`) is not
  modelled. The input is a sequence of non-surrogate UTF-16 code units
  ending in -1.
- The lexer's state after an error is raised is not modelled. Such an
  error ends the run.
- An unexpected-character report is kept as the character's code and
  position. Its message text is the function `UnexpectedMessage`, and the
  `error()` helper is inlined.
- AST.java is not part of this model. The tree and its visiting order are
  those of the `Ast` module, and source locations (`attrLoc`, `Locatable`)
  are not modelled.
- The two-argument static `Memory.decodeConst` and `Memory.decodeInits`
  that CodeGen calls are not part of this model. They are taken to behave
  like the private ones in Memory.java.
- The `debugPars` and `debugVars` lists of a frame are not modelled.
- Lexer.LexAn.TabColumn, Lexer.LexAn.ReadStringBody,
  Lexer.LexAn.SkipBlankOrComment, Lexer.LexAn.ScanToken,
  Memory.PrintGroupAt, Memory.PrintCopies, Memory.PrintGroup,
  CodeGen.Generator.DataBlock, CodeGen.Generator.VisitArgs and
  CodeGen.Generator.StaticLinkCode are parts of the source's loops and
  `switch`es, extracted as methods of their own. They have the same
  behaviour.
- Segments.DefDataOrder only describes programs where no literal atom
  carries data. Segments.GeneratedDataKeys shows that the code generator
  attaches data only to variable definitions.
- Segments.GeneratedDataOrder takes as a premise that no literal atom
  shares its node id with a variable definition. The model's node ids are
  plain integers, so the distinctness of the source's AST nodes is not
  built in.

## Findings

| source | as written | input that shows it | evidently intended | confidence | as-written member | corrected member |
|---|---|---|---|---|---|---|
| src/pins24/phase/Memory.java:133-137 | `valPtr` is only advanced inside the copy loop, so a group with `num <= 0` leaves it on its own values, which are then read as the next header | encoding `[2, 0, 1, 7, 1, 1, 5]` of `0 * 7, 5` prints `1,1,1,1,1,1,1` | move past the group's values after its copies (`valPtr = oldp + len`), printing `5` | high, not executed | Memory.AsWrittenRereadsValues | Memory.InitsToString |
| src/pins24/phase/LexAn.java:383-389 | `matchOrThrow("\|")` compiles an empty alternation, which matches any character | every `\|` followed by another character is lexed as OR with that character as lexeme, e.g. `\|x` | the literal pattern `\\\|`, so only `\|\|` makes OR | high, not executed | Lexer.BarAsWrittenAcceptsAnything | Lexer.LexAn.ScanDoubled |
