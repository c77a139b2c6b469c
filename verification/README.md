# A two-pass stack-machine assembler and its processor, in Dafny

The repository builds a small toolchain for a stack machine. The **assembler** reads a text
program, one instruction per line, and emits a program of `int` words. The **processor**
executes those words. The instructions are `PUSH n`, `POP`, `ADD`, `SUB`, `MUL`, `DIV`,
`POW`, `SQRT`, `IN`, `OUT`, `PUSHR reg`, `POPR reg`, `PUSHM [reg]`/`POPM [reg]`, `CALL :f`,
`RET`, the jumps `JMP`/`JE`/`JB`/`JA`/`JBE`/`JAE :label`, `HLT` and label definitions
`:name`. One macro list, the command catalogue, fixes each instruction's code, name,
handler and operand kind.

The model has the following modules:

- `Commands` (`commands.dfy`): the catalogue. It holds each entry's code (its position in
  the list), its name, its processor handler and its operand kind, plus lemmas that codes
  and entries correspond one to one.
- `CText` (`ctext.dfy`): the C-library text scanning the assembler relies on. It covers
  `isspace`, `sscanf("%s%n")` and `sscanf("%d")` (as an `Option<int>`), `strncmp` against a
  literal (a prefix test) and `strchr(';')` comment cutting.
- `AsmSpec` (`assembler_spec.dfy`): one pass of the assembler, written as functions. It
  has the mnemonic recogniser `Recognise`, the operand classifier `Classify`, the label
  table (`Lookup`, `Define`), the switch on the recognised code (`Encode`, `Dispatch`),
  a whole pass folded over the lines (`Run`), and the two-pass driver (`Assemble`).
- `AsmProps` and `PassProps` (`assembler_props.dfy`, `pass_props.dfy`): properties of
  those functions. They cover the recogniser, the classifier, the label table, one line
  of a pass, a whole pass, and the two passes over a label table that is never reset.
- `Assembler` (`assembler.dfy`): the assembler object as a class that changes its fields
  in place. The fields are a label array with a count, a word buffer with an instruction
  counter, and the lines, which the pass edits in place. Each method is proved to compute
  what the `AsmSpec` function of the same step computes.
- `Processor` (`processor.dfy`): the processor as a class. It holds the program words, the
  instruction pointer, the data stack, the return-address stack, the register and RAM
  arrays, and the input and output streams. There is one method per `Proc*` handler. Its
  C-semantics helpers are truncating division `CDiv`, the loop power `Power`, the floor
  square root `FloorSqrt`, the `size_t` cast `ToSize`, and the jump conditions `Taken`.

The model reproduces these behaviours of the code as written:

- Mnemonics are recognised by prefix, in a fixed order. So `JBE` assembles as `JB`, `JAE`
  as `JA`, `INC` as `IN` and `PUSHMX` as `PUSHM`.
- An unknown mnemonic yields `0`, which is `PUSH`'s code.
- `AsmCodeToByteCode` runs the pass twice without clearing the label table. Every label
  the first pass defines is therefore "already defined" in the second pass. As a result,
  a program containing a label definition, a jump or a `CALL` never assembles.
- The label after a jump or `CALL` is read with `sscanf(":%s")` from the text right after
  the mnemonic. The `%s` that read the mnemonic stopped at a blank, so that text is empty
  or starts with a blank, never with `:`. The scan therefore never converts, and every
  jump and `CALL` looks up the empty name, whatever target it spells (`JMP :loop` and
  `JMP:loop` alike). Such a line resolves only after a bare `:` line has bound the empty
  name.
- A numeric `PUSHM`/`POPM` operand is emitted plus 100. The processor never subtracts it:
  it uses every operand word as a register index. `DirectAddressAborts` shows what that
  does to a direct address.
- The codes `PUSHM_CMD` and `POPM_CMD` are used but appear nowhere in the catalogue. The
  model takes them as parameters (`MemCodes`), distinct from each other and from the
  catalogue's codes.
- The catalogue lists `MARK`'s operand kind as a label reference, although a `:name` line
  has no operand.

## Model

| member | source | states |
|---|---|---|
| Commands.Code | include/unified_commands.h:43-47 | each catalogue entry's code is its position in the macro list |
| Commands.CatalogueCodes | include/unified_commands.h:17-40 | the codes run PUSH=0 through LABEL=22 in list order |
| Commands.FromCode | include/unified_commands.h:43-47 | a word is an entry's code exactly when it is in 0..22, and then it names that entry |
| Commands.FromCodeOfCode | include/unified_commands.h:43-47 | decoding an entry's code gives back the entry |
| Commands.CodesDistinct | include/unified_commands.h:43-47 | two entries share a code exactly when they are the same entry |
| Commands.Param | include/unified_commands.h:17-40 | only PUSH takes a number, only PUSHR/POPR take a register, and CALL, the jumps and MARK take a label |
| Commands.HandlerOf | include/unified_commands.h:17-40 | the six jumps, and only they, share the handler ProcJump |
| Commands.HandlersDistinct | include/unified_commands.h:17-40 | every entry other than a jump has a handler of its own |
| CText.SkipSpaces | src/Assembler/assembler.cpp:371 | skips exactly the leading whitespace and stops at the first other character |
| CText.WordEnd | src/Assembler/assembler.cpp:134 | a `%s` token runs to the next whitespace or the end |
| CText.ScanWord | src/Assembler/assembler.cpp:134 | `%s%n` yields a non-empty whitespace-free token, preceded only by whitespace, and the count of characters it consumed |
| CText.FirstWord | src/Assembler/assembler.cpp:385 | the first token has no whitespace and is empty only when the text has no token |
| CText.StartsWithSlice | src/Assembler/assembler.cpp:3 | `StartsWith`, the literal-length `strncmp` of the recogniser's tests, holds exactly when the literal is a prefix of the text |
| CText.StartsWithTrans | src/Assembler/assembler.cpp:3 | a text that starts with `p` starts with every prefix of `p` |
| CText.CutComment | src/Assembler/assembler.cpp:144-147 | the cut text is a `;`-free prefix, it ends at the first `;`, and a text without `;` is kept |
| CText.DigitsEnd | src/Assembler/assembler.cpp:378 | the run of digits `%d` reads ends at the first non-digit |
| CText.Digits | src/Assembler/assembler.cpp:378 | a decimal spelling is non-empty and made of digits |
| CText.DigitsValueOfDigits | src/Assembler/assembler.cpp:378 | reading the decimal spelling of n gives n back |
| CText.ScanIntOfDecimal | src/Assembler/assembler.cpp:378 | `ScanInt`, the `%d` conversion, on optional whitespace followed by a decimal spelling yields that number |
| CText.ScanWordPrefix | src/Assembler/assembler.cpp:144-147 | cutting a line after its first token leaves the scanned token and count unchanged |
| CText.CommentCutPrefix | src/Assembler/assembler.cpp:144-147 | cutting a comment in the operand part is cutting a prefix of the whole line |
| AsmSpec.BareRegister | src/Assembler/assembler.cpp:418-432 | a bare `RAX`/`AX` spelling gives a register index in 1..26 |
| AsmSpec.Classify | src/Assembler/assembler.cpp:363-443 | an empty or comment operand is VOID, a `%d` match is NUMBER with that value, `:x` is a LABEL with value 0, a register has an index in 1..26, and VOID/UNKNOWN carry -1 |
| AsmSpec.Lookup | src/Assembler/assembler.cpp:16-27 | the lookup answers -1 for an absent name, otherwise the address of the first entry with that name |
| AsmSpec.Truncate | src/Assembler/assembler.cpp:154-155 | `strncpy` into the name buffer then the NUL at index 31: the result is a prefix of at most 31 characters, a shorter name is kept whole and a longer one keeps exactly its first 31 characters |
| AsmSpec.CutLineSame | src/Assembler/assembler.cpp:132-149 | `CutLine`, the line after the in-place `strchr(';')` cut: it is still well-formed, is skipped exactly when the original is, and has the same mnemonic and operand |
| AsmSpec.CutLinesFit | src/Assembler/assembler.cpp:144-147 | all cut lines are well-formed |
| AsmSpec.CutLinesIndex | src/Assembler/assembler.cpp:144-147 | the lines the second pass reads (`CutLines`) are as many as the originals, and the i-th is the i-th line cut |
| AsmSpec.CutLineTwice | src/Assembler/assembler.cpp:144-147 | cutting the comment of a line already cut changes nothing, and the line still fits |
| AsmSpec.CutLinesTwice | src/Assembler/assembler.cpp:98-103 | the second pass's in-place cuts leave the lines the first pass cut as they are |
| AsmSpec.CutLinesPrefix | src/Assembler/assembler.cpp:128-147 | cutting the first k lines gives the first k lines of the cut program, so a pass that stops early has cut exactly the lines it handled |
| AsmSpec.CutLinesRecut | src/Assembler/assembler.cpp:98-103 | re-cutting any number of leading cut lines gives those same lines back |
| AsmSpec.CutLinesResume | src/Assembler/assembler.cpp:98-103 | however far the second pass gets, the lines are afterwards exactly the lines the first pass cut |
| AsmSpec.Encode | src/Assembler/assembler.cpp:165-304 | the switch writes at most two words, the first of them the opcode, and writes one whenever the operand is accepted |
| AsmSpec.Run | src/Assembler/assembler.cpp:128-311 | a pass handles at most every line, and all of them unless a line is rejected |
| AsmProps.RecogniseCatalogueNames | src/Assembler/assembler.cpp:313-345 | each catalogue name (`Commands.Name`, the name column of include/unified_commands.h) is recognised as its own code, except JBE→JB, JAE→JA, and MARK and LABEL, which yield 0 |
| AsmProps.RecogniseStackNames | src/Assembler/assembler.cpp:318-323 | PUSH, POP, PUSHR, POPR recognise as their codes despite the shared prefixes |
| AsmProps.RecogniseArithmeticNames | src/Assembler/assembler.cpp:324-326 | ADD, SUB, MUL recognise as their codes |
| AsmProps.RecognisePowerNames | src/Assembler/assembler.cpp:327-329 | DIV, POW, SQRT recognise as their codes |
| AsmProps.RecogniseIoNames | src/Assembler/assembler.cpp:330-331 | IN, OUT recognise as their codes |
| AsmProps.RecogniseCallNames | src/Assembler/assembler.cpp:332-333 | CALL, RET recognise as their codes |
| AsmProps.RecogniseJumpNames | src/Assembler/assembler.cpp:335-338 | JMP, JE, JB, JA recognise as their codes |
| AsmProps.RecogniseCompoundJumpNames | src/Assembler/assembler.cpp:337-340 | JBE recognises as JB and JAE as JA, because the shorter prefix is tested first |
| AsmProps.RecogniseHaltName | src/Assembler/assembler.cpp:342 | HLT recognises as its code |
| AsmProps.RecogniseUnlistedNames | src/Assembler/assembler.cpp:344 | the catalogue names MARK and LABEL are not mnemonics: they yield 0 |
| AsmProps.RecogniseUnknown | src/Assembler/assembler.cpp:344 | examples: the unknown tokens `FOO` and `LOOP` yield 0, which is PUSH's code |
| AsmProps.RecogniseFallback | src/Assembler/assembler.cpp:316-344 | for every token: one that does not open with `:` and starts with none of the literals the chain tests yields 0, the fallback `FAIL_RESULT`, which is PUSH's code |
| AsmProps.ExtendedMnemonics | src/Assembler/assembler.cpp:318-340 | a token that does not start with PUSH, POP, JB or JA does not start with PUSHM, PUSHR, POPM, POPR, JBE or JAE either, so the longer tests fail with the shorter |
| AsmProps.LongerMnemonic | src/Assembler/assembler.cpp:313-345 | the `strncmp` prefix test is monotone: a token without a mnemonic as a prefix has no longer mnemonic extending it as a prefix |
| AsmProps.RecognisedPrefix | src/Assembler/assembler.cpp:316-345 | soundness, for every token: a token recognised as any catalogue command other than PUSH and MARK starts with that command's name |
| AsmProps.RecognisedMemoryPrefix | src/Assembler/assembler.cpp:318-321 | for every token: the PUSHM code is given only to a token starting with `PUSHM`, the POPM code only to one starting with `POPM` |
| AsmProps.RecogniseMark | src/Assembler/assembler.cpp:316 | for every token: MARK exactly when the token's first character is `:` |
| AsmProps.RecognisePrefixes | src/Assembler/assembler.cpp:316-345 | examples of recognition by prefix: `INC`→IN, `POPX`→POP, `PUSHMX`→PUSHM, and a leading `:` means MARK |
| AsmProps.RecogniseRange | src/Assembler/assembler.cpp:313-345 | `Recognise`, the AsmCodeProcessing chain, yields a memory code or a catalogue code for every token, and never JBE, JAE or LABEL |
| AsmProps.RecogniseNeverJbeJae | src/Assembler/assembler.cpp:337-340 | no token whatever is recognised as JBE or JAE |
| AsmProps.RecogniseNeverJbe | src/Assembler/assembler.cpp:337-339 | no token is recognised as JBE |
| AsmProps.RecogniseNeverJae | src/Assembler/assembler.cpp:338-340 | no token is recognised as JAE |
| AsmProps.LetterIndexOfRegLetter | src/Assembler/assembler.cpp:419 | `reg[1] - 'A' + 1` inverts the letter of register i |
| AsmProps.BareRegisterSpelling | src/Assembler/assembler.cpp:418-432 | a bare word is register i exactly when it is spelled `R?X` or `?X` with i's letter |
| AsmProps.SkippedLines | src/Assembler/assembler.cpp:132-138 | `IsSkipped`: a line is passed over exactly when it holds no word or its first word starts with `;` |
| AsmProps.TargetAlwaysEmpty | src/Assembler/assembler.cpp:256 | `TargetName` of every handled line's operand text is empty: `:%s` on the text after the mnemonic never converts (likewise at line 274) |
| AsmProps.ScanIntNone | src/Assembler/assembler.cpp:378-379 | `%d` fails on text whose first non-space character is neither a sign nor a digit |
| AsmProps.FirstWordStart | src/Assembler/assembler.cpp:385 | the first token starts at the first non-space character |
| AsmProps.ClassifyRegister | src/Assembler/assembler.cpp:396-432 | an operand classifies as register i exactly when its first token is one of i's four spellings (`RAX`, `AX`, `[RAX]`, `[AX]`) |
| AsmProps.ClassifySpelledRegister | src/Assembler/assembler.cpp:396-432 | each of the four spellings of register i as the first operand token classifies as register i |
| AsmProps.ClassifiedRegisterSpelling | src/Assembler/assembler.cpp:396-432 | only those four spellings classify as register i |
| AsmProps.ClassifyNumber | src/Assembler/assembler.cpp:378-382 | an operand spelled as the decimal n classifies as NUMBER n |
| AsmProps.ClassifyLabel | src/Assembler/assembler.cpp:388-394 | an operand token starting with `:` classifies as LABEL with value 0 |
| AsmProps.LookupAppend | src/Assembler/assembler.cpp:20-26 | appending an entry changes the lookup only for a name that was absent and is the new entry's |
| AsmProps.DefineRejects | src/Assembler/assembler.cpp:33-42 | AddLabel on a full table or an already-bound name fails |
| AsmProps.FoundIsValid | src/Assembler/assembler.cpp:20-24 | a bound name in a table of valid addresses looks up to a non-negative address |
| AsmProps.LookupMiss | src/Assembler/assembler.cpp:26 | an unbound name looks up to -1 |
| AsmProps.DefineOutcome | src/Assembler/assembler.cpp:29-50 | `Define`, AddLabel on the table, fails exactly when the table is full or the name is bound, and otherwise appends one entry and keeps every other lookup |
| AsmProps.DefineBinds | src/Assembler/assembler.cpp:44-47 | after AddLabel the name looks up to its address and every other name to its old answer |
| PassProps.StepFacts | src/Assembler/assembler.cpp:129-304 | `Step`, one iteration of the loop: one line appends at most two words and at most one label at a valid address, and counts an HLT only by emitting HLT_CMD |
| PassProps.DispatchFacts | src/Assembler/assembler.cpp:151-304 | `Dispatch`, the switch on the recognised code: every case only appends words and labels, within the same bounds |
| PassProps.DispatchHlt | src/Assembler/assembler.cpp:293-298 | the HLT count rises exactly for HLT_CMD |
| PassProps.EncodeDispatchFacts | src/Assembler/assembler.cpp:165-244 | the operand cases only append the encoded words |
| PassProps.StepCutSame | src/Assembler/assembler.cpp:144-149 | a line whose comment has been cut is handled exactly like the original |
| PassProps.MarkLineBinds | src/Assembler/assembler.cpp:152-163 | a `:name` line emits nothing and fails exactly when the table is full or the name is bound; otherwise it binds the name to the current word count and keeps every other binding |
| PassProps.EncodeAgreesWithCatalogue | src/Assembler/assembler.cpp:165-244 | each non-branch catalogue command accepts exactly the operand kind the catalogue lists (RET and HLT ignore it), always writes the opcode, and writes the operand for PUSH/PUSHR/POPR |
| PassProps.EncodeMemoryOperand | src/Assembler/assembler.cpp:211-226 | PUSHM/POPM accept a register index as is and a number plus 100, and reject every other operand after writing the opcode |
| PassProps.EncodeLabelRejected | src/Assembler/assembler.cpp:300-303 | LABEL's code has no case: it is rejected without writing anything |
| PassProps.RunBounds | src/Assembler/assembler.cpp:128-311 | a pass emits at most two words per handled line, keeps the starting table as a prefix with valid addresses, and has emitted HLT_CMD when it counted an HLT |
| PassProps.SucceededEmitsHlt | src/Assembler/assembler.cpp:307-310 | a pass that succeeds has emitted HLT_CMD |
| PassProps.RunSticky | src/Assembler/assembler.cpp:161 | a rejected line ends the pass: later lines change nothing |
| PassProps.RunExtends | src/Assembler/assembler.cpp:128-305 | handling more lines only extends the words and the table |
| PassProps.RunSnoc | src/Assembler/assembler.cpp:128-305 | the first k+1 lines run as the first k followed by line k |
| PassProps.RunNext | src/Assembler/assembler.cpp:128-305 | the loop's state after line i is one step from its state before it, and a rejection there is the pass's result |
| PassProps.CutLinesNext | src/Assembler/assembler.cpp:144-147 | the loop cuts the comment of exactly the line it handles |
| PassProps.RunCutSame | src/Assembler/assembler.cpp:98-103 | the second pass reads the comment-cut lines and does exactly what it would do with the originals |
| PassProps.MarkInTable | src/Assembler/assembler.cpp:152-163 | after a pass that did not fail, every `:name` line's name is bound |
| PassProps.MarkAgainFails | src/Assembler/assembler.cpp:39-42 | a pass over a table in which a `:name` line's name is already bound fails |
| PassProps.NoMarksKeepTable | src/Assembler/assembler.cpp:151-163 | a pass without `:name` lines leaves the table as it found it |
| PassProps.BranchWithoutLabelsFails | src/Assembler/assembler.cpp:246-285 | a jump or CALL fails a pass that starts from an empty table and defines no label |
| PassProps.AssembledProgramHasNoLabels | src/Assembler/assembler.cpp:98-109 | since the table is not reset between the passes, a program that assembles has no `:name` line and no jump or CALL |
| PassProps.AssembleIsFirstPass | src/Assembler/assembler.cpp:79-110 | `Assemble`, the two passes of AsmCodeToByteCode: a program that assembles yields the words of its first pass |
| PassProps.AssembleWithoutLabels | src/Assembler/assembler.cpp:98-109 | conversely, a first pass that succeeds without defining a label gives the assembled program |
| Assembler.ArgumentProcessing | src/Assembler/assembler.cpp:363-443 | the operand scan (a whitespace-skipping loop, then the `%d`, `:label`, `[reg]` and `reg` tests) gives exactly the classification `Classify` |
| Assembler.Assembler.constructor | src/Assembler/assembler.cpp:52-64 | every label slot is cleared to an empty name with address -1, and the count is 0 |
| AsmProps.LookupStep | src/Assembler/assembler.cpp:20-24 | one iteration of the search: the slot answers with its address when it carries the name, and otherwise the search goes on from the next slot |
| Assembler.Assembler.FindLabelAddress | src/Assembler/assembler.cpp:16-27 | the loop over the filled slots answers `Lookup` on the table: -1 exactly when the name is unbound |
| Assembler.Assembler.AddLabel | src/Assembler/assembler.cpp:29-50 | answers SUCCESS and stores `Define`'s new table, or FAIL with the table unchanged; unused slots keep their contents |
| Assembler.Assembler.Emit | src/Assembler/assembler.cpp:166 | `byte_code[instruction_cnt++] = w` appends w to the emitted words |
| Assembler.Assembler.TranslateInstruction | src/Assembler/assembler.cpp:151-304 | the switch changes the words, the table and the HLT count as `Dispatch` says |
| Assembler.Assembler.TranslateBranch | src/Assembler/assembler.cpp:246-285 | a jump or CALL writes its opcode, then the target's address when the `:%s` label is bound, or fails |
| Assembler.Assembler.TranslateOperand | src/Assembler/assembler.cpp:165-244 | the operand cases write what `Encode` writes and accept what it accepts |
| Assembler.Assembler.TranslateLine | src/Assembler/assembler.cpp:129-304 | one iteration does to the state what `Step` does, and cuts that line's comment in place |
| Assembler.Assembler.TranslateAsmToByteCode | src/Assembler/assembler.cpp:112-311 | the pass answers SUCCESS exactly when `Run` succeeds; it leaves `Run`'s words and table, and the handled lines comment-cut |
| Assembler.Assembler.AsmCodeToByteCode | src/Assembler/assembler.cpp:79-110 | the driver answers SUCCESS exactly when `Assemble` gives a program, and then the emitted words are that program. When the first pass fails, the table and the lines are as that pass left them. Otherwise the table is the second pass's, which equals a pass over the original lines from the first pass's table, and the lines are exactly the first pass's comment-cut lines |
| Processor.ToSize | src/Processor/commands.cpp:169 | the `size_t` cast keeps a non-negative value, maps a negative one above INT_MAX, and agrees with it modulo 2^64 |
| Processor.CDivTruncates | src/Processor/commands.cpp:59 | `CDiv`, C's `a / b`, truncates: the remainder is smaller than b in size and has a's sign, and the quotient never overshoots |
| Processor.PowerAdd | src/Processor/commands.cpp:70-74 | `Power`, the loop power, adds exponents: x^(m+n) = x^m · x^n |
| Processor.PowerAbs | src/Processor/commands.cpp:70-74 | the absolute value of x^k is abs(x)^k |
| Processor.PowerGrows | src/Processor/commands.cpp:70-74 | for a base of at least 2 the power grows strictly with the exponent |
| Processor.PowerPrefixFits | src/Processor/commands.cpp:72-74 | when the final power fits in an int, every partial product of the loop does |
| Processor.FloorSqrt | src/Processor/commands.cpp:84 | `(int) sqrt(a)` is the r with r·r ≤ a < (r+1)·(r+1) |
| Processor.Taken | src/Processor/commands.cpp:181-195 | JE, JB, JA, JBE, JAE jump exactly on a == b, a < b, a > b, a <= b, a >= b, and any other code never jumps |
| Processor.Processor.Fetch | src/Processor/commands.cpp:168 | the dispatch loop's opcode read that line 168's `instruction_ptr - 1` presupposes: reads the word at ip and advances ip by one |
| Processor.Processor.Push | src/Processor/commands.cpp:4-8 | pushes the operand word and steps past it |
| Processor.Processor.Pop | src/Processor/commands.cpp:10-14 | drops the top of the stack |
| Processor.Processor.Add | src/Processor/commands.cpp:16-25 | replaces the two top values by their sum |
| Processor.Processor.Sub | src/Processor/commands.cpp:27-36 | replaces the two top values by second minus top |
| Processor.Processor.Mul | src/Processor/commands.cpp:38-47 | replaces the two top values by their product |
| Processor.Processor.Div | src/Processor/commands.cpp:49-60 | pops both values; aborts exactly when the top is 0, otherwise pushes the truncated quotient of second by top |
| Processor.Processor.Pow | src/Processor/commands.cpp:62-77 | the multiplication loop replaces base and exponent by `Power(base, exponent)`, which is 1 for an exponent ≤ 0 |
| Processor.Processor.Sqrt | src/Processor/commands.cpp:79-85 | replaces the top by its floor square root |
| Processor.Processor.In | src/Processor/commands.cpp:87-96 | pushes the next input number, or 0 when the input is exhausted |
| Processor.Processor.Out | src/Processor/commands.cpp:98-105 | pops the top and appends it to the output |
| Processor.Processor.PushR | src/Processor/commands.cpp:107-111 | pushes the register named by the operand word |
| Processor.Processor.PopR | src/Processor/commands.cpp:113-118 | pops the top into the register named by the operand word, changing no other register |
| Processor.Processor.PushM | src/Processor/commands.cpp:120-139 | succeeds exactly when the operand is a register index whose register holds a RAM index, and then pushes that RAM cell |
| Processor.Processor.PopM | src/Processor/commands.cpp:141-163 | succeeds under the same condition, and then pops the top into that one RAM cell |
| Processor.Processor.Jump | src/Processor/commands.cpp:165-196 | JMP goes to the target with the stack untouched; a conditional pops two values and goes to the target exactly when `Taken`, otherwise past the operand |
| Processor.Processor.Call | src/Processor/commands.cpp:198-204 | pushes the address after the operand and goes to the operand's address |
| Processor.Processor.Ret | src/Processor/commands.cpp:206-211 | goes to the top return address and pops it |
| Processor.Processor.PushThenPop | src/Processor/commands.cpp:4-14 | PUSH then POP leaves the stack as it was |
| Processor.Processor.StoreThenLoad | src/Processor/commands.cpp:120-163 | POPM then PUSHM through the same register restores the value and leaves it in RAM |
| Processor.Processor.CallThenRet | src/Processor/commands.cpp:198-211 | CALL then RET returns to the word after the call's operand with the return stack restored |
| Processor.RegisterRoundTrip | src/Processor/commands.cpp:107-118 | `PUSH 5; POPR 1; PUSHR 1; OUT; HLT` outputs 5 and stops on HLT |
| Processor.CallAndReturn | src/Processor/commands.cpp:198-211 | `CALL 3; HLT; RET` returns and stops on HLT with an empty return stack |
| Processor.DirectAddressAborts | src/Processor/commands.cpp:127-129 | a direct PUSHM operand (address + 100) is not a register index of a 27-register machine, so PUSHM aborts |

## Left out

- File input and output (ReadToBuffer, SplitIntoLines, OutputInFile, argv handling, the destructor's frees) are not modelled. The lines arrive as an array of strings, and the program stays in the emitted word buffer.
- Debug and diagnostic printing (`PRINT`, `fprintf(stderr, …)`) is left out, because it changes no state.
- The processor's dispatch loop, `ProcHlt`, program loading and the processor's constructor are not part of this model; `Processor.Processor.constructor` only builds a zeroed state for the handlers. Only `Fetch` and the individual handlers are modelled, and the demos drive them in sequence.
- `REGS_NUMBER` and `RAM_SIZE` become the lengths of the register and RAM arrays, chosen at construction.
- The stack library is not part of this model. The handlers require enough values on the stack instead of modelling its underflow behaviour.
- A C `assert` that aborts (a zero divisor in ProcDiv, a bad register or RAM index in ProcPushM/ProcPopM) becomes `ok == false` with the described state.
- Processor.Processor.Add: int32 overflow of the sum is excluded by a precondition rather than wrapped, and the same goes for Sub, Mul, Div (INT_MIN / -1), and Pow (its result, from which every partial product of the loop fits by `PowerPrefixFits`).
- Processor.Processor.Sqrt: the double-precision `sqrt` is modelled as the exact floor square root, for a non-negative argument only.
- Processor.Processor.In: `scanf("%d")` is a sequence of already-read integers; a failed read leaving 0 is modelled as an exhausted input.
- AsmSpec.Classify: the numbers `%d` reads are unbounded, so out-of-range `int` conversion is not modelled.
- AsmSpec.Run: a whitespace-only line makes `sscanf` return EOF and leaves the previous line's token in the 10-byte buffer. The well-formedness precondition `LineFits` excludes that line, so the model does not capture what the program then does. When the line is at least as long as the count `%n` left from the previous line, the previous mnemonic is handled again: an indented blank line after HLT emits another HLT. As the first line it leaves an empty token, which is taken as PUSH with a VOID operand, so the pass fails. `LineFits` also excludes the buffer overruns: a mnemonic of 10 or more characters, and an operand word of 32 or more characters where `%d` converts nothing.
- Processor.Processor.PushR: the register index read from the code is required to be within the register array, and the same goes for Processor.Processor.PopR. The C handlers index `regs` without a check, so an out-of-range index is undefined behaviour, which the model does not describe.
- AsmSpec.Encode: the direct address of PUSHM and POPM is written as `value + 100` on an unbounded integer, so the `int` overflow of that sum for a value near INT_MAX is not modelled.
- Strings are sequences of Unicode characters, so the bounds of 10 on the mnemonic and 32 on the operand word, and the 31 characters a label keeps, count characters where the C code counts bytes. A multibyte UTF-8 name can therefore fit the model's bounds and overrun the C buffers, or be cut in the middle of a character.
