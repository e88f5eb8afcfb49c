# Verified model of a compiler bootstrap chain

The repository builds a C compiler from very small parts. Each part below is modelled in
its own form, as classes whose methods update fields, arrays and buffers where the C code
does, and is proved against a specification that is independent of the code.

| part | source | modules |
|---|---|---|
| M2 compiler: one pass from tokens to code for an accumulator and stack machine | `m2min/M2_tcc.c` | `M2Word`, `M2Machine`, `M2Source`, `M2Codegen`, `M2Grammar`, `M2Compiler`, `M2Simulation`, `M2Correct`, `M2Program`, `M2Stack`, `M2Boundary`, `M2Balance`, `M2Wild`, `M2RoundTrip`, `M2StatementTrip`, `M2Text`, `M2Clash`, `M2Whole`, `M2Meaning`, `M2Rules`, `M2Examples`, `M2Compiled` |
| the instructions it emits, as bytes | `m2min/x86_defs.M1` | `M2Encoding` |
| 64-bit division from 32-bit instructions | `tcc_10/libtcc1.c` | `DoubleWord`, `LongDivision` |
| ELF symbol table, resolution, sorting, relocation, merging, layout | `tcc_10/tccelf.c` | `ElfEntry`, `ElfSymbolTable`, `ElfResolution`, `ElfSort`, `ElfRelocation`, `ElfMerge`, `ElfDetached`, `ElfAlign`, `ElfLayout` |
| bounds table | `tcc_10/bcheck.c` | `BoundsChain`, `BoundsTable` |
| backpatched jumps of the code generator | `tcc_10/i386-gen.c` | `JumpLists` |
| backpatched jumps of the self-compiling compiler | `otccelf/otccelfn.c` | `OtccCode`, `OtccCorrect`, `OtccGenerator`, `OtccMeaning` |
| loader and linker | `otccelf/elf_loader.c` | `ElfLoaderSpec`, `ElfLoader` |
| sorting | `tcc_10/libc_min.c` | `QuickSort` |
| numerals | `M2libc/bootstrappable.c` | `Numerals` |
| label text | `m2min/M2_simple_asm.c`, `m2min/M2_tcc.c` | `LabelText`, `SimpleAsmLabels`, `M2LabelText` |

`Memory` and `Edits` (32-bit words in byte memory, lists of additions to them) and `Options`
are shared.

The M2 part is a compiler correctness proof. `M2Grammar` says which tokens are programs and
what they denote, `M2Source` gives their meaning without stacks or registers, `M2Codegen`
gives the code of each construct, and `M2Machine` is a machine with a typed stack. The
methods of `M2Compiler` are proved to emit `M2Codegen`'s code for what `M2Grammar` parses;
the lemmas of `M2Correct` prove that this code does what `M2Source` says; `M2Program`
discharges their assumptions for whole programs, and `M2Text` looks labels up by the text
that is emitted for them. `M2Balance` covers runs that do not end: `M2Stack` is a flow
analysis over all paths of a function, and `M2Balance` proves that the machine follows it,
over calls and returns.

The two ends of that proof are tied down by themselves. `M2Meaning` says what the operator
tokens compute on numbers and bits, how they group and what names refer to, `M2Rules` frees
the semantics of its fuel, and `M2Examples` runs four programs from their tokens to their
results. `M2Encoding` decodes the bytes that `m2min/x86_defs.M1` defines for the instructions
and finds the steps of `M2Machine`. `M2Compiled` goes all the way once.

Some results state where the code does not meet what one would expect:

- Deleting a region that ends in another first-level page takes the page by a byte offset
  (`tcc_10/bcheck.c:640`). `DeleteRegion` says exactly for which regions that is harmless
  (`UndeletableExample`, `DeletedButListed`).
- The check before an indirection looks at the end of the access only (`IndirExact`,
  `IndirStraddles`, `IndirExample`).
- `qsort` does not sort all inputs with equal keys (`SortedExactly`, `UnsortedExample`;
  `RepeatsSorted` and `UncleanUnsorted` can be checked before the call).
- Loading an object file moves all relocations, but applies those of some relocation sections
  to another section or never (`AttachedExactly`, `MovedButNotApplied`, `SecondTakesAll`).
- A program that calls a function it only declares is accepted and uses a label that is not
  defined (`ProgramLabels`, `CalledPrototype`).
- Weak definitions of one name are accepted or refused depending on the order of a strong
  one (`OrderDecidesError`).
- Addresses stay congruent to file offsets only until a NOBITS section that does not fill
  whole pages (`CongruentExactly`).
- The loader stores S - P - 4 for R_386_PC32 whatever the word held (`AbiExactly`).
- Two loops of functions with unlucky names can share a label, and then the program goes
  astray (`UnambiguousExactly`, `TextDiffers`).
- A ret need not find its return address when a value is used as the address of a store, or
  when a call passes too many values (`StoreThroughValue`, `ValueTooMany`).
- Minimum / -1 gives the minimum in `__divdi3` (`DivDi3`).

## Model

| member | source | states |
|---|---|---|
| `M2Whole.SourceFileCorrect` | `m2min/M2_tcc.c:2033-2096` | Every token sequence that makes a program with distinct function names, at most 2^31 numbered statements in each function and no two loop labels with one text is translated to a text in which calling a function, from any stack, returns to its caller with the value, the argument cells, the globals, esp and edi that the source semantics gives; labels are looked up by their spelling and the last one wins, as in m2min/hex2.awk:63 |
| `M2Program.CompilerCorrect` | `m2min/M2_tcc.c:1974-1999` | The same for the code before labels are spelled, where a label is a kind, a function and a number: every program of functions with distinct names and declarations in braces, no assumption on the code is left |
| `M2Text.TextCorrect` | `m2min/M2_tcc.c:1974-1999` | The same for the code as text, for every program whose loop labels do not clash |
| `M2Text.UnambiguousExactly` | `m2min/M2_tcc.c:1551-1776` | For distinct function names: every label of the emitted text is found where it was meant if and only if no two loops of the program clash, a condition on names, numbers of loops and which of them are for loops |
| `M2Text.NamesApartSuffice` | `m2min/M2_tcc.c:1551-1776` | No function name extending another one by END_, _END or the like is enough for that |
| `M2Text.TextRuns` | `m2min/M2_tcc.c:1551-1776` | With labels that are found where they were meant, every run of the code is the run of its text |
| `M2Clash.TextDiffers` | `m2min/M2_tcc.c:1589-1661` | Two functions g and END_g, each with one for loop: the source says that g returns 0, and the text returns 1 because the end of its loop is taken for the loop of the other function |
| `M2Correct.ExprCorrect` | `m2min/M2_tcc.c:1382-1443` | Any int expression: the emitted code reaches the instruction behind it with the value in eax, the stores done, and the stack, ebp and edi as they were, whatever lies on the stack above the frame |
| `M2Correct.ArgsCorrect` | `m2min/M2_tcc.c:857-872` | Arguments are evaluated left to right and pushed in order while edi keeps the base of the frame under construction, although calls inside them overwrite edi |
| `M2Correct.CallExprCorrect` | `m2min/M2_tcc.c:847-899` | A call saves edi and ebp, passes the arguments as a frame at edi, and restores both registers and the stack |
| `M2Correct.CallFunCorrect` | `m2min/M2_tcc.c:1974-1999` | A called function returns to the address on top of the stack, leaves the argument cells as its body left them, removes its locals and keeps edi |
| `M2Correct.BinCorrect` | `m2min/M2_tcc.c:1165-1209` | A binary operator has its left value on the stack while the right one is computed, however deep the right one nests |
| `M2Correct.AssignCorrect` | `m2min/M2_tcc.c:1424-1443` | An assignment stores through the address left by the target and its value stays in eax |
| `M2Correct.StmtCorrect` | `m2min/M2_tcc.c:1874-1923` | Any statement with declarations in braces: the code ends behind it, at the loop end for a break, or at the caller for a return, with matching memory, for every fuel at which the source run ends |
| `M2Correct.SeqCorrect` | `m2min/M2_tcc.c:1829-1872` | A statement list also brings the declared locals into the frame where the depths say |
| `M2Correct.BlockCorrect` | `m2min/M2_tcc.c:1829-1872` | Leaving a block removes exactly its own locals, unless it was left by a return |
| `M2Correct.DeclCorrect` | `m2min/M2_tcc.c:1490-1546` | A declaration pushes the initial value, or whatever eax holds, as the next cell of the frame |
| `M2Correct.IfCorrect` | `m2min/M2_tcc.c:1551-1587` | if and if/else take the branch that the condition selects, and go on behind both |
| `M2Correct.WhileCorrect` | `m2min/M2_tcc.c:1729-1776` | while: every iteration, break and return, by induction on the run |
| `M2Correct.DoCorrect` | `m2min/M2_tcc.c:1679-1726` | do: the body runs before the test, and break goes behind the loop |
| `M2Correct.ForCorrect` | `m2min/M2_tcc.c:1589-1661` | for: initialiser, test, body, iteration expression in the order of the language although the code holds them in another one |
| `M2Correct.BreakCorrect` | `m2min/M2_tcc.c:1802-1827` | break pops exactly the locals declared since the loop began |
| `M2Correct.ReturnCorrect` | `m2min/M2_tcc.c:1779-1800` | return pops the live locals so that ret finds the return address on top |
| `M2Simulation.OperatorCorrect` | `m2min/M2_tcc.c:1307-1367` | The instructions of every binary operator compute the 32-bit result of the source operator on every pair for which it is defined |
| `M2Simulation.UnaryCorrect` | `m2min/M2_tcc.c:1388-1409` | Negation, logical not and complement through a preset left operand |
| `M2Simulation.AddressCorrect` | `m2min/M2_tcc.c:983-1047` | The depth or label named by the code is the cell of the variable |
| `M2Simulation.LoadCorrect` | `m2min/M2_tcc.c:983-1047` | A variable load yields the variable's current value, for locals, arguments and globals |
| `M2Simulation.StoreCorrect` | `m2min/M2_tcc.c:1424-1443` | A store changes that variable and nothing else of the frame, the callers' stack or the globals |
| `M2Simulation.SaveCorrect` | `m2min/M2_tcc.c:853-855` | After the three saving instructions edi is the base of the next frame and the old registers are on the stack |
| `M2Simulation.RestoreCorrect` | `m2min/M2_tcc.c:892-898` | Popping the arguments and two registers gives the frame back |
| `M2Program.ProgramLabels` | `m2min/M2_tcc.c:783-786` | In every program with distinct function names each label is marked once, and every label belongs to a function of the program |
| `M2Program.StmtLabels` | `m2min/M2_tcc.c:1551-1776` | The labels of a statement are distinct and numbered from the count before it to the count behind it |
| `M2Balance.AlwaysBalanced` | `m2min/M2_tcc.c:1974-1999` | On every run from the entry of a function other than main, ending or not, in a program whose stores go to variables by name, not to a local inside its own initial value, and whose calls pass as many values as the callee takes and do not call main: every ret finds the return address its call pushed, and at every statement, label and ret esp is the frame base minus four times the arguments, the return address and the live locals of that place |
| `M2Balance.BalancedUnlessOverwritten` | `m2min/M2_tcc.c:1974-1999` | For all programs and all functions, main included, on every run in which no store hits a word that holds a return address: every ret finds the one its call pushed, and at every statement, label and ret the stack has one word for each live local above that of the entry |
| `M2Balance.ReturnsIfStoresApart` | `m2min/M2_tcc.c:1779-1800` | While stores keep off the slots of the return addresses, every ret of a run takes the one its own call pushed |
| `M2Balance.RunInv` | `m2min/M2_tcc.c:1874-1923` | The stack stays a list of activations, each at the height its code has at its own place, over runs of any length |
| `M2Balance.InvSteady` | `m2min/M2_tcc.c:1874-1923` | What that list says of a state: esp, ebp and the word under the frame at every statement boundary, label and ret |
| `M2Balance.StepCall` | `m2min/M2_tcc.c:847-899` | A call adds an activation whose entry height is one above the stack and whose caller waits behind the call |
| `M2Balance.StepRet` | `m2min/M2_tcc.c:1779-1800` | A ret removes the last activation: the stack is as high as at its entry, the word on top is its return address, and the caller goes on at its own height |
| `M2Balance.StepStore` | `m2min/M2_tcc.c:1424-1443` | A store in a program of the tame kind stays inside the variables of an activation or the globals |
| `M2Balance.InnerSound` | `m2min/M2_tcc.c:763-775` | Every instruction that neither jumps, stores, calls nor returns does to the words and registers of the machine what the flow analysis does to its description of them |
| `M2Stack.FunctionFlow` | `m2min/M2_tcc.c:1974-1999` | The flow analysis goes through the code of every function: all paths agree at each label, none goes below the frame, and the height at each ret is the return address above the arguments; M2Balance ties it to the machine |
| `M2Stack.ExprFlow` | `m2min/M2_tcc.c:1382-1443` | An expression keeps the height and the words below it, from any height |
| `M2Stack.StmtFlow` | `m2min/M2_tcc.c:1874-1923` | A statement starts and ends at the height of the locals in scope, and the labels in it have the heights of theirs |
| `M2Stack.SeqFlow` | `m2min/M2_tcc.c:1829-1872` | The same for statement lists, whose declarations raise the height by one each |
| `M2Stack.WhileFlow` | `m2min/M2_tcc.c:1729-1776` | The loop labels have the height at which the loop is entered |
| `M2Boundary.WalkFlow` | `m2min/M2_tcc.c:1829-1923` | Every statement of a function, however deep, is reached by the flow analysis at the height of the locals in scope there |
| `M2Wild.StoreThroughValue` | `m2min/M2_tcc.c:1424-1443` | int h(int p) { (p) = 7; } called with the address of its own return slot: ret finds 7 |
| `M2Wild.ValueTooMany` | `m2min/M2_tcc.c:847-899` | A call with one value too many shifts the frame of the callee by one word: its first local lies on its return address, and ret finds 7 |
| `M2Whole.DepthsAsCollected` | `m2min/M2_tcc.c:1925-1972` | Counting depths declaration by declaration gives the frame offsets used by the code |
| `M2Compiler.Compiler.Emit` | `m2min/M2_tcc.c:763-775` | Output grows by the instructions, in order |
| `M2Compiler.Compiler.Skip` | `m2min/M2_tcc.c:827-845` | Advances over the required token or reports its absence |
| `M2Compiler.Compiler.PrimaryExpr` | `m2min/M2_tcc.c:1382-1422` | Accepts exactly the primary expressions and appends the code of what it parsed |
| `M2Compiler.Compiler.UnaryExpr` | `m2min/M2_tcc.c:1388-1409` | Unary operators: minus takes a primary, not and complement an operand of the first level |
| `M2Compiler.Compiler.VariableLoad` | `m2min/M2_tcc.c:983-1047` | Leaves the address before = and the value otherwise |
| `M2Compiler.Compiler.FunctionCall` | `m2min/M2_tcc.c:847-899` | Accepts exactly the argument lists and appends the code of the call |
| `M2Compiler.Compiler.PushArguments` | `m2min/M2_tcc.c:857-872` | One expression and one push for each argument; counts them |
| `M2Compiler.Compiler.Chain` | `m2min/M2_tcc.c:1319-1374` | One operator level: a left-associative chain, with the code in evaluation order |
| `M2Compiler.Compiler.Stub` | `m2min/M2_tcc.c:1307-1367` | The rest of a chain behind a left operand that has been emitted already |
| `M2Compiler.Compiler.Expression` | `m2min/M2_tcc.c:1424-1443` | Accepts exactly the expressions of the grammar and appends their code |
| `M2Compiler.Compiler.Statement` | `m2min/M2_tcc.c:1874-1923` | Accepts exactly the statements of the modelled grammar; code, label count, live locals and break target are those of the parsed statement |
| `M2Compiler.Compiler.ReturnResult` | `m2min/M2_tcc.c:1779-1800` | return statements |
| `M2Compiler.Compiler.ProcessBreak` | `m2min/M2_tcc.c:1802-1827` | break statements; fails outside loops |
| `M2Compiler.Compiler.CollectLocal` | `m2min/M2_tcc.c:1490-1546` | Declarations of the modelled grammar: the name is in scope while its initial value is computed, before its cell exists |
| `M2Compiler.Compiler.ProcessIf` | `m2min/M2_tcc.c:1551-1587` | if statements; the number is taken before the branches count on |
| `M2Compiler.Compiler.ProcessWhile` | `m2min/M2_tcc.c:1729-1776` | while statements; the outer break target is restored |
| `M2Compiler.Compiler.ProcessDo` | `m2min/M2_tcc.c:1679-1726` | do statements; the outer break target is restored |
| `M2Compiler.Compiler.ProcessFor` | `m2min/M2_tcc.c:1589-1661` | for statements; the outer break target is restored |
| `M2Compiler.Compiler.RecursiveStatement` | `m2min/M2_tcc.c:1829-1872` | Blocks: the locals of the block are popped unless the code ends in a return, and go out of scope |
| `M2Compiler.Compiler.CollectArguments` | `m2min/M2_tcc.c:1925-1972` | Parameter lists of the modelled grammar, in order |
| `M2Compiler.Compiler.DefineFunction` | `m2min/M2_tcc.c:1974-1999` | A function definition of the modelled grammar: labels restart at 0, and a ret is added unless the code ends in one |
| `M2Compiler.Compiler.Program` | `m2min/M2_tcc.c:2033-2096` | The whole compiler in one pass over the tokens: fails exactly on what is not a program of the modelled grammar, and emits the code of the program otherwise |
| `M2RoundTrip.OperatorSpells` | `m2min/M2_tcc.c:1307-1367` | Each of the 18 operator tokens belongs to the one level of its operator; & and && are one operator, and so are | and || |
| `M2RoundTrip.ExpressionTrip` | `m2min/M2_tcc.c:1319-1443` | Parsing undoes printing: the tokens of any derivable expression, with each operator in any of its spellings and in any context that ends it, parse to that expression and nothing more |
| `M2Meaning.BinaryMeans` | `m2min/M2_tcc.c:1307-1367` | The tokens a t b; for any two words and each of the 18 operator tokens parse to an expression whose value is the sum, difference or product modulo 2^32, the truncating quotient or its remainder (nothing where the processor traps), a shift by the count modulo 32, 1 or 0 for a comparison, or the word with the conjunction, disjunction or difference of the operands in each of the 32 bits |
| `M2Meaning.UnaryMeans` | `m2min/M2_tcc.c:1388-1409` | The same for minus, not and complement |
| `M2Meaning.Grouping` | `m2min/M2_tcc.c:1307-1374` | Three operands and any two operator tokens: the right operator takes the middle operand exactly if it is on a tighter level, arithmetic before relational before bitwise; otherwise the left one does |
| `M2Meaning.DeclaredLast` | `m2min/M2_tcc.c:983-1047` | Which declaration a name refers to, one declaration after the other: a constant always, else the last local, else the last argument, else a function, else a global variable |
| `M2Rules.OneOutcome` | `m2min/M2_tcc.c:1874-1923` | However long a run is given to end, it ends in one way only |
| `M2Rules.IfRule` | `m2min/M2_tcc.c:1551-1587` | In the source semantics a branch is taken by whether the condition is nonzero |
| `M2Rules.WhileRule` | `m2min/M2_tcc.c:1729-1776` | A while loop is its body and then the loop again while the condition is nonzero; break ends it normally, return ends the function |
| `M2Rules.DoRule` | `m2min/M2_tcc.c:1679-1726` | The same for do, with the body before the test |
| `M2Rules.ForRule` | `m2min/M2_tcc.c:1589-1661` | The same for for: test, body, step, and again |
| `M2Rules.BlockRule` | `m2min/M2_tcc.c:1829-1872` | The locals of a block are gone behind it, the values of the others stay |
| `M2Rules.CallRule` | `m2min/M2_tcc.c:847-899` | Arguments are evaluated from left to right, and a call keeps the frame of its caller |
| `M2Rules.BodyRule` | `m2min/M2_tcc.c:1974-1999` | A call runs the body with the arguments bound in order, and its value is the one returned |
| `M2Examples.SumProgram` | `m2min/M2_tcc.c:1729-1776` | The tokens of a function with a while loop, for every n that is not negative: it returns n (n + 1) / 2 modulo 2^32 |
| `M2Examples.GcdProgram` | `m2min/M2_tcc.c:1551-1587` | The tokens of a recursive function with if and else, for all a and b that are not negative: it returns a number with exactly the common divisors of a and b |
| `M2Examples.RootProgram` | `m2min/M2_tcc.c:1589-1661` | The tokens of a file with a constant, a global variable and a function with a for loop, a local in its block and a break: it returns the integer square root and sets the global |
| `M2Examples.DigitsProgram` | `m2min/M2_tcc.c:1679-1726` | The tokens of a function with a do loop: it returns the number of decimal digits |
| `M2Compiled.GcdCompiled` | `m2min/M2_tcc.c:2033-2096` | Calling gcd in the text emitted for those tokens, with a and b on any stack, returns to the caller with a number in eax that has exactly the common divisors of a and b, and the stack below as it was |
| `M2RoundTrip.ChainThrough` | `m2min/M2_tcc.c:1307-1374` | An operand of a tighter level passes through a level unchanged and is continued by the operators of that level |
| `M2StatementTrip.StmtTrip` | `m2min/M2_tcc.c:1551-1923` | Parsing undoes printing for statements: the tokens of any derivable statement, in any scope, inside or outside loops, parse to that statement, with each else at its own if |
| `M2StatementTrip.AllTrip` | `m2min/M2_tcc.c:1829-1872` | The same for the statements of a block, each in the scope left by those before it |
| `M2StatementTrip.FileTrip` | `m2min/M2_tcc.c:1925-2096` | The same for whole files of constants, variables, prototypes and functions: exactly the functions written come out, each with the names known at its place |
| `M2StatementTrip.DanglingElse` | `m2min/M2_tcc.c:1551-1587` | An if without else may not be the branch before an else: printed so, it is read back as the other nesting |
| `M2LabelText.SpelledAlikeExactly` | `m2min/M2_tcc.c:1551-1776` | Two labels are spelled alike if and only if they are the same or a loop label of one function and one of another whose name begins with the rest of a longer prefix |
| `M2LabelText.SpelledAlikeExample` | `m2min/M2_tcc.c:1589-1613` | The for loop 0 of a function END_g has the label of the end of for loop 0 of a function g |
| `M2LabelText.ProgramSpelling` | `m2min/M2_tcc.c:1551-1776` | When no function name extends another one this way, all labels of a program are spelled differently |
| `M2Encoding.StepsAsEncoded` | `m2min/x86_defs.M1:18-94` | Every instruction that the compiler emits, other than transfers of control and the load of a global address, does to registers, comparison and memory what the bytes defined for its mnemonic do when they are decoded by opcode, register numbers and condition codes |
| `M2Encoding.JumpsAsEncoded` | `m2min/x86_defs.M1:31-33` | The conditional jumps go by the condition code in their second byte, je and jmp and jne to the first mark of their label |
| `M2Encoding.CallAsEncoded` | `m2min/x86_defs.M1:24` | E8 leaves the address behind it on the stack and goes to the function |
| `M2Encoding.RetAsEncoded` | `m2min/x86_defs.M1:75` | C3 goes to the address on top of the stack and removes it |
| `M2Encoding.PushedAt` | `m2min/x86_defs.M1:67-74` | The word pushed last is at the address in esp, the ones before it lie four bytes higher each |
| `LongDivision.UDivModDi4` | `tcc_10/libtcc1.c:145-359` | For every 64-bit n and d: the quotient is n / d and the remainder n % d; the hardware fault comes exactly for d = 0 |
| `LongDivision.DivideShifted` | `tcc_10/libtcc1.c:320-352` | The normalised branch on its own, with one correction step |
| `LongDivision.DigitEstimate` | `tcc_10/libtcc1.c:333-340` | Dividing by the top word of the normalised divisor: the estimate is never too small and at most one too large |
| `LongDivision.EstimateFits` | `tcc_10/libtcc1.c:327-333` | The high word is below the divisor at the hardware division, so it does not fault |
| `LongDivision.FinalDigit` | `tcc_10/libtcc1.c:333-351` | The digit after the conditional decrement is n / d, and the wrapped difference is the scaled remainder |
| `LongDivision.ScaledDivision` | `tcc_10/libtcc1.c:320-352` | Scaling both operands keeps the quotient and scales the remainder |
| `LongDivision.Normalise` | `tcc_10/libtcc1.c:325-331` | Shifts and ors over two words multiply the dividend by a power of two over three words |
| `LongDivision.NormaliseDivisor` | `tcc_10/libtcc1.c:325-328` | The same for the divisor, which then has its top bit set and still fits |
| `LongDivision.ShiftBack` | `tcc_10/libtcc1.c:344-351` | The stored remainder is shifted back exactly |
| `LongDivision.SchoolDivision` | `tcc_10/libtcc1.c:175-193` | Two digit divisions in a row divide a two-word number by one word |
| `LongDivision.TopBitDivision` | `tcc_10/libtcc1.c:292-319` | With the top bit set the quotient is 0 or 1, decided by one comparison |
| `DoubleWord.OrDisjoint` | `tcc_10/libtcc1.c:327-330` | An or of words with disjoint bits is their sum, at any width |
| `DoubleWord.Subb` | `tcc_10/libtcc1.c:111-118` | Two-word subtraction with borrow is subtraction modulo 2^64 |
| `DoubleWord.LeadingZerosNormalise` | `tcc_10/libtcc1.c:132-138` | bsr and xor 31 give the shift that brings the top bit of a word to the top |
| `LongDivision.DivDi3` | `tcc_10/libtcc1.c:363-384` | Signed division truncates toward zero for all pairs except minimum and -1, where it gives the minimum; it faults exactly for 0 |
| `LongDivision.QuotientFits` | `tcc_10/libtcc1.c:363-384` | The truncated quotient is representable exactly for the other pairs |
| `LongDivision.ModDi3` | `tcc_10/libtcc1.c:386-406` | The signed remainder is that of truncating division, for all pairs with a nonzero divisor |
| `LongDivision.SignedRemainder` | `tcc_10/libtcc1.c:386-406` | The remainder of the magnitudes, with the sign of the dividend, is the truncating one and is representable |
| `LongDivision.UDivDi3` | `tcc_10/libtcc1.c:408-411` | Unsigned quotient, with the fault for 0 |
| `LongDivision.UModDi3` | `tcc_10/libtcc1.c:413-419` | Unsigned remainder, with the fault for 0 |
| `ElfEntry.ElfHash` | `tcc_10/tccelf.c:34-46` | The loop computes the hash function of the names |
| `ElfEntry.HashFolds` | `tcc_10/tccelf.c:34-46` | The empty name has hash 0, and one more character makes sixteen times the hash plus the character, modulo 2^32, with the four top bits folded into bits 4 to 7 |
| `ElfEntry.ShortHash` | `tcc_10/tccelf.c:34-46` | Up to six ASCII characters hash to the sum of the characters times powers of sixteen |
| `ElfEntry.HashTopBits` | `tcc_10/tccelf.c:34-46` | Every hash value has its four top bits clear |
| `ElfEntry.LinearSkips` | `tcc_10/tccelf.c:133-154` | Skipping the entries of other buckets does not change a backward linear search |
| `ElfEntry.Chain` | `tcc_10/tccelf.c:83-129` | A chain word is 0 or a smaller index, so every walk ends |
| `ElfEntry.IndexAppend` | `tcc_10/tccelf.c:83-129` | Entering a symbol at the head of its bucket keeps buckets and chains those of the longer table |
| `ElfSymbolTable.IndexPatch` | `tcc_10/tccelf.c:171-219` | Overwriting an entry without changing its name or its being local keeps the index valid |
| `ElfSymbolTable.ViewAppend` | `tcc_10/tccelf.c:83-129` | Appending a record and a name changes no earlier entry's name |
| `ElfSymbolTable.SymbolTable.PutElfStr` | `tcc_10/tccelf.c:21-31` | A name is appended with its terminator and its old end is returned |
| `ElfSymbolTable.SymbolTable.RebuildHash` | `tcc_10/tccelf.c:50-80` | For any number of buckets the section is rebuilt into the index of the same symbols |
| `ElfSymbolTable.SymbolTable.PutElfSym` | `tcc_10/tccelf.c:83-129` | The entry is appended; the index is that of the new table and hashed symbols stay at most twice the buckets, also when the table is rebuilt |
| `ElfSymbolTable.SymbolTable.FindElfSym` | `tcc_10/tccelf.c:133-154` | The lookup ends and returns what a backward linear search over the non-local symbols returns |
| `ElfSymbolTable.SymbolTable.AddElfSym` | `tcc_10/tccelf.c:171-219` | Adds, patches, keeps or refuses a symbol as the resolution rules say, and the index stays valid; on an error nothing has changed |
| `ElfSymbolTable.SymbolTable.constructor` | `tcc_10/tccelf.c:697-723` | A new table holds the null symbol and a valid index |
| `ElfResolution.AllResolved` | `tcc_10/tccelf.c:171-219` | After any error-free sequence of additions each non-local name has one entry, which is one of the requests and is the strong definition if there was one, else a definition if there was one |
| `ElfResolution.StopsExactlyOnClash` | `tcc_10/tccelf.c:171-219` | An addition fails if and only if the name has a definition already that the request cannot join |
| `ElfResolution.ErrorFreeExactly` | `tcc_10/tccelf.c:171-219` | A sequence has no error if and only if no request clashes with those before it |
| `ElfResolution.DefinitionUnique` | `tcc_10/tccelf.c:171-219` | In an error-free sequence no name has two strong definitions, and two definitions include a strong one |
| `ElfResolution.Denotes` | `tcc_10/tccelf.c:171-219` | After all additions the lookup of a name finds its only entry: the strong definition, else the weak one, else undefined |
| `ElfResolution.OrderIrrelevant` | `tcc_10/tccelf.c:171-219` | Two error-free orders of the same requests give every defined name the same entry |
| `ElfResolution.OrderDecidesError` | `tcc_10/tccelf.c:171-219` | Whether there is an error does depend on the order: two weak definitions are accepted behind a strong one and refused before it |
| `ElfSort.SortSyms` | `tcc_10/tccelf.c:296-354` | The table becomes the stable partition, sh_info is the number of locals, and exactly the relocations of sections linked to the table are renumbered |
| `ElfSort.SortInto` | `tcc_10/tccelf.c:296-331` | The two passes build the partition and the new number of every symbol |
| `ElfSort.NewIndexRight` | `tcc_10/tccelf.c:303-331` | A symbol is found at its new number, which is below sh_info exactly for locals |
| `ElfSort.NewIndexOrder` | `tcc_10/tccelf.c:303-331` | New numbers are distinct, and two symbols change order only if a local one follows a non-local one |
| `ElfSort.PartitionPermutes` | `tcc_10/tccelf.c:296-331` | Nothing is lost or doubled |
| `ElfSort.LocalsFirst` | `tcc_10/tccelf.c:296-331` | The first sh_info symbols are the local ones |
| `ElfSort.SortedStays` | `tcc_10/tccelf.c:296-331` | A table with its locals first already is left alone, so sorting twice is sorting once |
| `ElfSort.RelocationKept` | `tcc_10/tccelf.c:338-351` | A renumbered relocation denotes the same symbol record, with the same type and place |
| `ElfSort.RenumberAll` | `tcc_10/tccelf.c:338-351` | Every relocation of a section is renumbered in place, once |
| `ElfRelocation.RelocationSection.PrepareDynamicRel` | `tcc_10/tccelf.c:531-560` | Counts the relocations that the dynamic linker will need, and reserves their size exactly if there are any |
| `ElfRelocation.RelocationSection.RelocateSection` | `tcc_10/tccelf.c:437-512` | The entries kept for the dynamic linker are compacted in place into exactly the counted number, in order, no unread entry is overwritten, and the section data gets the edits of all original entries. In an executable nothing is left for the dynamic linker; and with sites apart every relocation has its value at once: A + S for R_386_32 and A + S - P for R_386_PC32, where they are not left to the dynamic linker, and for both kinds of output A + S - P for PLT32, S for GLOB_DAT and JMP_SLOT, A + GOT - P, A + S - GOT and A + G |
| `ElfRelocation.RelocationSection.RelocateRel` | `tcc_10/tccelf.c:514-527` | Every entry of the section, kept or left over, is moved by the section address once |
| `ElfRelocation.DynamicOrigin` | `tcc_10/tccelf.c:437-512` | Every kept entry stems from one original relocation, and those before it from the ones before |
| `ElfRelocation.DynamicAt` | `tcc_10/tccelf.c:437-512` | Every relocation that needs one has its kept entry, at the place given by those before it |
| `ElfRelocation.StaticWord` | `tcc_10/tccelf.c:437-512` | With sites apart, each site's word is edited once, by its own relocation |
| `ElfRelocation.StaticValue` | `tcc_10/tccelf.c:437-512` | The same for one relocation, with the value of each type written from value, place and old word |
| `ElfRelocation.NothingDynamic` | `tcc_10/tccelf.c:437-512` | An executable keeps no entry for the dynamic linker |
| `ElfRelocation.RelocatedWhereverLoaded` | `tcc_10/tccelf.c:437-512` | For every DLL and every load address, each R_386_32 and R_386_PC32 site ends up with S + A and S + A - P after linking and loading, for any other relocations at sites apart from it |
| `ElfMerge.Linker.FindSection` | `tcc_10/tccelf.c:1487-1492` | Finds the first section of the name, and 0 exactly when there is none |
| `ElfMerge.Linker.MergeSections` | `tcc_10/tccelf.c:1472-1522` | Fails exactly when a section that is found has another type; otherwise each kept input section is the end of the section its name stands for, at the first aligned place behind what that held before, and what was loaded before is a prefix |
| `ElfMerge.Linker.UpdateLinks` | `tcc_10/tccelf.c:1524-1539` | The link, info and reloc of every section afterwards: new sections are linked with the sections their links went to, the last new relocation section for a section is its own, and all else is as before; it follows a null pointer exactly when the target of a new relocation section has no place |
| `ElfMerge.Linker.AddSymbols` | `tcc_10/tccelf.c:1541-1562` | Symbols are entered one by one with values and section numbers moved to the merged sections; the old numbers map to what add_elf_sym returned |
| `ElfMerge.Linker.PatchRelocations` | `tcc_10/tccelf.c:1564-1600` | Fails exactly when a relocation has a symbol that was not entered; otherwise exactly the new relocation entries are patched |
| `ElfMerge.Linker.Load` | `tcc_10/tccelf.c:1472-1600` | How loading ends, each ending with its exact condition; after a successful load all previous bytes are where they were, each input section is in its place unchanged, every relocation is moved with its target, keeps its type and names the new number of its symbol, and is applied to the section its target went to if and only if its section was attached, a condition on the input and the sections before |
| `ElfMerge.Linker.LoadAll` | `tcc_10/tccelf.c:1472-1600` | For any list of files loaded one after the other: at the end every section, relocation and symbol of every file is in place, input sections take ranges that do not overlap, the symbol table is what one sequence of add_elf_sym makes of all symbols, and relocations are applied where they were meant exactly if they were attached and no later file took their target; which is always so when relocation sections are named for their targets |
| `ElfMerge.AttachedExactly` | `tcc_10/tccelf.c:1524-1539` | A relocation section and the section its target went to name each other after a load if and only if, before it, the relocation section is new and the last one for its target, or was linked with the section of that name and nothing new takes it |
| `ElfMerge.NumbersAfter` | `tcc_10/tccelf.c:1524-1539` | Loading keeps that the relocation section of a section names that section, so that no relocation section is applied to two |
| `ElfMerge.GoneAstray` | `tcc_10/tccelf.c:1530-1538` | The relocations of a section that is not attached are applied to another section or to none |
| `ElfMerge.AppliedStays` | `tcc_10/tccelf.c:1524-1539` | Loading another file keeps what relocations are applied to, unless a new relocation section in it takes their target |
| `ElfMerge.ConventionalMore` | `tcc_10/tccelf.c:225-245` | If all relocation sections are named .rel and the name of their target, as put_elf_reloc names them, every load keeps them linked with the section of that name |
| `ElfMerge.ConventionalApplies` | `tcc_10/tccelf.c:225-245` | In such a table every relocation section of a loaded file is applied to the section its target went to |
| `ElfMerge.StaysInPlace` | `tcc_10/tccelf.c:1472-1600` | What one file has in place stays in place when another one is loaded |
| `ElfMerge.RelocationSymbol` | `tcc_10/tccelf.c:1585-1594` | With at most 2^24 symbols, what a relocation entry allows, the entry in the merged section decodes to a symbol with the name of the input symbol, and to the input type |
| `ElfMerge.OtherSections` | `tcc_10/tccelf.c:1487-1513` | With distinct input names two input sections never share a section |
| `ElfMerge.OutcomeRenumbered` | `tcc_10/tccelf.c:1564-1600` | The entry written for one input relocation |
| `ElfMerge.OutcomePreserved` | `tcc_10/tccelf.c:1564-1600` | What patching leaves alone |
| `ElfMerge.RelocationTarget` | `tcc_10/tccelf.c:1504-1600` | For a relocation section that is applied: the section named by its info has it as its own relocation section, and the byte at the moved offset there is the byte the input relocation pointed at, also after any later loads |
| `ElfMerge.SymbolByte` | `tcc_10/tccelf.c:1541-1562` | A local symbol of any loaded file names the byte in the merged section that it named in its file, also after any later loads; without a section, or with a reserved one, it keeps its number and value |
| `ElfMerge.SymbolsStay` | `tcc_10/tccelf.c:1541-1562` | Entering symbols leaves every symbol its entry: a local one as it was, another one with its name |
| `ElfMerge.SymbolResolved` | `tcc_10/tccelf.c:1541-1562` | At the end a symbol of any loaded file that is not local has the only entry of its name, which is the strong definition among the symbols of all files if there is one, else a definition if there is one |
| `ElfMerge.EnterIsAddAll` | `tcc_10/tccelf.c:1541-1562` | The symbols of a file change the table as the sequence of their additions does |
| `ElfDetached.MovedButNotApplied` | `tcc_10/tccelf.c:1524-1538` | A file that calls the relocations of its data .rel.text, behind one whose text has relocations of that name: the load succeeds, and the data has no relocation section while its relocations are in the text's |
| `ElfDetached.SecondTakesAll` | `tcc_10/tccelf.c:1524-1538` | Two relocation sections for one text: only the second is applied |
| `ElfDetached.FollowsNull` | `tcc_10/tccelf.c:1535` | A new relocation section for a section of another type follows a null pointer |
| `ElfAlign.MaskLow` | `tcc_10/tccelf.c:1137-1138` | Masking with the complement of 2^k - 1 clears the remainder modulo 2^k, at any width |
| `ElfAlign.AlignUpLeast` | `tcc_10/tccelf.c:1137-1138` | For a power of two the mask expression gives the least multiple that is not below the number |
| `ElfLayout.OrderPermutes` | `tcc_10/tccelf.c:1091-1163` | The section order is a permutation of all sections but the first, sorted by rank and stable |
| `ElfLayout.OrderArranged` | `tcc_10/tccelf.c:1091-1163` | Loaded sections come before others and read-only ones before writable ones; in a segment the interpreter name, tables of symbols, strings and hashes, relocations, contents, and what has no contents, equals in the order of their numbers |
| `ElfLayout.PlacedFresh` | `tcc_10/tccelf.c:1102-1133` | No section is placed twice |
| `ElfLayout.Layout.Run` | `tcc_10/tccelf.c:1071-1163` | The three nested loops and the last loop produce that order, and for each section in it the first aligned offset and the address behind those before |
| `ElfLayout.FileRanges` | `tcc_10/tccelf.c:1133-1158` | File ranges are aligned, lie behind the headers, and ascend without overlap in section order |
| `ElfLayout.AddressLead` | `tcc_10/tccelf.c:1135-1158` | The address runs ahead of the offset by the sizes of the NOBITS sections passed |
| `ElfLayout.CongruentExactly` | `tcc_10/tccelf.c:1083-1158` | A loaded section's address is congruent to its offset modulo the page size if and only if the NOBITS sections before it fill whole pages |
| `ElfLayout.NoNobits` | `tcc_10/tccelf.c:1135-1158` | Which holds up to and including the first nonempty NOBITS section |
| `ElfLayout.WriteFile` | `tcc_10/tccelf.c:1349-1367` | The write loop puts every section with contents at its offset, keeps the headers, and pads to a multiple of 4 where the section headers start |
| `BoundsTable.Bounds.constructor` | `tcc_10/bcheck.c:298-313` | An empty table stands for no regions |
| `BoundsTable.Bounds.GetPage` | `tcc_10/bcheck.c:329-339` | A page made on demand changes no granule's list |
| `BoundsTable.Bounds.FindRegion` | `tcc_10/bcheck.c:117-142` | Finds the live region that has the address if there is one; moving it to the front keeps every list's regions |
| `BoundsTable.Bounds.PtrAdd` | `tcc_10/bcheck.c:163-184` | From inside a live region the result is p + offset if and only if the wrapped distance stays within the region, otherwise the invalid pointer; outside all regions it is p + offset |
| `BoundsTable.Bounds.PtrIndir` | `tcc_10/bcheck.c:188-208` | The same with the access size |
| `BoundsTable.AddExact` | `tcc_10/bcheck.c:163-184` | The test decides membership of the closed region exactly for all regions below 2 GiB, and only for those |
| `BoundsTable.IndirExact` | `tcc_10/bcheck.c:188-208` | The test decides whether the end of the access is in the closed region, for all addresses and offsets, if and only if region and access together are at most 2 GiB |
| `BoundsTable.IndirStraddles` | `tcc_10/bcheck.c:188-208` | Below that bound no access inside its region is refused, and the wrongly accepted ones are exactly those that begin below the region and end in it |
| `BoundsTable.IndirExample` | `tcc_10/bcheck.c:188-208` | Eight bytes at four below the start of a region are accepted |
| `BoundsTable.Bounds.GetRegionSize` | `tcc_10/bcheck.c:651-667` | The size of the live region that starts at p, or the empty size if none does |
| `BoundsTable.Bounds.NewRegion` | `tcc_10/bcheck.c:467-529` | For a region of any length and disjoint from the live ones: afterwards each granule lists exactly the live regions that meet it, the new one included |
| `BoundsTable.Bounds.RemoveEntry` | `tcc_10/bcheck.c:532-570` | The first entry that has the address is unlinked and no other |
| `BoundsTable.Bounds.DeleteRegion` | `tcc_10/bcheck.c:574-649` | Refuses an address at which no live region starts; otherwise the table represents the remaining regions if and only if the region lies in one first-level page or its last byte offset equals its page number |
| `BoundsTable.UndeletableExample` | `tcc_10/bcheck.c:639-646` | A region of 0x200 bytes from 0x7FF00 is one for which that fails |
| `BoundsTable.DeletedButListed` | `tcc_10/bcheck.c:467-649` | Adding that region to an empty table and deleting it leaves a table that does not represent the empty set |
| `BoundsTable.Bounds.DeleteLastPage` | `tcc_10/bcheck.c:639-646` | The last page is taken by a byte offset instead of a page number, which leaves stale entries unless the two agree |
| `BoundsChain.HitUnique` | `tcc_10/bcheck.c:117-142` | At most one entry of a granule has the address |
| `BoundsChain.AddStep` | `tcc_10/bcheck.c:447-466` | Adding at the head keeps a granule's list exact |
| `BoundsChain.RemoveStep` | `tcc_10/bcheck.c:532-570` | Removing keeps a granule's list exact |
| `BoundsChain.InteriorAlone` | `tcc_10/bcheck.c:613-637` | Inside a region its granules list that region alone, so clearing the head is enough |
| `BoundsChain.SwapLists` | `tcc_10/bcheck.c:117-142` | Exchanging head and hit keeps a granule's list exact |
| `JumpLists.CodeBuffer.Oad` | `tcc_10/i386-gen.c:135-147` | Appends an opcode and a word and returns the place of the word |
| `JumpLists.CodeBuffer.Psym` | `tcc_10/i386-gen.c:130-147` | A new jump is the head of the list that it extends |
| `JumpLists.CodeBuffer.GsymAddr` | `tcc_10/i386-gen.c:114-123` | The walk ends; exactly the holes of the list are made to jump to the target and no other byte changes; all other lists stay |
| `JumpLists.CodeBuffer.Gsym` | `tcc_10/i386-gen.c:125-128` | The same with the end of the code as target |
| `JumpLists.CodeBuffer.Gjmp` | `tcc_10/i386-gen.c:475-479` | A jump with the list behind it |
| `JumpLists.CodeBuffer.Gtst` | `tcc_10/i386-gen.c:488-528` | For a comparison, pending jumps, a constant or a register, and both polarities: once the list is patched to a target, running the code added on an 80386 goes to the target if and only if the truth of the operand differs from inv, and otherwise falls through behind the code; which list results, which is patched here, and which bytes are added |
| `JumpLists.CodeBuffer.TestList` | `tcc_10/i386-gen.c:488-528` | The test of pending jumps: those with the wanted outcome join the list and the others land here, and where the code would otherwise fall through with the wanted outcome a jump is added for it |
| `JumpLists.CodeBuffer.AppendList` | `tcc_10/i386-gen.c:498-504` | Overwriting the last hole of a list with the head of another concatenates them |
| `JumpLists.CodeBuffer.LoadJump` | `tcc_10/i386-gen.c:237-242` | Falling through loads 0 or 1, arriving by any of the pending jumps loads the other |
| `JumpLists.ThreadsUnique` | `tcc_10/i386-gen.c:114-123` | A head determines its list, so lists are acyclic |
| `JumpLists.ExtendedSound` | `tcc_10/i386-gen.c:135-147` | Extending keeps all lists threaded, disjoint and apart |
| `JumpLists.MergedSound` | `tcc_10/i386-gen.c:498-504` | Merging keeps all lists threaded, disjoint and apart; the merge is the concatenation |
| `JumpLists.PatchedSound` | `tcc_10/i386-gen.c:114-123` | Patching keeps all other lists, and earlier patched jumps where they land |
| `JumpLists.AllLanded` | `tcc_10/i386-gen.c:114-128` | Once no list is open, every jump emitted reaches its target, in 32-bit arithmetic |
| `OtccGenerator.Generator.Psym` | `otccelf/otccelfn.c:355-367` | A jump or test is linked in front of a list through its own operand |
| `OtccGenerator.Generator.Gsym` | `otccelf/otccelfn.c:330-352` | Every hole of the list is patched once to jump to the end of the code, nothing else changes |
| `OtccGenerator.Generator.Gjmp` | `otccelf/otccelfn.c:374-377` | A jump whose displacement is known |
| `OtccGenerator.Generator.Sum` | `otccelf/otccelfn.c:526-566` | One pass over an expression: the code is that of the expression, with no hole left open |
| `OtccGenerator.Generator.Chain` | `otccelf/otccelfn.c:533-545` | The operands of an && or || chain with one pending list for all of them |
| `OtccGenerator.Generator.TestExpr` | `otccelf/otccelfn.c:574-578` | A condition and a pending jump if it is zero |
| `OtccGenerator.Generator.Block` | `otccelf/otccelfn.c:580-647` | Any statement: its code, with its breaks in front of the list of the enclosing loop and its returns in front of the function's list; every other hole has landed |
| `OtccGenerator.Generator.IfThen` | `otccelf/otccelfn.c:584-602` | if without else |
| `OtccGenerator.Generator.IfElse` | `otccelf/otccelfn.c:584-602` | if with else |
| `OtccGenerator.Generator.WhileLoop` | `otccelf/otccelfn.c:603-633` | while: the breaks share the list of the failed test and land behind the loop |
| `OtccGenerator.Generator.ForLoop` | `otccelf/otccelfn.c:603-633` | for: the step is emitted before the body and run after it |
| `OtccGenerator.Generator.Function` | `otccelf/otccelfn.c:671-692` | A whole function: every hole emitted is patched, returns land on the epilogue, and code of earlier functions is untouched |
| `OtccCorrect.ExprRuns` | `otccelf/otccelfn.c:526-566` | The code of an expression computes what the expression means, for any meaning of the straight-line parts |
| `OtccCorrect.LogicRuns` | `otccelf/otccelfn.c:533-565` | A chain stops at the first operand that decides and leaves 0 or 1 |
| `OtccCorrect.StmtRuns` | `otccelf/otccelfn.c:580-647` | Whenever a statement's run ends, its code arrives behind it, at the break target or at the return target, in the same state |
| `OtccCorrect.WhileRuns` | `otccelf/otccelfn.c:603-633` | while loops, by induction on the run |
| `OtccCorrect.ForRuns` | `otccelf/otccelfn.c:603-633` | for loops, with each of the three parts optional |
| `OtccMeaning.AndStops` | `otccelf/otccelfn.c:533-565` | In the source meaning && evaluates up to the first operand that is 0 and is then 0; without one it evaluates all operands and is 1 |
| `OtccMeaning.OrStops` | `otccelf/otccelfn.c:533-565` | The same for ||, which stops at the first operand that is not 0 |
| `OtccMeaning.CountDown` | `otccelf/otccelfn.c:603-633` | A while loop that adds n, n - 1, ... computes n (n + 1) / 2, for every n |
| `OtccMeaning.AddUp` | `otccelf/otccelfn.c:603-633` | So does a for loop without a test, with an if, an else and a break |
| `OtccGenerator.NoStrayBreak` | `otccelf/otccelfn.c:580-647` | With breaks inside loops only, no run leaves a function body by a break |
| `OtccGenerator.FunctionCorrect` | `otccelf/otccelfn.c:671-692` | From start to epilogue a function body does what its source means |
| `ElfLoader.Loader.GenUndExports` | `otccelf/elf_loader.c:447-544` | Collects the definitions and the undefined symbols in order and makes defined values absolute: the first export of each name is the first symbol that is an object or a function, defined, global and of that name, with the section base plus its value; there is none exactly if there is no such symbol; and the undefined objects and functions are listed |
| `ElfLoader.Loader.FindSym` | `otccelf/elf_loader.c:547-598` | The first matching export in object order, else what the host knows |
| `ElfLoader.Loader.ResolveUnd` | `otccelf/elf_loader.c:600-640` | Succeeds if and only if every undefined symbol is found; then every undefined symbol has the address found before any was written |
| `ElfLoader.Loader.RelocateSection` | `otccelf/elf_loader.c:690-769` | Succeeds if and only if all types are supported; then memory has exactly the edits of all entries |
| `ElfLoader.Loader.Relocate` | `otccelf/elf_loader.c:771-786` | Both sections of an object, and the object is marked |
| `ElfLoader.Loader.Link` | `otccelf/elf_loader.c:788-838` | The phases together, over any number of links: it succeeds if and only if every undefined object or function stands for an address other than 0 and all relocation types of the new objects are 1 or 2. A name stands for the section base plus the value of the first symbol, in object order and then table order, that is an object or a function, defined, global and of that name, and for what the host knows only if no object has one; every symbol ends with that value or its own absolute one; no object that was linked is relocated again |
| `ElfLoaderSpec.ResolvedValues` | `otccelf/elf_loader.c:600-640` | Each symbol after resolution: the address found, its section plus its value, or as it was |
| `ElfLoaderSpec.LookupByExports` | `otccelf/elf_loader.c:547-598` | The lookup depends on the exports only, so resolving does not change what is found later |
| `ElfLoader.DenotedExactly` | `otccelf/elf_loader.c:547-598` | What find_sym answers is what the name stands for, read off the symbol tables, and nothing else is |
| `ElfLoader.LinkMeans` | `otccelf/elf_loader.c:788-838` | The same for the phases of link: when they succeed, what they bind every symbol to, and that the tables of linked objects go on saying what their symbols say |
| `ElfLoader.SymbolMeans` | `otccelf/elf_loader.c:447-640` | S of any symbol of an object linked now, read off the symbol tables |
| `ElfLoader.SymbolFinal` | `otccelf/elf_loader.c:447-640` | Every symbol of an object linked now ends with S: the first export of its name, or section base plus value |
| `ElfLoader.LinkedWord` | `otccelf/elf_loader.c:690-838` | With sites apart, the word at every relocation after linking: original plus S for R_386_32, S - P - 4 for R_386_PC32 |
| `ElfLoader.AbiExactly` | `otccelf/elf_loader.c:690-838` | For every relocation of a link: the word has the value S + A or S + A - P of the ABI supplement if and only if the relocation is absolute or its addend was -4 |
| `ElfLoader.LinkTwice` | `otccelf/elf_loader.c:788-838` | Linking again changes no symbol and no byte |
| `QuickSort.SwapBytes` | `tcc_10/libc_min.c:646-657` | The loop over bytes exchanges two elements of any size, or one with itself, and touches no other byte |
| `QuickSort.QSwap` | `tcc_10/libc_min.c:646-657` | The same for whole elements of an array |
| `QuickSort.QPart` | `tcc_10/libc_min.c:659-679` | The loop over the array does what the partition of the sequence does, and stays in its range |
| `QuickSort.PartedFacts` | `tcc_10/libc_min.c:659-679` | The two parts are split if and only if nothing greater than the pivot precedes something equal to it; the left part is empty exactly when the pivot is the strict minimum, which then no longer is last |
| `QuickSort.QSort` | `tcc_10/libc_min.c:681-691` | Ends for every input under a total preorder although the second call may be as long, and leaves in its range what the recursion on sequences gives |
| `QuickSort.SortingPermutes` | `tcc_10/libc_min.c:681-691` | The result is a permutation, whatever the keys |
| `QuickSort.SortedExactly` | `tcc_10/libc_min.c:681-691` | The result is sorted if and only if in no call of the recursion an element greater than the pivot precedes one equal to it |
| `QuickSort.RepeatsSorted` | `tcc_10/libc_min.c:681-691` | An input is sorted if each key that occurs twice is the greatest one or stands in order, nothing greater before its last occurrence and nothing less behind its first: a condition on the array before the call |
| `QuickSort.UncleanUnsorted` | `tcc_10/libc_min.c:681-691` | An input in which an element greater than the last one precedes an element equal to it is not sorted |
| `QuickSort.DistinctSorted` | `tcc_10/libc_min.c:681-691` | That covers distinct keys and arrays that are sorted already |
| `QuickSort.UnsortedExample` | `tcc_10/libc_min.c:681-691` | 9, 5, 5 is not sorted |
| `Numerals.InSet` | `M2libc/bootstrappable.c:55-66` | Membership of a character in a string |
| `Numerals.IndexNumber` | `M2libc/bootstrappable.c:69-78` | The first place of the character, or -1 |
| `Numerals.SetReader` | `M2libc/bootstrappable.c:88-121` | The value of the digits, with their sign, in wrapping arithmetic, and 0 if a foreign character follows |
| `Numerals.StrToInt` | `M2libc/bootstrappable.c:123-154` | For every text: behind 0b, 0x, 0 or nothing, the sum of the digits times powers of the base 2, 16, 8 or 10, negated behind a minus sign, modulo 2^32, with letters of either case worth 10 to 15; and 0 if a character is no digit of the base |
| `Numerals.Int2Str` | `M2libc/bootstrappable.c:157-194` | The numeral of any 32-bit number in any base from 2 to 36, and nothing for other bases: digits and upper-case letters without a leading zero whose sum with powers of the base is the unsigned number, or the magnitude behind a minus sign |
| `Numerals.FillDigits` | `M2libc/bootstrappable.c:180-193` | The digits are written from the end and every write stays inside the 34-byte buffer |
| `Numerals.SignBit` | `M2libc/bootstrappable.c:152-153` | The sign extension for wider hosts changes no negative 32-bit result |
| `Numerals.ValueMeant` | `M2libc/bootstrappable.c:88-154` | The digit sets, the case of letters and the accumulation of the reader make that sum, for every text |
| `Numerals.DigitsMean` | `M2libc/bootstrappable.c:180-193` | The digits printed for a number are its positional numeral |
| `Numerals.HexAnyCase` | `M2libc/bootstrappable.c:123-154` | A hexadecimal numeral with its letters in either case reads back as the number |
| `Numerals.ReadDigits` | `M2libc/bootstrappable.c:88-121` | Reading the digits of a number inside any text yields the number, wrapped |
| `Numerals.DecimalRoundTrip` | `M2libc/bootstrappable.c:123-194` | Reading back the signed decimal numeral gives the number, for all 32-bit numbers, the least one included |
| `Numerals.PrefixRoundTrip` | `M2libc/bootstrappable.c:123-194` | The same for unsigned numerals in bases 2, 8 and 16 behind 0b, 0 and 0x |
| `LabelText.NumeralInjective` | `m2min/M2_simple_asm.c:355-398` | Two numbers with the same numeral are equal |
| `LabelText.UniqueIdDecodes` | `m2min/M2_simple_asm.c:644-651` | A function name and a number can be read back from the label text made of them |
| `SimpleAsmLabels.SpellInjective` | `m2min/M2_simple_asm.c:888-985` | Two labels of any kinds are spelled alike only if they are equal |
| `SimpleAsmLabels.Generator.Expression` | `m2min/M2_simple_asm.c:796-851` | Fails exactly on an unknown name or a call of something else than a function; otherwise emits, in order, the uses of strings, global variables and functions, and the string literals, numbered by the count of the function |
| `SimpleAsmLabels.Generator.Variable` | `m2min/M2_simple_asm.c:796-826` | A name is looked up among locals, arguments, functions and global symbols, in that order |
| `SimpleAsmLabels.Generator.FunctionCall` | `m2min/M2_simple_asm.c:674-715` | The arguments one by one, then the use of the function |
| `SimpleAsmLabels.Generator.ProcessIf` | `m2min/M2_simple_asm.c:888-921` | The lines of an if, and the count behind it |
| `SimpleAsmLabels.Generator.ProcessWhile` | `m2min/M2_simple_asm.c:936-985` | The lines of a while; the break target of the enclosing loop is restored |
| `SimpleAsmLabels.Generator.Statement` | `m2min/M2_simple_asm.c:1012-1075` | Every statement, with break as a jump to the end of the innermost loop, declarations in scope until the block ends, and failure exactly on an unresolved name |
| `SimpleAsmLabels.Generator.DeclareFunction` | `m2min/M2_simple_asm.c:1109-1145` | A function or a prototype: numbering restarts at 0, and the function is known in its own body |
| `SimpleAsmLabels.Generator.Program` | `m2min/M2_simple_asm.c:1147-1192` | The three output lists of a whole program, which is accepted exactly when every name in it was declared before |
| `SimpleAsmLabels.LoopShape` | `m2min/M2_simple_asm.c:936-985` | The lines of a while: the jump at its end goes back to the label in front, the failed test and every break of its body go to the label behind, which is another one |
| `SimpleAsmLabels.BranchShape` | `m2min/M2_simple_asm.c:888-921` | The lines of an if: a failed test goes behind the first branch and the jump that ends it, which goes behind the second one |
| `SimpleAsmLabels.StatementLabels` | `m2min/M2_simple_asm.c:888-1024` | A statement defines each of its labels once, numbered from the count before it to the count behind it, and of numbered labels it uses only those and the break target |
| `SimpleAsmLabels.StatementOutside` | `m2min/M2_simple_asm.c:674-826` | The other labels it uses are those of exactly the functions it calls, and of symbols that are no functions |
| `SimpleAsmLabels.ProgramLabels` | `m2min/M2_simple_asm.c:1147-1192` | In a program with distinct names every label is defined at most once, every use of a string, a jump target or a global variable is defined, and all uses are defined if and only if every function that is called has a body |
| `SimpleAsmLabels.CalledPrototype` | `m2min/M2_simple_asm.c:1115-1121` | A program that is accepted and calls a function it only declares |
| `SimpleAsmLabels.LabelsOnce` | `m2min/M2_simple_asm.c:1147-1192` | The same of the lines of text that are emitted: no two label lines are alike, and every use has its line if and only if every function called has a body |

## Left out

M2 compiler:

- Arrays, pointers, strings, `sizeof`, `asm`, char and unsigned types, variables of function type and function addresses: the model is the int fragment.
- Addresses are symbolic (a stack cell, a global, a code label) and the stack is unbounded.
- Declarations that are a loop body, a branch or a function body by themselves are rejected by the model; the compiler accepts them and loses the stack balance.
- M2Program.CompilerCorrect: calls of `main` have no result in the source semantics. Its first local has depth -20, which fits a frame made by startup code that is not part of this model; its code, labels and stack balance are covered.
- M2Compiler.Compiler.CollectLocal: a name is an identifier token that is no keyword; the compiler accepts every token outside its list of forbidden first characters.
- M2Compiler.Compiler.CollectArguments: the same for parameter names.
- M2Compiler.Compiler.DefineFunction: a declaration as the whole function body is refused; the compiler accepts it.
- M2Compiler.Compiler.Program: the same for names of functions and globals, for declarations as branches and loop bodies, and for types other than int.
- M2StatementTrip.StmtTrip: an expression statement that starts with a variable called like a keyword is not printed.
- M2Correct.StmtCorrect: a source run that meets an indeterminate operand, a division fault, or no end is not related to the code; `AlwaysBalanced` and `BalancedUnlessOverwritten` cover the stack on those runs.
- M2Balance.AlwaysBalanced: states the run of the code with labels told apart by kind, function and number; by `TextRuns` it is the run of the text when labels do not clash.
- The assembler and linker behind the text: a label is the place of its line. Displacements of jumps and calls and addresses of globals, which they fill in, are symbolic.
- M2Encoding.StepsAsEncoded: the flags are the two numbers compared last, which is all that the condition codes after cmp and test depend on here; carry, overflow and the flags of other instructions are not kept.
- Comments in the emitted text, line numbers and error messages.

Division:

- `__sardi3`, `__shrdi3`, `__shldi3` and the conversions between floating point and integers.

ELF:

- Byte layout of symbol records: symbols are records, the hash section is a sequence of numbers, and bucket counts do not wrap at 32 bits.
- ElfResolution.AllResolved: tables other than the dynamic one; what the dynamic table does on a second definition is in `Add` and `AddElfSym` only.
- ElfSort.SortSyms: symbol numbers are below 2^24, which is what a relocation entry can hold.
- Building the global offset table, dynamic section, program headers, and the sizes taken from the prepare step.
- ElfMerge.Linker.Load: the tables of the input file are values, names are whole strings, section flags and entry sizes are not kept, and alignment is unbounded; `RoundUpLeast` says where that agrees with the mask. Section names within a file are distinct: of two relocation sections of one name the third pass would patch the second one's entries twice.
- ElfLayout.FileRanges: offsets stay below 2^32.
- Archives, linker scripts, dynamic libraries, stabs.

Bounds table:

- Failing allocation, freed entries, `mark_invalid` and the invalid page. A granule's linked list is a sequence, so its cells and their reuse are not modelled.

Jumps:

- JumpLists.CodeBuffer.Gtst: operands in floating point registers, and loading an operand into a register, which happens before; code stays below 2^31 bytes and reallocation is implicit.
- OtccGenerator.Generator.Block: straight-line code is an atom with a length and any meaning; so are calls, and assignments. Displacements are unbounded, absolute references are not patched, and local declarations emit nothing.
- OtccGenerator.Generator.Gsym: the test that tells an absolute reference by the byte 0x05 before it; the byte before the operand of a jump is e9, 84 or 85, so jump lists never take that branch.
- OtccGenerator.Generator.Function: a break outside loops writes through a null list pointer and is excluded.

Loader:

- Objects are values, so an object listed twice is two objects. Export and undefined tables have 1024 entries and must not be full. A symbol at address 0 counts as missing, as in the code. Printing and file decoding.

Sorting:

- QuickSort.QSwap: elements are exchanged whole here; `SwapBytes` is the byte loop, and the two are not put on one array of bytes.
- QuickSort.SortedExactly: its condition is evaluated along the recursion; the conditions on the array alone, `RepeatsSorted` and `UncleanUnsorted`, are not each other's converse.

Numerals and labels:

- Numerals.Int2Str: allocation does not fail; strings have no NUL inside.
- SimpleAsmLabels.Generator.Statement: lines without labels, `asm` lines, tokens and parsing; the break target outside loops is null in the source and is excluded.
- The variants of these programs in the same directories.
