# A verified model of a teaching compiler's pipeline

The modelled system compiles a tiny assignment/return language to RISC-V
assembly in five stages. This project models each stage in Dafny, following
the Java source class by class:

- **Lexer** (`Lexing`, lexer.dfy). `LexicalAnalyzer.run` is a position-indexed
  scan over the loaded text. It skips whitespace and reads maximal identifier
  and digit runs. It maps the nine punctuation characters to tokens and
  appends one end-of-input token `$`. It registers every non-keyword
  identifier in the symbol table. An unrecognized character stops it with an
  error.
- **Symbol table** (`SymbolTables`, symtab.dfy). A map from identifier text to
  an entry, with these operations:
  - add-if-absent insertion;
  - a lookup that fails on a missing key;
  - a membership test;
  - a dump sorted by Java's `String.compareTo`.
- **LR driver** (`SyntaxAnalysis`, parser.dfy). `SyntaxAnalyzer.run` is a
  shift/reduce/accept automaton over a state stack and a symbol stack kept in
  lockstep. It notifies the registered observers, in registration order,
  before each change. The parsing table (`ParseTable`, table.dfy) is a value
  with `init`, `action` and `goto`. The stack element `Symbol` (`ParseSymbols`,
  symbol.dfy) is a datatype.
- **IR builder** (`IRGeneration`, irgen.dfy). `IRGenerator` is the observer.
  It keeps a value stack parallel to the driver's symbol stack. It emits one
  `MOV`, `RET`, `ADD`, `SUB` or `MUL` per statement or arithmetic reduction.
  It draws fresh temporaries from a counter (`IRCode.TempAllocator`, ir.dfy).
- **Code generator** (`AsmGeneration`, asm.dfy). `AssemblyGenerator` has three
  parts:
  - `loadIR` simplifies the IR: it truncates after the first RET, folds
    constants with 32-bit wrap-around, commutes `imm + var`, and moves
    SUB/MUL immediates into fresh temporaries;
  - `VariableToRegister` is a greedy allocator over `t0..t6` with eviction of
    registers that no later operand reads;
  - `run` emits one line per instruction and stops after RET. The lines are
    RV32I `add`/`addi`/`sub`, `mul` from the M extension, and the `li`/`mv`
    pseudo-instructions.

Java exceptions become `Err` values of a `Result`, and Java `null` becomes
`None`. Java's 32-bit `int` arithmetic is written out explicitly (`Wrap32`).

Each stateful source class is a Dafny `class`. Its loops are methods with
invariants, and each method is proved against a specification function:

| Method | Specification function |
|---|---|
| lexer `Run` | `Scan` |
| driver `Run` | `Drive` |
| `WhenReduce` | `Reduced` |
| `LoadIR` | `Simplify` |
| assembly `Run` | `Line`, through `Emitted` |

The properties of those functions are proved as lemmas:

- the scanned tokens spell out the input's non-whitespace characters;
- the driver consumes its input in order, and accept is the last event;
- every temporary the IR builder draws is fresh;
- simplification preserves the program's returned value and leaves no
  immediate in SUB or MUL;
- eviction never takes a register an operand of the remaining instructions
  holds;
- each emitted line computes its instruction on the register file.

## Model

| member | source | states |
|---|---|---|
| SymbolTables.SymbolTable.constructor | template/src/cn/edu/hitsz/compiler/symtab/SymbolTable.java:22-24 | The table starts empty. |
| SymbolTables.SymbolTable.Get | template/src/cn/edu/hitsz/compiler/symtab/SymbolTable.java:33-38 | Succeeds exactly when the text is present. The result is then the stored entry, filed under that text. Otherwise the error is SymbolNotFound(text). |
| SymbolTables.SymbolTable.Add | template/src/cn/edu/hitsz/compiler/symtab/SymbolTable.java:47-56 | Add-if-absent. On a present key the map is unchanged and the existing entry is returned. Otherwise exactly one entry (text, no type) is added. The filing invariant is kept. |
| SymbolTables.AddEntry | template/src/cn/edu/hitsz/compiler/symtab/SymbolTable.java:47-56 | The keys become the old keys plus `text`. Every old entry is unchanged. A new key gets an entry with no type. |
| SymbolTables.AddEntryIdempotent | template/src/cn/edu/hitsz/compiler/symtab/SymbolTable.java:49-51 | A second `add` of the same text changes nothing. |
| SymbolTables.AddEntryWellFiled | template/src/cn/edu/hitsz/compiler/symtab/SymbolTable.java:53-55 | Adding keeps every entry filed under its own text. |
| SymbolTables.SymbolTable.Has | template/src/cn/edu/hitsz/compiler/symtab/SymbolTable.java:64-66 | True exactly when an entry exists for the text. |
| SymbolTables.AddThenHas | template/src/cn/edu/hitsz/compiler/symtab/SymbolTable.java:47-66 | After `add(text)`, `has(text)` holds. A second `add` leaves the map as the first left it. |
| SymbolTables.StrLessIrreflexive | template/src/cn/edu/hitsz/compiler/symtab/SymbolTable.java:84 | The dump's text order (`String.compareTo`) never puts a text before itself. |
| SymbolTables.StrLessTransitive | template/src/cn/edu/hitsz/compiler/symtab/SymbolTable.java:84 | The dump's text order is transitive. |
| SymbolTables.StrLessTotal | template/src/cn/edu/hitsz/compiler/symtab/SymbolTable.java:84 | Any two distinct texts are ordered one way or the other. |
| SymbolTables.InsertByText | template/src/cn/edu/hitsz/compiler/symtab/SymbolTable.java:83-84 | Inserting a new text into a sorted dump keeps it strictly sorted. It adds exactly that line and keeps all the others. |
| SymbolTables.SymbolTable.DumpTable | template/src/cn/edu/hitsz/compiler/symtab/SymbolTable.java:82-90 | One line per entry, with exactly the table's texts. Lines are strictly ascending by text. Each line carries its entry's type. |
| Lexing.LexicalAnalyzer.constructor | template/src/cn/edu/hitsz/compiler/lexer/LexicalAnalyzer.java:29-32 | Keeps the given symbol table. The token list starts empty. |
| Lexing.LexicalAnalyzer.LoadFile | template/src/cn/edu/hitsz/compiler/lexer/LexicalAnalyzer.java:40-52 | The text to scan is the lines, each followed by the separator. Its non-whitespace characters are those of the lines, in order. |
| Lexing.JoinLinesNonWhitespace | template/src/cn/edu/hitsz/compiler/lexer/LexicalAnalyzer.java:45-51 | The separators `loadFile` adds are whitespace, so they contribute nothing the scanner keeps. |
| Lexing.PunctKind | template/src/cn/edu/hitsz/compiler/lexer/LexicalAnalyzer.java:94-130 | Defined exactly for `+ - * / ( ) = , ;`. Each maps to the same-named kind, and `;` maps to `Semicolon`. No such character is whitespace, a letter, a digit or `_`. |
| Lexing.RunEnd | template/src/cn/edu/hitsz/compiler/lexer/LexicalAnalyzer.java:69-88 | The end of the maximal run of identifier characters (or of digits) from a position. Every character before it qualifies and the one at it does not. |
| Lexing.LexicalAnalyzer.ReadRun | template/src/cn/edu/hitsz/compiler/lexer/LexicalAnalyzer.java:68-88 | The inner `StringBuilder` loops stop at the end of the maximal run and collect exactly its text. |
| Lexing.ScanFrom | template/src/cn/edu/hitsz/compiler/lexer/LexicalAnalyzer.java:60-135 | The tokens the loop appends from a position on, and the error that stops it. There is at most one token per remaining character, and an error lies at a position inside the rest of the text. |
| Lexing.Scan | template/src/cn/edu/hitsz/compiler/lexer/LexicalAnalyzer.java:60-135 | The scan of the whole text: at most one token per character, and an error, if any, at a position inside the text. |
| Lexing.LexicalAnalyzer.ReadIdentifier | template/src/cn/edu/hitsz/compiler/lexer/LexicalAnalyzer.java:66-82 | Reads the maximal identifier run. A text in the kind table gives a keyword token and leaves the symbol table unchanged. Any other text gives an `id` token and is added to the table. |
| Lexing.LexicalAnalyzer.ReadToken | template/src/cn/edu/hitsz/compiler/lexer/LexicalAnalyzer.java:66-130 | One token-producing iteration: the position strictly advances, and the tokens so far are the scan's up to the new position. The symbol table gains the text exactly for an `id` token. |
| Lexing.LexicalAnalyzer.Run | template/src/cn/edu/hitsz/compiler/lexer/LexicalAnalyzer.java:58-137 | Appends the scan's tokens, then one `$` token exactly when no character was unrecognized. The error is the scan's. The symbol table becomes the old one plus every identifier token's text, added in order. |
| Lexing.ScanTokensWellFormed | template/src/cn/edu/hitsz/compiler/lexer/LexicalAnalyzer.java:66-130 | Each scanned token is one of: a keyword from the kind table with no text; a punctuation token; an `id` token whose text starts with a letter, has only letters, digits and `_`, and is not a keyword; or an `IntConst` token whose text is a non-empty digit string. None is `$`. |
| Lexing.ScanSpellsInput | template/src/cn/edu/hitsz/compiler/lexer/LexicalAnalyzer.java:60-135 | On success, the tokens spelled back in order give exactly the input's non-whitespace characters. No character is lost, duplicated or reordered. When the kind table lists `Semicolon`, the text must not contain the identifier `Semicolon`. |
| Lexing.SemicolonWordReadsAsSemicolon | template/src/cn/edu/hitsz/compiler/lexer/LexicalAnalyzer.java:66-80 | With `Semicolon` in the kind table, the identifier `Semicolon` scans as the `;` token and spells back as `;`. |
| Lexing.ScanErrorIsUnrecognized | template/src/cn/edu/hitsz/compiler/lexer/LexicalAnalyzer.java:92-133 | The scan stops with an error only at a character that is not whitespace, a letter, a digit or one of the nine punctuation characters, a leading `_` included. The error records that character and its position. |
| Lexing.WhitespaceYieldsNothing | template/src/cn/edu/hitsz/compiler/lexer/LexicalAnalyzer.java:64-65 | Whitespace produces no token and no error. |
| Lexing.IdTexts | template/src/cn/edu/hitsz/compiler/lexer/LexicalAnalyzer.java:77-81 | The registered texts are exactly the texts of the `id` tokens. |
| Lexing.AddAllSpec | template/src/cn/edu/hitsz/compiler/lexer/LexicalAnalyzer.java:75-82 | Registering a sequence of identifiers adds exactly those keys and keeps the old entries. |
| Lexing.RunRegistersIds | template/src/cn/edu/hitsz/compiler/lexer/LexicalAnalyzer.java:75-82 | After a run, every `id` token's text is in the symbol table. Every new key is some `id` token's text. |
| ParseSymbols.OfToken | template/src/cn/edu/hitsz/compiler/parser/Symbol.java:14-17 | Stores the token and no nonterminal. `isToken()` holds exactly for a non-null token and `isNonTerminal()` fails. Value and type are null. |
| ParseSymbols.OfNonTerminal | template/src/cn/edu/hitsz/compiler/parser/Symbol.java:18-21 | Stores the nonterminal and no token. `isNonTerminal()` holds and `isToken()` fails. Value and type are null. |
| ParseSymbols.ConstructorsDisjoint | template/src/cn/edu/hitsz/compiler/parser/Symbol.java:22-27 | A token symbol never equals a nonterminal symbol, whatever values are attached to them. |
| ParseSymbols.AttachKeepsKind | template/src/cn/edu/hitsz/compiler/parser/Symbol.java:22-33 | Attaching a value changes neither `isToken`/`isNonTerminal` nor `getToken`/`getNonTerminal`. |
| SyntaxAnalysis.SyntaxAnalyzer.constructor | template/src/cn/edu/hitsz/compiler/parser/SyntaxAnalyzer.java:30-32 | Keeps the symbol table, with no observers and no calls made. |
| SyntaxAnalysis.SyntaxAnalyzer.RegisterObserver | template/src/cn/edu/hitsz/compiler/parser/SyntaxAnalyzer.java:39-42 | Appends the observer and hands it the analyzer's symbol table. |
| SyntaxAnalysis.SyntaxAnalyzer.Notify | template/src/cn/edu/hitsz/compiler/parser/SyntaxAnalyzer.java:50-77 | Exactly one call per registered observer, in registration order. |
| SyntaxAnalysis.Broadcast | template/src/cn/edu/hitsz/compiler/parser/SyntaxAnalyzer.java:50-54 | One notification per observer, the i-th going to the i-th registered observer. |
| SyntaxAnalysis.BroadcastAllAppend | template/src/cn/edu/hitsz/compiler/parser/SyntaxAnalyzer.java:50-77 | Notifying two runs of events in turn is notifying their concatenation. |
| SyntaxAnalysis.SyntaxAnalyzer.LoadTokens | template/src/cn/edu/hitsz/compiler/parser/SyntaxAnalyzer.java:79-84 | Stores the tokens in iteration order. |
| SyntaxAnalysis.SyntaxAnalyzer.LoadLRTable | template/src/cn/edu/hitsz/compiler/parser/SyntaxAnalyzer.java:86-90 | Stores the table. |
| SyntaxAnalysis.Initial | template/src/cn/edu/hitsz/compiler/parser/SyntaxAnalyzer.java:94-103 | The stacks start as `[init]` and `[Symbol(eof)]` with the first token as lookahead. The two stacks are in lockstep. |
| SyntaxAnalysis.Step | template/src/cn/edu/hitsz/compiler/parser/SyntaxAnalyzer.java:105-148 | A step that continues keeps the two stacks equal in size and non-empty. The lookahead is null only once the input is exhausted. |
| SyntaxAnalysis.Drive | template/src/cn/edu/hitsz/compiler/parser/SyntaxAnalyzer.java:105-149 | The lockstep invariant holds after every run of iterations. |
| SyntaxAnalysis.ShiftStep | template/src/cn/edu/hitsz/compiler/parser/SyntaxAnalyzer.java:109-121 | Shift reports the pre-shift top state and the lookahead. It pushes the action's state and `Symbol(token)`. The lookahead advances to the next token, or to null once the input is exhausted. |
| SyntaxAnalysis.ReduceStep | template/src/cn/edu/hitsz/compiler/parser/SyntaxAnalyzer.java:122-140 | Reduce is reported before any pop. Both stacks lose the body length entries and keep everything below them. Then `goto(newTop, head)` and `Symbol(head)` are pushed. Popping into an empty stack fails with EmptyStack after the notification. |
| SyntaxAnalysis.ErrorStep | template/src/cn/edu/hitsz/compiler/parser/SyntaxAnalyzer.java:145-147 | Any other action fails the run with no notification. |
| SyntaxAnalysis.AcceptIsLast | template/src/cn/edu/hitsz/compiler/parser/SyntaxAnalyzer.java:141-144 | A run is accepted exactly when its last event is accept. No earlier event is an accept. |
| SyntaxAnalysis.ShiftsConsumeInOrder | template/src/cn/edu/hitsz/compiler/parser/SyntaxAnalyzer.java:102-121 | The tokens carried by the shift events, followed by those not yet shifted, are exactly the tokens not yet shifted at the start. |
| SyntaxAnalysis.ShiftedPrefixOfInput | template/src/cn/edu/hitsz/compiler/parser/SyntaxAnalyzer.java:102-121 | From the initial configuration, the shifted tokens are a prefix of the loaded tokens, in order. |
| SyntaxAnalysis.PopBoth | template/src/cn/edu/hitsz/compiler/parser/SyntaxAnalyzer.java:129-135 | The pop loop and the following peek succeed exactly when more than `n` entries are present. They then leave both stacks without their top `n` entries. |
| SyntaxAnalysis.SyntaxAnalyzer.Iterate | template/src/cn/edu/hitsz/compiler/parser/SyntaxAnalyzer.java:105-148 | One loop iteration does what `Step` specifies and makes exactly that step's observer calls. |
| SyntaxAnalysis.SyntaxAnalyzer.Run | template/src/cn/edu/hitsz/compiler/parser/SyntaxAnalyzer.java:92-150 | Within the iteration budget, the outcome is the automaton's outcome. The observer calls are every event of the trace, broadcast in order. |
| IRCode.TempAllocator.Fresh | template/src/cn/edu/hitsz/compiler/parser/IRGenerator.java:64 | Each temporary handed out has the counter's old value, and the counter moves past it. |
| IRCode.Wrap32 | template/src/cn/edu/hitsz/compiler/asm/AssemblyGenerator.java:65-71 | Java `int` arithmetic: the result is in the 32-bit range and congruent to the exact result modulo 2^32. An in-range result is unchanged. |
| IRGeneration.IRGenerator.constructor | template/src/cn/edu/hitsz/compiler/parser/IRGenerator.java:21-23 | The value stack and IR list start empty, and the freshness invariant holds. |
| IRGeneration.IRGenerator.SetSymbolTable | template/src/cn/edu/hitsz/compiler/parser/IRGenerator.java:121-124 | Stores the table. |
| IRGeneration.ShiftValue | template/src/cn/edu/hitsz/compiler/parser/IRGenerator.java:27-33 | A text matching `^[0-9]+$` gives an in-range non-negative immediate. Any other text gives the variable of that name. It fails exactly on a null token or a numeral beyond `int`. |
| IRGeneration.IsNumeral | template/src/cn/edu/hitsz/compiler/parser/IRGenerator.java:27-29 | The `^[0-9]+$` test: a non-empty text of decimal digits only. |
| IRGeneration.DigitsValue | template/src/cn/edu/hitsz/compiler/parser/IRGenerator.java:30 | The decimal value of a digit string, as `Integer.parseInt` reads it. It is zero exactly when every digit is `0`. |
| IRGeneration.ScannedNumerals | template/src/cn/edu/hitsz/compiler/parser/IRGenerator.java:29 | On tokens the lexer produced, the `^[0-9]+$` test holds exactly for the integer constants. |
| IRGeneration.DigitsValueOfRendering | template/src/cn/edu/hitsz/compiler/parser/IRGenerator.java:29-30 | The decimal rendering of a number matches the numeral pattern and parses back to that number. |
| IRGeneration.IRGenerator.WhenShift | template/src/cn/edu/hitsz/compiler/parser/IRGenerator.java:25-35 | Pushes exactly one symbol carrying the token and its `ShiftValue`. On error the stack is unchanged. |
| IRGeneration.IRGenerator.WhenReduce | template/src/cn/edu/hitsz/compiler/parser/IRGenerator.java:38-111 | The builder's new state (stack, IR and counter) is `Reduced` of the old one. Every temporary stays below the counter. |
| IRGeneration.IRGenerator.WhenReduceArith | template/src/cn/edu/hitsz/compiler/parser/IRGenerator.java:60-92 | The same for productions 8, 9 and 11. |
| IRGeneration.PopCount | template/src/cn/edu/hitsz/compiler/parser/IRGenerator.java:43-110 | How many entries `whenReduce` pops for a production. It is at most 3 for a special-cased index, and the body length for any other index. |
| IRGeneration.Reduced | template/src/cn/edu/hitsz/compiler/parser/IRGenerator.java:38-111 | The effect of a reduction on the builder. The counter advances by one exactly for productions 8, 9 and 11. Underflow happens exactly when the stack is shorter than the pop count. Other errors happen only for productions 6, 7, 8, 9 and 11. |
| IRGeneration.ReduceArith | template/src/cn/edu/hitsz/compiler/parser/IRGenerator.java:60-92 | Productions 8, 9 and 11. It fails with MissingValue exactly when an operand is null. Otherwise it appends one non-RET instruction writing the next temporary, pushes that temporary as the head's value, and advances the counter. |
| IRGeneration.ReduceStack | template/src/cn/edu/hitsz/compiler/parser/IRGenerator.java:43-110 | A reduction pops exactly its pop count (the body length for a conforming production) and leaves the entries below untouched. It pushes one symbol for the head, so the size changes by one minus the body length. |
| IRGeneration.ReduceAppendsAtMostOne | template/src/cn/edu/hitsz/compiler/parser/IRGenerator.java:43-110 | Earlier IR is never changed. Exactly one instruction is appended for productions 6, 7, 8, 9 and 11, and none otherwise. |
| IRGeneration.ReduceStatementEmits | template/src/cn/edu/hitsz/compiler/parser/IRGenerator.java:44-59 | Production 6 appends `MOV(id, E)` and production 7 appends `RET(E)`. Both push a valueless head and draw no temporary. |
| IRGeneration.ReduceAssignTargetCast | template/src/cn/edu/hitsz/compiler/parser/IRGenerator.java:48 | The assignment fails with NotAVariable exactly when its target holds an immediate. |
| IRGeneration.ReduceArithEmits | template/src/cn/edu/hitsz/compiler/parser/IRGenerator.java:60-92 | Productions 8, 9 and 11 append `ADD`/`SUB`/`MUL(t, left, right)` with left at depth 2 and right on top. `t` is the counter's next temporary and becomes the head's value. |
| IRGeneration.ReduceForwards | template/src/cn/edu/hitsz/compiler/parser/IRGenerator.java:78-104 | Productions 10, 12, 14 and 15 forward the top value, and 13 forwards the middle one. None of them emits anything or draws a temporary. |
| IRGeneration.ReduceUnderflow | template/src/cn/edu/hitsz/compiler/parser/IRGenerator.java:43-110 | A reduction fails for lack of entries exactly when the stack is shorter than its pop count. |
| IRGeneration.ReduceKeepsFresh | template/src/cn/edu/hitsz/compiler/parser/IRGenerator.java:64-88 | Reductions keep every temporary on the stack and in the IR below the counter. |
| IRGeneration.FreshTempUnused | template/src/cn/edu/hitsz/compiler/parser/IRGenerator.java:64 | The temporary the next arithmetic reduction draws occurs nowhere in the IR so far. |
| IRGeneration.IRGenerator.WhenAccept | template/src/cn/edu/hitsz/compiler/parser/IRGenerator.java:115-118 | Changes no state. |
| IRGeneration.IRGenerator.GetIR | template/src/cn/edu/hitsz/compiler/parser/IRGenerator.java:126-129 | The IR list, in which every temporary was already drawn. |
| AsmGeneration.RegistersEnumerate | template/src/cn/edu/hitsz/compiler/asm/AssemblyGenerator.java:37-39 | `Register.values()` lists each of `t0..t6` exactly once. |
| AsmGeneration.BMap.GetByKey | template/src/cn/edu/hitsz/compiler/asm/AssemblyGenerator.java:174-176 | A register exactly for a mapped value; null otherwise. |
| AsmGeneration.ValidInjective | template/src/cn/edu/hitsz/compiler/asm/AssemblyGenerator.java:43 | Mutual exclusion of registers: no two values hold the same register. |
| AsmGeneration.BMap.Replace | template/src/cn/edu/hitsz/compiler/asm/AssemblyGenerator.java:130 | After `replace(k, r)`, `k` holds `r` in both directions. No key or register appears that was not there before, other than `k` and `r`. |
| AsmGeneration.ReplaceSpec | template/src/cn/edu/hitsz/compiler/asm/AssemblyGenerator.java:130 | `replace(k, r)` keeps the map a bijection and makes `k` hold `r`. It drops only the old holder of `r` and the old register of `k`. |
| AsmGeneration.ReplaceAllocates | template/src/cn/edu/hitsz/compiler/asm/AssemblyGenerator.java:130 | Replacing with a variable keeps the map a bijection keyed only by variables. |
| AsmGeneration.FirstFree | template/src/cn/edu/hitsz/compiler/asm/AssemblyGenerator.java:128-133 | The first unheld register in `t0..t6` order. None exactly when all seven are held. |
| AsmGeneration.AssemblyGenerator.FindFree | template/src/cn/edu/hitsz/compiler/asm/AssemblyGenerator.java:128-133 | The scan returns `FirstFree`. |
| AsmGeneration.Live | template/src/cn/edu/hitsz/compiler/asm/AssemblyGenerator.java:136-142 | The registers held by some operand of the given instructions. Every one of them is held in the map. |
| AsmGeneration.Dead | template/src/cn/edu/hitsz/compiler/asm/AssemblyGenerator.java:135-142 | The registers `notUseRegs` ends with: all of `t0..t6` except the live ones. It includes every register that no value holds. |
| AsmGeneration.LiveSpec | template/src/cn/edu/hitsz/compiler/asm/AssemblyGenerator.java:136-142 | A register is live exactly when some operand of some remaining instruction holds it. |
| AsmGeneration.RemoveHeld | template/src/cn/edu/hitsz/compiler/asm/AssemblyGenerator.java:139-141 | Removing the registers of an instruction's operands leaves the set minus exactly those registers. |
| AsmGeneration.AssemblyGenerator.NotUsed | template/src/cn/edu/hitsz/compiler/asm/AssemblyGenerator.java:135-142 | The eviction scan yields exactly the registers no operand of `instructions[index..]` holds. |
| AsmGeneration.AllocationKeepsLive | template/src/cn/edu/hitsz/compiler/asm/AssemblyGenerator.java:128-145 | Taking a free or dead register keeps every live operand in its register. |
| AsmGeneration.AssemblyGenerator.VariableToRegister | template/src/cn/edu/hitsz/compiler/asm/AssemblyGenerator.java:118-149 | Covers four cases: an immediate or mapped value leaves the map unchanged; otherwise the first free register is taken; otherwise some register dead for `instructions[index..]`; otherwise NoEnoughRegisters. Success maps a variable operand. Every live operand keeps its register, and the map stays a bijection over variables. |
| AsmGeneration.AssemblyGenerator.AllocateBinary | template/src/cn/edu/hitsz/compiler/asm/AssemblyGenerator.java:171-173 | The new map is the old one after `VariableToRegister` on the left operand, the right operand, then the result, in that order (`AllocatesInstr`); the first failure ends the chain. On success every variable the instruction names is mapped. |
| AsmGeneration.AssemblyGenerator.AllocateMov | template/src/cn/edu/hitsz/compiler/asm/AssemblyGenerator.java:210-211 | The new map is the old one after `VariableToRegister` on the source, then the result (`AllocatesInstr`). On success both are mapped. |
| AsmGeneration.AssemblyGenerator.constructor | template/src/cn/edu/hitsz/compiler/asm/AssemblyGenerator.java:41-45 | No instructions, an empty map, and output `[.text]`. |
| AsmGeneration.Fold | template/src/cn/edu/hitsz/compiler/asm/AssemblyGenerator.java:64-75 | The folded constant of ADD, SUB or MUL on two immediates. It is in the 32-bit range, and equals the exact sum, difference or product whenever that is in range. |
| AsmGeneration.SimplifyOne | template/src/cn/edu/hitsz/compiler/asm/AssemblyGenerator.java:57-113 | The rewrite of one instruction other than RET. It gives two instructions exactly when it draws a temporary and one otherwise. None is a RET, and the last writes the original result. |
| AsmGeneration.Drawn | template/src/cn/edu/hitsz/compiler/asm/AssemblyGenerator.java:82-106 | How many temporaries the pass draws. There are at most as many as instructions. |
| AsmGeneration.Simplify | template/src/cn/edu/hitsz/compiler/asm/AssemblyGenerator.java:47-116 | The output of `loadIR` for a program and a counter. It has at most two instructions per input instruction. |
| AsmGeneration.AssemblyGenerator.LoadIR | template/src/cn/edu/hitsz/compiler/asm/AssemblyGenerator.java:47-116 | Appends `Simplify(origin)`. The shared counter advances by exactly the temporaries drawn. |
| AsmGeneration.AssemblyGenerator.Rewrite | template/src/cn/edu/hitsz/compiler/asm/AssemblyGenerator.java:57-113 | The rewrite of one non-RET instruction. It draws a temporary exactly for SUB/MUL with one immediate. |
| AsmGeneration.SimplifySnoc | template/src/cn/edu/hitsz/compiler/asm/AssemblyGenerator.java:49-115 | The pass over a RET-free prefix extended by one instruction is the old output plus that instruction's rewrite, or the RET itself. |
| AsmGeneration.LoadStep | template/src/cn/edu/hitsz/compiler/asm/AssemblyGenerator.java:49-115 | The same, on the prefixes of the loaded list. |
| AsmGeneration.SimplifyStopsAtRet | template/src/cn/edu/hitsz/compiler/asm/AssemblyGenerator.java:52-55 | Everything after the first RET is dropped. |
| AsmGeneration.SimplifyRetLast | template/src/cn/edu/hitsz/compiler/asm/AssemblyGenerator.java:49-55 | The output ends in RET exactly when the input has one. No earlier output instruction is a RET. |
| AsmGeneration.SimplifyNormalizes | template/src/cn/edu/hitsz/compiler/asm/AssemblyGenerator.java:57-113 | After the pass, no SUB or MUL has an immediate operand and no ADD has one on the left. |
| AsmGeneration.SimplifyPassesThrough | template/src/cn/edu/hitsz/compiler/asm/AssemblyGenerator.java:57-112 | MOV, `ADD(var, _)` and a binary op on two variables are kept as they are. |
| AsmGeneration.PlainAgrees | template/src/cn/edu/hitsz/compiler/asm/AssemblyGenerator.java:64-98 | Constant folding (with 32-bit wrap), the commuted ADD and the unchanged instructions compute what the original computes. |
| AsmGeneration.TempAgrees | template/src/cn/edu/hitsz/compiler/asm/AssemblyGenerator.java:82-106 | SUB/MUL with an immediate moved into a fresh temporary compute what the original computes, with operand order kept. |
| AsmGeneration.SimplifyOneAgrees | template/src/cn/edu/hitsz/compiler/asm/AssemblyGenerator.java:57-113 | Each rewrite computes what the instruction it replaces computes. |
| AsmGeneration.SimplifyPreservesResult | template/src/cn/edu/hitsz/compiler/asm/AssemblyGenerator.java:47-116 | The simplified program returns the same value as the original, provided the counter is past every temporary the original mentions. |
| AsmGeneration.Line | template/src/cn/edu/hitsz/compiler/asm/AssemblyGenerator.java:164-224 | The line for an instruction under the register map. It fails only with a null register for that instruction. |
| AsmGeneration.LineShape | template/src/cn/edu/hitsz/compiler/asm/AssemblyGenerator.java:177-218 | `addi` exactly for an ADD with an immediate on the right, `li` exactly for a MOV of an immediate, and `mv a0` exactly for RET. Each line records its instruction. |
| AsmGeneration.LineDefined | template/src/cn/edu/hitsz/compiler/asm/AssemblyGenerator.java:167-219 | Once every variable a normal-form instruction names is mapped, its line exists. |
| AsmGeneration.RetImmediateFails | template/src/cn/edu/hitsz/compiler/asm/AssemblyGenerator.java:220-223 | `RET` of an immediate never gets a register, so its line fails. |
| AsmGeneration.LineComputes | template/src/cn/edu/hitsz/compiler/asm/AssemblyGenerator.java:167-223 | If the registers hold the mapped variables' values, then after the line they hold the values after the instruction. `mv a0` reads the returned value. |
| AsmGeneration.BinaryWrites | template/src/cn/edu/hitsz/compiler/asm/AssemblyGenerator.java:167-206 | An `add`/`addi`/`sub`/`mul` line writes the wrapped result to the destination's register, as the instruction writes its result. |
| AsmGeneration.MovWrites | template/src/cn/edu/hitsz/compiler/asm/AssemblyGenerator.java:207-219 | An `li`/`mv` line writes the moved value to the destination's register. |
| AsmGeneration.EmitCount | template/src/cn/edu/hitsz/compiler/asm/AssemblyGenerator.java:164-235 | A complete run emits at most one line per instruction. |
| AsmGeneration.AssemblyGenerator.Emit | template/src/cn/edu/hitsz/compiler/asm/AssemblyGenerator.java:166-226 | The new map is the old one after this instruction's allocations (none for RET). The result is the instruction's line under that map. A null register is possible only for RET or an instruction not in normal form. |
| AsmGeneration.AssemblyGenerator.Run | template/src/cn/edu/hitsz/compiler/asm/AssemblyGenerator.java:160-236 | After `.text`, one line per instruction, stopping right after the first RET. Line `j` is the instruction's line under map `j`, and map `j` is map `j-1` (the map before the run, for the first line) after that instruction's allocations. The final map is the last one. After an exception the map is the one the failing instruction's allocations left. On an exception the lines before it stay and no RET was reached. A null register happens only at RET or a non-normal-form instruction. The map stays a bijection over variables. |
| AsmGeneration.AllocOrder | template/src/cn/edu/hitsz/compiler/asm/AssemblyGenerator.java:167-224 | The values `run` allocates for an instruction: its operands in order, then its result; none for RET. |
| AsmGeneration.AllocatesSeqKeepsLive | template/src/cn/edu/hitsz/compiler/asm/AssemblyGenerator.java:118-149 | A chain of allocations keeps the map a bijection over variables and keeps every value a remaining instruction reads in its register. |
| AsmGeneration.EmittedKeepsLive | template/src/cn/edu/hitsz/compiler/asm/AssemblyGenerator.java:164-235 | Along a run, every value that the current or a later line reads keeps its register through the current line's allocations. |

## Left out

- File I/O is not modelled: `dumpTokens`, `dumpIR`, `dump` and the file write of `dumpTable`. `LoadFile` takes the file's lines as a parameter; the reader loop and its `IOException` are not modelled.
- `Lexing.LexicalAnalyzer.LoadFile`: the platform line separator is taken to be `"\n"`.
- Java's Unicode `Character.isWhitespace`, `isLetter` and `isLetterOrDigit` are modelled as ASCII predicates.
- `SymbolTables.StrLessTotal`: `String.compareTo` orders UTF-16 code units. The model compares Dafny characters, which agree on the BMP.
- `TokenKind` and `Token` are not part of this model. A kind is its name, `Token.simple` has empty text, and the end-of-input kind is `$`. The kind table (`TokenKind.isAllowed`) is a parameter, because it is loaded from a file at start-up.
- `Lexing.ScanSpellsInput`: when the kind table lists `Semicolon`, it requires that no identifier in the text is spelled `Semicolon`. The lexer turns that identifier into the `;` token, so it spells back as `;` (`SemicolonWordReadsAsSemicolon`).
- `LRTable`, `Action`, `Production`, `Status`, `Instruction`, `IRVariable` and `BMap` are not part of this model. They appear as datatypes with only what the call sites use. `getAction` and `getGoto` are total functions of the table value.
- `SyntaxAnalysis.SyntaxAnalyzer.Run`: the `while(true)` loop is bounded by a fuel parameter. A run that has not stopped within the budget reports OutOfFuel; termination of the automaton is not proved.
- Dynamic dispatch to observers is not modelled. The driver records each call as a notification (observer, event) in order. The IR builder's reaction to one event is modelled by its own methods, so the composition of driver and builder is not proved.
- `IRGeneration.IRGenerator.WhenReduce`: on an exception the source has already popped some entries. The model leaves the builder unchanged, because the exception ends compilation.
- `IRGeneration.IRGenerator.WhenReduce`: a null operand that the source would pass into `MOV`, `RET` or an arithmetic instruction is reported as a MissingValue error instead of building an instruction with a null field.
- `IRGeneration.ShiftValue`: `Integer.parseInt` overflow is modelled as a NumberFormat error.
- The `setSymbolTable` reference is stored but not used by the builder, as in the source.
- `HashSet` iteration order in eviction is unspecified in Java. `VariableToRegister` takes some register of the dead set, and its contract holds for every choice.
- Assembly text formatting and the trailing `# instr` comment are not modelled. Each line is an `AsmLine` value that records the instruction it came from.
- `AsmGeneration.AssemblyGenerator.Run`: `RET` never allocates its operand, so a `return` of an immediate or of an unmapped variable has a null register, and the source throws there. The model reports this as a NullRegister error, `RetImmediateFails` exhibits it, and the defect is left as written. Java `NullPointerException`s on other lines are reported the same way.
- `AsmGeneration.LineComputes`: proves the register file correct line by line. It does not prove it for a whole program, because an evicted variable's value is not tracked.
- `loadIR` called twice appends to the same list, as in the source (`LoadIR` appends to `instructions`).
- A `VariableToRegister` scan index past the end of `instructions` scans nothing, as the source's loop does.
- The unreachable `System.out.println("Error")` and `"error asm!"` branches cannot occur for the five instruction kinds, so they are not modelled.
- The source comment on `SymbolTable.add` says it throws on a present key, but the code returns the existing entry. The model follows the code.
- `SyntaxAnalysis.SyntaxAnalyzer.constructor`: takes the parsing table as a parameter, so that the table field is never null. The source's constructor takes only the symbol table and sets the table in `loadLRTable`; `LoadLRTable` still replaces it.
- `Lexing.LexicalAnalyzer.constructor`: starts with empty text. The source leaves `context` null, so calling `run` before `loadFile` throws; the model scans the empty text instead.
- IR variables compare by name: two `Named` variables with the same text are the same key of the register map. `IRVariable.equals` and `hashCode` are not part of this model. `whenShift` creates a new `IRVariable.named` on every shift, so register lookups by key rely on this.
