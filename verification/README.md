# Fermi, verified

A Dafny model of the Fermi compiler's middle and of the data structures around it, with proofs that they do
what they are for. `dafny verify dfyconfig.toml` checks everything.

**FIR** (`Fir`, over `Words` and `Bits`) is given a meaning as a machine: slots with a type and a value, temps,
labelled blocks that end at their first terminator, calls that append to a trace and are answered by an
arbitrary function of it. A value of an integer type is the signed number its bits denote. What the back end
leaves undefined gets the machine stuck.

**The optimiser.** `Literals` and `Folding` hold constant propagation, folding and the algebraic rewrites,
`Passes` the other passes, each as a function on blocks with a simulation of all its runs; `OptCorrect` composes
them; `Normal` says what they achieve: which loads are replaced, and that nothing is left to do. `Opt` is the code
as it runs, passes that change blocks, the table of known slots and dead flags in place.

**The generator.** `Source` gives statements a direct meaning on environments. `Lower` states every building step as
a function of the builder's state, with the types that the generator reads back from what it has built; `Typing`
says which bodies keep their static types, and `TypeLoss` that these are exactly the ones read back rightly.
`Operators` says what operators mean on mixed operands. `LowerGraph` proves the emitted graph well formed,
`LowerGrow`, `LowerExpr`, `LowerStep`, `LowerSim`, `LowerCorrect` and `LowerFn` that its runs are those of the
source, `LowerSafe` that the optimiser treats it rightly. `Compile` joins lowering and optimising into one theorem
in both directions. `CodegenState` is the generator as an object with its counters, tables and loop labels.
`Comptime` compares compile-time evaluation with the emitted code, `Decimal` covers names and literals as text,
`Limits` and `Losses` have programs outside the conditions.

**Parsing.** `Grammar` has the expression parser as functions and a printer, `Derivation` the grammar as a relation,
decided by the parser, `Printing` the round trip, `Precedence` how operators group, `ParserState` the parser as an
object. `Progress` moves through the whole language, with every error path, and `Interp` takes it from text to
tokens, literals inside literals included.

**Checking.** `Sema` and `Resolve` relate the checker's nested scopes to the generator's flat table along both
traversals; `Check` and `CheckerState` are the traversal that reports, and what acceptance is worth at run time;
`Verdict` says which statements are accepted.

**Around them.** `Lexer` and `Escapes` (string literals and encodings), `HashMap`, `Replace` and `Regions` (the
runtime's map, text replacement and region stack), `Arena` (the compiler's allocator).

The main theorem, `Compile.CompiledExact`, is about functions over bool, char, short, int and long variables with
declarations, assignments, calls, blocks, if, while, do-while, C-style for, match on literals, ranges and
wildcards, break, continue and return. It asks that every static type be kept, that no live slot be declared again
and no `_`, that callees be ordinary functions with at most 64 arguments, that at most 256 variables be live, that
literals lie in range of their types and `true` not be widened, and that the source meaning never be undefined on the
arguments at hand (which is where conditions must be bools, divisors nonzero and names declared). "Findings" shows
what becomes of programs for which one of these fails.

## Model

| member | source | states |
|---|---|---|
| OptCorrect.OptimizePreserves | src/feopt/opt.c:257-278 | For every function whose literals satisfy the stated conditions, every callee behaviour, all arguments and any number of steps: if the original run is defined so far, the optimised run is in the very same configuration (block, temps, memory, trace, result), and in a block that is kept. |
| Opt.MirOpt | src/feopt/opt.c:257-278 | The in-place optimiser, with up to sixteen folding rounds, leaves the blocks that one round of each pass gives, so that every defined run is followed step by step and nothing is left to do in any block it keeps. |
| Normal.OptimizeLoads | src/feopt/opt.c:257-278 | For every function, every block that is kept and every load in it before a terminator, literals being stored to at most 1024 slots before it: the result has the literal there if the last store to the slot in the block is of a literal, and the load itself if it is of anything else or there is none. |
| Normal.LoadExact | src/feopt/opt.c:24-82 | The same of one scan of one block, for every list of instructions, in terms of its stores. |
| Normal.OptimizeSettles | src/feopt/opt.c:84-255 | In every block that is kept: no operation on two literals that is folded, but for a literal plus zero; no operands that an algebraic rule is for; no extension of a literal, no temp compared with itself, no branch on a literal; and one terminator. |
| Normal.ReportExact | src/feopt/opt.c:73-152 | Scanning an instruction reports a change if and only if it makes one or finds a literal plus zero. |
| Opt.ScanReports | src/feopt/opt.c:57-152 | The same of a block. |
| OptCorrect.SecondMarkShrinks | src/feopt/opt.c:244-276 | Rewriting literal branches can only remove edges: the second marking keeps a subset of the first one's live blocks. |
| Opt.MarkDeadBlocks | src/feopt/opt.c:202-223 | The sweeps end, and mark dead exactly the blocks to which no path of tail branches leads from the entry. |
| Opt.Sweep | src/feopt/opt.c:209-221 | A sweep that reports a change lowers the number of dead blocks; one that reports none leaves the live blocks closed under jumps. |
| Opt.MarksExact | src/feopt/opt.c:202-223 | Live blocks that are reachable and closed under jumps are exactly the reachable ones. |
| Passes.ReachableWithin | src/feopt/opt.c:202-223 | Any set of blocks with the entry that is closed under edges holds the end of every path. |
| Passes.TrimRun | src/feopt/opt.c:189-200 | Dropping what follows the first terminator changes no defined run. |
| Passes.MarkRun | src/feopt/opt.c:202-223 | Marking unreachable blocks dead changes no defined run, which never enters one of them. |
| Passes.FoldRun | src/feopt/opt.c:262-269 | Block-local propagation and folding changes no defined run, and what the table says holds in memory at every point of it. |
| Passes.PeepRun | src/feopt/opt.c:225-242 | The peephole pass changes no defined run if literal extensions keep their value. |
| Passes.ResolveRun | src/feopt/opt.c:244-255 | Replacing literal branches changes no defined run if the literals are zero or odd. |
| Passes.ConvSafeExact | src/feopt/opt.c:227-233 | Replacing the extension of a literal by the literal is right if and only if the literal, at the target type, lies in the signed (sext) or unsigned (zext) range of the source type. |
| Passes.SextOfTrueChanges | src/feopt/opt.c:227-233 | A case where it is wrong: `sext i1 1` is -1 and becomes 1. |
| Passes.BranchLiteralExact | src/feopt/opt.c:250-252 | The nonzero test agrees with the one-bit condition of the back end if and only if the literal is zero or odd. |
| Passes.BranchOnTwo | src/fecodegen/codegen.c:1317-1320 | The literal 2, which `@assert(2)` puts there: the branch goes to its second target before the pass and to its first after it. |
| Folding.DefsStaySound | src/feopt/opt.c:24-72 | Every pair in the table of known slots equals what memory holds after the instruction, whatever the instruction. |
| Folding.FoldInstrSound | src/feopt/opt.c:59-152 | Under a sound table, the rewritten instruction takes every state to the same state as the original. |
| Folding.SimplifySound | src/feopt/opt.c:117-149 | Every algebraic rewrite does, on every state, what the instruction it replaces did. |
| Literals.FoldExact | src/feopt/opt.c:99-114 | Wherever the w-bit operation is defined and the second literal in range: folding in 64 bits and truncating gives its value if and only if the first literal's cut-off bits are a multiple of what the operation divides by and rounding goes the same way. |
| Literals.FoldModular | src/feopt/opt.c:101-106 | For add, sub, mul, and, or, xor folding is right for all literals, at every width. |
| Literals.FoldWide | src/feopt/opt.c:103-109 | A second literal that its type cuts off: dividing by a larger literal folds rightly if and only if the values compare alike, and a shift if and only if it drops every bit. |
| Literals.DivExact | src/feopt/opt.c:103 | Quotients: the literal and its value at the type give quotients that wrap alike if and only if the divisor divides the number of moduli between them, and both round the same way. |
| Literals.ModExact | src/feopt/opt.c:104 | Remainders: equal if and only if the divisor divides the difference, and both take the same sign. |
| Literals.ShrExact | src/feopt/opt.c:107 | Right shifts: if and only if the shift's power of two divides the number of moduli between them. |
| Literals.RangeIsSafe | src/feopt/opt.c:99-114 | Literals in range of their type always fold rightly. |
| Literals.FoldNeedsRange | src/feopt/opt.c:103-107 | A literal out of range that folds wrongly: `sdiv i8 200, 2`. |
| Literals.FoldByZero | src/feopt/opt.c:103-104 | Division by the literal zero, which has no meaning, folds to 0. |
| Folding.FoldBlockIdempotent | src/feopt/opt.c:262-269 | A second folding round over a block changes nothing. |
| Folding.FoldNeverSettles | src/feopt/opt.c:110-117 | A folded `add c, 0` reports a change in every later round, although it stays as it is. |
| Opt.DefTable.Set | src/feopt/opt.c:29-41 | The table in place: an existing entry is overwritten, a new one appended, a full table left as it is. |
| Opt.DefTable.Kill | src/feopt/opt.c:47-53 | Removal by moving the last entry into the gap gives what the specification gives. |
| Opt.FoldInPlace | src/feopt/opt.c:59-152 | One scan of a block in place gives the folded block and reports a change exactly if some instruction was rewritten. |
| Opt.FoldBlocks | src/feopt/opt.c:264-268 | One round over the live blocks; it reports a change if and only if the scan of one of them does. |
| Bits.BitOpBits | src/feopt/opt.c:105-106 | Every bit of a bitwise result is the operation on the operands' bits. |
| Decimal.NamesInjective | src/fecodegen/codegen.c:69-87 | A prefix that ends in a letter and a counter can both be read back from the rendered name: two equal names have equal prefixes and counters. |
| Decimal.FmtInt | src/fecodegen/codegen.c:69-81 | The digit loop writes the prefix followed by the decimal numeral. |
| Decimal.RenderRoundTrip | src/feopt/opt.c:7-14 | A rendered literal is recognised as a literal and reads back as itself, in base ten and with detected base. |
| Decimal.ScanIntConst | src/feopt/opt.c:7-14 | The scan of an operand text accepts exactly the literals: an optional minus and at least one digit, nothing else. |
| Compile.CompiledExact | src/fecodegen/codegen.c:2217-2276 | For every always-defined function in the stated shape, every callee behaviour and all arguments: the lowered and optimised blocks return a result having made certain calls if and only if the source meaning does. |
| Compile.CompiledDiverges | src/fecodegen/codegen.c:2217-2276 | If the source runs for ever, so do the optimised blocks. |
| Compile.OptimisedLockstep | src/feopt/opt.c:257-278 | On such a function the optimised blocks run in lockstep with the unoptimised ones. |
| Compile.NeverStuck | src/fecodegen/codegen.c:2217-2276 | The blocks of an always-defined function never reach an undefined step. |
| LowerFn.FnExact | src/fecodegen/codegen.c:2217-2276 | The unoptimised blocks return a result and a trace if and only if the source does. |
| LowerFn.FnSim | src/fecodegen/codegen.c:2245-2275 | For any fuel: a result is reached by the blocks with the same value and trace, falling off the end returning 0; a source still running keeps the blocks running at least as long. |
| LowerFn.FnDiverges | src/fecodegen/codegen.c:2217-2276 | A source that never ends never ends in blocks. |
| LowerCorrect.StmtSim | src/fecodegen/codegen.c:1732-2092 | For every covered statement, from every related state: the blocks do what the direct meaning says, be it normal end, break, continue, return or running on, and the variable table still describes memory. |
| LowerCorrect.IfSim | src/fecodegen/codegen.c:1811-1833 | The same for if with else and else-if. |
| LowerCorrect.WhileSim | src/fecodegen/codegen.c:1834-1856 | The same for while, over all its rounds. |
| LowerCorrect.DoSim | src/fecodegen/codegen.c:1857-1879 | The same for do-while, whose continue goes to the condition. |
| LowerCorrect.ForSim | src/fecodegen/codegen.c:1880-1910 | The same for the C-style for, whose continue goes to the step and whose variable is in a scope of its own. |
| LowerCorrect.MatchSim | src/fecodegen/codegen.c:1956-2078 | The same for match: the first arm that matches is run, also behind a wildcard that is not last, and only that one. |
| LowerExpr.ExprSim | src/fecodegen/codegen.c:700-953 | An expression's code leaves its value in the returned operand, changes no slot and no earlier temp, and makes the calls the meaning makes. |
| Operators.ArithMeans | src/fecodegen/codegen.c:903-950 | For any two operands, whatever their expressions and types (but for a short with an int): their sum, difference or product is the integers' if and only if that fits 8 bits for two chars, 16 if one is a short, 64 if one is a long, 32 otherwise; and it is a long or an int. |
| Operators.CompareMeans | src/fecodegen/codegen.c:928-941 | They compare as the integers do. |
| Operators.CommonKeeps | src/fecodegen/codegen.c:337-350 | All values of two types keep their values at the type both are brought to if and only if the types are not short and int. |
| Operators.CommonExact | src/fecodegen/codegen.c:337-350 | That type does not depend on the order; it is the type itself for equal ones other than bool; its width is 8 for two chars only, 16 for a short without a long, 64 with a long. |
| Operators.ArgsCut | src/fecodegen/codegen.c:1227-1231 | Of the arguments the first 64 are passed. |
| Operators.UnknownCall | src/fecodegen/codegen.c:1258-1283 | A call of an unknown function returns an int and passes the arguments as they are. |
| Source.ConstFirst | src/fecodegen/codegen.c:742-748 | A compile-time name has the value of its first entry, and none if and only if there is no entry. |
| LowerFn.FnWellFormed | src/fecodegen/codegen.c:2217-2276 | For every function: labels distinct, every branch target a block of the function, every block with a terminator. |
| LowerFn.FnTrimmed | src/feopt/opt.c:189-200 | After trimming each block of a lowered function has one terminator, its last instruction. |
| LowerGraph.StmtGood | src/fecodegen/codegen.c:1732-2092 | Every statement leaves a graph with distinct labels and no dangling jump but the announced ones, and an open current block. |
| LowerSafe.FnOptSafe | src/fecodegen/codegen.c:700-953 | Lowering a function whose literals are in range and whose `true` is not widened gives only instructions that the optimiser rewrites rightly. |
| Limits.HidingDiffers | src/fecodegen/codegen.c:1735-1788 | Re-declaring a live name: the source returns 1, the blocks 2. The condition on names is needed. |
| Limits.WideningDiffers | src/feopt/opt.c:227-233 | Returning `true` from an int function: the source returns -1, the optimised blocks 1. The condition on literals is needed. |
| Limits.RedeclareExact | src/fecodegen/codegen.c:1769-1782 | At every state: after a live variable's slot is declared again the table still describes memory, once that declaration is out of scope, if and only if type and value are the ones the variable has. |
| Losses.ShortOperand | src/fecodegen/codegen.c:750-761 | `short x = 1; return x + 1;` means 2, and the emitted blocks return 0: the sum is taken for pointer arithmetic and its operand is null. |
| Losses.LostSum | src/fecodegen/codegen.c:883-890 | For every sum or difference whose left operand's type is lost: the right operand is not built, the code leaves null, and that reads as the value meant if and only if the value is zero. |
| Losses.LostOther | src/fecodegen/codegen.c:883-911 | Every other operator builds both operands. |
| TypeLoss.BodyExact | src/fecodegen/codegen.c:310-350 | For every function body: the type read back gives the right code wherever it is asked for (operands, the pointer test, every value brought to a type, inferred declarations, match) if and only if the body keeps its types. |
| TypeLoss.StmtExact | src/fecodegen/codegen.c:1732-2092 | The same for every statement, from any two tables alike, the static one and the one that is built. |
| TypeLoss.CoerceExact | src/fecodegen/codegen.c:360-411 | Two types bring every value to a third by the same code if and only if they are one type, or one is a pointer and the other the third. |
| Typing.KeptRead | src/fecodegen/codegen.c:742-762 | Where types are kept, what is read back for an expression is its static type, or a pointer if its type is lost. |
| LowerSafe.VarsStep | src/fecodegen/codegen.c:1735-1788 | The table that every statement leaves has the types read back. |
| Losses.DiscardRead | src/fecodegen/codegen.c:1748-1762 | `let _ = 5; return _;` is accepted by the checker and means 5 by its scoping, and the emitted blocks return 0. |
| Losses.DiscardExact | src/fecodegen/codegen.c:1748-1762 | In every state, after a value is discarded: what is built for its name reads the variable that had the name before, or zero, and gives the value if and only if that is the value there is. |
| Comptime.ComptimeAgrees | src/fecodegen/codegen.c:424-463 | Compile-time evaluation of an expression over int and long literals and constants whose steps are defined and fit their types gives the value it has at run time. |
| Comptime.ArithExact | src/fecodegen/codegen.c:435-448 | On operands of the type the operation gives the evaluator's value if and only if that value fits the type. |
| Comptime.ComptimeRuns | src/fecodegen/codegen.c:742-953 | The emitted code puts that value in its operand and spoils no earlier temp. |
| Comptime.IntLiteralsDisagree | src/fecodegen/codegen.c:427-441 | Two int literals whose sum does not fit: 64 bits in the evaluator, 32 in the code. |
| Comptime.NotExact | src/fecodegen/codegen.c:450-454 | For every expression that the evaluator gets right and for both bool literals: the code of the negation (src/fecodegen/codegen.c:787-798) leaves -1 for an even value and 0 for an odd one, and the evaluator gives that if and only if the literal `true` is negated. |
| Comptime.CompareExact | src/fecodegen/codegen.c:435-449 | A comparison is 0 at compile time, which is its value if and only if it does not hold. |
| Comptime.LogicalShiftExact | src/fecodegen/codegen.c:435-449 | A logical shift is 0 at compile time, which is its value if and only if it drops every bit. |
| Comptime.ByZero | src/fecodegen/codegen.c:441-442 | A division or remainder by an expression that is zero, which has no value at run time, is 0 at compile time. |
| Comptime.LiteralExact | src/fecodegen/codegen.c:461 | Characters and truth values are 0 at compile time, which is their value for `false` and multiples of 256 only. |
| CodegenState.Codegen.Function | src/fecodegen/codegen.c:2217-2281 | The generator object turns a function into the specified blocks, a well-formed graph, and is idle again, only its counters having moved on. |
| CodegenState.Codegen.Statement | src/fecodegen/codegen.c:1732-2092 | The statement traversal over the object's blocks, counters, arrays and loop labels reaches the specified state. |
| CodegenState.Codegen.Expression | src/fecodegen/codegen.c:700-953 | The expression traversal appends the specified code and returns its operand and type. |
| CodegenState.Codegen.MatchStatement | src/fecodegen/codegen.c:1956-2078 | Arm labels are made before any arm; the patterns, arms and joins are as specified. |
| CodegenState.Codegen.ForStatement | src/fecodegen/codegen.c:1880-1910 | Labels, the five blocks and the restored loop labels and scope. |
| CodegenState.Codegen.Declare | src/fecodegen/codegen.c:1735-1788 | Slot, initial store and table entry, with the inferred or declared type; a discarded value gets a numbered slot, and no entry if its type is not written. |
| CodegenState.Codegen.DefVar | src/fecodegen/codegen.c:164-172 | A full table drops the definition. |
| CodegenState.Codegen.LookupVar | src/fecodegen/codegen.c:239-243 | The backwards scan finds the most recent definition. |
| CodegenState.Codegen.PopScope | src/fecodegen/codegen.c:161-163 | The variables defined since the matching mark are gone. |
| CodegenState.Codegen.LastIsTerm | src/fecodegen/codegen.c:151-156 | True exactly if the current block is closed. |
| Derivation.ParseExact | src/feparser/parser.c:124-497 | For all token lists, positions and trees: the tree is read without a report up to a position if and only if those tokens spell it in the grammar and nothing that follows belongs to it. |
| Derivation.AcceptExact | src/feparser/parser.c:479-497 | The whole input is accepted as a tree if and only if it spells the tree. |
| Derivation.Unambiguous | src/feparser/parser.c:447-497 | No token list spells two trees. |
| Derivation.BinarySpells | src/feparser/parser.c:464-477 | Where operators of at least a given precedence are wanted, looser ones occur only in parentheses, and right operands bind more tightly than their operator. |
| Derivation.BinaryReads | src/feparser/parser.c:464-477 | Conversely an operand spelt for a level is read as the left operand so far, with nothing that follows drawn in. |
| Derivation.ExprSpells | src/feparser/parser.c:479-497 | What is accepted ends where no token continues it, and its tokens spell it. |
| Precedence.LaterBinds | src/feparser/parser.c:447-477 | For all operands and any two operators of different classes, the classes being listed as sets from `..` to `*`: the operator of the later class takes the operand between them, whichever comes first. |
| Precedence.OneClassLeft | src/feparser/parser.c:447-477 | Two operators of one class group to the left. |
| Precedence.OneClass | src/feparser/parser.c:447-462 | Every operator is in one class. |
| Precedence.SameClasses | src/feparser/parser.c:447-462 | The operators that have other uses bind in the parser of the whole language as they do in that of expressions. |
| Precedence.PrefixReads | src/feparser/parser.c:410-445 | Each of the seven prefix tokens gives its own operator in front of every operand, and a step behind the operand binds more tightly. |
| Precedence.PostfixReads | src/feparser/parser.c:391-400 | Each step token gives its own step behind every operand. |
| Printing.PrintParse | src/feparser/parser.c:410-497 | Printing any expression with minimal parentheses and parsing gives it back, all tokens used, nothing reported. |
| Printing.PrintInjective | src/feparser/parser.c:410-497 | Different expressions are never printed alike. |
| Printing.LeftAssociative | src/feparser/parser.c:464-477 | Operators of one precedence group to the left, without parentheses. |
| Printing.RightAssociative | src/feparser/parser.c:479-491 | Assignment groups to the right. |
| ParserState.Parser.Expr | src/feparser/parser.c:479-497 | On every token list the parser object ends, with the tree, the position and the report the specification gives. |
| ParserState.Parser.BinaryFrom | src/feparser/parser.c:464-477 | The climbing loop is the fold over operators that bind tightly enough. |
| ParserState.Parser.Postfix | src/feparser/parser.c:337-408 | The loop over calls, fields, indices and steps; a dangling dot is reported and ends it. |
| ParserState.Reparse | src/feparser/parser.c:410-497 | The parser object, given what was printed, returns the expression. |
| Progress.Parser.Program | src/feparser/parser.c:947-961 | On every token list the whole parser ends, and has read all tokens. |
| Progress.Parser.Statement | src/feparser/parser.c:762-819 | Every statement, well formed or not, moves past at least one token and restores the flag against structure literals. |
| Progress.Parser.Statements | src/feparser/parser.c:821-831 | The loop of a block ends at its brace or at the end of the input. |
| Progress.Parser.Arm | src/feparser/parser.c:615-658 | An arm moves whatever it starts with. |
| Progress.Parser.ClassBody | src/feparser/parser.c:741-760 | What is no member is reported and skipped, so the loop ends. |
| Progress.Parser.Embedded | src/feparser/parser.c:164-204 | Expressions embedded in a literal are read by parsers of their own, which end. |
| Progress.Parser.Expr | src/feparser/parser.c:124-497 | So do expressions with all their forms and error paths. |
| Interp.SplitExact | src/feparser/parser.c:164-200 | For every literal's value there is one way to cut it into plain text and holes with balanced braces so that it can be put together again, and that is the one found. |
| Interp.Tokens | src/feparser/parser.c:193-197 | From text to tokens, for every text and every lexer of the other tokens: as many tokens as the lexer gives, and it ends, since each embedded text is shorter than the one around it. |
| Interp.PartsExact | src/feparser/parser.c:164-200 | The token of a literal carries, hole by hole of the one way to cut its value, the tokens of the text in the hole. |
| Interp.Parse | src/feparser/parser.c:193-197 | Parsing from text ends with all tokens read, whatever literals inside literals there are. |
| Resolve.FnResolves | src/fesema/sema.c:38-67 | For every function within 256 live variables that discards no value of unwritten type, under whatever is declared outside: at every name that the checker's and the generator's traversals of its body look up, both find the same declaration, or none that is a variable of the function. |
| Resolve.StmtResolves | src/fecodegen/codegen.c:1732-2092 | The same inside every statement, from any tables in step, at the stage of the building where each part is emitted. |
| Resolve.StmtTracks | src/fecodegen/codegen.c:164-172 | After every statement that does not find the table full, the two tables are in step if and only if it does not discard a value of unwritten type. |
| Resolve.BlockKeeps | src/fecodegen/codegen.c:1720-1730 | Leaving a block restores the table and the marks found on entering it. |
| Sema.LookupsAgree | src/fecodegen/codegen.c:239-243 | With the tables in step, both lookups of any name find the same declaration, or the checker's lies outside the function's variables. |
| Sema.LookupIsFlat | src/fesema/sema.c:21-26 | Walking the scopes outwards finds the newest entry of all. |
| Sema.EnterTracks | src/fecodegen/codegen.c:158-160 | Entering a scope keeps the tables in step. |
| Sema.DefineTracks | src/fesema/sema.c:15-20 | So does declaring a variable, as long as there is room. |
| Check.StmtKeeps | src/fesema/sema.c:31-95 | For every statement the checker accepts (steps of read-only names aside), every run from every environment leaves the read-only variables as they were. |
| Check.ReadOnlyKept | src/fesema/sema.c:70-92 | A variable declared without `mut` keeps its declared value through all accepted statements that follow, however they are left. |
| Check.StepExact | src/fesema/sema.c:95 | A step `x++` or `x--` that the checker accepts keeps the read-only variables if and only if the name is writable. |
| Check.StepSlipsThrough | src/fesema/sema.c:95 | An accepted program that changes a read-only variable by `n++`. |
| CheckerState.Checker.Statement | src/fesema/sema.c:31-95 | The traversal over the object's scope lists ends in the specified scopes and reports exactly if the statement is not accepted. |
| CheckerState.Checker.LookUp | src/fesema/sema.c:21-26 | The two nested loops find the innermost declaration. |
| Verdict.StmtExact | src/fesema/sema.c:31-126 | For every statement and all scopes: it is accepted if and only if every name that it uses without declaring it is declared (`null` and `nullptr` always are), the newest declaration of every name that it assigns without declaring it is mutable or missing, and it assigns nothing that it declares read-only itself. The names are sets, taken without scopes. |
| Verdict.ExprExact | src/fesema/sema.c:98-126 | An expression is accepted if and only if all its names are declared. |
| HashMap.RunsRefine | rt/fermi_rt.c:352-397 | Over every sequence of sets and deletes the 64 chains hold what a finite map holds, with every key in its bucket and none twice. |
| HashMap.SetOk | rt/fermi_rt.c:360-368 | A set changes the value of one key and of no other, and keeps the table in order. |
| HashMap.DeleteOk | rt/fermi_rt.c:386-397 | A delete removes exactly one key. |
| HashMap.MaskIsMod | rt/fermi_rt.c:355 | Masking with one less than a power of two takes the remainder. |
| HashMap.FnvVectors | rt/fermi_rt.c:352-356 | The hash function gives two published test vectors of 32-bit FNV-1a. |
| HashMap.Map.Set | rt/fermi_rt.c:360-368 | On linked entries: an entry updated in place, or a new one in front of its chain; the finite map that the chains hold gets the pair. |
| HashMap.Map.Delete | rt/fermi_rt.c:386-397 | Unlinking through the pointer to the entry removes it and leaves the rest of its chain and every other chain; the finite map loses the key. |
| HashMap.Map.GetVal | rt/fermi_rt.c:370-376 | The finite map's value for the key, 0 if it has none. |
| HashMap.Map.Has | rt/fermi_rt.c:378-384 | Whether the finite map has the key. |
| Lexer.LiteralRoundTrip | src/felexer/lexer.c:201-225 | A byte string, written with escapes between quotes, reads back as itself up to just behind the closing quote if and only if it has at most 65530 bytes and is not the empty one in front of a quote. |
| Escapes.LiteralReads | src/felexer/lexer.c:151-225 | A literal written with any mixture of plain bytes, letter escapes, two, four or eight digits of either case, digits in braces and characters that no escape has, in any text: it reads as the characters these stand for, up to just behind the closing quote. |
| Escapes.TripleReads | src/felexer/lexer.c:205-224 | The same between triple quotes, where quotes may stand as they are as long as no three of them close the literal. |
| Escapes.SaysDecodes | src/felexer/lexer.c:173-196 | Every scalar value in four digits, eight digits or braces becomes bytes that decode, by the table in section 4 of RFC 3629, to it. |
| Escapes.LineGoesOn | src/felexer/lexer.c:197 | A backslash at the end of a line says nothing. |
| Escapes.ShortPair | src/felexer/lexer.c:168-172 | One hex digit behind the `x` is taken for the high one, none for zero. |
| Lexer.ValueShorter | src/felexer/lexer.c:201-225 | A literal's bytes are fewer than the text it was read from. |
| Lexer.EmptyBeforeQuote | src/felexer/lexer.c:205 | The exception: the empty literal in front of a quote opens a triple literal. |
| Lexer.ReadEscaped | src/felexer/lexer.c:209-221 | The scan reads back what was escaped, from any position and any buffer with room. |
| Lexer.EncodeDecode | src/felexer/lexer.c:144-149 | The encoding of a code point decodes, by the table of well-formed sequences in section 4 of RFC 3629, to that code point if and only if it is a scalar value. |
| Lexer.BracedEscape | src/felexer/lexer.c:173-187 | Every scalar value written in hexadecimal between braces puts its well-formed encoding into the literal. |
| Lexer.Scanner.StringLiteral | src/felexer/lexer.c:201-225 | The scanner object, with its bounded buffer, reads what the specification reads. |
| Lexer.Scanner.Escape | src/felexer/lexer.c:151-199 | Each escape's bytes and the position behind it. |
| Replace.Replace | rt/fermi_rt.c:207-223 | Both scans agree, every write is inside the buffer that the first scan sized, and the buffer then holds the replaced text and its terminator; missing arguments and an empty pattern give a copy. |
| Replace.CutsExact | rt/fermi_rt.c:212-213 | The matches found are the only ones that do not overlap and leave no occurrence in front of, between or behind them. |
| Replace.CutsAreMost | rt/fermi_rt.c:212-213 | No choice of matches that do not overlap has more of them. |
| Replace.ReplacedIsSplice | rt/fermi_rt.c:217-222 | The second scan exchanges exactly the characters at the matches of the first. |
| Replace.ReplacedLength | rt/fermi_rt.c:212-215 | The result's length is the text's plus the number of matches times the difference in length. |
| Replace.Fits | rt/fermi_rt.c:214-215 | The allocated size leaves room for the result and its terminator. |
| Replace.UnchangedExact | rt/fermi_rt.c:207-223 | The text stays as it is if and only if pattern and replacement are equal or there is no match. |
| Regions.Balanced | rt/fermi_rt.c:301-329 | Every bracketed run that nests within the 32 levels leaves no trace of its inner regions: only its direct allocations are recorded and live. |
| Regions.PopFreesOwn | rt/fermi_rt.c:320-329 | Leaving a region finds exactly what was allocated directly in it and frees just that. |
| Regions.SurvivesExact | rt/fermi_rt.c:306-309 | What the innermost open region holds outlives a run inside it if and only if the run nests no deeper than there are levels left. |
| Regions.RegionStack.Pop | rt/fermi_rt.c:320-329 | The loop frees only live memory, each pointer once, and closes one level. |
| Regions.RegionStack.Alloc | rt/fermi_rt.c:310-319 | The pointer is recorded at the innermost level, if any. |
| Arena.Arena.Alloc | src/fearena/arena.c:17-34 | The block is aligned, zeroed and inside its chunk, shares no byte with an earlier block, and no other byte changes. |
| Arena.RoundedIsNext | src/fearena/arena.c:18 | Adding seven and masking gives the next multiple of eight, for sizes below half the address space. |
| Arena.Arena.Free | src/fearena/arena.c:53-62 | Every chunk is freed once, and nothing is left. |
| Arena.OthersKept | src/fearena/arena.c:17-34 | Writing inside one block changes the content of no other. |

## Findings

Where the code does not do what its design suggests, with the condition under which it does.

| input | what happens | lemma, condition |
|---|---|---|
| a block declares a name that is live outside it | both share the slot `var.<name>`: the source means 1, the blocks return 2 | `Limits.HidingDiffers`; at every state the outer variable survives if and only if type and value coincide, `Limits.RedeclareExact` |
| `return true;` in an int function | sign extension of the one-bit literal gives -1, the optimised code 1 | `Limits.WideningDiffers`, `Passes.SextOfTrueChanges`; exact condition in `Passes.ConvSafeExact` |
| `@assert(2)`, a literal branch condition | nonzero for the optimiser, zero for the one-bit test of the back end | `Passes.BranchOnTwo`; exact condition in `Passes.BranchLiteralExact` |
| `sdiv i8 200, 2` with the literal out of range | folds to 100, the instruction gives -28 | `Literals.FoldNeedsRange`; exact condition in `Literals.FoldExact`, and in `Literals.FoldWide` for most second literals out of range |
| a folded `add c, 0` | reports a change in every later round although nothing changes | `Folding.FoldNeverSettles`; one round is enough, `Folding.FoldBlockIdempotent` |
| `short x = 1; return x + 1;` | the operand's type reads back as a pointer: E0005 is printed, the sum becomes null, and compilation goes on; the source means 2, the blocks return 0 | `Losses.ShortOperand`; right at one operand if and only if the sum is zero, `Losses.LostSum`; what is read back is right throughout a body if and only if the body keeps its types, `TypeLoss.BodyExact` |
| `let _ = 5; return _;` | the name is not entered: the source means 5, the blocks return 0 | `Losses.DiscardRead`; exact condition on the read in `Losses.DiscardExact`, on the tables in `Resolve.StmtTracks` |
| two int literals whose sum exceeds 32 bits, at compile time | added in 64 bits by the evaluator, in 32 by the code | `Comptime.IntLiteralsDisagree`; exact condition per operator in `Comptime.ArithExact` |
| a prefix `!` at compile time | dropped: the evaluator gives the operand's value, the code -1 or 0 by its parity | they agree only on `!true`, `Comptime.NotExact` |
| a comparison at compile time, such as `1 < 2` | 0, whatever is compared; the code gives -1 | right if and only if the comparison does not hold, `Comptime.CompareExact` |
| `>>>`, characters and truth values at compile time | 0 | exact conditions in `Comptime.LogicalShiftExact` and `Comptime.LiteralExact` |
| `n++` on a name declared without `mut` | accepted by the checker, and the value changes | `Check.StepSlipsThrough`; exact condition in `Check.StepExact` |
| `\x4` in front of anything but a hex digit | the one digit is taken for the high one: the byte 0x40 | `Escapes.ShortPair`; with two digits the byte is right, `Escapes.LiteralReads` |
| the empty string literal in front of a quote | opens a triple literal | `Lexer.EmptyBeforeQuote`; exact condition in `Lexer.LiteralRoundTrip` |
| regions nested deeper than 32 | the push is ignored, the pop is not: an outer region is freed early | exact condition in `Regions.SurvivesExact` |

## Left out

- OptCorrect.OptimizePreserves: covers integer instructions; floats, pointers, strings, phi and indirect calls are not part of the FIR modelled, and a 64-bit overflow while folding, undefined in C, is taken to wrap.
- Opt.MirOpt: likewise; the float branches of folding (`fadd x, 0.0` is not a copy for -0.0) are not modelled.
- Folding.FoldBlockIdempotent: integer instructions only.
- Normal.LoadExact: with literals stored to more than 1024 slots, later slots find no room in the table and their loads stay; which slots these are is not said.
- Normal.OptimizeSettles: of blocks of integer instructions; what the second round would fold in blocks that become dead is not said.
- Literals.FoldExact: for division and shifts asks that the second literal be in range of its type; for one that is not `Literals.FoldWide` gives the exact condition for shifts and for dividends smaller than the divisor, and other dividends count as unsafe without a proof that they always go wrong.
- Literals.FoldWide: no shifts of one-bit values, and only dividends smaller than the divisor.
- Compile.CompiledExact: the conditions of the introduction; a function that is undefined on some arguments is followed only up to where it becomes so, and only by `LowerFn.FnSim`.
- LowerCorrect.StmtSim: for statements that keep their types (`Typing.KeptStmt`), call none of the functions that get code of their own, pass at most 64 arguments and do not declare `_` (`Typing.PlainStmt`).
- Lower.EmitExpr: callees that get code of their own (`Typing.RESERVED`) are lowered like any other; pointer arithmetic is modelled outside `unsafe`, where it is reported and left out.
- Lower.EmitDecl: the copy of the string that a `mut` declaration makes when its inferred type reads back as a pointer.
- CodegenState.Codegen.Function: nesting within the 64 scope marks is required, since the code does not look at their number.
- Progress.Parser.Program: positions, the flag against structure literals and reports; no trees.
- Progress.Parser.Embedded: that an embedded expression is smaller than its literal is part of the token type; that tokens of this type can be had from every text is `Interp.Tokens`.
- Interp.Tokens: the lexer is a parameter but for the values of string literals; a literal that would start behind the end of the text is empty.
- Derivation.ParseExact: expressions over the tokens of `Grammar`; casts (and the name `as`), conditional expressions, `?`, structure literals, `::`, `@` intrinsics, interpolation, typed lambda parameters and lambda bodies in braces are moved over in `Progress` but have no trees.
- Printing.PrintParse: two adjacent minus or plus signs are separate tokens here; that a space keeps them apart is the lexer's business.
- ParserState.Parser.Expr: the same tokens as `Derivation.ParseExact`.
- Resolve.FnResolves: free functions; in a method both tables also hold `self`. Names are compared as declarations: that a compile-time constant is looked up before the table is part of `Lower.EmitExpr`.
- Check.StmtKeeps: for the statements of `Source`; enums, classes, lambdas and imports are not part of the checker's model.
- HashMap.RunsRefine: null arguments (which do nothing) and freeing the map.
- Lexer.Scanner.StringLiteral: a triple literal whose closing quotes are cut off by the end of the text makes the source step past it; here the position stays at the end. A zero byte in a literal is kept here, while later C string functions stop at it.
- Replace.Replace: the match count fits an int and the size asked for is below 2^63.
- Arena.Arena.Alloc: sizes below 2^63; copying strings into the arena.
- Floats, strings as values, pointers, structures, classes, enums and variant arms, closures, `defer`, region blocks, `for in` (whose comparison is typed i1 and whose `continue` skips the increment), `&&` and `||` (whose phi is built with one argument where the back end reads pairs), conditional expressions, compile-time `let` inside functions.
- Increments and assignments used inside larger expressions; calls of units used as values.
- Operand text: literals and temps are a datatype; that rendering them loses nothing is in `Decimal`. The LLVM calls are used only for what they say of FIR's meaning, and the fixed table sizes of the emitter are not modelled.
- `dse_block`, which is never called.
- The command line, files, linking, type inference, the HIR, the FIR printer, the rest of the lexer and the simple runtime wrappers.
