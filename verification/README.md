# math-parse, modelled in Dafny

math-parse is a Rust library that reads arithmetic written as text, either
infix (`(3-5)*4`) or postfix (`4 3 5 - *`), and evaluates it. It holds two
generations of the same idea.

- **The legacy engine** (`src/maths.rs`) works on `i64` only and reports
  errors as `String`s:
  - it tokenizes over six operator characters;
  - it folds parentheses and the four binary operators into a tree kept
    inside the token vector itself (every operation points at its
    operands by relative offsets);
  - it replaces named variables through a `HashMap`, reads the numbers and
    evaluates the tree.
- **The current engine** splits the same work across several files:
  - `src/tokenize.rs`: 23 operator characters, some pairs merged (`//`,
    `<<`, `>>`);
  - `src/parse.rs`: unary operators, parentheses, and six precedence tiers
    solved with an explicit task stack;
  - `src/rpn.rs`: turns the in-vector tree into a postfix instruction list;
  - `src/rpn_stack_manipulation.rs`: a generic stack machine that runs such
    a list;
  - `src/solve.rs`: evaluates the list over `Number`, which is `Int(i64)` or
    `Float(f64)`, with typed errors;
  - `src/tree.rs`: builds an owned tree from the same list;
  - `src/parse_rpn.rs`: reads postfix text directly.

The Dafny modules follow those files:

| module | file | source |
|---|---|---|
| `Errors` | errors.dfy | `MathParseErrors`, `Result`, `Option` |
| `MachineInt` | machine_int.dfy | release-build `i64` arithmetic: wrap-around, truncating `/` and `%`, shifts, bitwise operators |
| `Floats` | floats.dfy | `f64` as a 64-bit pattern (zero and sign tests only) |
| `Radix` | radix.dfy | `i64::from_str_radix`, `str::len` in UTF-8 bytes |
| `Utils` | utils.dfy | `src/utils.rs` and the identical `i_to_u`/`u_to_i` of `src/number_conversion.rs` |
| `Lexer` | lexer.dfy | the word/symbol scan shared by both `math_token`s, with a reference lexer |
| `Spelling` | spelling.dfy | a checker used by the examples to decide the lexemes of a literal text |
| `Tokenize` | tokenize.dfy | `src/tokenize.rs` (and the identical `math_token` of `src/parse.rs`) |
| `Parse`, `ParseFacts` | parse.dfy, parse_facts.dfy | `src/parse.rs` and its properties |
| `Operators` | operators.dfy | `BinaryOp`, `UnaryOp`, `RPN` |
| `Rpn` | rpn.dfy | `src/rpn.rs` |
| `RpnStack` | rpn_stack.dfy | `src/rpn_stack_manipulation.rs` |
| `Trees` | trees.dfy | `src/tree.rs` |
| `Solve` | solve.dfy | `src/solve.rs` |
| `RpnParser` | parse_rpn.dfy | `src/parse_rpn.rs` |
| `Maths` | maths.dfy | `src/maths.rs` |
| `TokenizeExamples`, `ParseExamples`, `ParseRpnExamples`, `MathsExamples`, `MathsComputeExample` | *_examples.dfy | the crate's own tests, stated as lemmas |

## How the model represents the Rust code

**Collaborators.** Code this model does not define is passed in as a
parameter, and every statement that depends on it says so in its
`requires`:
- `BinaryOp::from_char` and `UnaryOp::from_char` are an `OperatorTable`;
- float arithmetic, `f_to_i`, `i_to_f` and `str::parse::<f64>` are a
  `FloatArith`;
- the recursive `ParsedMath::parse(..).solve_number(None)` in `read_name`
  is a function `solveText`.

**Integers and strings.**
- `i64` arithmetic follows release builds: `+`, `-`, `*` and `<<` wrap
  modulo 2^64, and the shift amount is taken modulo 64.
- Strings are sequences of characters. Byte lengths are computed explicitly
  where the Rust code slices by bytes.

**Mutation.** In-place mutation of the token vector becomes a function from
the old line to the new one.

**The legacy engine's outcomes.** The legacy engine can panic and can loop
forever, so its results are an `Outcome`:
- `Done`: the value;
- `Failed`: the `String` error;
- `Aborted(Panic)` or `Aborted(Diverge)`: the run panics or never ends.

## Model

| member | source | states |
|---|---|---|
| Utils.IToU | src/utils.rs:5-11 | `isize -> usize` succeeds exactly on non-negative values, keeps the value, and otherwise reports an internal bug whose message names the value in decimal |
| Utils.UToI | src/utils.rs:14-20 | `usize -> isize` succeeds exactly up to `isize::MAX`, keeps the value, and otherwise reports an internal bug whose message names the value in decimal |
| Utils.UToIRoundTrip | src/number_conversion.rs:5-20 | converting to `isize` and back gives the index back wherever the first step succeeds |
| Utils.IToURoundTrip | src/number_conversion.rs:5-20 | converting to `usize` and back gives the value back wherever the first step succeeds |
| MachineInt.Wrap | src/solve.rs:73-106 | the release-build result of an `i64` operation is congruent to the exact result modulo 2^64, and equal to it when that is in range |
| MachineInt.TruncRem | src/solve.rs:126-134 | Rust's `%` is the remainder of the quotient truncated toward zero: it is smaller than the divisor in magnitude and has the dividend's sign |
| MachineInt.TruncDivInRange | src/solve.rs:258-270 | the final `s / o` of `integer_div` stays in `i64` range, except for `i64::MIN / -1` |
| MachineInt.NegateTwice | src/solve.rs:24-30 | wrapped negation undoes itself, `i64::MIN` included |
| MachineInt.SubUndoesAdd | src/solve.rs:73-93 | wrapped subtraction undoes wrapped addition |
| MachineInt.XorSelfInverse | src/solve.rs:151-158 | `x ^ y ^ y == x` on the two's-complement patterns |
| MachineInt.AndOrIdempotent | src/solve.rs:164-184 | `x & x == x` and `x \| 0 == x` |
| MachineInt.ShiftLeftWraps | src/solve.rs:190-198 | `<<` multiplies by 2^(amount mod 64), up to a multiple of 2^64 |
| MachineInt.ShiftRightIsDivision | src/solve.rs:204-212 | arithmetic `>>` is floor division by 2^(amount mod 64) |
| MachineInt.ShiftBack | src/solve.rs:190-212 | shifting left then right by the same amount gives the value back when nothing overflowed |
| Floats.SignedZeros | src/solve.rs:226-248 | both signed zeros count as zero and neither as negative |
| Radix.FromStrRadix | src/solve.rs:276-281 | `from_str_radix` accepts only non-empty texts, and a leading `-` gives a value at most 0 |
| Radix.DigitsRoundTrip | src/solve.rs:276-281 | reading back the digits of a natural number in base 10 or 16 gives that number |
| Radix.DecimalRoundTrip | src/solve.rs:276-281 | every `i64` written in decimal, sign included, is read back by `from_str_radix(_, 10)` |
| Radix.HexRoundTrip | src/solve.rs:276-281 | every non-negative `i64` written in hexadecimal is read back by `from_str_radix(_, 16)` |
| Radix.ByteLen | src/solve.rs:277 | `str::len` counts UTF-8 bytes, never fewer than the characters |
| Lexer.IsIn | src/tokenize.rs:103-110 | the linear search answers exactly membership in the slice |
| Lexer.ScanIsLex | src/maths.rs:20-43 | the character loop with its open-word index computes the reference lexer: a maximal word or one alphabet symbol, repeatedly |
| Lexer.LexSpellsInput | src/tokenize.rs:39-62 | nothing is dropped: the lexemes spell the input back |
| Lexer.LexWellFormed | src/tokenize.rs:39-62 | every lexeme is a non-empty operator-free word or one alphabet symbol, and two words never touch |
| Lexer.LexUnique | src/tokenize.rs:39-62 | a well-formed lexeme list that spells the text is the lexer's output, so the tokenization is unique |
| Tokenize.ContainsMathChar | src/tokenize.rs:113-115 | true exactly when some character of the text is one of the 23 operator characters |
| Tokenize.MathTokenIsMergedLex | src/tokenize.rs:36-98 | `math_token` is the reference lexemes, the `TrailingError` sentinel appended, then the pair merge |
| Tokenize.TokenComplexIsMerge | src/tokenize.rs:65-93 | the in-place `token_complex` loop computes the left-to-right pair merge |
| Tokenize.MergeKeepsLength | src/tokenize.rs:65-93 | merging never changes the token count: the second token of a pair becomes a placeholder |
| Tokenize.MergeKeepsOthers | src/tokenize.rs:65-93 | a token other than `/`, `<`, `>` is never touched by the merge |
| Tokenize.MergePlaceholders | src/tokenize.rs:65-93 | a new placeholder sits right after a merged operator whose glyph is the merge of the pair it replaced |
| Tokenize.MergeKeepsSentinels | src/tokenize.rs:65-93 | the merge neither creates nor removes a `TrailingError` |
| Tokenize.MathTokenSentinel | src/tokenize.rs:59-61 | the token list ends with exactly one `TrailingError` and has no other |
| TokenizeExamples.MathTokenExample | src/tokenize.rs:123-126 | `+4/88*toto` gives the six tokens and the sentinel of the Rust test |
| TokenizeExamples.TripleSlashExample | src/tokenize.rs:65-93 | `///`: the first two slashes merge into integer division, the third stays a `/` |
| Parse.SingleParenLoop | src/parse.rs:200-229 | one scan that folds the innermost group closed by the first `)` keeps the length and the names, and reports whether it folded; a line it leaves alone has no raw parenthesis |
| Parse.FoldGroup | src/parse.rs:211-222 | folding a group keeps the length and the names and removes one `)` |
| Parse.ParenParse | src/parse.rs:196-234 | folding until nothing is left gives a line of the same length and names with no raw parenthesis |
| Parse.ScanFrom | src/parse.rs:299-319 | the right-to-left scan returns only a position inside the window holding an operator of the tier |
| Parse.ParseOp | src/parse.rs:291-322 | a split is always at an operator of the tier, strictly inside the block |
| Parse.TierLoop | src/parse.rs:278-286 | trying the tiers keeps the task stack valid, and what replaces the block weighs less than it did, which is why the task loop ends |
| Parse.SolveBlock | src/parse.rs:278-286 | solving a block replaces it by tasks that all lie inside the line and weigh less in total than the block did |
| Parse.MakeOp | src/parse.rs:343-360 | `make_op` succeeds exactly on an operator whose distance from the block's start fits in `isize`, keeping the length and names |
| Parse.SolveTasks | src/parse.rs:260-275 | the task loop ends, and a successful run keeps the length and the names |
| Parse.AllButParenParse | src/parse.rs:237-364 | the binary pass succeeds only on a non-empty slice and keeps its length and names |
| Parse.SplitWeight | src/parse.rs:327-339 | splitting a block of width w pushes tasks of total weight below the block's, so the task loop terminates |
| Parse.FoldedCloseCount | src/parse.rs:211-222 | a fold consumes one `)` and creates none, so `paren_parse`'s loop terminates |
| Parse.FoldedNames | src/parse.rs:211-222 | a fold keeps the multiset of names |
| ParseFacts.UnaryParseIsPointwise | src/parse.rs:145-192 | `unary_parse` succeeds exactly when every token passes the per-token rule at its operand position; it then rewrites each token by that rule, and otherwise fails with the first rejection |
| ParseFacts.OperandPositionRule | src/parse.rs:149-178 | in operand position `+ - − ! ~` become unary operations and any other operator character except the parentheses is a `MisplacedOperator` |
| ParseFacts.UnaryParseKeepsNames | src/parse.rs:145-192 | the unary pass keeps the multiset of names |
| ParseFacts.SingleParenParseCases | src/parse.rs:200-229 | with no `)`, a `(` is `UnclosedParenthesis` and otherwise nothing changes; a first `)` with no `(` before it is `UnopenedParenthesis`; otherwise the innermost group before it is folded |
| ParseFacts.ScanFromRightmost | src/parse.rs:299-319 | every operator of the tier right of the one the scan returns is inside a group the scan jumped over |
| ParseFacts.TierLoopSplits | src/parse.rs:278-286 | the tier loop splits at the rightmost exposed operator of the loosest tier that has one, or leaves the tasks alone when no tier has one |
| ParseFacts.SolveBlockSplits | src/parse.rs:278-322 | `solve_block` fails with `EmptyLine` exactly on an empty block or the lone sentinel; otherwise it splits at the loosest, rightmost exposed operator or leaves a block with none |
| ParseFacts.MakeOpMovesHeader | src/parse.rs:343-360 | `make_op` writes the operation at the block's start pointing at the operator's slot and the next one, and moves the old header there with its targets unchanged; nothing else moves |
| ParseFacts.ShiftKeepsTargets | src/parse.rs:352-357 | re-expressing a header's offsets from its new slot keeps the absolute positions it points at |
| ParseFacts.MathParseTokensKeepsNames | src/parse.rs:140-370 | the three passes keep the line's length and its multiset of names |
| ParseExamples.SingleName | src/parse.rs:294-297 | a lone name needs no parsing |
| ParseExamples.SumGroup | src/parse.rs:343-360 | `a+b` becomes the operation heading the block, followed by its operands |
| ParseExamples.PlusExample | src/parse.rs:407-410 | `+88+89` parses to the tree of the Rust test, the leading `+` unary |
| ParseExamples.MixedExample | src/parse.rs:412-415 | `-1*2+-3*4` parses to the tree of the Rust test |
| ParseExamples.GroupExample | src/parse.rs:417-432 | `(1+2)*(3+4)` parses to the tree of the Rust test |
| ParseExamples.UnopenedExample | src/parse.rs:434 | `33)` is `UnopenedParenthesis` |
| ParseExamples.UnclosedExample | src/parse.rs:435 | `((33)` is `UnclosedParenthesis` |
| ParseExamples.EmptyExample | src/parse.rs:436 | the empty text is `EmptyLine` |
| ParseExamples.EmptyGroupExample | src/parse.rs:437 | `22+()` is `EmptyLine` |
| ParseExamples.OperatorAfterOperatorExample | src/parse.rs:438 | `33+*23` is `MisplacedOperator('*')` |
| ParseExamples.LeadingOperatorExample | src/parse.rs:439 | `*2` is `MisplacedOperator('*')` |
| ParseExamples.TrailingOperatorExample | src/parse.rs:440 | `2/` is `EmptyLine` |
| Rpn.RemoveWhitespace | src/rpn.rs:84-86 | the result is no longer than the text, has no whitespace left, keeps every other character of the text and adds none |
| Rpn.RemoveWhitespaceSingle | src/rpn.rs:84-86 | one character is dropped exactly when it is whitespace |
| Rpn.RemoveWhitespaceFilters | src/rpn.rs:84-86 | removing whitespace from a text and one more character appends that character unless it is whitespace: the function is the filter |
| Rpn.RemoveWhitespaceIdempotent | src/rpn.rs:84-86 | removing whitespace twice is removing it once |
| Rpn.AddIndexOffset | src/rpn.rs:78-81 | `index + offset` is returned exactly when it is a valid non-negative index; otherwise it is an internal bug |
| Rpn.ReadOperator | src/rpn.rs:67-76 | an operation node gives the binary instruction its glyph names, a unary node the unary one, anything else an internal bug |
| Rpn.RpnOperator | src/rpn.rs:61-65 | the node's instruction is appended to the output, or its lookup error returned |
| Rpn.WalkIsProgram | src/rpn.rs:33-60 | whatever a finished traversal emits never underflows the stack and leaves exactly one value |
| Rpn.WalkBuildsTree | src/rpn.rs:33-60 | the emitted list builds a tree whose post-order list is that list |
| Rpn.RpnSolve | src/rpn.rs:33-60 | one `rpn_solve` step keeps what the run will produce and lowers the pending work; its error is the traversal's |
| Rpn.SolveOperationNode | src/rpn.rs:46-51 | on an operation, the steps pushed for the operator and both operands produce the node's traversal followed by the pending work, with less load; an error is the traversal's |
| Rpn.SolveUnaryNode | src/rpn.rs:52-55 | on a unary operation, the steps pushed for the operator and its operand produce the node's traversal followed by the pending work, with less load |
| Rpn.SolveGroupNode | src/rpn.rs:42-45 | on a group, the step pushed for its inside produces the group's traversal followed by the pending work, with less load |
| Rpn.SolveLeaf | src/rpn.rs:35-41 | on any other node the output grows exactly as the traversal says (a name without its whitespace) or the traversal's error is returned |
| Rpn.RunStep | src/rpn.rs:25-31 | one popped step keeps what the run will produce and strictly lowers the load, which is why the loop ends |
| Rpn.ParseRpn | src/rpn.rs:16-23 | the stack loop returns exactly what the recursive traversal from the root gives, and a success is a list that never underflows and leaves one value |
| Rpn.WalkAdditionExample | src/rpn.rs:33-60 | an addition over two names emits both operands, whitespace removed, then the operator |
| Rpn.WalkNegativeIndexExample | src/rpn.rs:78-81 | an offset leading before the line's start is an internal bug |
| RpnStack.PopOne | src/rpn_stack_manipulation.rs:10-16 | succeeds exactly on a non-empty stack, returning its top and the stack below |
| RpnStack.PopTwo | src/rpn_stack_manipulation.rs:19-31 | succeeds exactly with two elements, returning them in push order and the stack below |
| RpnStack.ExecuteUnary | src/rpn_stack_manipulation.rs:35-40 | the top is replaced by its image and nothing below changes; an underflow or a failed computation is reported |
| RpnStack.ExecuteBinary | src/rpn_stack_manipulation.rs:44-49 | the two top values, lower one first, are replaced by their result and nothing below changes |
| RpnStack.ExecOneAction | src/rpn_stack_manipulation.rs:53-64 | a successful instruction found at least the elements it consumes, changes the height by its effect and leaves the rest of the stack alone |
| RpnStack.ExecActions | src/rpn_stack_manipulation.rs:66-72 | a successful run never underflowed and ends at the starting height plus the list's net effect |
| RpnStack.ExecRpn | src/rpn_stack_manipulation.rs:66-74 | a successful `exec_rpn` ran a list that never underflows and leaves at least one value |
| RpnStack.ExecActionsAppend | src/rpn_stack_manipulation.rs:66-72 | running a concatenation is running the second part from where the first ended |
| RpnStack.ExecRpnTotal | src/rpn_stack_manipulation.rs:66-74 | with computations that never fail, `exec_rpn` succeeds exactly on lists that never underflow and leave something |
| RpnStack.ExecRpnReportsTop | src/rpn_stack_manipulation.rs:73 | with two values left, the top one is returned and the other silently dropped |
| Trees.ComputeUnary | src/tree.rs:11-41 | the top node becomes the child of a new unary node; an empty stack is an internal bug |
| Trees.ComputeBinary | src/tree.rs:20-51 | the two top nodes, lower one on the left, become the children of a new binary node |
| Trees.ParseToTreeIsExecRpn | src/tree.rs:54-76 | `parse_to_tree` is the stack machine run with the tree constructors |
| Trees.ParseToTreeSucceeds | src/tree.rs:67-76 | the builder succeeds exactly on lists that never underflow and leave something |
| Trees.ParseToTreeOfToRpn | src/tree.rs:67-76 | building from a tree's post-order list gives the tree back |
| Trees.ToRpnOfParseToTree | src/tree.rs:67-76 | a list leaving exactly one tree is that tree's post-order list |
| Trees.ExecRpnIsEval | src/rpn_stack_manipulation.rs:66-74 | running a tree's list is evaluating the tree bottom-up |
| Trees.ParseToTreeExample | src/tree.rs:81-93 | `toto tata + titi - *` with a unary `+` builds the tree of the Rust test |
| Solve.AddNumbers | src/solve.rs:70-80 | `+` gives an Int exactly when both operands are, equal to the sum modulo 2^64 |
| Solve.SubNumbers | src/solve.rs:83-93 | `-` gives an Int exactly when both operands are, equal to the difference modulo 2^64 |
| Solve.MulNumbers | src/solve.rs:96-106 | `*` gives an Int exactly when both operands are, equal to the product modulo 2^64 |
| Solve.SubUndoesAdd | src/solve.rs:70-93 | on Ints, subtracting what was added gives the value back, overflow or not |
| Solve.ErrOnZero | src/solve.rs:226-240 | fails with `UnexpectedZero` exactly on Int 0 and on both float zeros |
| Solve.ErrOnNegative | src/solve.rs:243-257 | fails with `UnexpectedNegative` exactly on a negative Int or float |
| Solve.ErrOnFloat | src/solve.rs:217-223 | fails exactly on a float, naming it and the operator |
| Solve.DivNumbers | src/solve.rs:109-120 | `/` refuses a zero divisor and otherwise always gives a float |
| Solve.RemNumbers | src/solve.rs:123-134 | `%` refuses a zero divisor; on Ints it is the truncated remainder, smaller than the divisor and with the dividend's sign |
| Solve.IntegerDivAsWritten | src/solve.rs:258-270 | `integer_div` as written, outside the divisor that rounds to 0 on which it panics: always an Int, and a zero divisor is `UnexpectedZero` |
| Solve.IntegerDiv | src/solve.rs:258-270 | integer division always gives an Int, refuses a zero divisor, and on Ints is Rust's truncating `/` |
| Solve.IntegerDivAgrees | src/solve.rs:258-270 | wherever `integer_div` as written does not panic, the checked one agrees with it |
| Solve.IntegerDivRem | src/solve.rs:123-134 | on Ints, quotient times divisor plus remainder is the dividend |
| Solve.NotNumber | src/solve.rs:137-145 | `!` is the bitwise complement of an Int and refuses a float |
| Solve.XorNumbers | src/solve.rs:148-158 | `^` is defined exactly on two Ints and names the first float otherwise |
| Solve.AndNumbers | src/solve.rs:161-171 | `&` is defined exactly on two Ints and names the first float otherwise |
| Solve.OrNumbers | src/solve.rs:174-184 | `\|` is defined exactly on two Ints and names the first float otherwise |
| Solve.NotIsXorWithOnes | src/solve.rs:137-158 | `!x` is `x ^ -1` |
| Solve.BitwiseLaws | src/solve.rs:148-184 | `x ^ y ^ y == x`, `x & x == x`, `x \| 0 == x` |
| Solve.NotTwice | src/solve.rs:137-145 | complementing twice gives the value back |
| Solve.ShlNumbers | src/solve.rs:187-198 | `<<` needs two Ints and a non-negative amount, and multiplies by 2^(amount mod 64) modulo 2^64 |
| Solve.ShrNumbers | src/solve.rs:201-212 | `>>` needs two Ints and a non-negative amount, and is floor division by 2^(amount mod 64) |
| Solve.ShiftBackNumbers | src/solve.rs:187-212 | shifting left then right gives the value back when nothing was shifted out |
| Solve.ComputeUnary | src/solve.rs:24-30 | `+` keeps the number, `-` negates it as `Int(-1) * n`, `!` is the complement |
| Solve.MinusTwice | src/solve.rs:24-30 | negating an Int twice gives it back, `i64::MIN` included |
| Solve.ComputeBinary | src/solve.rs:32-46 | the dividing operators refuse zero; on Ints only `/` leaves the integers; with a float only `⟌` gives an Int; `⟌` is `integer_div` wherever that does not panic |
| Solve.IntFailures | src/solve.rs:32-46 | on two Ints an operator fails exactly on a zero divisor or a negative shift, with the matching error |
| Solve.FloatsRefused | src/solve.rs:148-212 | a float operand makes every bitwise operator and shift fail, naming the first float and the glyph |
| Solve.NumberFromStringAsWritten | src/solve.rs:276-291 | `number_from_string` as written, outside the texts whose byte-2 slice panics: a text fails exactly when neither `from_str_radix` (hexadecimal after `0x` from 3 bytes on, decimal otherwise) nor the float parser reads it, with `InvalidNumber` naming it; a text only the float parser reads is that Float; a text that `from_str_radix` reads (hexadecimal after `0x` from 3 bytes on, decimal otherwise) is that Int; a float is the parser's value |
| Solve.NumberFromString | src/solve.rs:276-291 | a text is `InvalidNumber` naming it exactly when neither `from_str_radix` (hexadecimal after `0x`, decimal otherwise) nor the float parser reads it; a text that `from_str_radix` reads is that Int, and a float result is the parser's value |
| Solve.NumberFromStringAgrees | src/solve.rs:276-291 | wherever the byte-2 slice of `number_from_string` does not panic, it and the character-based version agree |
| Solve.DecimalNumberRoundTrip | src/solve.rs:276-291 | every Int written in decimal reads back as itself |
| Solve.HexNumberRoundTrip | src/solve.rs:276-291 | every non-negative Int written as `0x` and hexadecimal digits reads back as itself |
| Solve.ReadName | src/solve.rs:15-22 | a mapped name is evaluated as the text it maps to; an unmapped name fails exactly when neither `from_str_radix` (hexadecimal after `0x`) nor the float parser reads it, and then with `InvalidNumber` naming it; a text that `from_str_radix` reads is that Int, and otherwise a float is the parser's value |
| Solve.ReadNameDecimal | src/solve.rs:15-22 | an unmapped name that is an `i64` in decimal reads as that Int |
| Solve.ReadNameLocal | src/solve.rs:15-22 | reading a name looks at the map only under that name |
| Solve.SolveInterp | src/solve.rs:48-54 | the closures `math_solve` hands to `exec_rpn`: names go through `read_name`, operators through `compute_unary` and `compute_binary`, and the remainder overflow on which the Rust code panics is an internal-bug error |
| Solve.MathSolve | src/solve.rs:48-54 | a successful solve ran a list that never underflows and leaves a value |
| Solve.MathSolveIsEval | src/solve.rs:48-54 | solving a tree's post-order list evaluates the tree with the same operators |
| Solve.ReadingNumbersExample | src/solve.rs:296-302 | `100`, `0`, `0x10`, `2.5` and `toto` read as in the Rust test |
| Solve.ReadNamedVariablesExample | src/solve.rs:305-319 | `3`, `direct_1` and the chain from `indirect_1` read as in the Rust test |
| Solve.MathComputeExample | src/solve.rs:322-333 | `4 3 5 - *` solves to `Int(-8)` |
| Solve.ErrorsExample | src/solve.rs:336-341 | division by zero, a negative shift, the complement of a float and the float sign tests behave as in the Rust test |
| Solve.IntConversionExample | src/solve.rs:343-345 | a dividend `f_to_i` refuses stops integer division with `IntConversion` |
| RpnParser.Uniform | src/parse_rpn.rs:67 | every blank (tab, space, line feed, carriage return, no-break space) becomes a space and everything else is kept |
| RpnParser.NonEmpty | src/parse_rpn.rs:69 | only non-empty pieces, each from the input |
| RpnParser.SplitWords | src/parse_rpn.rs:66-72 | every result is a non-empty word with no blank |
| RpnParser.SplitWordsKeepsCharacters | src/parse_rpn.rs:66-72 | the words put together are exactly the text's non-blank characters, in order |
| RpnParser.SplitJoinRoundTrip | src/parse_rpn.rs:66-72 | splitting words joined by spaces gives the words back |
| RpnParser.SplitWordsIdempotent | src/parse_rpn.rs:66-72 | splitting the joined words again changes nothing |
| RpnParser.ParseRpnOperator | src/parse_rpn.rs:36-46 | a known glyph is one binary instruction; an unknown one is `InvalidRPNOperator`; other table errors pass through |
| RpnParser.ParseRpnName | src/parse_rpn.rs:48-50 | one name instruction per word of the token, in order |
| RpnParser.TokenActions | src/parse_rpn.rs:20-28 | a token gives name instructions holding words and no unary instruction; tree nodes are internal bugs |
| RpnParser.RpnParseTokens | src/parse_rpn.rs:17-34 | the instructions read never contain a unary operator, and every name is a word |
| RpnParser.RpnParseTokensAppend | src/parse_rpn.rs:17-34 | reading a concatenation is reading each part, the first error winning |
| RpnParser.CheckRpnValid | src/parse_rpn.rs:52-61 | the check passes exactly when solving with every name mapped to `1` succeeds, and returns that solve's error otherwise; a pass means the list never underflows and leaves a value |
| RpnParser.ParseRpnAsWritten | src/parse_rpn.rs:10-15 | a success is the instruction list read from the tokens, never underflowing and leaving a value |
| RpnParser.CheckRpnBalanced | src/parse_rpn.rs:96-106 | passes exactly on lists that never underflow and leave exactly one value; otherwise `UnbalancedStack` |
| RpnParser.ParseRpn | src/parse_rpn.rs:10-15 | succeeds exactly when the tokens read and the list is balanced; reading errors pass through, and a read list that is unbalanced is `UnbalancedStack` |
| RpnParser.ParseRpnRuns | src/parse_rpn.rs:10-15 | what `parse_rpn` accepts runs without underflow to exactly one value under any computations that never fail |
| RpnParser.ParseRpnAgrees | src/parse_rpn.rs:10-15 | the stack check and the trial evaluation agree whenever the trial leaves one value, or the balanced list evaluates, or reading fails |
| ParseRpnExamples.NewlineExample | src/parse_rpn.rs:83-86 | words separated by line feeds and tabs read as in the Rust test |
| ParseRpnExamples.TwoSumsExample | src/parse_rpn.rs:88-90 | `88 77 + 33 11 + *` reads to the instruction list of the Rust test |
| ParseRpnExamples.ParenthesisedExample | src/parse_rpn.rs:92-94 | `(88 77 +)` is `InvalidRPNOperator('(')` |
| ParseRpnExamples.ShiftExample | src/parse_rpn.rs:108-110 | `6 1 >>` reads `>>` as one shift operator |
| ParseRpnExamples.HintExample | src/parse_rpn.rs:112-114 | `6 1 >` reports the table's hint about `>>` |
| ParseRpnExamples.PlusUnderflows | src/parse_rpn.rs:100-102 | `+` alone: `parse_rpn` reports an internal bug, the stack check `UnbalancedStack` |
| ParseRpnExamples.PairAccepted | src/parse_rpn.rs:104-106 | `8 7`: `parse_rpn` accepts it, the stack check refuses it with `UnbalancedStack` |
| ParseRpnExamples.ZeroRefused | src/parse_rpn.rs:52-61 | `x y y - /`: `parse_rpn`'s trial run divides by zero and refuses a well-formed list; the stack check accepts it |
| Maths.MathToken | src/maths.rs:20-43 | the tokens are the lexemes over `+-*/()`, one for one |
| Maths.MathTokenSpellsInput | src/maths.rs:20-43 | the tokens spell the text back |
| Maths.MathTokenShape | src/maths.rs:20-43 | every token is a non-empty operator-free name or one operator character, and two names never touch |
| Maths.ParenLoop | src/maths.rs:87-121 | the parenthesis scan keeps length and names and, from a consistent state, leaves no raw parenthesis |
| Maths.ParenParse | src/maths.rs:87-121 | every outermost group is folded; the result keeps length and names and has no raw parenthesis |
| Maths.ParenParseBalanced | src/maths.rs:87-121 | `paren_parse` accepts only lines whose parentheses are balanced |
| Maths.ParenParseIdle | src/maths.rs:87-121 | a line without parentheses goes through unchanged |
| Maths.ParseOp | src/maths.rs:152-179 | keeps length and names; an empty line is an error and a single element is left alone |
| Maths.ScanOps | src/maths.rs:163-177 | the operator scan keeps length and names and introduces no parenthesis |
| Maths.MakeOp | src/maths.rs:126-145 | splitting at an operator keeps length and names and leaves no raw parenthesis |
| Maths.MathParse | src/maths.rs:84-191 | a parsed line keeps length and names and has no raw parenthesis |
| Maths.SettledParse | src/maths.rs:84-191 | parsing an already parsed line changes nothing |
| Maths.BinaryParse | src/maths.rs:126-179 | `x c y` becomes the operation over `x` and `y` |
| Maths.NumberFromStringAsWritten | src/maths.rs:281-292 | `number_from_string` as written: it panics exactly when the text is longer than 3 bytes and byte 2 falls inside a character; otherwise it gives a number exactly when `from_str_radix` reads the text (hexadecimal after `0x` past 3 bytes, decimal otherwise), and that number is the value read; a failure carries `number_from_string`'s message |
| Maths.DecimalNumberRoundTrip | src/maths.rs:281-292 | every `i64` written in decimal reads back as itself, in the reader as written and the corrected one |
| Maths.AsciiAgrees | src/maths.rs:281-292 | on ASCII text other than a three-character `0x` text the reader as written and the corrected one agree |
| Maths.NumberFromString | src/maths.rs:281-292 | the text reads exactly when `from_str_radix` reads it, in hexadecimal after `0x` and in decimal otherwise, and gives the value read; a failure carries `number_from_string`'s message; it never panics |
| Maths.HexNumberRoundTrip | src/maths.rs:281-292 | every non-negative `i64` written as `0x` and hexadecimal digits reads back, a single digit included |
| Maths.NumberFromStringAgrees | src/maths.rs:281-292 | wherever the version as written neither panics nor sees a three-character `0x` text, the two agree |
| Maths.ReadNumbers | src/maths.rs:194-201 | succeeds exactly when `number_from_string` reads every name; each name becomes its value and everything else stays; otherwise the outcome is the error or panic of the first name it does not read |
| Maths.ReadNumbersGives | src/maths.rs:194-201 | a line whose names `number_from_string` reads as given element by element reads to exactly that line |
| Maths.ReadNumbersIdempotent | src/maths.rs:194-201 | reading an already read line changes nothing |
| Maths.Chase | src/maths.rs:217-220 | a text that is no key is its own end, and when every chain of the map ends, the end is a text that is no key |
| Maths.ChaseEnds | src/maths.rs:217-220 | a chain still at a key after as many steps as the map has keys stays at keys for ever, and a chain that reaches a text that is no key reaches the same one as Chase |
| Maths.ChaseLoop | src/maths.rs:217-220 | whenever the chain from the start reaches a text that is no key, the `while let` loop stops at it |
| Maths.ReadNamedVariables | src/maths.rs:207-227 | without a map nothing changes; a name that is a key becomes the number `number_from_string` reads at the end of its chain, and the rest stays; it stops exactly when one of those names gets no number, with the error, panic or divergence of the first |
| Maths.SubstitutedMeaning | src/maths.rs:217-221 | a key name diverges exactly when its chain stays at keys for ever, and otherwise gets what `number_from_string` makes of the first text along the chain that is no key |
| Maths.SubstituteSpec | src/maths.rs:214-226 | each key name becomes the number its chain gives; the substitution stops exactly when one of those names gets no number, with the outcome of the first |
| Maths.Apply | src/maths.rs:245-251 | `+ - *` give the wrapped sum, difference and product, the exact one whenever it fits in `i64`, and `/` computes exactly when the divisor is nonzero and not `i64::MIN / -1`, with Rust's truncating quotient |
| Maths.Compute | src/maths.rs:233-255 | an index outside the line panics, and so does an element with no arm (a name, an operator, a closing parenthesis); a value comes only from a value, a group or an operation |
| Maths.MathFinalCompute | src/maths.rs:231-258 | an empty line, or one whose first element has no arm, panics; a line led by a value is worth that value |
| Maths.DivisionByZeroPanics | src/maths.rs:231-258 | dividing by a side worth 0 panics |
| Maths.DivisionOverflowPanics | src/maths.rs:231-258 | dividing `i64::MIN` by -1 panics |
| Maths.ComputeFuel | src/maths.rs:231-258 | more fuel never changes a finished evaluation |
| Maths.LayoutComputes | src/maths.rs:231-258 | an operation laid out over two parsed sides evaluates to the operator applied to their values |
| Maths.GroupComputes | src/maths.rs:231-258 | a folded group evaluates to its inside |
| Maths.MathCompute | src/maths.rs:260-266 | a parse error is returned as it is, and a result comes only from a line that parsed |
| MathsExamples.MathTokenExample | src/maths.rs:297-300 | `+4/88*toto` gives the six tokens of the Rust test |
| MathsExamples.SumLayout | src/maths.rs:304-307 | the tokens of `88+89` parse as in the Rust test |
| MathsExamples.ProductsLayout | src/maths.rs:309-312 | the tokens of `1*2+3*4` parse as in the Rust test |
| MathsExamples.GroupsLayout | src/maths.rs:314-328 | the tokens of `(1+2)*(3+4)` parse as in the Rust test |
| MathsExamples.ReadingNumbersExample | src/maths.rs:332-337 | `100*0x10-2` parses, then its names read as 100, 16 and 2 |
| MathsExamples.UnreadableExample | src/maths.rs:339-342 | `toto-0x10` fails naming `toto` |
| MathsExamples.ShortHexExample | src/maths.rs:194-201 | a line holding the name `0x1` fails with `number_from_string`'s message |
| MathsExamples.EuroExample | src/maths.rs:194-201 | a line holding the name `€12` panics |
| MathsExamples.NamedVariablesExample | src/maths.rs:346-356 | the direct and chained variables become 1 and 2; the number `3` is left as a name |
| MathsExamples.CycleElsewhere | src/maths.rs:214-226 | with `a` and `b` naming each other and `x` naming 5, `x` still becomes 5, while a line that reaches `a` diverges there |
| MathsExamples.FinalComputeExample | src/maths.rs:359-365 | `(3-5)*4` evaluates to -8 |
| MathsExamples.CycleExample | src/maths.rs:230-244 | `1-(+)` parses to `[Operation('+',3,4), 1, ParenOpen(1), Operation('-',-2,-1), ParenClose(1)]`, whose evaluation cycles between indices 3 and 2 and so diverges |
| MathsExamples.CycleAdditive | src/maths.rs:157-165 | the additive scan of `parse_op` starts at the next-to-last element, the `+` inside the group, and splits the line there |
| MathsExamples.CycleRuns | src/maths.rs:233-241 | in that line, evaluating index 2 or 3 runs out of any fuel: `ParenOpen(1)` at 2 leads to 3, whose left side is 1 and right side is 2 again |
| MathsExamples.ZeroExample | src/maths.rs:382 | `0` computes to 0 under any variables that do not name `0` |
| MathsComputeExample.MathComputeExample | src/maths.rs:368-381 | `((3+3)*b+8)/(a-1)` with `a` = 3 and `b` = 9 computes to 31 |

## Findings

| source | as written | input that shows it | evidently intended | confidence | as-written member | corrected member |
|---|---|---|---|---|---|---|
| src/solve.rs:258-270 | `integer_div` checks the divisor for zero before converting it with `f_to_i`, then divides by the converted value unchecked | `Int(7)` integer-divided by `Float(0.4)`: 0.4 is not zero, `f_to_i(0.4)` rounds to 0, and `s / 0` panics | `UnexpectedZero` when the divisor rounds to zero | not executed | Solve.IntegerDivAsWritten, with Solve.DivisorRoundsToZero | Solve.IntegerDiv |
| src/maths.rs:282 | the `0x` prefix is honoured only for texts longer than 3 bytes | `0x1` is read in decimal and fails with "Unable to format 0x1 into a number" | `>= 3`, as `src/solve.rs:277` writes it, so one hexadecimal digit is read | not executed | Maths.NumberFromStringAsWritten, with Maths.ShortHexRejected | Maths.NumberFromString, with Maths.HexNumberRoundTrip |
| src/maths.rs:282 | `&s[0..2]` slices at byte 2 whatever the first character is | `€12` is five bytes long and byte 2 falls inside the euro sign, so the slice panics | test the first two characters, and report the text as unreadable | not executed | Maths.NumberFromStringAsWritten, with Maths.EuroTextPanics | Maths.NumberFromString |
| src/solve.rs:277 | the same byte-2 slice | `€` alone is three bytes long, so it passes the length test and the slice panics | `InvalidNumber("€")` | not executed | Solve.NumberFromStringAsWritten, with Solve.EuroSignPanics | Solve.NumberFromString |
| src/parse_rpn.rs:52-61 | validity is checked by evaluating with every name read as 1, which only detects an underflow, and not a value left over | `8 7` is accepted although the test at `src/parse_rpn.rs:104-106` expects `UnbalancedStack`; `+` gives an internal bug where `UnbalancedStack` is expected; `x y y - /` is refused with `UnexpectedZero` | no underflow and exactly one value left: `UnbalancedStack` otherwise | not executed | RpnParser.ParseRpnAsWritten, with ParseRpnExamples.PairAccepted, ParseRpnExamples.PlusUnderflows and ParseRpnExamples.ZeroRefused | RpnParser.ParseRpn, with RpnParser.ParseRpnRuns |

## Left out

- Panics the Rust code leaves to the runtime:
  - in the legacy engine (`src/maths.rs`) they are `Aborted(Panic)`
    outcomes, and its pipeline reads names with
    `number_from_string` as written, so `€12` panics and `0x1` fails there;
  - in the current engine, whose results are `Result`s, `i64::MIN % -1` is
    excluded by a `requires` (`RemPanics`, `BinaryPanics`), and the other
    two panics are replaced by the corrected readings listed below.
- Solve.SolveInterp: on `i64::MIN % -1`, where `compute_binary` panics
  (`src/solve.rs:48-54` passes it on unchecked), returns an internal-bug
  error instead, so that the stack machine stays total. The model does not
  promise the panic there.
- Solve.ComputeBinary: `⟌` is the corrected `Solve.IntegerDiv`, so a
  nonzero float divisor that `f_to_i` rounds to 0 gives `UnexpectedZero`
  where `src/solve.rs:262-269` panics. The model does not promise the
  panic; `Solve.IntegerDivAsWritten` and `Solve.DivisorRoundsToZero` state
  it.
- Solve.ReadName: an unmapped name is read with the corrected
  `Solve.NumberFromString`, so `€` is `InvalidNumber("€")` where
  `src/solve.rs:277` panics. `Solve.NumberFromStringAsWritten` and
  `Solve.EuroSignPanics` state the panic.
- Solve.MathSolve: inherits both corrections, through `Solve.SolveInterp`.
- RpnParser.ParseRpnAsWritten: its trial run inherits both corrections
  too, so a list such as `x x x x + x + / //`, where every name reads as 1
  and the trial computes 1 `⟌` 1/3, is refused with `UnexpectedZero`
  (once `f_to_i` rounds 1/3 to 0) where the Rust code panics.
- Debug-build overflow panics are not modelled; `+`, `-`, `*`, negation
  and `<<` follow release builds (wrap-around).
- Floating point is not modelled. Float arithmetic, `f_to_i`, `i_to_f` and
  `str::parse::<f64>` are the `FloatArith` parameter. `f64` values are bit
  patterns, with only the zero, NaN and sign tests defined.
- `BinaryOp::from_char` and `UnaryOp::from_char` are not part of this model
  (the `OperatorTable` parameter), and neither is `ParsedMath::parse` (the
  `solveText` parameter). `src/lib.rs` and `src/example.rs` are not part of
  this model.
- The `println!` calls of `src/maths.rs` are output only and are dropped.
- Maths.MathToken: `math_token` counts characters and uses the count as a
  byte offset when it slices a name (`src/maths.rs:20-42`), which takes the
  wrong bytes or panics once a non-ASCII character precedes the name. The
  model slices by characters, which is `math_token`'s behaviour on ASCII
  text only.
- Lifetimes: tokens hold their text as strings.
- `f_to_i_strict` and `INTEGRAL_LIMIT` (`src/number_conversion.rs:23-49`)
  are not modelled; they lie behind `FloatArith`.
- Rpn.ParseRpn: requires that the offset-following traversal from index 0
  finishes within the line's length in depth. That excludes three kinds
  of line: the empty line and a line whose offsets lead past its end,
  where the Rust code panics on `line[index]` (`src/rpn.rs:34` and
  `src/rpn.rs:67`), and a line whose offsets form a cycle, where it loops
  forever. A parsed line is never empty, since the tokenizer ends every
  line with a `TrailingError`; that the offsets `src/parse.rs` writes stay
  inside the line and form no cycle is not proved here. An offset that
  leads before the start is modelled: it is the `IToU` internal-bug
  error.
- Maths.ReadNamedVariables: a name whose chain runs around a cycle makes
  `while let` (`src/maths.rs:217-220`) loop forever; the
  model stops the line there with `Aborted(Diverge)` instead.
  Maths.SubstitutedMeaning states that this happens exactly when the
  chain stays at keys for ever.
- Internal-bug messages: the Rust code writes the offending token with Rust's
  `{x:?}` Debug rendering at the head of the message. That rendering is not
  modelled, so Parse.UnaryLoop, Parse.UnaryStep, Parse.MakeOp,
  Rpn.ReadOperator, Rpn.Walk, Rpn.SolveLeaf and RpnParser.TokenActions keep
  only the constant text after it. Utils.IToU and Utils.UToI write their
  number in decimal, as `{i}` and `{u}` do.
- Maths.Compute: evaluation carries a fuel equal to the line's length, and
  running out of it is `Aborted(Diverge)`. Lines `math_parse` accepts can
  hold a cycle: for `1-(+)` the scan of `parse_op` starts inside the group,
  and `math_compute_index` then recurses through indices 3, 2, 3, ... until
  the Rust stack overflows (MathsExamples.CycleExample). The fuel is exact,
  because a path longer than the line repeats an index and the recursion
  from that index never returns, but the model does not prove that
  equivalence in general.
- Maths.MathCompute: states how parse errors pass through and that a
  result needs a parsed line. The value itself is stated only through
  Maths.LayoutComputes, Maths.GroupComputes and the examples.
- Parse.ScanFrom: a `ParenClose` jump that would go below the window
  simply ends the scan. The source's `usize` subtraction would underflow
  there, but only on lines `paren_parse` never produces.
- Parse.MakeOp: the unreachable branch where the chosen index holds no
  operator returns `make_op`'s internal-bug error; the offset conversion
  is `u_to_i` (src/parse.rs:348), modelled by Utils.UToI.
- Parse.ParenParse, Parse.SolveTasks: state length, names and the absence
  of raw parentheses rather than the full tree. The tree shape is stated
  by ParseFacts.SolveBlockSplits, ParseFacts.MakeOpMovesHeader and the
  examples.
- RpnParser.ParseRpnAsWritten: the trial evaluation is modelled through
  Solve.MathSolve with the `OneEverywhere` map, so its exact error depends
  on the same collaborators.
- The tests of `src/parse_rpn.rs` that expect `UnbalancedStack` (lines
  96-106) hold for RpnParser.ParseRpn, the corrected reading, and not for
  `parse_rpn` (see Findings).
