# P-Lang core in Dafny

This project models the core of P-Lang, a small dynamically typed scripting
language. The interpreter is written in TypeScript. The model covers the
front end and the tree-walking runtime:

- the **scanner** (`comp/lexer.ts`). It makes one left-to-right pass over
  the source characters and handles line counting, `//` comments, the
  `###file:NAME#` directive, `%%…%%` native blocks, strings, numbers, words,
  operators and the final EOF token (`Lexer`, `LexerProps`, `Numbers`);
- the **token cursor** (`comp/baseParser.ts`): `at`, `la`, `eat`,
  `expect`, `not_eof` and `produceAST` (`Cursor`, `Parser.ProduceAST`);
- the **recursive-descent parser** (`comp/parser.ts`), one function per
  grammar rule, and the syntax tree (`comp/ast.ts`) (`Parser`,
  `ParserProps`, `Ast`);
- **runtime values** (`runtime/values.ts`). Every value is an object with
  identity, so the model keeps them in a heap of cells addressed by index
  (`Refs`, `Values`);
- **scopes** (`runtime/environment.ts`). A scope is a frame in a store of
  frames, and a parent always has a smaller index than its child
  (`Environment`);
- the **evaluator** (`runtime/interpreter.ts`, `runtime/eval/*.ts`). It
  covers literals, names, the binary and unary operators, blocks, `if`,
  `while`, `for`, `break`/`continue`, `return`, declarations, assignment,
  member access, object literals, calls, closures and the `andThen`
  composition (`Interpreter`, `InterpreterProps`, `Operators`,
  `OperatorsProps`);
- the **native functions**: the seven array methods, the global scope,
  the `array` built-in, `getRuntimeValue`, and the `paramCount`/`andThen`
  extensions of user functions (`Natives`, `NativesProps`);
- `unbackslash`, the escape pre-pass over program text (`Unbackslash`).

Every operation is a pure function over immutable data. The scanner's state,
the token queue, the heap and the frame store are passed in and returned.
Evaluation takes a fuel budget, because a program need not terminate. Errors
that the source throws, or that end the process, are returned as
`Wrappers.Result` errors.

Assumptions the model makes:

- Numbers are exact rationals (`real`). Floating-point rounding is not
  modelled.
- The scanner's input is ASCII.
- An anonymous function's 18 random letters are replaced by letters that
  spell the length of the remaining token queue. Within one parse these
  names are distinct (`ParserProps.FreshNamesDiffer`).

## Model

| member | source | states |
|---|---|---|
| Lexer.Span | comp/lexer.ts:253-277 | the longest prefix whose characters all satisfy the predicate: every character inside it satisfies it, and the character right after it does not |
| Lexer.NativeSpan | comp/lexer.ts:193-203 | a native block's text runs up to the first `%%`, contains no `%%` itself, and stops short of the end of the input |
| Lexer.FileMarker | comp/lexer.ts:132-145 | input without the `###file:` prefix is left alone, and a directive consumes input |
| Lexer.PunctKind | comp/lexer.ts:171-184 | each single-character punctuation token has the shape its kind requires |
| Lexer.SeparatorKind | comp/lexer.ts:228-235 | `=`, `;`, `:` and `,` make well-shaped tokens of their kinds |
| Lexer.Dispatch | comp/lexer.ts:171-291 | each token branch consumes input, emits tokens stamped with the current line and file, and leaves the scanner state alone |
| Lexer.Body | comp/lexer.ts:147-291 | one iteration advances, counts exactly one line per newline it reads, and keeps the file name |
| Lexer.Step | comp/lexer.ts:121-291 | one iteration of the scanning loop consumes input |
| Lexer.Scan | comp/lexer.ts:121-291 | every scanned token is well shaped: keywords come from the table, identifiers are words, numbers are digits and dots, operators come from the emitted set |
| Lexer.Tokenize | comp/lexer.ts:121-297 | a successful scan needs a non-empty text, ends in exactly one EOF token, and every earlier token is well shaped |
| LexerProps.NoCompoundRelational | comp/lexer.ts:205-225 | no operator token reads `>=` or `<=`: the one-character branch always takes `>` and `<` first |
| LexerProps.StepIsDispatch | comp/lexer.ts:147-170 | outside a comment, at a character that is not `#`, a newline or `//`, an iteration is the token dispatch |
| LexerProps.DispatchString | comp/lexer.ts:236-248 | a `"` starts the string branch |
| LexerProps.DispatchNative | comp/lexer.ts:193-203 | `%%` starts the native-block branch |
| LexerProps.DispatchNumber | comp/lexer.ts:253-260 | a digit starts the number branch |
| LexerProps.DispatchWord | comp/lexer.ts:262-277 | a letter starts the word branch |
| LexerProps.OpensComment | comp/lexer.ts:152-157 | outside a comment, `//` opens one, consumes two characters and emits nothing |
| LexerProps.TwoCharOperatorFirst | comp/lexer.ts:185-192 | `++`, `--`, `==` and `!=` become one operator token, never two one-character tokens |
| LexerProps.RelationalIsOneChar | comp/lexer.ts:205-209 | `>` and `<` are one-character operators whatever follows |
| LexerProps.MinusIsSeparate | comp/lexer.ts:205-209 | a `-` not followed by `-` is an operator token of its own, so no negative number literal is scanned |
| LexerProps.StepInComment | comp/lexer.ts:160-168 | inside a comment an iteration emits nothing and keeps the state; a nested `//` is consumed as a pair |
| LexerProps.SilentStep | comp/lexer.ts:121-297 | an iteration that emits nothing adds nothing to the scan |
| LexerProps.CommentSkips | comp/lexer.ts:160-168 | inside a comment, text without newline, carriage return or `#` is skipped entirely |
| LexerProps.OpensCommentScan | comp/lexer.ts:152-157 | `//` turns the rest of the scan into the scan of what follows, in comment mode |
| LexerProps.CommentEnds | comp/lexer.ts:147-162 | a newline or carriage return ends a comment and emits nothing; only the newline counts a line |
| LexerProps.ReadPlain | comp/lexer.ts:236-248 | text without quotes or backslashes is read up to the closing quote |
| LexerProps.PlainStringLiteral | comp/lexer.ts:236-248 | a quoted plain text becomes one string token holding the text without the quotes |
| LexerProps.Escape | comp/lexer.ts:240-244 | inside a string a backslash is dropped and the next character kept verbatim |
| LexerProps.EscapeAtEnd | comp/lexer.ts:236-246 | an escape as the last character appends the escaped character and then the missing one, read as the text "undefined" (an escaped closing quote is swallowed) |
| LexerProps.EmptySourceRejected | comp/lexer.ts:123-129 | an empty program text is rejected: its split holds one empty character, which no branch recognises |
| LexerProps.FileDirective | comp/lexer.ts:132-145 | `###file:NAME#`, with an optional newline, sets the file name for later tokens and emits nothing |
| LexerProps.NativeBlockToken | comp/lexer.ts:193-203 | `%%text%%` becomes one native-block token holding the text between the delimiters |
| LexerProps.UnrecognisedIsFatal | comp/lexer.ts:283-291 | outside a comment, a character no branch accepts is an error that names the character, the file and the line |
| LexerProps.UnderscoreIsFatal | comp/lexer.ts:262-291 | a word cannot start with `_` |
| LexerProps.Word | comp/lexer.ts:262-277 | a maximal word is a keyword token when the table has it, otherwise an identifier |
| LexerProps.NumberToken | comp/lexer.ts:253-260 | a maximal run of digits and dots after a leading digit is one number token |
| Numbers.ParseFloat | comp/parser.ts:775-779 | a number token's text parses exactly when it starts with a digit, and its value is not negative |
| Numbers.ParseDecimal | comp/parser.ts:775-779 | the parser's `parseFloat` inverts the decimal rendering of a whole number |
| Numbers.NumberText | runtime/eval/expressions.ts:132-138 | the text a number contributes to a concatenation: whole numbers below 10^21 in magnitude are rendered, and the rendering parses back to the number |
| Cursor.NotEof | comp/baseParser.ts:10-12 | the front token is not EOF exactly when more than the EOF token is left |
| Cursor.At | comp/baseParser.ts:15-17 | the front token is a token of the queue, left in place |
| Cursor.La | comp/baseParser.ts:19-25 | the second token exists exactly when the queue holds two tokens |
| Cursor.Eat | comp/baseParser.ts:30-32 | eating splits the queue into its front and the rest; eating a non-EOF token keeps the queue terminated |
| Cursor.Expect | comp/baseParser.ts:35-43 | it succeeds exactly when the front token has the expected kind, and then behaves as `eat` |
| Cursor.ScannedIsTerminated | comp/baseParser.ts:45-58 | the scanner's output is a queue with exactly one EOF token, at its end |
| Parser.FreshName | comp/parser.ts:377-387 | an anonymous function's name is two underscores followed by 18 letters |
| Parser.BlockStmts | comp/parser.ts:103-126 | a block's statements stop at the next `}` or at the EOF |
| Parser.ParseIf | comp/parser.ts:212-274 | an `if` always gets an else body, which is empty when there is no `else` |
| Parser.ParamNames | comp/parser.ts:316-375 | a parameter list is accepted exactly when every argument is a bare identifier, and its names are those identifiers in order |
| Parser.NativeBody | comp/parser.ts:316-375 | the body of a `native` function is exactly one native block |
| Parser.ParseFn | comp/parser.ts:316-375 | `fn` gives a function declaration whose native flag is never set |
| Parser.PushCalls | comp/parser.ts:508-552 | each element of an array literal becomes a `push` call on the declared name, in order |
| Parser.ParseReturn | comp/parser.ts:137-147 | `return` gives a return node |
| Parser.ParseArgumentsList | comp/parser.ts:706-714 | an argument list holds at least one expression |
| Parser.ParseIdentifierList | comp/parser.ts:716-724 | an identifier list holds at least one name |
| Parser.ProduceAST | comp/baseParser.ts:45-58 | a parse yields a program node, and only after the scan succeeded; an empty text is an error |
| ParserProps.AtomIsIdentifier | comp/parser.ts:669-691 | an identifier not followed by `.`, `[` or `(` is a whole call/member expression |
| ParserProps.TailsStop | comp/parser.ts:603-667 | every operator level below assignment passes on an expression that an ending token follows |
| ParserProps.ExprFromComparison | comp/parser.ts:390-404 | a comparison not followed by `=` is the whole expression, unless the input starts an array or object literal |
| ParserProps.IdentifierOperand | comp/parser.ts:390-404 | an identifier that an ending token follows is a whole operand at every level, and the whole expression |
| ParserProps.ProductBindsTighter | comp/parser.ts:632-667 | `a + b * c` parses as `a + (b * c)` |
| ParserProps.AdditionGroupsLeft | comp/parser.ts:632-647 | `a - b + c` parses as `(a - b) + c` |
| ParserProps.ProductGroupsLeft | comp/parser.ts:650-667 | `a / b * c` parses as `(a / b) * c` |
| ParserProps.SumBindsTighterThanComparison | comp/parser.ts:603-647 | `a == b + c` parses as `a == (b + c)` |
| ParserProps.TrailingIncrement | comp/parser.ts:606-613 | a trailing `++` or `--` applies to the whole additive expression before it: `a + b ++` is `(a + b)++` |
| ParserProps.AssignmentGroupsRight | comp/parser.ts:394-404 | `a = b = c` parses as `a = (b = c)` |
| ParserProps.NegationPrimary | comp/parser.ts:788-790 | `!` makes a primary of the whole expression after it |
| ParserProps.NegationTakesWholeExpression | comp/parser.ts:128-136 | `! a == b` parses as `!(a == b)` |
| ParserProps.IndexStep | comp/parser.ts:726-762 | `[expr]` extends a member chain with a computed access |
| ParserProps.DotStep | comp/parser.ts:726-762 | `.name` extends a member chain with a plain access |
| ParserProps.MemberChainFoldsLeft | comp/parser.ts:726-762 | `a.b[c]` parses as `(a.b)[c]`, the first access plain and the second computed |
| ParserProps.DotNeedsIdentifier | comp/parser.ts:726-762 | `a.1` and `a."b"` do not parse |
| ParserProps.ConstNeedsValue | comp/parser.ts:471-485 | `const x` without `=` is an error |
| ParserProps.LetWithoutValue | comp/parser.ts:471-485 | `let a, b` without `=` declares only the first name, without a value |
| ParserProps.EmptyArrayInitializer | comp/parser.ts:492-506 | `= []` declares an array for the first name |
| ParserProps.ArrayLiteralExpands | comp/parser.ts:508-552 | `= [e1, …, en]` declares an array, then pushes the elements in order |
| ParserProps.FunctionInitializerExpands | comp/parser.ts:554-585 | `= fn …` declares the name, then the function, then assigns the function to the name |
| ParserProps.NameLettersInjective | comp/parser.ts:377-387 | distinct numbers below 52^k spell distinct k-letter names |
| ParserProps.FreshNamesDiffer | comp/parser.ts:377-387 | distinct queue positions give distinct anonymous names |
| ParserProps.FreshNameIsNotIdentifier | comp/parser.ts:377-387 | no identifier the scanner produces equals an anonymous function name, so such a name never clashes with a user's binding |
| Values.Deref | runtime/values.ts:7 | a value denotes a heap object exactly when it is a reference to an allocated cell; reading a field of `undefined` is an error |
| Values.TypeOf | runtime/values.ts:7 | the `type` tag of a value: a return list has its own tag, a reference reports its cell's kind, and `undefined` has none |
| Values.Alloc | runtime/values.ts:77-99 | a new object goes to the next free address, and every existing object stays as it was |
| Values.Store | runtime/eval/expressions.ts:75-110 | an in-place change touches one object and no other |
| Values.MkNumber | runtime/values.ts:77-79 | a number object holding the given number |
| Values.MkBool | runtime/values.ts:93-95 | a boolean object holding the given flag |
| Values.MkNull | runtime/values.ts:81-83 | null has a single shape: the null object is the only value tagged null |
| Values.MkString | runtime/values.ts:85-87 | a string object whose payload is the text |
| Values.MkNativeFn | runtime/values.ts:97-99 | a native function object over the given call, with an empty extension map |
| Values.MkDelegated | runtime/values.ts:73-75 | a new composition has its caller and no callee, and is not yet complete |
| Values.MethodNamesDiffer | native-api/array.ts:3-13 | the seven method names are distinct, one per method |
| Values.MkArray | runtime/values.ts:89-91 | an array object over the elements, with no other keys, whose seven methods are native functions bound to that very object |
| Values.MkFunction | native-api/functions.ts:4-11 | a user function object whose `paramCount` is its number of parameters, whose `andThen` is an uncompleted composition with the function as caller, and which has no entry under `undefined` |
| Values.IsRuntimeString | runtime/values.ts:101-103 | true exactly for string objects; asking about `undefined` is an error |
| Values.StringsAndArrays | runtime/values.ts:85-103 | a string object is a runtime string and an array object is not |
| Values.GetObjectToString | runtime/values.ts:105-112 | found exactly when the `toString` property holds a user function, and then it is that function |
| Environment.Chain | runtime/environment.ts:54-64 | the scopes a name is looked up in start at the scope itself and go only to smaller indices |
| Environment.NewFrame | runtime/environment.ts:14-19 | a new scope has the given parent, no bindings, no constants and both loop flags clear, and the other scopes are untouched |
| Environment.Declare | runtime/environment.ts:21-35 | it fails exactly when the scope itself already binds the name, whatever its ancestors hold; otherwise it binds the name there, marks it constant when asked, and changes nothing else |
| Environment.ResolveFindsNearest | runtime/environment.ts:54-64 | resolution succeeds exactly when some scope on the parent chain binds the name, and it finds the nearest such scope |
| Environment.BindsThroughParent | runtime/environment.ts:54-64 | a scope that does not bind a name defers to its parent |
| Environment.NearestThroughParent | runtime/environment.ts:54-64 | the nearest binder seen from the parent is the nearest seen from a child that does not bind the name |
| Environment.Lookup | runtime/environment.ts:49-52 | it fails exactly when the name is unresolved, and otherwise reads the binding in the scope resolution finds |
| Environment.Assign | runtime/environment.ts:37-47 | it fails exactly when the name is unresolved or constant in the scope it resolves to; otherwise it rebinds that one binding, creates none, and changes nothing else |
| Environment.SetFlags | runtime/environment.ts:9-10 | setting the loop flags of one scope changes no binding and no other scope |
| Environment.ResolveSameKeys | runtime/environment.ts:54-64 | scope stores with the same parents that agree on who binds a name resolve it alike |
| Environment.ResolvePrefix | runtime/environment.ts:54-64 | resolution only consults the scope and its ancestors, never scopes created later |
| Environment.DeclareThenLookup | runtime/environment.ts:21-52 | a declared name reads back as its value, and every other name reads as before from every scope |
| Environment.DeclareShadows | runtime/environment.ts:21-64 | declaring in a child scope a name an ancestor binds hides it from the child and leaves the ancestor's binding alone |
| Environment.AssignThenLookup | runtime/environment.ts:37-52 | an assigned name reads back as its new value, and every other name reads as before from every scope |
| Environment.FlagsKeepLookup | runtime/environment.ts:9-10 | the loop flags play no part in name lookup |
| Operators.Holds | runtime/eval/expressions.ts:33-50 | each comparison operator answers according to the order of its operands, and any other operator answers false |
| Operators.HoldsFlipped | runtime/eval/expressions.ts:33-50 | swapping the order turns each operator into its mirror image |
| Operators.NumOrder | runtime/eval/expressions.ts:60-63 | numbers compare by their value |
| Operators.BoolOrder | runtime/eval/expressions.ts:56-59 | booleans compare as the numbers 0 and 1: false comes before true |
| Operators.StrOrderSymmetric | runtime/eval/expressions.ts:64-67 | texts are equal exactly when they are the same text, and swapping them flips the order |
| Operators.StrOrderIsLexicographic | runtime/eval/expressions.ts:64-67 | one text is less than another exactly when it sorts before it by code units (a proper prefix, or smaller at the first difference) |
| Operators.Content | runtime/eval/expressions.ts:52-73 | what a value offers to a comparison: reading it fails exactly when its type cannot be read |
| Operators.Trunc | runtime/eval/expressions.ts:15-16 | truncation toward zero |
| Operators.TruncRemSplits | runtime/eval/expressions.ts:15-16 | `%` splits `a` into a whole multiple of `b` plus a remainder that is smaller than `b` in magnitude and has the sign of `a` |
| Operators.Arithmetic | runtime/eval/expressions.ts:9-31 | it succeeds exactly for `+`, `-`, `*` and for `/` and `%` with a non-zero divisor; each result is inverted by the opposite operation, and `%` is the truncated remainder |
| Operators.CompareValues | runtime/eval/expressions.ts:52-73 | it succeeds exactly when both operands are booleans, both numbers or both strings, and then it answers the operator on their order |
| Operators.Binary | runtime/eval/expressions.ts:111-151 | a binary operator's result is a new object; the existing heap is untouched |
| Operators.Truthy | runtime/eval/expressions.ts:316-319 | a re-evaluated loop condition holds exactly for a true boolean, a non-zero number or a non-empty string; every other value is false, and `undefined` is an error |
| OperatorsProps.ConcatStrings | runtime/eval/expressions.ts:128-130 | `+` on two strings makes a new string object holding their concatenation |
| OperatorsProps.ConcatNumber | runtime/eval/expressions.ts:132-138 | `+` between a string and a number appends the number's text on the side where the number stands |
| OperatorsProps.NumbersComputed | runtime/eval/expressions.ts:141-147 | two numbers go to the arithmetic rule, and an operator it does not know, such as `&&`, is an error |
| OperatorsProps.OtherOperandsGiveNull | runtime/eval/expressions.ts:149-150 | when either operand is neither a number nor a string, every non-comparison operator gives null |
| OperatorsProps.StringsOnlyAdd | runtime/eval/expressions.ts:127-150 | a string with a string or a number under any operator other than `+` gives null |
| OperatorsProps.UndefinedOperandFails | runtime/eval/expressions.ts:111-151 | an `undefined` operand on either side is an error under every operator |
| OperatorsProps.MixedComparisonFails | runtime/eval/expressions.ts:70-72 | comparing a number with a string is an error, whichever way round |
| OperatorsProps.ComparisonMirrors | runtime/eval/expressions.ts:52-73 | swapping the operands of a comparison and mirroring the operator gives the same answer |
| Natives.IndexOf | native-api/array.ts:43-44 | an index argument offers the number it holds; `undefined` has no fields and is an error |
| Natives.ElementAt | native-api/array.ts:58 | reading at an element position gives that element (`undefined` past the end); any other key reads the entry stored under it, `undefined` when there is none |
| Natives.WriteAt | native-api/array.ts:67 | writing at an element position overwrites it and fills any gap past the end with holes; any other key (negative, fractional, too large, a boolean, null, a missing number) stores an entry beside the elements, which stay as they were |
| Natives.Holes | native-api/array.ts:67 | the gap a write past the end leaves is made of `undefined` |
| Natives.SpliceStart | native-api/array.ts:46-47 | a removal above -1 starts at a non-negative position, the index truncated toward zero |
| Natives.Splice | native-api/array.ts:47 | removing at an in-range position drops that element and shifts later ones left; past the end nothing is removed |
| Natives.ElementsOf | native-api/array.ts:3-13 | the elements are found exactly when the address holds an array object |
| Natives.WithElements | native-api/array.ts:15-77 | a method changes the elements of its own array object, keeps its other keys, and touches no other object |
| Natives.WithPayload | native-api/array.ts:62-69 | `set` changes only the contents of its own array object and touches no other object |
| Natives.CallArrayMethod | native-api/array.ts:15-77 | a method call succeeds only on an array object, and never frees a heap cell |
| Natives.Guard | native-api/array.ts:55-57 | the argument check of `get` and `set` passes when the argument count is right or the first argument is a number |
| Natives.CallNative | native-api/base.ts:6-28 | `array` always succeeds and makes an array of its arguments; the I/O and clock built-ins are errors; an array method runs on its own array |
| Natives.CreateGlobalEnv | native-api/base.ts:6-24 | the global scope is one scope without a parent; it binds exactly `true`, `false`, `null` and the six built-ins, all as constants, with its loop flags clear |
| Natives.GlobalBindings | native-api/base.ts:6-24 | `true`, `false` and `null` denote the boolean true, the boolean false and null, and each built-in's name denotes its native function |
| Natives.GetRuntimeValue | native-api/base.ts:72-83 | numbers and booleans give their payload, a string object its text, any other object itself, and every other value is an error |
| NativesProps.PushThenPop | native-api/array.ts:21-35 | `push(x)` appends `x` and returns it; a following `pop()` returns `x` and restores the heap exactly |
| NativesProps.PushArity | native-api/array.ts:29-31 | `push` with any other number of arguments than one is an error |
| NativesProps.PopRemovesLast | native-api/array.ts:21-25 | `pop` removes and returns the last element; on an empty array it returns `undefined` and changes nothing |
| NativesProps.LengthAfterPush | native-api/array.ts:15-19 | `length` is read at call time: after a `push` it is one more than before |
| NativesProps.ReadAfterWrite | native-api/array.ts:58-67 | after a write at key `k`, `k` reads the written value and every other key reads what it read before |
| NativesProps.SetThenGet | native-api/array.ts:53-69 | `set(i, v)` returns `v`, and a following `get(i)` reads `v` back, for every key `i` can denote |
| NativesProps.SetPastEnd | native-api/array.ts:62-69 | `set` past the end extends the array with holes up to the index |
| NativesProps.RemoveShifts | native-api/array.ts:37-51 | `remove(i)` at an in-range index returns the element there and shifts the later ones left |
| NativesProps.RemoveNegative | native-api/array.ts:37-51 | `remove(i)` with `i <= -1` removes nothing and returns the entry stored under `i`, `undefined` when there is none |
| NativesProps.RemoveBetweenMinusOneAndZero | native-api/array.ts:43-48 | an index between -1 and 0 names no element, yet the splice truncates it to 0 and removes the first element |
| NativesProps.HasIgnoresFirst | native-api/array.ts:71-77 | `has(x)` is true exactly when `x` occurs in the array and the first element is not `x`, because the position found is compared with `> 0` |
| NativesProps.GuardFailsOnlyOnBoth | native-api/array.ts:55-57 | the argument check of `get` and `set` fails exactly when the count is wrong and the first argument is not a number |
| NativesProps.GetWithExtraArgument | native-api/array.ts:53-60 | `get` with a number and an extra argument passes the check and reads the element |
| NativesProps.ArrayOfArguments | native-api/base.ts:26-28 | `array(args)` makes a new array whose elements are exactly the arguments, in order |
| NativesProps.MethodsShareElements | runtime/values.ts:89-91 | the `push` found on a new array appends to that same array, which keeps all seven of its methods |
| Unbackslash.Unescape | main_helper.ts:21-37 | `\n`, `\r` and `\t` stand for newline, carriage return and tab; `\\`, `\'` and `\"` stand for the character itself |
| Unbackslash.ShortensByRewrites | main_helper.ts:21-37 | each rewrite replaces two characters by one, so the output is shorter by exactly the number of rewrites |
| Unbackslash.NoBackslashUnchanged | main_helper.ts:21-37 | text without a backslash is left unchanged |
| Unbackslash.OtherEscapeKept | main_helper.ts:21-37 | a backslash before any other character is kept, and so is that character |
| Unbackslash.NamedEscapes | main_helper.ts:21-37 | each of the six pairs becomes its character, and the scan continues after the pair |
| Unbackslash.NonOverlapping | main_helper.ts:21-37 | pairs do not overlap: `\\n` becomes a backslash and the letter n, not a newline |
| Unbackslash.Escape | main_helper.ts:21-37 | escaping never shortens text |
| Unbackslash.EscapeRoundTrip | main_helper.ts:21-37 | unescaping undoes escaping, for every text |
| Unbackslash.Scan | main_helper.ts:21-37 | the left-to-right loop over positions computes the same text as the recursive definition |
| Interpreter.New | runtime/values.ts:77-95 | a new object goes to the next free address, and the scopes are untouched |
| Interpreter.EvalIdentifier | runtime/eval/expressions.ts:153-159 | a name evaluates exactly when it resolves, and gives its bound value, with `undefined` read as a new null |
| Interpreter.EvalList | runtime/eval/expressions.ts:233-235 | a list of nodes evaluates to one value per node |
| Interpreter.EvalReturn | runtime/eval/expressions.ts:222-225 | `return` gives a return list with one value per expression, or a single null when there is none |
| Interpreter.Condition | runtime/eval/expressions.ts:282-287 | a condition is accepted exactly when it is a boolean, and is then its flag |
| Interpreter.CopyFlags | runtime/eval/expressions.ts:288-301 | after a branch runs, the enclosing scope's loop flags equal the branch scope's |
| Interpreter.HostKey | runtime/eval/expressions.ts:445-449 | a computed key's number, boolean or object is the key the element store is read at, each kind to its own kind of key |
| Interpreter.WriteKey | runtime/eval/expressions.ts:172-175 | an element write uses the `value` field of the property node: a number literal's number, an assignment's node (an object), otherwise `undefined` |
| Interpreter.KeyOf | runtime/eval/expressions.ts:426-452 | an identifier or string-literal property names its key directly, and any other property names none |
| Interpreter.ReadProperty | runtime/eval/expressions.ts:426-452 | a present property that is not `undefined` is returned; a missing or `undefined` one reads as a new null |
| Interpreter.BindParams | runtime/eval/expressions.ts:265-280 | more arguments than parameters is an error once there is a parameter to bind |
| Interpreter.EvalFunctionDeclaration | runtime/eval/statements.ts:49-65 | it succeeds exactly when the scope does not already bind the name; the name then reads as a new function object closing over the scope, bound as a constant, with its extensions |
| Interpreter.EvalVarDeclarationAsWritten | runtime/eval/statements.ts:33-46 | as written, a declaration succeeds exactly when it has no initializer, and then no scope changes |
| Interpreter.Declarations | runtime/eval/statements.ts:33-46 | one name is declared exactly as the scope's `declareVar` declares it |
| InterpreterProps.NumericLiteralFresh | runtime/interpreter.ts:31-35 | a number literal makes a new number object on every evaluation |
| InterpreterProps.StringLiteralFresh | runtime/interpreter.ts:36-37 | a string literal makes a new string object holding its text |
| InterpreterProps.EvaluatedIdentity | runtime/interpreter.ts:74-75 | an already evaluated value is returned unchanged, and nothing else changes |
| InterpreterProps.UnhandledKinds | runtime/interpreter.ts:76-81 | node kinds the dispatcher has no case for stop the run |
| InterpreterProps.ArrayDeclarationFresh | runtime/eval/statements.ts:26-31 | an array declaration makes a new, empty array on every evaluation |
| InterpreterProps.IdentifierReadsNearest | runtime/eval/expressions.ts:153-159 | a name reads its nearest binding, and an unbound name is an error |
| InterpreterProps.NegationRule | runtime/eval/expressions.ts:80-85 | `!` needs a boolean and negates it into a new object |
| InterpreterProps.IncrementInPlace | runtime/eval/expressions.ts:86-109 | `x++` changes the number object `x` refers to in place and gives that same object, so every alias sees the change, and no binding changes |
| InterpreterProps.IncrementRules | runtime/eval/expressions.ts:86-109 | `++` and `--` need a name bound to a number; any other operand or operator is an error |
| InterpreterProps.LoopControlFlags | runtime/eval/expressions.ts:227-231 | `break` and `continue` set exactly one of the current scope's two flags, give a new null, and leave every binding alone |
| InterpreterProps.IfFalseWithoutElse | runtime/eval/expressions.ts:282-306 | a false condition without an else body gives a new null |
| InterpreterProps.ConditionMustBeBoolean | runtime/eval/expressions.ts:282-313 | a condition that is not a boolean is an error for `if` and `while` |
| InterpreterProps.WhileFalseSkipsBody | runtime/eval/expressions.ts:308-331 | a `while` whose condition is false at first never runs its body |
| InterpreterProps.IfPropagatesBreak | runtime/eval/expressions.ts:288-294 | a `break` inside a taken branch is seen by the scope around the `if` |
| InterpreterProps.BodyStopsAtReturn | runtime/eval/expressions.ts:204-220 | a block gives the first return value at once and skips the rest |
| InterpreterProps.ContinueSkipsRest | runtime/eval/expressions.ts:204-220 | inside a loop, `continue` stops the block at once, leaving only the continue flag set |
| InterpreterProps.EmptyBodyIsNull | runtime/eval/expressions.ts:204-220 | an empty block gives a new null |
| InterpreterProps.ReturnInLoopTestsCondition | runtime/eval/expressions.ts:316-323 | a loop whose body returns still re-evaluates its condition first: the loop succeeds exactly when the condition can be evaluated, and then gives the return value |
| InterpreterProps.ArgumentsBeforeCallee | runtime/eval/expressions.ts:233-235 | the arguments are evaluated before the callee, so a failing argument decides the error whatever the callee is |
| InterpreterProps.ProgramRunsPastReturn | runtime/eval/statements.ts:7-16 | at the top level a return value does not stop the program; the last statement gives the result |
| InterpreterProps.FunctionNameIsConstant | runtime/eval/statements.ts:49-65 | a declared function's name cannot be declared or assigned again in that scope; its `paramCount` and `andThen` are set up |
| InterpreterProps.DeclarationBinds | runtime/eval/statements.ts:33-46 | a declared name reads as its value in the current scope; a constant cannot be assigned afterwards and a variable can |
| InterpreterProps.DeclaredValues | runtime/eval/statements.ts:33-46 | without an initializer a name is bound to a new null, and an array declaration to a new empty array |
| InterpreterProps.MultipleNamesPairwise | runtime/eval/statements.ts:33-46 | several names take the values of a returned list pairwise, and any other value is an error |
| InterpreterProps.AsWrittenDeclarationLosesName | runtime/eval/statements.ts:33-46 | as written, `let x;` leaves an unbound `x` unbound, while the modelled declaration binds it |
| InterpreterProps.FunctionSugarBindsOnlyWithLet | comp/parser.ts:554-585 | `let x = fn g(){…}` leaves `x` bound to the function, while with `const` the final assignment always fails |
| InterpreterProps.ReturnUnwrapping | runtime/eval/expressions.ts:241-250 | a call whose function returns one value gives that value, and a two-value return is passed on as a list |
| InterpreterProps.ReturnsFromBody | runtime/eval/expressions.ts:265-280 | a parameterless function whose body returns evaluated values gives the list of those values |
| InterpreterProps.ArgumentCount | runtime/eval/expressions.ts:270-276 | extra arguments are an error when the function has a parameter, and are ignored when it has none |
| InterpreterProps.MissingArgumentReadsNull | runtime/eval/expressions.ts:270-276 | a missing argument binds `undefined`, which then reads as a new null |
| InterpreterProps.CallsSeeDeclarationScope | runtime/eval/expressions.ts:265-268 | names in a function body resolve in the scope where the function was declared, not in the caller's |
| InterpreterProps.CompositionCompletes | runtime/eval/expressions.ts:252-256 | the first call of an uncompleted composition stores its first argument as the second function and gives the composition itself |
| InterpreterProps.CompositionChains | runtime/eval/expressions.ts:257-260 | a completed composition of `f` and `g` calls `f`, then `g` on `f`'s result, without unwrapping |
| InterpreterProps.CallRules | runtime/eval/expressions.ts:237-262 | calling something that is not a function is an error, and a native runs on the heap and leaves the scopes alone |
| InterpreterProps.NamedMembersReadProperties | runtime/eval/expressions.ts:426-452 | `a.k`, `a["k"]` and `a[k]` all read property `k`, and a missing one reads as a new null |
| InterpreterProps.ArrayIndexing | runtime/eval/expressions.ts:426-452 | on an array, a number literal and a computed number read the same element; on a plain object a number literal is an error |
| InterpreterProps.FunctionMembers | runtime/eval/expressions.ts:453-467 | a function's named members are exactly its properties; any other key reads the entry kept under `undefined`, and is an error exactly when there is none |
| InterpreterProps.UnnamedAssignThenRead | runtime/eval/expressions.ts:169-179 | `f[1] = v` on a user function stores `v` under the key `undefined`, keeps its properties and every other cell, and `f[2]` then reads `v` |
| InterpreterProps.MembersOfOtherValues | runtime/eval/expressions.ts:406-468 | members of numbers, booleans and null are `undefined`, except a method call, which is not supported |
| InterpreterProps.ObjectLiteralKeys | runtime/eval/expressions.ts:188-202 | in an object literal a later key wins, and a shorthand key takes the variable of that name, failing when there is none |
| InterpreterProps.PropertyAssignThenRead | runtime/eval/expressions.ts:169-179 | `a.k = v` on a plain object sets property `k`, changes no other object and no scope, gives `v`, and `a.k` reads `v` back |
| InterpreterProps.ElementAssignThenRead | runtime/eval/expressions.ts:169-179 | `a[n] = v` on an array writes key `n` (an element, extending the array when needed, or an entry beside the elements for any other number), changes no other cell, gives `v`, and `a[n]` reads `v` back |
| InterpreterProps.NameAssignOnArray | runtime/eval/expressions.ts:172-175 | `a.k = v` on an array stores `v` under the key `undefined` and leaves the properties alone |
| InterpreterProps.ComputedKeyReadsAfterKey | runtime/eval/expressions.ts:445-449 | a computed key is evaluated before the array is read, so a write the key makes is seen by the read |
| InterpreterProps.AssignmentErrors | runtime/eval/expressions.ts:161-179 | assigning a member of a number, boolean or null is an error, and only names and members can be assigned |
| InterpreterProps.NameAssignment | runtime/eval/expressions.ts:180-183 | `x = v` succeeds exactly when `x` is bound and not constant; `x` then reads `v` and the heap is unchanged |
| InterpreterProps.BreakEndsLoop | runtime/eval/expressions.ts:324-328 | a `break` ends the loop although the condition still holds, and its flag is cleared |
| InterpreterProps.TrueConditionExhaustsFuel | runtime/eval/expressions.ts:316-330 | a loop whose condition stays true and whose body never breaks runs out of any fuel budget |
| InterpreterProps.LetInLoopFailsOnSecondPass | runtime/eval/expressions.ts:308-331 | all passes of a loop share one scope, so a `let` in the body fails on the second pass |
| Parser.ParseStmt | comp/parser.ts:103-126 | when the rule succeeds it has consumed at least one token and left a queue that still ends in the EOF token |
| Parser.ParseFor | comp/parser.ts:156-210 | when the rule succeeds it has consumed at least one token and left a queue that still ends in the EOF token |
| Parser.ParseWhile | comp/parser.ts:276-314 | when the rule succeeds it has consumed at least one token and left a queue that still ends in the EOF token |
| Parser.ParseVarDeclaration | comp/parser.ts:466-601 | when the rule succeeds it has consumed at least one token and left a queue that still ends in the EOF token |
| Parser.ParseInitializer | comp/parser.ts:487-600 | when the rule succeeds it has consumed at least one token and left a queue that still ends in the EOF token |
| Parser.ParseBreakContinue | comp/parser.ts:148-154 | when the rule succeeds it has consumed at least one token and left a queue that still ends in the EOF token |
| Parser.ParseExpr | comp/parser.ts:390-392 | when the rule succeeds it has consumed at least one token and left a queue that still ends in the EOF token |
| Parser.ParseAssignment | comp/parser.ts:394-404 | when the rule succeeds it has consumed at least one token and left a queue that still ends in the EOF token |
| Parser.ParseObject | comp/parser.ts:406-457 | when the rule succeeds it has consumed at least one token and left a queue that still ends in the EOF token |
| Parser.ParseComparison | comp/parser.ts:603-628 | when the rule succeeds it has consumed at least one token and left a queue that still ends in the EOF token |
| Parser.ParseAdditive | comp/parser.ts:632-647 | when the rule succeeds it has consumed at least one token and left a queue that still ends in the EOF token |
| Parser.ParseMultiplicative | comp/parser.ts:650-667 | when the rule succeeds it has consumed at least one token and left a queue that still ends in the EOF token |
| Parser.ParseCallMember | comp/parser.ts:669-677 | when the rule succeeds it has consumed at least one token and left a queue that still ends in the EOF token |
| Parser.ParseCall | comp/parser.ts:679-691 | when the rule succeeds it has consumed at least one token and left a queue that still ends in the EOF token |
| Parser.ParseArgs | comp/parser.ts:693-704 | when the rule succeeds it has consumed at least one token and left a queue that still ends in the EOF token |
| Parser.ParseMember | comp/parser.ts:726-762 | when the rule succeeds it has consumed at least one token and left a queue that still ends in the EOF token |
| Parser.ParsePrimary | comp/parser.ts:765-812 | when the rule succeeds it has consumed at least one token and left a queue that still ends in the EOF token |
| Parser.ParseNegation | comp/parser.ts:128-136 | when the rule succeeds it has consumed at least one token and left a queue that still ends in the EOF token |
| Interpreter.Eval | runtime/interpreter.ts:29-83 | evaluation keeps the scope store well formed and never removes a scope |
| Interpreter.EvalSeq | runtime/eval/statements.ts:7-24 | evaluation keeps the scope store well formed and never removes a scope |
| Interpreter.EvalBody | runtime/eval/expressions.ts:204-220 | evaluation keeps the scope store well formed and never removes a scope |
| Interpreter.EvalObject | runtime/eval/expressions.ts:188-202 | evaluation keeps the scope store well formed and never removes a scope |
| Interpreter.EvalIf | runtime/eval/expressions.ts:282-306 | evaluation keeps the scope store well formed and never removes a scope |
| Interpreter.Loop | runtime/eval/expressions.ts:316-330 | evaluation keeps the scope store well formed and never removes a scope |
| Interpreter.EvalWhile | runtime/eval/expressions.ts:308-331 | evaluation keeps the scope store well formed and never removes a scope |
| Interpreter.EvalFor | runtime/eval/expressions.ts:334-360 | evaluation keeps the scope store well formed and never removes a scope |
| Interpreter.EvalMember | runtime/eval/expressions.ts:406-468 | evaluation keeps the scope store well formed and never removes a scope |
| Interpreter.EvalAssignment | runtime/eval/expressions.ts:161-184 | evaluation keeps the scope store well formed and never removes a scope |
| Interpreter.EvalUnary | runtime/eval/expressions.ts:75-110 | evaluation keeps the scope store well formed and never removes a scope |
| Interpreter.EvalCall | runtime/eval/expressions.ts:233-263 | evaluation keeps the scope store well formed and never removes a scope |
| Interpreter.Apply | runtime/eval/expressions.ts:237-262 | evaluation keeps the scope store well formed and never removes a scope |
| Interpreter.EvalFunction | runtime/eval/expressions.ts:265-280 | evaluation keeps the scope store well formed and never removes a scope |
| Interpreter.EvalVarDeclaration | runtime/eval/statements.ts:33-46 | evaluation keeps the scope store well formed and never removes a scope |

## Left out

- Floating point. Numbers are exact rationals, so rounding, infinities and
  NaN are not modelled. Division or remainder by zero, and rendering a
  non-whole number or one of 10^21 or more as text, give `Unsupported`.
- Non-ASCII input. The scanner requires ASCII text, because the host's
  letter test on other characters is not modelled.
- Randomness. An anonymous function's 18 random letters spell the length of
  the remaining token queue instead.
- Process exits and exceptions. Every `throw`, `process.exit` and host
  `TypeError` is a `Result` error; exit codes and messages other than the
  scope errors are not kept.
- Non-termination. Evaluation carries fuel, and running dry is `OutOfFuel`.
  Properties hold once the fuel covers the nodes involved.
- The I/O and clock built-ins (`print`, `readFile`, `writeFile`, `exit`,
  `time`). Their names are bound in the global scope, but calling one is an
  error, because the model has no file system, console or clock.
- The string methods of `native-api/string.ts`. A string object's property
  map is empty.
- `eval_foreach_expr` and `runtime/eval/eval.ts`, including evaluation of a native
  block (`NotImplemented`). `native-api/bridge.ts` and `native-api/http.ts`,
  because they are host I/O. The command-line mains and the REPL.
- Interpreter.EvalMember: member calls and member chains are not modelled.
  When a member's property is a call, `obj.(f(args))`, the host rewrites it
  into a call whose callee is the member `obj.f` and returns the first
  value of a returned list (runtime/eval/expressions.ts:408-423). When the
  property of an object's member is itself a member, `mergeObjMemberExpr`
  resolves the chain step by step through the object's properties
  (runtime/eval/expressions.ts:494-555). The model gives `Unsupported` for a
  call-shaped property on every value and for a member-shaped property of
  an object.
- Interpreter.EvalAssignment: a member that is not a name makes the host
  store the value under the key `undefined`. On a user function that entry
  is modelled (`unnamed`), because a member read whose property is not a
  name or string literal reads it back. On a plain object, a string object
  and a native function no member read reaches that key: the object branch
  throws for such properties and a native function's members are all
  `undefined`. There the model leaves the object unchanged.
- A string used as an array index, which needs the host's string-to-index
  coercion, gives `Unsupported`.
- `isRuntimeArray` and `MK_FUNCTION_RETURN` are not part of this model's
  sources. An array is an object whose payload holds elements, and a
  return list is the `FunctionReturn` value.
- Interpreter.EvalVarDeclaration: it evaluates the first initializer and
  binds the names one by one, or pairwise to a returned list. As written,
  the host passes the initializer list and the name list on unchanged, so
  an initialized declaration fails and an uninitialized one binds nothing.
  That behaviour is kept as `Interpreter.EvalVarDeclarationAsWritten` and
  shown by `InterpreterProps.AsWrittenDeclarationLosesName`. The rest of
  the model uses the declaration the parser's output evidently intends.
- Interpreter.Apply: the composition's "already completed" flag is spelled
  differently where it is set and where it is read. The model treats it
  as one flag, so the first call completes the composition.
- Interpreter.EvalCall: the callee is the call node's `caller` field, which
  the evaluator reads under another name.
- Interpreter.Eval: `eval_program` never sets a scope's `returnVal`, so a
  top-level `return` does not stop the program, as
  `InterpreterProps.ProgramRunsPastReturn` shows.
- Interpreter.Loop: loop conditions after the first are read through their
  `value` field without a type check (`Operators.Truthy`).
- Interpreter.Eval, Interpreter.EvalSeq, Interpreter.EvalBody,
  Interpreter.EvalObject, Interpreter.EvalIf, Interpreter.EvalWhile,
  Interpreter.EvalFor, Interpreter.EvalMember, Interpreter.EvalAssignment,
  Interpreter.EvalUnary, Interpreter.EvalFunction, Interpreter.EvalCall,
  Interpreter.Apply, Interpreter.Loop, Interpreter.EvalVarDeclaration: each
  one's own contract
  states only that the scope store stays well formed. Its behaviour is
  stated by the `InterpreterProps` lemmas named in the table.
- Parser.ParseStmt, Parser.ParseFor, Parser.ParseWhile,
  Parser.ParseVarDeclaration, Parser.ParseInitializer,
  Parser.ParseBreakContinue, Parser.ParseExpr, Parser.ParseAssignment,
  Parser.ParseObject, Parser.ParseComparison, Parser.ParseAdditive,
  Parser.ParseMultiplicative, Parser.ParseCallMember, Parser.ParseCall,
  Parser.ParseArgs, Parser.ParseMember, Parser.ParsePrimary,
  Parser.ParseNegation: each one's own contract states only progress
  through the token queue. The shape of the trees is stated by the
  `ParserProps` lemmas for precedence, grouping, member chains and
  declaration expansions, not for every grammar rule.
- Parser.ParsePrimary: a negative number literal does not parse, because
  the scanner emits `-` as an operator and no rule takes a leading minus.
- Lexer.Tokenize: the `>=` and `<=` branches of the scanner cannot be
  reached, because the one-character branch takes `>` and `<` first
  (`LexerProps.NoCompoundRelational`). The comparisons `>=` and `<=` are
  still evaluated when a tree contains them.
- Natives.CallArrayMethod: `has` compares the position found with `> 0`.
  That is kept as written, so the first element is never reported
  (`NativesProps.HasIgnoresFirst`). `has` of an argument that is not a
  reference (`undefined`, or a returned list) gives `Unsupported`: the host
  finds a stored `undefined` but skips a hole, and the model does not tell
  the two apart.
