# Calculator pages: request building, modelled in Dafny

The site offers six calculator pages: algebra, numerical maths, statistics and
probability, linear algebra, function plotting and symbolic computations.
None of them computes anything itself. Each page checks the user's input,
turns it into an (instruction, payload) pair for a remote text-generation
service, and reads the reply back into its own state. This project models
that layer, page by page, and proves what it promises.

Modules:

- `Values`: JavaScript values the pages handle. `Option` stands for a
  value-or-null. `Num` is a number that is not NaN; NaN is `None`. `Json` is
  what `JSON.parse` produces. `Runtime` holds the foreign functions `Number`,
  `parseFloat`, number printing and `JSON.parse` as abstract functions.
  `Runtime.Valid` lists the facts about them that the proofs use: `Number("")`
  is 0, `parseFloat("")` is NaN, `JSON.parse("null")` is null, `JSON.parse("")`
  throws, both parsers produce doubles, every printed number is a non-empty
  string of number characters (digits, signs, '.', 'e' or the letters of words
  such as "Infinity"), and a printed double reads back as itself. `Or` is `v || fallback` on a string-or-null.
- `Text`: the string built-ins the pages call, written out. This covers `trim`,
  `split(/[\s,]+/)`, `split('\n')`, `match(/[a-zA-Z]+/g)`, `join` and
  `replace(/p/g, r)`, with JavaScript's full white-space set for `\s`. It also
  holds the lemmas relating them, such as split inverting join.
- `Hook`: the request pair, how an awaited call settled (resolved or threw),
  and the `table[key] || fallback` instruction lookup.
- `Numbers`: lists of numbers printed with `join`, and how they split back.
- `Algebra`, `Numerical`, `Stats`, `Linear`, `Plotting`, `Symbolic`: one module
  per page. Each has a class whose fields are the page's React state. Its
  methods are the event handlers. Each handler is split at the `await`: a
  method that validates and returns the request, or `None` with the error
  set; and a method that takes how the call settled and applies the reply.
  The pure parts (tokenising, templates, reply interpretation) are functions
  with lemmas.

After the `await`, the pages read `response` and `error` from the hook. These
are the values the handler's render closure captured, not the reply to the
request just sent. The continuation methods therefore take them as
parameters, and no contract claims they are the reply. On the symbolic page,
both results are read from that one captured value.
`Symbolic.SymbolicComputations.HandleCompute` states this: when both calls
resolve, the simplified and derivative fields are equal.

Behaviour of the pages a reader might not expect, which the model reproduces:

- Linear algebra: empty matrix input is not rejected. `Number("")` is 0, so
  it parses as [[0]] (`Linear.BlankInputIsZero`).
- Linear algebra: matrix B is checked only for add and multiply.
- Plotting: a reply that is not a JSON array is an error. It is not shown as
  raw text.
- Statistics: a null reply parses as JSON null, and the result becomes null.

## Model

| member | source | states |
|---|---|---|
| `Values.Or` | src/pages/features/Algebra.jsx:83 | the or-fallback on a string-or-null: a non-empty string is kept; null or "" gives the fallback |
| `Text.Trim` | src/pages/features/Algebra.jsx:58 | the trimmed text is no longer than the input and neither starts nor ends with white space; its content is stated by `Text.TrimContent` |
| `Text.TrimContent` | src/pages/features/Algebra.jsx:58 | trim removes the leading and the trailing white space and nothing else: the result is the slice of the input that starts where the leading white space ends, and only white space lies before and after that slice |
| `Text.BlankIffTrimEmpty` | src/pages/features/Algebra.jsx:58 | `!s.trim()` holds exactly when every character is white space, the empty string included: the all-space predicate is equivalent to an empty trim |
| `Text.TrimUnchanged` | src/pages/features/linear.jsx:38-39 | text that neither starts nor ends with white space is its own trim |
| `Text.Fields` | src/pages/features/Stats.jsx:37 | `split(/[\s,]+/)` always yields at least one piece |
| `Text.Join` | src/pages/features/Stats.jsx:63 | `xs.join(sep)`: the pieces with `sep` between each two. Its properties: `Text.FieldsOfJoin` and `Text.SplitOnJoin` (split inverts it), `Text.CountCharJoin` (separator count) |
| `Text.FieldsOfSeparators` | src/pages/features/Stats.jsx:37 | a string made only of white space and commas splits into empty pieces only |
| `Text.FieldsOfPiece` | src/pages/features/Stats.jsx:37 | text without white space or commas is a single piece |
| `Text.FieldsOfPieceThenRest` | src/pages/features/Stats.jsx:37 | a piece, a run of separators, then text starting outside the separators: the split is the piece followed by the split of the rest |
| `Text.FieldsOfJoin` | src/pages/features/Stats.jsx:37 | split inverts join: non-empty pieces without separators, joined by a non-empty run of separators, split back into the same pieces |
| `Text.CountCharJoin` | src/pages/features/linear.jsx:47 | a character in none of the pieces occurs in the joined text only in the separators: (n - 1) times the count in the separator |
| `Text.SplitOn` | src/pages/features/linear.jsx:38 | `split('\n')` gives one more piece than there are delimiters, and no piece contains the delimiter |
| `Text.JoinSplitOn` | src/pages/features/linear.jsx:38 | joining the pieces with the delimiter gives the text back |
| `Text.SplitOnJoin` | src/pages/features/linear.jsx:38 | splitting pieces joined by a delimiter they lack gives the pieces back |
| `Text.ReplaceAll` | src/pages/features/Plotting.jsx:96-103 | `replace(/p/g, r)` for a literal pattern: scans left to right and replaces each non-overlapping occurrence. Its properties: `Text.ReplaceAllSame` and `Text.ReplaceCharByChar` |
| `Text.ReplaceAllSame` | src/pages/features/Plotting.jsx:97-102 | `replace(/p/g, p)` changes nothing |
| `Text.ReplaceCharByChar` | src/pages/features/linear.jsx:94 | replacing one character by another keeps the length and changes exactly that character's occurrences |
| `Hook.TaskFor` | src/pages/features/Algebra.jsx:77 | the table lookup with a fallback: the entry when the key is present and non-empty; the fallback when the key is absent or its entry is "" |
| `Numbers.FieldsOfJoinNumbers` | src/pages/features/Stats.jsx:63 | a list of printed numbers joined by white space or commas splits back into the printed numbers |
| `Numbers.CountInJoinNumbers` | src/pages/features/linear.jsx:47 | a character no printed number contains (comma, semicolon) occurs in the joined list only in the separators |
| `Text.LetterRuns` | src/pages/features/Algebra.jsx:45 | `expr.match(/[a-zA-Z]+/g)`, no match giving the empty list: the maximal runs of ASCII letters, left to right. Its properties: `Text.LetterRunsFromAt` and `Text.LetterRunsFromCompleteAt` (each run found at its own start, in order, and none missed), `Algebra.VariableIsMaximalRun` and `Algebra.MaximalRunIsVariable` (sound and complete against maximal letter runs) |
| `Text.LetterRunsFromAt` | src/pages/features/Algebra.jsx:45 | the scan reads left to right: the k-th returned string is the maximal run of letters that begins at the k-th start, and each run ends at or before the start of every later run |
| `Text.LetterRunsFromCompleteAt` | src/pages/features/Algebra.jsx:45 | every maximal run of letters is returned by the scan, paired with its own start |
| `Algebra.Dedup` | src/pages/features/Algebra.jsx:46 | `[...new Set(xs)]` has exactly the elements of `xs`, no duplicates, and is no longer than `xs` |
| `Algebra.DedupFirstOccurrenceOrder` | src/pages/features/Algebra.jsx:46 | the kept elements come in the order of their first occurrence |
| `Algebra.ExtractVariables` | src/pages/features/Algebra.jsx:44-47 | the detected names are distinct and non-empty, a string is a name exactly when it is one of the letter runs, and there are no more names than letter runs |
| `Algebra.VariableIsMaximalRun` | src/pages/features/Algebra.jsx:45 | every detected name is a non-empty maximal run of ASCII letters of the expression |
| `Algebra.MaximalRunIsVariable` | src/pages/features/Algebra.jsx:45-46 | every maximal run of ASCII letters of the expression is detected |
| `Algebra.FirstStartIsRun` | src/pages/features/Algebra.jsx:45 | `FirstStart(expr, w)` is a position of the expression where the name stands as a maximal run of letters |
| `Algebra.FirstStartIsFirst` | src/pages/features/Algebra.jsx:45-46 | no position where the name stands as a maximal run of letters comes before `FirstStart(expr, w)`, so it is the name's first occurrence |
| `Algebra.VariablesInFirstOccurrenceOrder` | src/pages/features/Algebra.jsx:45-46 | the names are ordered by where each first occurs in the expression: of two names, the earlier one has the strictly smaller first position |
| `Algebra.NoVariablesIffNoLetter` | src/pages/features/Algebra.jsx:45-46 | no name is detected exactly when the expression has no ASCII letter |
| `Algebra.Task` | src/pages/features/Algebra.jsx:68-77 | the selected operation's instruction; an unknown operation gets the simplify instruction |
| `Algebra.TasksCoverOperations` | src/pages/features/Algebra.jsx:34-75 | every offered operation has a non-empty instruction, and the table has no other keys |
| `Algebra.TasksDistinct` | src/pages/features/Algebra.jsx:34-75 | no two offered operations share an instruction |
| `Algebra.AlgebraSolver.constructor` | src/pages/features/Algebra.jsx:6-11 | the initial state: empty expression, no names, simplify, no result, not loading, no error |
| `Algebra.AlgebraSolver.ChangeExpression` | src/pages/features/Algebra.jsx:50-54 | editing sets the expression and recomputes the names from it; nothing else changes |
| `Algebra.AlgebraSolver.PickExample` | src/pages/features/Algebra.jsx:296-300 | an example button sets the expression only; the names stay as they were |
| `Algebra.AlgebraSolver.SelectOperation` | src/pages/features/Algebra.jsx:174 | the selector sets the operation only |
| `Algebra.AlgebraSolver.Solve` | src/pages/features/Algebra.jsx:57-80 | blank expression: error "Please enter an expression", no request. Otherwise: loading, error cleared, result kept, request = (instruction of the operation, untrimmed expression) |
| `Algebra.AlgebraSolver.Finish` | src/pages/features/Algebra.jsx:80-89 | resolved: result = captured response or "No result returned"; threw: error = hook error or the fixed message; loading ends on both paths |
| `Numerical.Task` | src/pages/features/Numerical.jsx:46-53 | the selected operation's instruction; an unknown operation gets the evaluate instruction |
| `Numerical.TasksCoverOperations` | src/pages/features/Numerical.jsx:27-51 | every offered operation has a non-empty instruction, and the table has no other keys |
| `Numerical.TasksDistinct` | src/pages/features/Numerical.jsx:27-51 | no two offered operations share an instruction |
| `Numerical.NumericalMaths.constructor` | src/pages/features/Numerical.jsx:6-10 | the initial state: empty expression, evaluate, no result, not loading, no error |
| `Numerical.NumericalMaths.ChangeExpression` | src/pages/features/Numerical.jsx:100 | the field sets the expression only |
| `Numerical.NumericalMaths.SelectOperation` | src/pages/features/Numerical.jsx:112 | the selector sets the operation only |
| `Numerical.NumericalMaths.Solve` | src/pages/features/Numerical.jsx:34-56 | blank expression: error "Please enter a numeric expression", no request, loading unchanged. Otherwise: loading, error and result cleared, request = (instruction, raw expression) |
| `Numerical.NumericalMaths.Finish` | src/pages/features/Numerical.jsx:56-65 | resolved: result = captured response or "No result returned"; threw: error = hook error or the fixed message; loading false on every path |
| `Stats.DatasetNumbers` | src/pages/features/Stats.jsx:36-39 | the numbers of the dataset: split on white space and commas, `parseFloat` each token, keep the non-NaN ones. Its properties: `Stats.ParseFloatsMembers`, `Stats.SeparatorsHoldNoNumber`, `Stats.DatasetPayloadOfInput` |
| `Stats.ParseFloats` | src/pages/features/Stats.jsx:38-39 | map-then-filter keeps at most one number per token |
| `Stats.ParseFloatsMembers` | src/pages/features/Stats.jsx:38-39 | a number is kept exactly when some token parses to it; the list is empty exactly when no token parses |
| `Stats.ParseFloatsAppend` | src/pages/features/Stats.jsx:36-39 | the numbers of two token lists in a row are the numbers of each, in input order |
| `Stats.SeparatorsHoldNoNumber` | src/pages/features/Stats.jsx:36-44 | input made only of white space and commas, the empty input included, holds no number, so it is refused |
| `Stats.ParseFloatsOfShowAll` | src/pages/features/Stats.jsx:38-39 | parseFloat reads printed doubles back as the same numbers |
| `Stats.ParseFloatsDoubles` | src/pages/features/Stats.jsx:38-39 | every kept number is a double |
| `Stats.DatasetPayload` | src/pages/features/Stats.jsx:63 | the prompt "Dataset: [" + the numbers joined by ", " + "]". Its properties: `Stats.DatasetPayloadRoundTrip` and `Stats.DatasetPayloadCommas` |
| `Stats.DatasetPayloadRoundTrip` | src/pages/features/Stats.jsx:63 | the payload is "Dataset: [" + list + "]", and reading the list as the page reads its input gives the numbers back |
| `Stats.DatasetPayloadOfInput` | src/pages/features/Stats.jsx:36-63 | the list sent for a dataset reads back as exactly the numbers of that dataset |
| `Stats.DatasetPayloadCommas` | src/pages/features/Stats.jsx:63 | the payload holds one comma fewer than there are numbers |
| `Stats.Task` | src/pages/features/Stats.jsx:52-60 | the selected operation's instruction; an unknown operation gets the mean instruction |
| `Stats.TasksCoverOperations` | src/pages/features/Stats.jsx:27-58 | every offered operation has a non-empty instruction, and the table has no other keys |
| `Stats.TasksDistinct` | src/pages/features/Stats.jsx:27-58 | no two offered operations share an instruction |
| `Stats.Interpret` | src/pages/features/Stats.jsx:69-76 | the result is the parsed JSON when the reply parses (a null reply gives null), else the raw reply or "No result returned" |
| `Stats.StatsProbability.constructor` | src/pages/features/Stats.jsx:6-10 | the initial state: empty dataset, mean, null result, not loading, no error |
| `Stats.StatsProbability.ChangeData` | src/pages/features/Stats.jsx:116 | the field sets the dataset only |
| `Stats.StatsProbability.PickSample` | src/pages/features/Stats.jsx:223-230 | a sample button sets the dataset only |
| `Stats.StatsProbability.SelectOperation` | src/pages/features/Stats.jsx:127 | the selector sets the operation only |
| `Stats.StatsProbability.Solve` | src/pages/features/Stats.jsx:35-66 | no number in the dataset: error "Please enter a valid list of numbers.", no request. Otherwise: loading, error and result cleared, request = (instruction, dataset payload of the numbers) |
| `Stats.StatsProbability.Finish` | src/pages/features/Stats.jsx:66-82 | resolved: result = interpretation of the captured response; threw: error = hook error or the fixed message; loading ends on both paths |
| `Linear.ParseRow` | src/pages/features/linear.jsx:39 | a row has one entry per token of the trimmed line, at least one, each `Number(token)` |
| `Linear.ParseMatrix` | src/pages/features/linear.jsx:36-44 | one row per line of the trimmed input, each parsed as a row |
| `Linear.BlankInputIsZero` | src/pages/features/linear.jsx:37-39 | blank input is not rejected: it parses as the 1x1 matrix [[0]] |
| `Linear.MatrixToString` | src/pages/features/linear.jsx:46-48 | `matrixToString`: each row joined by ' ', the rows joined by "; ". Its properties: `Linear.RowTextShape`, `Linear.MatrixToStringSemicolons` |
| `Linear.RowTextShape` | src/pages/features/linear.jsx:47 | a printed row has no semicolon and no line break, and a non-empty one starts and ends outside white space |
| `Linear.MatrixToStringSemicolons` | src/pages/features/linear.jsx:46-48 | an n-row matrix prints with exactly n - 1 semicolons |
| `Linear.ParseRowOfRowText` | src/pages/features/linear.jsx:39 | a row printed with `join(' ')` parses back to the same numbers |
| `Linear.LinesOfMatrixLines` | src/pages/features/linear.jsx:38 | the lines of a matrix written one row per line are its printed rows |
| `Linear.EntriesOfSome` | src/pages/features/linear.jsx:40 | a parsed matrix whose every entry is a number has no NaN, and its entries are those numbers |
| `Linear.ParseMatrixOfLines` | src/pages/features/linear.jsx:36-40 | a matrix written one row per line parses back to itself, with no NaN entry |
| `Linear.Task` | src/pages/features/linear.jsx:70-78 | the selected operation's instruction; an unknown operation gets "Add the following two matrices:", which no table entry equals |
| `Linear.TasksCoverOperations` | src/pages/features/linear.jsx:28-76 | every offered operation has a non-empty instruction, the table has no other keys, and exactly add and multiply take matrix B |
| `Linear.TasksDistinct` | src/pages/features/linear.jsx:70-76 | no two offered operations share an instruction |
| `Linear.PartA` | src/pages/features/linear.jsx:81-82 | the prompt's "Matrix A: [...]" part. Its property: `Linear.PartASemicolons` |
| `Linear.PartB` | src/pages/features/linear.jsx:83-86 | the "; Matrix B: [...]" part added for add and multiply. Its property: `Linear.PartBSemicolons` |
| `Linear.PartASemicolons` | src/pages/features/linear.jsx:81-82 | the "Matrix A: [...]" part holds one semicolon between each two rows |
| `Linear.PartBSemicolons` | src/pages/features/linear.jsx:83-86 | the "; Matrix B: [...]" part holds one semicolon per row of B |
| `Linear.PromptSemicolons` | src/pages/features/linear.jsx:81-86 | with m rows in A and n in B, the prompt holds m - 1 semicolons without B and m + n - 1 with it, so B is sent exactly for add and multiply |
| `Linear.ReplyText` | src/pages/features/linear.jsx:94 | the text given to JSON.parse has the reply's length, no semicolon, and differs only where the reply had one |
| `Linear.Interpret` | src/pages/features/linear.jsx:92-99 | the result is the parsed JSON of the semicolon-free reply, else the raw reply or "No result returned"; a null reply throws inside the same try and gives the fallback |
| `Linear.LinearAlgebra.constructor` | src/pages/features/linear.jsx:6-11 | the initial state: empty fields, add, null result, no error, not loading |
| `Linear.LinearAlgebra.ChangeA` | src/pages/features/linear.jsx:152 | the field sets matrix A's text only |
| `Linear.LinearAlgebra.ChangeB` | src/pages/features/linear.jsx:166 | the field sets matrix B's text only |
| `Linear.LinearAlgebra.SelectOperation` | src/pages/features/linear.jsx:180 | the selector sets the operation only |
| `Linear.Check` | src/pages/features/linear.jsx:51-86 | the validation and the request of the solve handler as one outcome, refusal with a message or the request to send. Its properties: `Linear.CheckOutcomes`; `Linear.LinearAlgebra.Solve` follows it |
| `Linear.CheckOutcomes` | src/pages/features/linear.jsx:51-86 | the validation outcome: a NaN in A refuses with "Matrix A is invalid."; for add and multiply a NaN in B refuses with "Matrix B is invalid or required."; otherwise the request is (instruction, A part, plus B part exactly for add and multiply) |
| `Linear.LinearAlgebra.Solve` | src/pages/features/linear.jsx:50-89 | the handler follows the validation outcome of its fields: a NaN in A: "Matrix A is invalid.", before B is looked at; for add and multiply, a NaN in B: "Matrix B is invalid or required."; no request on either. Otherwise: loading, error and result cleared, request = (instruction, A part, plus B part for add and multiply); row lengths are never compared |
| `Linear.LinearAlgebra.Settle` | src/pages/features/linear.jsx:54-66 | a refusal sets its message as the error and sends nothing, leaving loading and result alone; a request starts loading, clears error and result and goes out; the fields are kept |
| `Linear.LinearAlgebra.Finish` | src/pages/features/linear.jsx:89-105 | resolved: result = interpretation of the captured response; threw: error = hook error or the fixed message; loading ends on both paths |
| `Plotting.Rewrite` | src/pages/features/Plotting.jsx:96-103 | the chain of seven `replace` calls. Its properties: `Plotting.RewriteIsCaretOnly`, `Plotting.RewriteAppend`, `Plotting.RewriteCharacter`, `Plotting.RewriteLength`, `Plotting.RewriteIdempotent` |
| `Plotting.RewriteIsCaretOnly` | src/pages/features/Plotting.jsx:96-103 | the replace chain equals the single '^' to '**' replacement; the other six are identities |
| `Plotting.RewriteAppend` | src/pages/features/Plotting.jsx:96-103 | the rewrite works piece by piece: rewriting a joined text is rewriting each part and joining the results |
| `Plotting.RewriteCharacter` | src/pages/features/Plotting.jsx:96-103 | on one character, '^' becomes "**" and every other character stays |
| `Plotting.RewriteLength` | src/pages/features/Plotting.jsx:96-103 | the rewritten text is longer by exactly one character per '^' |
| `Plotting.RewriteIdempotent` | src/pages/features/Plotting.jsx:103 | the rewritten text has no '^', and rewriting it again changes nothing |
| `Plotting.XValues` | src/pages/features/Plotting.jsx:41-46 | the x-list is empty exactly when min > max; it starts at min, rises by the step, stays at or below max, and one more step would pass max |
| `Plotting.GenerateX` | src/pages/features/Plotting.jsx:39-46 | the for loop pushes exactly the x-list |
| `Plotting.PlotPrompt` | src/pages/features/Plotting.jsx:49 | the plot prompt: the expression in quotes, then the x-values joined by ", " in brackets, then the fixed request for y-values. Its property: `Plotting.PlotPromptParts` |
| `Plotting.PlotPromptParts` | src/pages/features/Plotting.jsx:49 | the expression stands right after the prompt's lead, and the list part splits into exactly one printed number per x-value, in order |
| `Plotting.ReadReply` | src/pages/features/Plotting.jsx:56-73 | the reply is accepted exactly when it parses to an array with one y-value per x-value; other parses are "not an array"; an array of the wrong length is "wrong length" |
| `Plotting.NullReplyRejected` | src/pages/features/Plotting.jsx:58-60 | a null reply parses as null and is refused as not an array |
| `Plotting.Plotter.constructor` | src/pages/features/Plotting.jsx:7-11 | the initial state: "sin(x)", range -10 to 10, no data, no error, not loading |
| `Plotting.Plotter.ChangeExpression` | src/pages/features/Plotting.jsx:138 | the field sets the expression only |
| `Plotting.Plotter.SetRange` | src/pages/features/Plotting.jsx:150-160 | the range fields set the limits only |
| `Plotting.Plotter.Plot` | src/pages/features/Plotting.jsx:28-53 | the field gets the rewritten expression, but the handler uses the captured one (lines 94-105). Blank: error "Please enter a mathematical expression", no request. Otherwise: loading, error and data cleared, x-list = `XValues` of the range, request = (fixed instruction, prompt with the captured expression and the x-list) |
| `Plotting.Plotter.Finish` | src/pages/features/Plotting.jsx:53-91 | not an array: the format error, data kept; wrong length: the count error, data kept; accepted: data = (x-list, y-values) of equal length and error cleared; threw: hook error or the fixed message; loading ends on every path |
| `Symbolic.SimplifyPrompt` | src/pages/features/Symbol.jsx:45 | the simplification prompt, the fixed lead followed by the expression. Its property: `Symbolic.SimplifyPromptInjective` |
| `Symbolic.SimplifyPromptInjective` | src/pages/features/Symbol.jsx:45 | the expression is the prompt's tail after the lead, so two prompts are equal exactly when their expressions are |
| `Symbolic.DerivativePrompt` | src/pages/features/Symbol.jsx:56 | the derivative prompt, the fixed lead, the symbol, ": " and the expression. Its property: `Symbolic.DerivativePromptInjective` |
| `Symbolic.DerivativePromptInjective` | src/pages/features/Symbol.jsx:56 | for symbols without ':', two derivative prompts are equal exactly when both their symbols and their expressions are |
| `Symbolic.SymbolicComputations.constructor` | src/pages/features/Symbol.jsx:6-11 | the initial state: empty expression, symbol "x", empty results and error, not loading |
| `Symbolic.SymbolicComputations.ChangeExpression` | src/pages/features/Symbol.jsx:105 | the field sets the expression only |
| `Symbolic.SymbolicComputations.ChangeSymbol` | src/pages/features/Symbol.jsx:116 | the field sets the symbol only |
| `Symbolic.SymbolicComputations.Compute` | src/pages/features/Symbol.jsx:28-49 | a blank expression is reported before a blank symbol is checked; neither sends anything. Otherwise: loading, error and both results reset to "", request = simplification of the untrimmed expression |
| `Symbolic.SymbolicComputations.AfterSimplify` | src/pages/features/Symbol.jsx:49-69 | resolved: simplified = captured response or "No result returned", then the derivative request with the symbol and expression; threw: both results cleared, error set, loading ends, nothing more sent |
| `Symbolic.SymbolicComputations.AfterDerivative` | src/pages/features/Symbol.jsx:60-72 | resolved: derivative = captured response or "No result returned"; threw: both results cleared and error set; loading ends |
| `Symbolic.SymbolicComputations.HandleCompute` | src/pages/features/Symbol.jsx:28-73 | the whole handler: a blank expression sets "Please enter a valid expression." before the symbol is checked, a blank symbol sets "Please enter a valid symbol for differentiation.", and on either nothing is sent and both results and loading are unchanged; otherwise the simplification is sent first, the derivative only after it resolved; both results equal when both calls resolve; any failure clears both and sets the error |

## Left out

- The `useGroq` hook and the remote service are not part of this model. A request is the pair passed to `fetchGroqResponse`. How the call settled, and the `response` and `error` the closure sees, are parameters of the continuation methods.
- The hook's own `loading` flag and the `error || groqError` display are left out. So are the disabled state of the buttons and the way results are rendered, arrays joined for display. These are presentation only.
- `Number`, `parseFloat`, number printing and `JSON.parse` are foreign functions, modelled as abstract functions of the runtime. The model does not distinguish -0 from 0.
- Plotting.XValues: the list is stated over exact reals in steps of 0.1. The browser adds 0.1 in floating point, so values drift and the last one may be dropped or added near max.
- Plotting.GenerateX: runs the loop over exact reals, for the same reason. The model's loop ends on every range. The browser's loop does not: once |x| reaches 2^50 (about 1.1e15), adding 0.1 leaves x unchanged (src/pages/features/Plotting.jsx:44). So a finite range such as 2e15 to 2e15 + 1 hangs the page as well.
- Plotting.Plotter.SetRange: the limits are reals. A NaN limit from `parseFloat` gives an empty x-list in the browser. An infinite limit makes the loop run forever, and so does a finite limit at or beyond 2^50 in size (see Plotting.GenerateX). None of these is modelled.
- Plotting.Plotter.Finish: the plot data's constant `type`, `mode` and `marker` fields are not modelled. The y-values are kept as parsed JSON values.
- The `catch` in `parseMatrix` (src/pages/features/linear.jsx:41-43) can never run, because its input is always a string. So the `!A` and `!B` checks are not modelled.
- `taskMap[op]` on a name inherited from `Object.prototype` (e.g. "constructor") is not modelled. The selectors only offer the table's own keys.
- `console.error` logging is left out.
- The authentication pages, routing and marketing pages are not part of this model.
