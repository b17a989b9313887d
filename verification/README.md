# janala2 concolic core, modelled in Dafny

janala2 is a concolic test generator for Java. It runs a program on concrete
inputs and records, next to each concrete value, a symbolic expression over
fresh input symbols. It also records the path of branches taken. After the
run, a search strategy picks a branch to flip. An adapter to the CVC4 solver
then asks for inputs that keep the path prefix and negate that branch, and
writes them as the next run's input file.

This project models the core of that loop:

- **CVC4Solver** (modules `Printing`, `Formula`, `Response`, `Inputs`, `Solver`):
  - rendering constraints as CVC-language text while collecting their free
    variables (`print`);
  - the quick-UNSAT shortcut;
  - the formula file (`writeFormula`);
  - parsing the solver's answer into a partial solution and an exclusion
    clause (`processInputs`);
  - the two-layer solve, integer then string, with up to 100 retries that
    exclude failed integer solutions (`solve`);
  - rebuilding the input file (`writeInputs`).
- **DFSStrategy** (module `Dfs`): the forward scan for forced-truth markers
  and the deepest-first backward sweeps that ask the solver to flip a branch.
- **StringValue** (modules `Patterns`, `StringValues`):
  - the concolic string methods `equals`, `startsWith`, `endsWith`,
    `contains`, `concat`, `length` and `matches`;
  - the regular patterns they attach and `escapeRE`;
  - `MAKE_SYMBOLIC`, which turns a string into an input and records its two
    length-bound branches.
- **StringConstants** (module `Interning`): string interning, with a fallback
  for unknown ids.
- **Row** (module `Rows`): row equality over the union of the two rows' key
  sets.

Code that works by updating state step by step is written as methods with
loops: `print`'s term and child loops, the prefix loop of `writeFormula`,
the line loop of `processInputs`, the element and character loops of
`writeInputs`, the retry loop, both DFS loops, and `Row.equals`. Each method
is proved equal to a specification function, and the lemmas are stated over
those functions. `StringConstants` and the `StringValue` that
`MAKE_SYMBOLIC` updates are classes whose fields the methods assign. The
external solver process, `Constraint.substitute`, `Constraint.not`,
`SymbolicStringPredicate.getFormula` and `IntValue.substituteInLinear` are
not part of this model. They are parameters: a solver oracle and a
`Collaborators` record of functions.

`writeFormula` writes the negated target on the check line itself,
`CHECKSAT <negated target>;`, followed by `COUNTERMODEL;`
(`Formula.FormulaLayout`).

## Model

| member | source | states |
|---|---|---|
| Printing.Print | src/janala/solvers/CVC4Solver.java:71-188 | print appends exactly the rendering of the constraint to the stream and adds its variables to the insertion-ordered set; an unknown constraint class, or a string predicate inside a lowered formula, raises instead |
| Printing.PrintLinear | src/janala/solvers/CVC4Solver.java:72-111 | a linear relation is written as its terms joined by ` + `, `+(k)` only for a non-zero constant, the operator token and `0`; its term variables are added in order |
| Printing.PrintTerms | src/janala/solvers/CVC4Solver.java:74-92 | the term loop writes `x<id>*(<coeff>)` per term, separated by ` + `, and adds each `x<id>` to the set |
| Printing.PrintList | src/janala/solvers/CVC4Solver.java:137-170 | the children of an Or or And are written in parentheses, joined by ` OR ` / ` AND `, in list order; the first child that raises decides the error |
| Printing.AddAllSpec | src/janala/solvers/CVC4Solver.java:79 | the LinkedHashSet keeps its elements in place, gains exactly the added names and never holds a name twice |
| Printing.PrefixErrorPropagates | src/janala/solvers/CVC4Solver.java:141-150 | once a child raises, printing the whole list raises the same error |
| Printing.RenderCoversIntVars | src/janala/solvers/CVC4Solver.java:72-136 | every variable of every integer relation print writes is in the free-variable set |
| Printing.PlainRendersIffSupported | src/janala/solvers/CVC4Solver.java:185-187 | without string predicates, print succeeds exactly when no node of an unknown class is reachable |
| Printing.ListRendersIffSupported | src/janala/solvers/CVC4Solver.java:137-170 | the same for a list of children: it renders iff no child reaches an unknown class |
| Printing.PlainIgnoresContext | src/janala/solvers/CVC4Solver.java:181-184 | the layer, partial solution and collaborators reach the text only through getFormula: without string predicates the output does not depend on them |
| Printing.LinearExample | src/janala/solvers/CVC4Solver.java:72-111 | x1 + x2 - 5 = 0 prints as `x1*(1) + x2*(1)+(-5) = 0`, its negation with ` /= `, with variables x1, x2 |
| Formula.QuickUnsatCheck | src/janala/solvers/CVC4Solver.java:225-238 | true exactly in the integer layer when the target is a string predicate equal to an earlier constraint of the path |
| Formula.WriteFormula | src/janala/solvers/CVC4Solver.java:240-288 | writeFormula yields the FALSE shortcut, the written file with its free-variable set and the TRUE flag, or print's exception, exactly as the function FormulaOf lays the file out |
| Formula.WriteAsserts | src/janala/solvers/CVC4Solver.java:250-259 | the prefix loop produces one assertion per constraint from the renderings it made, threads one set through all of them, and reports whether every substituted constraint was the True sentinel |
| Formula.AppendAssert | src/janala/solvers/CVC4Solver.java:251-258 | one loop pass: substitute, update the all-true flag, print after `ASSERT ` and end with `;` |
| Formula.AssertBlockErrorPropagates | src/janala/solvers/CVC4Solver.java:250-259 | a print that raises in the prefix aborts the whole file with that error |
| Formula.AssertBlockLines | src/janala/solvers/CVC4Solver.java:250-259 | the prefix has exactly one `ASSERT <rendering>;` line per constraint, in path order |
| Formula.AssertBlockCoversIntVars | src/janala/solvers/CVC4Solver.java:249-259 | the declared names cover every variable of every integer relation asserted in the prefix |
| Formula.FormulaLayout | src/janala/solvers/CVC4Solver.java:240-281 | a written file holds index prefix lines, then `ASSERT extra;` only when extra is not null, then `CHECKSAT <negated target>;` and `COUNTERMODEL;`; the set has no duplicates and covers every integer variable asserted or checked |
| Formula.AllTrueFormula | src/janala/solvers/CVC4Solver.java:242-281 | when every substituted constraint and the negated target are the True sentinel, the file is all ` TRUE ` assertions with no declared variable, and the answer is TRUE |
| Formula.PlainFormulaWritten | src/janala/solvers/CVC4Solver.java:240-288 | without string predicates or unknown classes, writeFormula never raises: it is written exactly when the shortcut does not apply |
| Response.ProcessInputs | src/janala/solvers/CVC4Solver.java:351-411 | processInputs returns the negated solution and the updated map, null, or the halt, exactly as the function ResponseOf reads the answer |
| Response.ScanLines | src/janala/solvers/CVC4Solver.java:380-399 | the model loop handles only five-token lines, accumulates `(name = v )` joined by ` AND `, and stores each binding in the map; a value without `;` or outside the long range raises |
| Response.ScanErrorPropagates | src/janala/solvers/CVC4Solver.java:387-396 | a line that raises ends the scan with its error |
| Response.ScanModelKeys | src/janala/solvers/CVC4Solver.java:385-398 | the map only grows, and every new key is the name token of a five-token line |
| Response.ModelLineReadsBack | src/janala/solvers/CVC4Solver.java:385-397 | a printed binding `n : INT = v;` is read back as the conjunct `(n = v )` and the entry n := v |
| Response.ScanModelLines | src/janala/solvers/CVC4Solver.java:380-399 | the scan of well-formed model lines binds every name, later bindings winning, and joins their equations in order |
| Response.ResponseRoundTrip | src/janala/solvers/CVC4Solver.java:360-403 | a `sat` answer listing bindings yields `(NOT (<equations>))` and the map with every binding applied; with no binding the clause is `(NOT (null))` |
| Response.UnsatAnswer | src/janala/solvers/CVC4Solver.java:364-378 | a first line starting with `unsat` is infeasible; one that neither starts with `sat` nor contains `unsat` halts |
| Response.ExampleAnswer | src/janala/solvers/CVC4Solver.java:351-411 | the answer `sat` / `x3 : INT = 7;` yields `(NOT ((x3 = 7 )))` and x3 := 7 |
| JavaText.ParseLongIntToString | src/janala/solvers/CVC4Solver.java:396 | Long.parseLong reads back the decimal text println writes for a long |
| JavaText.SplitModelLine | src/janala/solvers/CVC4Solver.java:385 | split(" ") cuts a model line into its five tokens, the name first |
| Inputs.ToInt32 | src/janala/solvers/CVC4Solver.java:315 | the `(int)` cast keeps the value modulo 2^32, in the signed 32-bit range |
| Inputs.BuildString | src/janala/solvers/CVC4Solver.java:316-333 | the StringBuilder loop makes max(0, len) characters: the solved code of `x<sym>__<i>`, else the previous character, else 'a' |
| Inputs.WriteInputs | src/janala/solvers/CVC4Solver.java:290-349 | writeInputs produces the input file the function InputsFile defines, or the null-pointer failure of a string input without a symbolic value |
| Inputs.InputsErrorPropagates | src/janala/solvers/CVC4Solver.java:297-340 | an element that raises aborts the whole file with that error |
| Inputs.InputsFileLines | src/janala/solvers/CVC4Solver.java:297-340 | the file has one line per input element, in input order, each the line for that element |
| Inputs.SolvedInputReadsBack | src/janala/solvers/CVC4Solver.java:306-309 | a solved input is written so that Long.parseLong reads back its solution; an unsolved scalar keeps its previous text |
| Inputs.UnsolvedStringKept | src/janala/solvers/CVC4Solver.java:311-334 | an unsolved string of unchanged length is written back unchanged; a longer one keeps its previous text as a prefix, padded with 'a' |
| Inputs.SolvedVariableRewritten | src/janala/solvers/CVC4Solver.java:297-340 | with x3 := 7 the line of input 3 becomes `7` and every other scalar input keeps its previous value |
| Inputs.AllScalarsWritten | src/janala/solvers/CVC4Solver.java:297-340 | a file of scalar inputs is always written |
| Inputs.VarNameInjective | src/janala/solvers/CVC4Solver.java:306 | distinct symbols have distinct solver-side names |
| Solver.SolveLayer | src/janala/solvers/CVC4Solver.java:443-478 | solve(extra, type, soln) answers "" for TRUE and null for FALSE without the solver, otherwise what processInputs makes of the solver's answer |
| Solver.ShortcutsIgnoreSolver | src/janala/solvers/CVC4Solver.java:447-451 | with the TRUE or FALSE answer, the layer's result does not depend on the external solver |
| Solver.DuplicatePredicateInfeasible | src/janala/solvers/CVC4Solver.java:225-238 | negating a string predicate that already occurs earlier in the path is infeasible in the integer layer |
| Solver.SolveRound | src/janala/solvers/CVC4Solver.java:417-420 | one pass of the loop: the integer layer on a fresh map and, if it succeeds, the string layer on the map it left |
| Solver.Solve | src/janala/solvers/CVC4Solver.java:413-440 | solve() returns the verdict of the last round of the trace of rounds, starting with no exclusion clause |
| Solver.SolveFrom | src/janala/solvers/CVC4Solver.java:416-439 | the retry loop returns the verdict of the trace that starts at the given round and clause |
| Solver.Stop | src/janala/solvers/CVC4Solver.java:421-434 | a round that is not a retry ends the loop and decides the verdict |
| Solver.Exhausted | src/janala/solvers/CVC4Solver.java:436-439 | after MaxCount retries, solve() is infeasible |
| Solver.Conclude | src/janala/solvers/CVC4Solver.java:419-435 | the end of a round: writeInputs on success, false on an infeasible integer layer, the halt otherwise |
| Solver.TraceLength | src/janala/solvers/CVC4Solver.java:414-437 | the loop runs between one and 100 rounds, the first with the clause it starts from; only a run of 100 retries ends on a retry |
| Solver.TraceRounds | src/janala/solvers/CVC4Solver.java:417-420 | every round is the two layers' answer for its own exclusion clause |
| Solver.TraceChain | src/janala/solvers/CVC4Solver.java:425-431 | every round but the last is a retry, and the next clause extends the current one with ` AND ` and the negated integer solution |
| Solver.FeasibleIffBothLayers | src/janala/solvers/CVC4Solver.java:413-440 | solve() is true exactly when the last round has both layers succeed and the file can be rebuilt, and the file is rebuilt from the string layer's map; an infeasible integer layer is final |
| Solver.VerdictOfRounds | src/janala/solvers/CVC4Solver.java:419-435 | the verdict of any non-empty run of rounds is read off its last round |
| Solver.IntInfeasibleStops | src/janala/solvers/CVC4Solver.java:432-435 | an infeasible first integer layer ends solve() with false |
| Solver.UnsatSolverNeverModels | src/janala/solvers/CVC4Solver.java:443-465 | with a solver that always answers unsat, solve() succeeds only through the TRUE shortcut |
| Solver.IntLayerExample | src/janala/solvers/CVC4Solver.java:443-465 | the solver's `sat`, x3 = 7 yields the clause `(NOT ((x3 = 7 )))` and the map x3 := 7 |
| Solver.EndToEndExample | src/janala/solvers/CVC4Solver.java:413-440 | end to end: with x3 = 7 and a trivially true string layer, solve() succeeds in its first round and input 3 becomes `7` |
| Dfs.Dfs | src/janala/solvers/DFSStrategy.java:71-84 | dfs returns the sweep's answer and hands solveAt exactly the sweep's indices, in order |
| Dfs.SweepDeepestHit | src/janala/solvers/DFSStrategy.java:71-84 | dfs returns the highest index in (to, from] whose open branch the solver flips, and -1 exactly when there is none |
| Dfs.SweepCallsOrder | src/janala/solvers/DFSStrategy.java:72-80 | dfs asks only about open branches in (to, from], in strictly decreasing order |
| Dfs.SweepCallsCover | src/janala/solvers/DFSStrategy.java:72-80 | dfs asks about every open branch above its answer, and the answer is the last index asked |
| Dfs.Strategy | src/janala/solvers/DFSStrategy.java:45-69 | solve returns the scan's answer and hands solveAt exactly the scan's indices, in order |
| Dfs.ScanFromHit | src/janala/solvers/DFSStrategy.java:48-68 | each step of the scan answers -1 or an open, flipped branch above the current marker |
| Dfs.StrategyHit | src/janala/solvers/DFSStrategy.java:45-69 | solve returns -1 or an index below historySize holding a branch that is not done, has a constraint index and was flipped |
| Dfs.ScanCallsDistinct | src/janala/solvers/DFSStrategy.java:48-62 | the sweeps cover disjoint ranges, so no index is asked about twice |
| Dfs.StrategyCallsDistinct | src/janala/solvers/DFSStrategy.java:45-69 | solve asks the solver only about open branches below historySize, never twice about one |
| Dfs.ScanWithoutMarkers | src/janala/solvers/DFSStrategy.java:48-68 | without forced branches solve is one sweep from the last index |
| Dfs.DeepestFirst | src/janala/solvers/DFSStrategy.java:45-69 | without forced branches solve returns the deepest open branch the solver flips, and -1 exactly when there is none |
| Dfs.ThreeBranchesExample | src/janala/solvers/DFSStrategy.java:45-84 | three open branches and a solver that flips all: solve picks index 2 after one call |
| Dfs.DoneNeverChosen | src/janala/solvers/DFSStrategy.java:76 | a done branch is never returned nor handed to the solver |
| Patterns.EscapeAsWrittenMissesBackslash | src/janala/interpreters/StringValue.java:68-70 | the escape as written leaves `\` unquoted: startsWith("\") on "\" builds `\.*`, which rejects the receiver although it starts with the argument |
| Patterns.EscapesDiffer | src/janala/interpreters/StringValue.java:69 | the written class and the intended one differ exactly on the six characters between Z and a |
| Patterns.ParseEscaped | src/janala/interpreters/StringValue.java:68-70 | the corrected escape of s parses as the literal characters of s |
| Patterns.PrefixPattern | src/janala/interpreters/StringValue.java:88-97 | with the intended escape, `escapeRE(s).*` accepts t exactly when t starts with s |
| Patterns.OffsetPattern | src/janala/interpreters/StringValue.java:98-111 | with the intended escape, `.{k}escapeRE(s).*` accepts t exactly when t starts with s at offset k, for any int k |
| Patterns.SuffixPattern | src/janala/interpreters/StringValue.java:112-119 | with the intended escape, `.*escapeRE(s)` accepts t exactly when t ends with s |
| Patterns.InfixPattern | src/janala/interpreters/StringValue.java:120-127 | with the intended escape, `.*escapeRE(s).*` accepts t exactly when t contains s |
| StringValues.InValue | src/janala/interpreters/StringValue.java:91-96 | a membership answer is 1 exactly when the check holds, and carries a predicate exactly when the receiver is symbolic: IN over the receiver's expression and the pattern |
| StringValues.EqualsValue | src/janala/interpreters/StringValue.java:74-87 | equals is 1 iff the texts are equal, and carries an EQ predicate over the two operands exactly when one is symbolic |
| StringValues.ConcatValue | src/janala/interpreters/StringValue.java:128-141 | concat yields the two texts joined, symbolic exactly when an operand is |
| StringValues.PlainReceiverNoPredicate | src/janala/interpreters/StringValue.java:88-148 | on a receiver that is not symbolic the membership methods carry no predicate, and length is the concrete length |
| StringValues.ConcreteAnswers | src/janala/interpreters/StringValue.java:88-127 | the concrete answers of startsWith, startsWith at an offset, endsWith and contains are Java's |
| StringValues.ConcatDenotes | src/janala/interpreters/StringValue.java:128-141 | concat keeps the symbolic side denoting the concrete text |
| StringValues.Consistent | src/janala/interpreters/StringValue.java:72-161 | concolic consistency of invokeMethod with the intended escape: when the operands' symbolic sides denote their texts, each attached predicate holds iff the concrete answer is 1, a concatenation stays faithful, and a symbolic length denotes the text |
| StringValues.AsWrittenInconsistent | src/janala/interpreters/StringValue.java:68-97 | invokeMethod with the escape as written breaks that consistency: startsWith("\") on a symbolic receiver "\" answers 1 while its IN predicate `\.*` rejects the receiver's text |
| StringValues.LengthBranches | src/janala/interpreters/StringValue.java:170-182 | the two recorded branches are `length >= 0` and `length - max <= 0`, each done exactly when its outcome holds |
| StringValues.LengthBranchesMeaning | src/janala/interpreters/StringValue.java:170-182 | each recorded outcome is what its constraint says about the actual length; the lower bound always holds |
| StringValues.StringValue.MakeSymbolic | src/janala/interpreters/StringValue.java:163-186 | returns the old symbol, advances it by inc, makes the string a fresh expression, and appends the two length branches |
| Interning.StringConstants.constructor | src/janala/interpreters/StringConstants.java:50-53 | a new table is empty |
| Interning.StringConstants.GetId | src/janala/interpreters/StringConstants.java:55-63 | get(String) interns the string and keeps the table a bijection |
| Interning.StringConstants.GetString | src/janala/interpreters/StringConstants.java:65-71 | get(int) returns the string with that id, or `string<i>` outside the table |
| Interning.InternValid | src/janala/interpreters/StringConstants.java:55-63 | interning keeps the map and the list inverse to each other |
| Interning.InternShape | src/janala/interpreters/StringConstants.java:55-63 | a new string gets the current size and grows both halves by one; a known one keeps its id and the table |
| Interning.InternIdempotent | src/janala/interpreters/StringConstants.java:55-63 | interning twice changes nothing the second time |
| Interning.RoundTrip | src/janala/interpreters/StringConstants.java:55-71 | get(get(s)) == s |
| Interning.DistinctIds | src/janala/interpreters/StringConstants.java:55-63 | distinct strings get distinct ids |
| Interning.LookupFallback | src/janala/interpreters/StringConstants.java:65-71 | an id outside the table, negative ones included, reads as `string` and the number |
| Rows.Equals | src/database/table/internals/Row.java:45-61 | Row.equals holds exactly when the argument is a TreeMap and the values agree (both null, the same object, or equal) on every key of either map |
| Rows.Reflexive | src/database/table/internals/Row.java:45-61 | a row equals itself, whatever equals() of its values does |
| Rows.Symmetric | src/database/table/internals/Row.java:45-61 | between two rows the relation is symmetric when the values' equals() is |
| Rows.NullSameAsMissing | src/database/table/internals/Row.java:54-57 | a key mapped to null compares like a missing key |
| Rows.NotTreeMapUnequal | src/database/table/internals/Row.java:47-49 | an argument that is not a TreeMap is never equal |

## Left out

- Files and processes: the formula file, `concatFile`'s declarations, the
  input file and its `.bak` copy, and the external CVC4 process are modelled
  as line sequences and an oracle function. IOException paths and
  `process.waitFor` are not modelled.
- `Runtime.halt` and exceptions that escape are modelled as explicit
  `Halted`/`Fatal`/`Err` outcomes that end the run.
- `Constraint.substitute`, `Constraint.not`,
  `SymbolicStringPredicate.getFormula` and `IntValue.substituteInLinear` are
  not part of this model. They are fields of a `Collaborators` record passed
  in.
- `History.solveAt` is a pure function from constraint index to a boolean.
  Its side effects on the history are not modelled.
- History internals: `checkAndSetBranch` and `setLastBranchDone` are
  modelled as appending a branch record and marking the last one done. The
  branch-matching logic of `History` is not part of this model.
- IntValue.MAKE_SYMBOLIC is not part of this model: the length symbol it
  hands out is a parameter of `StringValues.StringValue.MakeSymbolic`, and
  the shared counter advances only by StringValue's own `inc`.
- StringValues.StringValue.MakeSymbolic: does not model the 32-bit
  wrap-around of `symbol + inc`, because symbols never approach that range.
- StringValues.InvokeMethod: takes the escape as a parameter. `AsWritten` is the code's `[^a-zA-z0-9]` class; the consistency lemma is stated for `Intended`, the corrected class, and AsWrittenInconsistent shows it fails for the code's.
- StringValues.Consistent: does not cover `matches`, because String.matches
  is Java's full regular-expression engine. It is an oracle parameter of
  `InvokeMethod`, and the pattern it attaches is the argument itself.
- `super.invokeMethod` (ObjectValue) is not part of this model; calls it
  would handle return `Delegated`.
- The regular patterns get a meaning only for the forms StringValue builds:
  literals, quoted characters, `.`, `*` and `{k}`. `.` is taken to match
  every character, including line terminators, which Java's `.` does not
  match without DOTALL.
- Characters are Dafny `char` values. The `(char)` cast of a solved code
  unit in the surrogate range gives U+FFFD.
- Solver values are unbounded integers. `Long.parseLong` rejects text
  outside the long range, as in the code. The solver is trusted not to
  report such values in `writeInputs`.
- Printing.Render: follows at most `LoweringDepth` (one) string-predicate
  lowering per print call. A string predicate inside a lowered formula is
  reported as an error rather than lowered again.
- The iteration order of SymbolicInt's linear map (a hash map) is the order
  of the `terms` sequence.
- Rows.Equals: values are compared by Dafny equality for object identity and
  by an `eq` oracle for `equals()`. Rows are maps of `Option` values, where
  None is null.
- The setters of CVC4Solver (`setInputs`, `setPathConstraint`,
  `setPathConstraintIndex`) become the fields of the immutable `Query`
  record.
- Logging, `printFormulaAndSolutions` output and the tester log are not
  modelled.

## Findings

| source | as written | input that shows it | evidently intended | confidence | as-written member | corrected member |
|---|---|---|---|---|---|---|
| src/janala/interpreters/StringValue.java:69 | escapeRE quotes the class `[^a-zA-z0-9]`; the range `A-z` also covers `[`, `\`, `]`, `^`, `_` and the backquote, so these stay unquoted | startsWith("\") on a symbolic receiver "\": the pattern is `\.*`, which does not accept "\" although the concrete answer is 1 | `[^a-zA-Z0-9]`, quoting every non-alphanumeric character | not executed | StringValues.AsWrittenInconsistent | StringValues.Consistent |
