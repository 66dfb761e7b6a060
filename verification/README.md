# distro-seed: a verified model of its configuration engine, scheduler and VM protocol

distro-seed builds a distribution image from a Kconfig configuration and a list of
tasks.  This project models the parts of it with the most state and the longest
chains of reasoning, and proves what they are for.  `dafny verify dfyconfig.toml`
checks everything.

**The Kconfig engine** (`common/lib/kconfiglib/kconfiglib.py`).

* `KconfigModel` holds the compiled tree and the rules for values.  A rule reads a
  table of cached values, each of which may be missing, and succeeds when what it
  reads is there; short-circuiting may leave dependencies unread.
* `KconfigReads`, `KconfigValues` and `KconfigFresh` show that the values exist, are
  unique, and are found by a recursion of bounded depth; `KconfigInvalidate` and
  `KconfigCaching` say why caching and dropping entries is sound.
* `ExprMeaning` and `KconfigMeaning` say what expressions and all entries of a table
  of values mean, without the rules that compute them.
* `KconfigCache` is the evaluator with its caches as classes; `KconfigRun` states the
  main result, that every read of every run returns the uncached value.
  `KconfigAssign` says what the user reads after setting, and `KconfigChange` what a
  change of settings can change and which values can be assigned.
* `KconfigChoices` has the exclusivity of choices.  `ConfigText`, `KconfigLoad`,
  `KconfigRestore`, `KconfigSave`, `KconfigRoundTrip`, `KconfigMinimal` and
  `KconfigWriters` cover loading and the two writers.
* `DepSearch`, `DepLoop` and `KconfigTermination` cover the dependency loop check and
  what passing it means.  `DepCompile`, `DepMeaning` and `DepAssembly` cover
  dependency compilation and the tree that results, `MenuShape`, `MenuMeaning` and
  `MenuTree` the reshaping of the menu tree.
* `ExprParser` is the expression parser and printer and `ExprGrammar` its grammar,
  `MacroExpand` the preprocessor and `MacroMeaning` the meaning of calls.

**The task scheduler** (`common/lib/task_manager.py`, `common/build.py`):
`TaskGraph`, `TaskAuto`, `TaskSort`, `TaskBuild` and `TaskExamples`.

**Commands to the build VM** (`common/lib/vm.py` and the serial agent): `Base64`,
`ShellQuote` and `VmFraming`.

Where the code mutates objects the model has classes whose methods are proved
against functions on values; the theorems are about those functions.

## Where the code does not do what it promises

* The loop check is not exact.  While a choice is searched, its finished symbols
  already count as free of loops, so a path from a later symbol back to an earlier
  one goes unnoticed (`DepLoopMissed`).  Such a tree can pass the check although the
  selection of the choice depends on itself (`PassedButStuck`).  The symbol by which
  the search entered the choice is not affected.  `CheckDecides` says exactly which
  graphs are reported, and `CheckExact` that the check is wrong about exactly those
  that have such a path and nothing else to report.
* An optional choice that the user put in y mode and that selects no symbol does not
  survive a round trip through either file, since no line carries its mode
  (`EmptyChoiceForgotten`).  It is the only thing lost (`FullRoundTrip`,
  `MinRoundTrip`).
* A symbol that is shown and selected as m and implied as y offers m as its only
  assignable value, although it is y whatever the user sets.  For every other visible
  symbol outside choices the assignable values are those that are respected
  (`AssignableRespected`, `ContestedExample`).
* A replacing load of a file that gives a tristate choice a mode but no y symbol
  keeps the pick made before (`HistoryIndependentIff`, `TristateChoiceRemembers`).
* `common/lib/task_manager.py` looks for cycles only after all searches for
  automatic edges, and a search above a cycle need not end (`EndsIff`, `SearchHangs`).
* `Documentation/adding_tasks.md:58` promises listed order for tasks of one manifest
  with the same type and dependencies.  A task with `auto_create_rdepends` may be
  overtaken by one listed later (`FlaggedOvertaken`).  `ManifestOrder` has the exact
  condition, on the order in which tasks are released; without the flag, or without an
  automatic edge to the earlier task, the promise holds (`UnbarredKeepsPlace`), and if
  the edge comes from the later task or from one behind it, it fails (`BarrierBehind`).
* A task runs in the VM under a token made of its config and twelve hexadecimal
  digits.  A config that is an expression with spaces, or that contains `/`, is too
  long, is not ASCII, or is read by the shell as a pattern that does not match itself,
  ends the agent or the host instead (`FramingRoundTrip`).
* An environment variable named after such a config is no shell variable, and the
  environment does not arrive as it was sent (`ExportsRoundTrip`).

## Assumptions that are visible in the statements

* Trees are ranked: no item depends on itself, a choice and its symbols counting as
  one.  `PassedEvaluates` derives this from the loop check.
* Choice defaults are symbols of the choice, the symbols of a choice have prompts only
  inside it, and only bool and tristate symbols are selected; the sanity checks warn
  about anything else.  `AssembledPropagated` and `AssembledMinReady` derive from
  compilation what exclusivity and the minimal file need of conditions.
* Round trips: no symbol is called MODULES (this repository has none), symbols that
  take their value from the environment or find the defconfig file have no user
  value, symbol names are unique and can be read back, strings have no line breaks
  and numbers have no surrounding white space.

## Model

| member | source | states |
|---|---|---|
| KconfigReads.ExprKept | common/lib/kconfiglib/kconfiglib.py:5987-6041 | an expression that evaluates on one table of cached values evaluates to the same on any table that keeps the items it mentions; short-circuiting may skip items that have no cached value |
| ExprMeaning.NotSwaps | common/lib/kconfiglib/kconfiglib.py:6012-6013 | ! exchanges n and y, leaves m, and twice is nothing |
| ExprMeaning.NotReverses | common/lib/kconfiglib/kconfiglib.py:6012-6013 | ! reverses the order of values |
| ExprMeaning.DeMorgan | common/lib/kconfiglib/kconfiglib.py:6002-6013 | the laws of De Morgan hold in every table, also where values are missing |
| ExprMeaning.AndOrLattice | common/lib/kconfiglib/kconfiglib.py:6002-6010 | && is the greatest lower bound of its sides, || the least upper bound |
| ExprMeaning.ShortCircuit | common/lib/kconfiglib/kconfiglib.py:6002-6010 | an n on the left of && and a y on the left of || decide alone, whatever is missing on the right |
| ExprMeaning.RelationsComplement | common/lib/kconfiglib/kconfiglib.py:6019-6041 | != is the negation of =, >= of <, <= of >; <= is < or =; no relation is m |
| ExprMeaning.TextRelation | common/lib/kconfiglib/kconfiglib.py:6024-6034 | where both operands are string symbols or one is no number, = means the same text and < the order of the dictionary |
| ExprMeaning.NumberRelation | common/lib/kconfiglib/kconfiglib.py:6028-6030 | other operands are related as the integers they stand for |
| ExprMeaning.OperandNumber | common/lib/kconfiglib/kconfiglib.py:6366-6380 | what number an operand stands for: 0, 1, 2 for n, m, y, else its text in the base of its type |
| ExprMeaning.EqualsItself | common/lib/kconfiglib/kconfiglib.py:6019-6041 | an operand equals itself |
| ExprMeaning.RelationMirrored | common/lib/kconfiglib/kconfiglib.py:6019-6041 | exchanging the operands exchanges < and >, and leaves = |
| ExprMeaning.OperandValues | common/lib/kconfiglib/kconfiglib.py:4285-4303 | constants, undefined names and symbols as values and as texts |
| KconfigValues.JustifiedAgrees | common/lib/kconfiglib/kconfiglib.py:4285-4504 | coherence of a cache: if every cached entry follows from the other entries by its rule, every entry is the value that an evaluation without a cache gives |
| KconfigValues.SolutionUnique | common/lib/kconfiglib/kconfiglib.py:4285-4504 | the user's settings determine every value, visibility, selection and assignable set |
| KconfigFresh.FreshSolves | common/lib/kconfiglib/kconfiglib.py:4285-4504 | the mutual recursion of values, visibilities, modes and selections ends: on a tree without dependency loops a nesting of four calls for each rank finds every value |
| KconfigInvalidate.SweptJustified | common/lib/kconfiglib/kconfiglib.py:4858-4893 | dropping the entries of an item and of all dependents that have a cached visibility, and skipping the others, leaves a cache that is coherent under the changed settings |
| KconfigCache.Kconfig.TriValue | common/lib/kconfiglib/kconfiglib.py:4426-4504 | returns the cached value or computes and caches it; the cache stays coherent and nothing else changes but entries that were missing |
| KconfigCache.Kconfig.StrValue | common/lib/kconfiglib/kconfiglib.py:4285-4420 | the same for string, int and hex values, with user value, defaults and ranges |
| KconfigCache.Kconfig.SymVisibility | common/lib/kconfiglib/kconfiglib.py:4515-4522 | the visibility by the rules for prompts, choices and the promotion of m, cached |
| KconfigCache.Kconfig.Selection | common/lib/kconfiglib/kconfiglib.py:5423-5452 | the selected symbol of a choice: the user's pick if visible, else the first default that applies, else the first visible symbol |
| KconfigCache.Kconfig.Assignable | common/lib/kconfiglib/kconfiglib.py:4812-4856 | the values that can be assigned, given visibility, selects and implies |
| KconfigCache.Kconfig.RecInvalidate | common/lib/kconfiglib/kconfiglib.py:4864-4893 | the walk over dependents ends although choices and their symbols depend on each other, and clears the item and every dependent that had a cached visibility |
| KconfigCache.Kconfig.SetValue | common/lib/kconfiglib/kconfiglib.py:4557-4644 | stores a value that is valid for the type, with the user mode and pick of the choice, tells whether it was accepted, and leaves a coherent cache |
| KconfigCache.Kconfig.UnsetValue | common/lib/kconfiglib/kconfiglib.py:4646-4653 | removes the user value and leaves a coherent cache |
| KconfigCache.Kconfig.SetChoiceValue | common/lib/kconfiglib/kconfiglib.py:5243-5282 | stores the mode of a choice, refusing m for a bool choice, tells whether it was accepted, and leaves a coherent cache |
| KconfigCache.Kconfig.BuildDep | common/lib/kconfiglib/kconfiglib.py:3465-3524 | records as dependents exactly the items that mention each item |
| KconfigCache.Kconfig.AddChoiceDeps | common/lib/kconfiglib/kconfiglib.py:3526-3538 | adds each choice to the dependents of its symbols; together the recorded links are exactly the dependencies |
| KconfigMeaning.SymbolVisibility | common/lib/kconfiglib/kconfiglib.py:6285-6312 | the visibility of a symbol is the largest of its prompt conditions, with m counting as y for bool symbols and without modules; in choices, a bool symbol of a tristate choice shows in y mode only, and a tristate symbol shown as m does not |
| KconfigMeaning.ChoiceVisibility | common/lib/kconfiglib/kconfiglib.py:6285-6312 | the visibility of a choice is the largest of its prompt conditions, with m counting as y for bool choices and without modules |
| KconfigMeaning.ModeMeaning | common/lib/kconfiglib/kconfiglib.py:5188-5206 | the mode of a choice: n if hidden or optional and not set; else y for a bool choice, the visibility for the user mode y, and m otherwise |
| KconfigMeaning.PickSelected | common/lib/kconfiglib/kconfiglib.py:5432-5434 | in y mode a visible pick of the user is the selection |
| KconfigMeaning.DefaultSelected | common/lib/kconfiglib/kconfiglib.py:5439-5445 | without one, the selection is the symbol of the least default whose condition is not n and whose symbol is visible |
| KconfigMeaning.FirstShownSelected | common/lib/kconfiglib/kconfiglib.py:5446-5452 | without such a default, it is the visible symbol of least index, or none |
| KconfigMeaning.NothingSelected | common/lib/kconfiglib/kconfiglib.py:5428-5430 | outside y mode nothing is selected |
| KconfigMeaning.MemberMeaning | common/lib/kconfiglib/kconfiglib.py:4493-4501 | a symbol of a choice is y exactly if it is shown as y and selected, m exactly if it is shown as m and the user set it, and is written exactly if shown |
| KconfigMeaning.UserValue | common/lib/kconfiglib/kconfiglib.py:4452-4491 | a visible symbol outside choices has the value the user gave it, at most its visibility and at least its selects, m counting as y where there is no m; without modules it is y exactly if that or a select is not n |
| KconfigMeaning.DefaultValue | common/lib/kconfiglib/kconfiglib.py:4459-4491 | hidden or without a user value, it has the largest of its selects, of its implies where its direct dependency is not n, and of the first default whose condition is not n |
| KconfigMeaning.TriWritten | common/lib/kconfiglib/kconfiglib.py:4444-4487 | it is written exactly if it is visible or one of these is not n |
| KconfigMeaning.NotNWritten | common/lib/kconfiglib/kconfiglib.py:4088-4090 | every bool or tristate symbol that is not n is written |
| KconfigMeaning.UserText | common/lib/kconfiglib/kconfiglib.py:4403-4406 | a visible string has the text the user gave it |
| KconfigMeaning.DefaultTextValue | common/lib/kconfiglib/kconfiglib.py:4403-4413 | otherwise a string has the text of its first default whose condition is not n |
| KconfigMeaning.UserNumber | common/lib/kconfiglib/kconfiglib.py:4336-4356 | a visible number that the user gave and the first active range admits is kept as it was written |
| KconfigMeaning.DefaultNumber | common/lib/kconfiglib/kconfiglib.py:4358-4401 | otherwise a number is its first active default, or 0, pulled to the nearer bound of the first active range |
| KconfigMeaning.TextWritten | common/lib/kconfiglib/kconfiglib.py:4304-4418 | a string or number is written exactly if it is visible or has an active default, unless it never is |
| KconfigChange.ChangeStays | common/lib/kconfiglib/kconfiglib.py:4570-4571 | changing settings changes nothing but what depends on them: outside any set of items closed under dependents, all values, visibilities, selections and assignable values of two complete tables agree if the settings do |
| KconfigChange.AssignableRespected | common/lib/kconfiglib/kconfiglib.py:4044-4049 | a value is assignable to a visible symbol outside choices exactly if the symbol has it after the user has given it; the only exception is a symbol shown and selected as m and implied as y, which offers m and stays y |
| KconfigChange.ContestedExample | common/lib/kconfiglib/kconfiglib.py:4848-4856 | a tree and its values with such a symbol |
| KconfigChange.AssignableSorted | common/lib/kconfiglib/kconfiglib.py:4044-4052 | assignable values come in ascending order, and a hidden symbol has none |
| KconfigChange.MemberAssignable | common/lib/kconfiglib/kconfiglib.py:4826-4828 | a symbol of a choice in y mode offers y only |
| KconfigChange.ModeAssignableRespected | common/lib/kconfiglib/kconfiglib.py:5404-5421 | a mode is assignable to a visible choice exactly if the choice has it after the user has given it |
| KconfigRun.CacheIsValues | common/lib/kconfiglib/kconfiglib.py:4858-4893 | whatever is cached at any moment is the value computed without a cache from the settings at that moment |
| KconfigRun.Run | common/lib/kconfiglib/kconfiglib.py:4557-4653 | over any sequence of sets, unsets, file loads and reads, every reading is the uncached value for the settings in force when it was made, and every setter returns whether the value was accepted |
| KconfigAssign.SetThenReadTri | common/lib/kconfiglib/kconfiglib.py:4557-4571 | after an accepted value was set, a visible bool or tristate symbol outside choices reads as that value, within its visibility and selects; without modules, y exactly if the value or a select is not n |
| KconfigAssign.UnsetThenReadTri | common/lib/kconfiglib/kconfiglib.py:4646-4653 | after the value was removed, it reads as its selects, implies and first active default give it |
| KconfigAssign.SetThenReadStr | common/lib/kconfiglib/kconfiglib.py:4570-4577 | a visible string, or a number that the active range admits, reads as the text that was set |
| KconfigAssign.SetThenReadSelection | common/lib/kconfiglib/kconfiglib.py:4565-4568 | a visible symbol of a choice in y mode that was set to y is the selection, and y |
| KconfigAssign.SetThenReadMode | common/lib/kconfiglib/kconfiglib.py:5243-5282 | the mode that was set is the mode of a visible choice, within its bounds |
| KconfigAssign.SetAndReadTri | common/lib/kconfiglib/kconfiglib.py:4557-4644 | the same on the live configuration: setting a symbol and reading it through the cache |
| KconfigChoices.YModeExclusive | common/lib/kconfiglib/kconfiglib.py:4493-4501 | a choice in y mode with a visible symbol has exactly one symbol at y, the selected one, and all others at n |
| KconfigChoices.YModeEmpty | common/lib/kconfiglib/kconfiglib.py:5423-5452 | a choice in y mode without a visible symbol selects nothing and all its symbols are n |
| KconfigChoices.MModeNoY | common/lib/kconfiglib/kconfiglib.py:4493-4501 | in m mode no symbol of a choice is y |
| KconfigChoices.NModeAllN | common/lib/kconfiglib/kconfiglib.py:6285-6312 | in n mode every symbol of a choice is n |
| KconfigChoices.AtMostOneY | common/lib/kconfiglib/kconfiglib.py:5188-5206 | two different symbols of one choice are never both y |
| ConfigText.QuotedRoundTrip | common/lib/kconfiglib/kconfiglib.py:6175-6193 | for every string, unescaping what the pattern for quoted values finds in the escaped, quoted string gives the string back |
| ConfigText.ParseSetLine | common/lib/kconfiglib/kconfiglib.py:978-981 | an assignment line as the writers print it is read as that name and value |
| ConfigText.ParseUnsetLine | common/lib/kconfiglib/kconfiglib.py:982-984 | a comment line that says a symbol is not set is read as the value n of that symbol |
| KconfigLoad.LoadConfig | common/lib/kconfiglib/kconfiglib.py:1247-1366 | reading a file line by line, and then unsetting what the file does not set, changes the settings as the one-pass definition LoadAll says and keeps the cache coherent |
| KconfigLoad.LevelLineLoads | common/lib/kconfiglib/kconfiglib.py:1283-1318 | a line with n, m or y makes it the user value of the symbol; m and y set the mode of its choice, and y the pick |
| KconfigLoad.UnsetLineLoads | common/lib/kconfiglib/kconfiglib.py:1330-1350 | the comment that says a symbol is not set makes its user value n |
| KconfigLoad.TextLineLoads | common/lib/kconfiglib/kconfiglib.py:1310-1318 | a line with a quoted text sets a string to that text, a line with a valid number sets a number as it is written |
| KconfigLoad.MalformedIgnored | common/lib/kconfiglib/kconfiglib.py:1280-1318 | lines for unknown names, and lines with values that are not valid for the type, change nothing |
| KconfigLoad.AcceptedIsValid | common/lib/kconfiglib/kconfiglib.py:4590-4622 | with settings that were themselves accepted, a setter returns true exactly for the values that are valid for the type |
| KconfigLoad.LoadOnTop | common/lib/kconfiglib/kconfiglib.py:1353-1366 | after a replacing load, values and modes are those of loading into a fresh configuration; the pick of a choice is kept exactly where the file gives the choice a mode but no y symbol |
| KconfigLoad.HistoryIndependentIff | common/lib/kconfiglib/kconfiglib.py:1353-1366 | a replacing load forgets the history if and only if no choice that the file gives a mode without a y symbol had a pick before |
| KconfigLoad.BoolChoicesForget | common/lib/kconfiglib/kconfiglib.py:1247-1366 | with bool choices only, a replacing load never depends on what was set before |
| KconfigLoad.TristateChoiceRemembers | common/lib/kconfiglib/kconfiglib.py:4607-4643 | a one-line file after which a tristate choice keeps the pick made before the load |
| KconfigRestore.EnoughRestores | common/lib/kconfiglib/kconfiglib.py:1247-1366 | if every symbol left out of a file would get its value from its defaults and every choice left out would select the same symbol, loading the file restores every value |
| KconfigSave.LineAssigns | common/lib/kconfiglib/kconfiglib.py:4524-4548 | the line written for a symbol assigns, when loaded, exactly its value |
| KconfigSave.LineText | common/lib/kconfiglib/kconfiglib.py:4524-4548 | the lines of a file letter by letter, for each type and value |
| KconfigSave.FileArrives | common/lib/kconfiglib/kconfiglib.py:1247-1366 | loading a file of such lines and quiet remarks into a fresh configuration leaves exactly the saved values as user values |
| KconfigRoundTrip.DefaultNameIsValue | common/lib/kconfiglib/kconfiglib.py:4917-4950 | for every visible bool or tristate symbol outside choices, the default value computed for the minimal file is the value the symbol would have without its user value |
| KconfigRoundTrip.FullRoundTrip | common/lib/kconfiglib/kconfiglib.py:1582-1655 | loading the full file into a fresh configuration gives every symbol and choice its value and selection back, if and only if no optional choice is in y mode with nothing selected |
| KconfigRoundTrip.MinRoundTrip | common/lib/kconfiglib/kconfiglib.py:1694-1729 | the same for the minimal file |
| KconfigRoundTrip.EmptyChoiceForgotten | common/lib/kconfiglib/kconfiglib.py:1582-1655 | an optional choice in y mode with one hidden symbol: all other premises of both round trips hold, nothing is written, and after loading the choice is in n mode |
| KconfigMinimal.KeptPlain | common/lib/kconfiglib/kconfiglib.py:1705-1717 | a bool or tristate symbol outside choices has a line in the minimal file exactly if it would have another value without its user value |
| KconfigMinimal.KeptString | common/lib/kconfiglib/kconfiglib.py:1705-1717 | the same for strings |
| KconfigMinimal.KeptUnlikeDefault | common/lib/kconfiglib/kconfiglib.py:1705-1717 | a string or number outside choices has a line exactly if it is visible, may be written at all, and is not written like its default would be before clamping |
| KconfigMinimal.KeptNumber | common/lib/kconfiglib/kconfiglib.py:1705-1717 | a number that would be another without its user value has a line, and the converse holds where its default is in range |
| KconfigMinimal.KeptMember | common/lib/kconfiglib/kconfiglib.py:1719-1725 | a symbol of a choice has a line exactly if it is y, except a bool symbol that a choice that is not optional selects by default |
| KconfigWriters.WriteConfig | common/lib/kconfiglib/kconfiglib.py:1582-1655 | given the steps of the walk over the menu, prints the header, each symbol once when it is first met, the headings of visible menus and comments, and the `# end of` lines, with an empty line before the first symbol after one; every condition is read from the live cache and is the uncached value |
| KconfigWriters.WriteMinConfig | common/lib/kconfiglib/kconfiglib.py:1694-1729 | prints the lines of exactly the symbols that MinSyms keeps |
| KconfigWriters.MinOrder | common/lib/kconfiglib/kconfiglib.py:1700-1727 | the lines come in definition order |
| KconfigWriters.ClosedMeaning | common/lib/kconfiglib/kconfiglib.py:1643-1648 | the empty line stands before a symbol exactly if the last thing written is the comment that closes a menu |
| KconfigWriters.SaveAndReload | common/lib/kconfiglib/kconfiglib.py:1503-1580 | writing a live configuration as the walk over its menu does, and loading the text into a new one, restores it under the same condition; titles may be anything that does not read as an assignment |
| KconfigWriters.SaveMinAndReload | common/lib/kconfiglib/kconfiglib.py:1657-1692 | the same through the minimal file |
| DepLoop.CheckDecides | common/lib/kconfiglib/kconfiglib.py:6563-6718 | the check raises if and only if there is a loop in what it compares: items lead to their dependents, a choice to its symbols except the one it was entered by, that symbol to the choice, and any other symbol to those before it |
| DepLoop.CheckExact | common/lib/kconfiglib/kconfiglib.py:6563-6718 | a reported loop is a real loop, along the reported path, and never gets lost as a return value; the check is right about a graph (it raises if and only if there is a loop) if and only if no path leads from a choice symbol back to an earlier one, neither of them the entry of the choice, or the search finds a loop as well |
| DepLoop.NoBackAtAll | common/lib/kconfiglib/kconfiglib.py:6563-6718 | if no path leads from a choice symbol back to an earlier one at all, the check raises if and only if there is a loop, in whatever order it searches |
| DepSearch.BackIsCycle | common/lib/kconfiglib/kconfiglib.py:6638-6669 | a path back to an earlier symbol of a choice is itself a loop |
| DepLoop.DepLoopMissed | common/lib/kconfiglib/kconfiglib.py:6642-6651 | a graph of three choice symbols and one other symbol has a loop that the check does not report |
| DepLoop.PassedRanks | common/lib/kconfiglib/kconfiglib.py:6563-6669 | passing the check without such a path puts all items in an order in which dependents come first |
| DepLoop.LoopChecker.CheckSym | common/lib/kconfiglib/kconfiglib.py:6563-6635 | the recursive search from a symbol, with its colours and returned loops, does what VisitSym says |
| DepLoop.LoopChecker.CheckChoice | common/lib/kconfiglib/kconfiglib.py:6638-6669 | the search of a choice, skipping the symbol it was entered by |
| DepLoop.CheckTree | common/lib/kconfiglib/kconfiglib.py:1121-1125 | the check over all symbols, as it runs: which graphs are reported, and for which that is right |
| KconfigTermination.PassedEvaluates | common/lib/kconfiglib/kconfiglib.py:1117-1125 | a tree that passes the loop check, without paths back inside a choice, is ranked, and every value can be computed for any settings of the user |
| KconfigTermination.PassedButStuck | common/lib/kconfiglib/kconfiglib.py:6638-6651 | a tree that passes the loop check whose choice selection is never found, however deep the recursion |
| DepMeaning.PromptMeaning | common/lib/kconfiglib/kconfiglib.py:3636-3686 | a compiled prompt condition is the least of its own condition, the `depends on` of its node and of all enclosing nodes up to the nearest choice, the mode of that choice, and for symbols and choices every enclosing `visible if` |
| DepMeaning.CondMeaning | common/lib/kconfiglib/kconfiglib.py:3660-3678 | the condition of a compiled default, range, select or imply is the least of its own and the same dependencies |
| DepMeaning.PropsMeaning | common/lib/kconfiglib/kconfiglib.py:3656-3678 | the same for all defaults, ranges, selects and implies of a symbol or choice node |
| DepMeaning.PromptsGuarded | common/lib/kconfiglib/kconfiglib.py:3639-3645 | inside a choice every compiled prompt condition is n or has the choice as a conjunct, which is what choice exclusivity rests on |
| DepMeaning.ReverseMeaning | common/lib/kconfiglib/kconfiglib.py:3708-3719 | the (weak) reverse dependency of a symbol evaluates to the largest, over all selects (implies) naming it, of the lesser of selecting symbol and condition |
| DepMeaning.DirectMeaning | common/lib/kconfiglib/kconfiglib.py:3699-3701 | the direct dependency of a symbol or choice evaluates to the largest of the dependencies of its nodes |
| DepMeaning.ListMeaning | common/lib/kconfiglib/kconfiglib.py:3703-3706 | after compilation a symbol or choice has exactly the defaults of its own nodes, in node order, and a symbol their ranges |
| DepMeaning.PromptNeedsDirect | common/lib/kconfiglib/kconfiglib.py:3646-3654 | no prompt of a symbol or choice is more visible than its direct dependency allows |
| DepMeaning.MakeAndValue | common/lib/kconfiglib/kconfiglib.py:2862-2874 | the simplifying conjunction evaluates to the minimum |
| DepMeaning.MakeOrValue | common/lib/kconfiglib/kconfiglib.py:2876-2888 | the simplifying disjunction evaluates to the maximum |
| DepCompile.Compiler.PropagateDeps | common/lib/kconfiglib/kconfiglib.py:3636-3686 | every child of a node inherits its dependencies, and no other node changes |
| DepCompile.Compiler.AddPropsToSym | common/lib/kconfiglib/kconfiglib.py:3688-3719 | a node adds its dependency, defaults and ranges to its symbol and its selects and implies to their targets, and changes nothing else |
| DepCompile.Compiler.AddPropsToChoice | common/lib/kconfiglib/kconfiglib.py:3625-3634 | a choice node adds its dependency and its defaults to its choice, and changes no other choice |
| DepCompile.Compiler.CompileNode | common/lib/kconfiglib/kconfiglib.py:3555-3634 | after the recursive pass every node below has its compiled properties, and every symbol and choice has collected what all nodes contribute, each node after those below it |
| DepAssembly.CompileMenu | common/lib/kconfiglib/kconfiglib.py:1097-1098 | the pass over the whole menu, from items without properties |
| DepAssembly.AssembledPropagated | common/lib/kconfiglib/kconfiglib.py:3636-3686 | in a tree assembled from a compiled menu whose choice symbols have prompts only inside their choices, every prompt condition of a choice symbol is n or has the choice as a conjunct |
| DepAssembly.VisibleNeedsDirect | common/lib/kconfiglib/kconfiglib.py:3646-3654 | in a tree assembled from a compiled menu, no visible symbol has n as its direct dependency |
| DepAssembly.AssembledMinReady | common/lib/kconfiglib/kconfiglib.py:3555-3719 | a tree assembled from a compiled menu in which only bool and tristate symbols are selected meets what the minimal round trip asks of its conditions |
| DepAssembly.AssembledLists | common/lib/kconfiglib/kconfiglib.py:3625-3706 | the same for all symbols and choices of an assembled tree |
| DepAssembly.NodeDefaults | common/lib/kconfiglib/kconfiglib.py:3660-3706 | the defaults of a parsed node stand in its symbol between those of the nodes before and after it, each under its own condition and the dependencies around the node |
| MenuShape.FlattenPre | common/lib/kconfiglib/kconfiglib.py:6480-6506 | flattening promptless nodes moves no node past another |
| MenuShape.FinAllPre | common/lib/kconfiglib/kconfiglib.py:3580-3634 | implicit submenus, flattening and the removal of `if` nodes keep the order of all other nodes |
| MenuShape.FinalizedOrder | common/lib/kconfiglib/kconfiglib.py:3555-3634 | the finalized menu lists its nodes in the order they were parsed, without the `if` nodes, and no `if` node is left anywhere |
| MenuMeaning.FinalizedContents | common/lib/kconfiglib/kconfiglib.py:3555-3634 | in the finalized menu a menu or choice has below it what was parsed below it, a symbol with a prompt the run of nodes after it that depend on it, and a node without a prompt that is no choice has nothing below it |
| MenuMeaning.TakenIs | common/lib/kconfiglib/kconfiglib.py:3584-3593 | every node of that run depends on the symbol or on a symbol of the run before it, and the first node behind it does not depend on the symbol |
| MenuMeaning.ShapeDetermined | common/lib/kconfiglib/kconfiglib.py:3555-3634 | the order of the nodes and what is below each determine the whole menu |
| MenuTree.MenuNodes.FlattenLevel | common/lib/kconfiglib/kconfiglib.py:6480-6506 | the pointer rewiring does to the linked siblings what Flatten does to trees; next, list and parent pointers stay consistent and no other node changes |
| MenuTree.MenuNodes.RemoveIfs | common/lib/kconfiglib/kconfiglib.py:6509-6532 | unlinks exactly the `if` nodes of one level |
| MenuTree.MenuNodes.TakeIn | common/lib/kconfiglib/kconfiglib.py:3580-3602 | a symbol takes in the following siblings that depend on it, finalizing them on the way, and tilts them up below itself |
| MenuTree.MenuNodes.Finalize | common/lib/kconfiglib/kconfiglib.py:3555-3626 | finalizing the linked nodes in place gives the tree that FinHead gives, with consistent pointers |
| MenuTree.MenuNodes.NodeIter | common/lib/kconfiglib/kconfiglib.py:1906-1955 | the iterative walk visits every node below the top node once, parents before children, siblings in order |
| MenuTree.MenuNodes.FinalizeTree | common/lib/kconfiglib/kconfiglib.py:1918-1925 | walking the finalized tree gives the parsed nodes in order, without the `if` nodes |
| ExprParser.ParseUndoesPrint | common/lib/kconfiglib/kconfiglib.py:6059-6100 | parsing the printed tokens of a choice-free expression succeeds, leaves what follows, and gives the right-nested form, which has the same value in every state |
| ExprGrammar.ReadsGrammar | common/lib/kconfiglib/kconfiglib.py:3384-3394 | tokens are read as an expression exactly if they spell one of the grammar that does not go on behind it; && binds tighter than ||, chains nest to the right, and a plain m may mean m && MODULES |
| ExprParser.ExprBack | common/lib/kconfiglib/kconfiglib.py:3375-3423 | the same with m rewritten to m && MODULES where the parser is asked to |
| ExprParser.NormValue | common/lib/kconfiglib/kconfiglib.py:5987-6013 | nesting && and || to the right changes no value and reads no other item on the way |
| ExprParser.PrintNorm | common/lib/kconfiglib/kconfiglib.py:6059-6100 | the parsed form prints as the same tokens |
| ExprParser.Parser.ParseExpr | common/lib/kconfiglib/kconfiglib.py:3375-3414 | the descent over the token cursor consumes exactly what ReadExpr consumes and fails exactly where it fails |
| ExprParser.Parser.ParseFactor | common/lib/kconfiglib/kconfiglib.py:3425-3459 | the same for symbols, relations, negations and parentheses |
| MacroExpand.Expander.ExpandMacro | common/lib/kconfiglib/kconfiglib.py:2741-2801 | expansion in place always ends, with an error or with the text before the macro, its value and the text behind it, and the position behind the value; all expansion counts are restored |
| MacroExpand.Expander.ExpandWhole | common/lib/kconfiglib/kconfiglib.py:2659-2672 | expanding a whole string in place is the substitution Whole, and restores all counts |
| MacroExpand.Expander.CallFn | common/lib/kconfiglib/kconfiglib.py:2803-2855 | the value of a variable, built-in function or environment variable, with the limits on nested expansions |
| MacroExpand.WholeFewer | common/lib/kconfiglib/kconfiglib.py:2813-2826 | the limits only stop an expansion: one that succeeds gives the same result with any smaller counts |
| MacroExpand.WholeJoin | common/lib/kconfiglib/kconfiglib.py:2659-2672 | a text expands piece by piece, and expanded text is not read again |
| MacroExpand.SelfReferenceFails | common/lib/kconfiglib/kconfiglib.py:2813-2817 | a plain variable whose value refers to itself cannot be expanded |
| MacroMeaning.PlainText | common/lib/kconfiglib/kconfiglib.py:2659-2672 | text without macros stays as it is |
| MacroMeaning.CallMeaning | common/lib/kconfiglib/kconfiglib.py:2752-2801 | a call is split at its outermost commas, replaced by its value, and the text goes on behind it |
| MacroMeaning.NestedMeaning | common/lib/kconfiglib/kconfiglib.py:2799-2801 | a call inside an argument is expanded first; commas and parentheses in its value do not count |
| MacroMeaning.ArgumentMeaning | common/lib/kconfiglib/kconfiglib.py:2777-2786 | a call by a number is that argument of the macro being expanded, negative ones counting from the end |
| MacroMeaning.VariableMeaning | common/lib/kconfiglib/kconfiglib.py:2810-2827 | a variable is the expansion of its text with the parts of the call as arguments; without arguments it must not be in progress, with arguments at most a hundred times |
| MacroMeaning.OtherMeaning | common/lib/kconfiglib/kconfiglib.py:2829-2856 | then come built-in functions, which check the number of arguments, environment variables, and the empty text |
| MacroMeaning.UnterminatedFails | common/lib/kconfiglib/kconfiglib.py:2758-2761 | a macro without a closing parenthesis is an error |
| TaskGraph.CreateTaskGraph | common/lib/task_manager.py:174-206 | numbers the tasks and builds exactly the graph TaskDigraph, or names a dependency that no task satisfies, before any search |
| TaskGraph.TaskEdgeIs | common/lib/task_manager.py:181-206 | an edge of the graph is a satisfied dependency, or leads from a task nothing depends on to the task its search found |
| TaskAuto.AutoMeaning | common/lib/task_manager.py:131-172 | in terms of the manifests: a task gets an automatic edge exactly if nothing depends on it, it is not flagged itself, and some flagged task that it neither is nor depends on depends on a task above it; the edge leads to one at the least distance |
| TaskAuto.AutoIsNew | common/lib/task_manager.py:152-160 | an automatic edge is no loop, no dependency and not the reverse of one |
| TaskAuto.AutoFirstListed | common/lib/task_manager.py:153-163 | among the tasks that depend on the same task, the one listed first is found |
| TaskGraph.FindEdgeToParent | common/lib/task_manager.py:131-172 | the search with its queue returns what the first level that decides it offers: a flagged task that is neither the task itself nor one of its predecessors |
| TaskGraph.SearchNearest | common/lib/task_manager.py:147-172 | the result is a flagged successor, not itself a predecessor, of an ancestor at the least distance that has one; nothing is found if and only if no ancestor has one |
| TaskGraph.EndsIff | common/lib/task_manager.py:147-164 | the search, which keeps no record of visited tasks, ends if and only if there is something to find or no dependency loop above the task |
| TaskGraph.AcyclicAllEnd | common/lib/task_manager.py:192-202 | on a graph without loops every search ends |
| TaskExamples.SearchHangs | common/lib/task_manager.py:192-202 | three tasks on which a search never ends, so that the loop check after it is never reached |
| TaskExamples.ProviderSkipped | common/lib/task_manager.py:154-155 | three tasks, of which the last depends on a flagged one: there is no automatic edge, and the list can be sorted |
| TaskSort.DetectCycles | common/lib/task_manager.py:208-232 | reports exactly whether there is a cycle |
| TaskSort.TopologicalGenerations | common/lib/task_manager.py:125-127 | counting down what each task waits for gives the layers |
| TaskSort.LayerMeaning | common/lib/task_manager.py:125-127 | a layer holds exactly the tasks that are in no earlier layer but have all their predecessors there |
| TaskSort.CoversIffAcyclic | common/lib/task_manager.py:324-326 | the layers hold every task if and only if there is no cycle |
| TaskSort.StableSortStable | common/lib/task_manager.py:97-113 | sorting a layer by config keeps the order of tasks with equal configs |
| TaskSort.Sort | common/lib/task_manager.py:311-334 | returns every task once, numbered in order and arranged by Order, if and only if every dependency is satisfied and there is no cycle, automatic edges included |
| TaskSort.OrderPermutes | common/lib/task_manager.py:324-327 | the order lists every task exactly once |
| TaskSort.DependenciesFirst | common/lib/task_manager.py:324-327 | a task comes after every task that satisfies one of its dependencies and after every task that has an automatic edge to it |
| TaskSort.ManifestOrder | common/lib/task_manager.py:97-129 | of two tasks with the same config and dependencies, the one listed first runs first if and only if every task with an automatic edge to it is released before some predecessor of the other; otherwise the other runs first |
| TaskSort.UnbarredKeepsPlace | common/lib/task_manager.py:97-129 | listed order is kept if the earlier task is not flagged, or no automatic edge leads to it |
| TaskSort.BarrierBehind | common/lib/task_manager.py:192-202 | listed order is not kept if the later task, or one that comes after it, has an automatic edge to the earlier one |
| TaskSort.SameDepsSameLayer | common/lib/task_manager.py:125-127 | two tasks with the same dependencies and no automatic edge to either are in the same layer |
| TaskExamples.FlaggedOvertaken | Documentation/adding_tasks.md:58 | listed order is not kept when the earlier task is flagged: four tasks where the later one runs first |
| TaskBuild.SetDefaults | common/build.py:64-85 | gives every task without dependencies the default of its type, except the cleanup task, or fails on a type without one |
| TaskBuild.DefaultsMeaning | common/build.py:64-85 | only dependencies are set, only where there are none, never for the cleanup task, and which for which type |
| TaskBuild.Run | common/build.py:103-145 | runs the tasks in order and stops at the first that does not return; the records say which passed; the build passes if and only if all did |
| TaskBuild.StartedSafely | common/build.py:108-139 | whenever a task is started, everything it waits for has passed |
| TaskBuild.Build | common/build.py:64-145 | the same for the whole build, from the task list to the records; every accepted list has dependencies on all tasks but cleanup tasks, and its first record is a cleanup task |
| TaskBuild.CleanupFirst | common/build.py:64-71 | only cleanup tasks have nothing before them; every other task is a transitive dependent of a cleanup task and runs after it |
| TaskBuild.FirstIsCleanup | common/build.py:69-71 | the build starts with a cleanup task |
| Base64.DecodeEncode | common/lib/vm.py:473-473 | decoding undoes encoding for every string of bytes (section 4 of RFC 4648) |
| Base64.Alphabet | common/lib/vm.py:473-473 | the digits are those of table 1 of RFC 4648 |
| Base64.EncodeNext | common/lib/vm.py:473-473 | groups of three bytes are encoded one after the other; with the test vectors of section 10 of RFC 4648 in TestVectors this fixes the code |
| ShellQuote.ExportsRoundTrip | common/lib/vm.py:430-435 | reading the export lines by the shell's quoting rules gives every variable its value, for any NUL-free values, and leaves the script untouched, if and only if all names are identifiers |
| VmFraming.SendPayload | common/lib/vm.py:504-510 | sends the greeting, the begin line, the data lines of at most 60000 characters and the end line; a token outside ASCII raises after the greeting |
| VmFraming.Agent.HandleLine | tasks/core/build_vm/overlay/usr/local/sbin/ds-serial-agent:36-62 | one turn of the read loop: begin removes the file of the token, data appends to it, end decodes and runs it; a file that cannot be named, found or decoded ends the agent |
| VmFraming.Agent.Loop | tasks/core/build_vm/overlay/usr/local/sbin/ds-serial-agent:35-63 | the read loop over a stream of lines |
| VmFraming.StripToken | tasks/core/build_vm/overlay/usr/local/sbin/ds-serial-agent:42-47 | the expansion that cuts the token off a data line, which reads the token as a pattern, leaves the payload if the token matches itself as a pattern, and the whole line if not |
| VmFraming.PlainTokens | tasks/core/build_vm/overlay/usr/local/sbin/ds-serial-agent:46-46 | a token without `[` and backslash matches itself |
| VmFraming.GlobLiteral | tasks/core/build_vm/overlay/usr/local/sbin/ds-serial-agent:46-46 | a pattern without special characters matches itself only |
| VmFraming.GlobStar | tasks/core/build_vm/overlay/usr/local/sbin/ds-serial-agent:46-46 | `*` matches any prefix |
| VmFraming.LineEnds | tasks/core/build_vm/overlay/usr/local/sbin/ds-serial-agent:34-36 | a carriage return at the end of a line does not count: the turn is that of the line without it |
| VmFraming.FramingRoundTrip | tasks/core/build_vm/overlay/usr/local/sbin/ds-serial-agent:21-63 | for every token, from any stale files, the agent runs exactly the script that was sent, and leaves no file, if and only if the script is not empty and the token is ASCII, has no space, line end, NUL or `/`, does not end in a carriage return, fits in a file name, and matches itself as a shell pattern |
| VmFraming.CommandRoundTrip | common/lib/vm.py:470-478 | the script that runs sets the environment as given and then is the command as given, if and only if the token is such a token and all variable names are identifiers |

## Left out

- Warnings are no-ops, including the values that the check for unsatisfied dependencies of selects reads to print one.
- Number parsing and printing are arbitrary functions of the text and the base; the model fixes when they are called, not what digits they accept.
- Opening files, sourcing, globbing, encodings, `$(shell)`, Python 2 support, autoconf output and `sync_deps`: input and output.
- Character-level tokenization: the expression parser starts at tokens, the loader at lines.
- Iteration orders of Python sets are arbitrary sequences; no result depends on them except which loops the loop check misses.
- Loading is modelled for lines that `.splitlines`-style reading would give; warnings about malformed lines are not.
- KconfigLoad.HistoryIndependentIff: compares user values, modes and picks, from which all values follow by SolutionUnique; the marks of the last load are not compared.
- `_expr_depends_on` is an arbitrary predicate of two nodes, so which symbols move into an implicit submenu is not modelled; for the same reason dependency compilation and the reshaping of the tree are modelled one after the other.
- Symbols and choices get their types and the choice its symbols in `_finalize_choice`: plain assignments.
- KconfigWriters.WriteConfig: the walk is given as the list Steps of the menu; following the pointers of the menu nodes is proved for the iteration in MenuTree.
- DepCompile.Compiler.CompileNode: selects of undefined or constant symbols are not recorded, as they never have a value to change.
- MacroExpand.Expander.CallFn: built-in functions are arbitrary functions of their arguments; those that read files or run commands are taken as fixed during one expansion.
- Sorting by position in the sorted ids is modelled as taking the tasks in that order.
- TaskSort.Sort: demands that every search for automatic edges ends once all dependencies are satisfied, since on other lists the code never returns; EndsIff says which lists these are.
- Dropping the tasks whose config evaluates to n: the list of tasks is what is left after that.
- Package staging, the Mermaid and Gantt files, console output and the timing of tasks.
- TaskBuild.Run: an interrupted run leaves its record to the final clean-up; process exit is not modelled.
- VmFraming.FramingRoundTrip: which characters a bracket expression matches is left to the locale, an arbitrary predicate; file names count bytes, at most 255 of them.
- ShellQuote.ExportsRoundTrip: shell features beyond quoting make the reader fail.
- The status line, its parsing and the console log of the VM connection; sockets, timeouts, QEMU and POWEROFF beyond the reply.
- The user interface in `common/lib/kconfiglib/menuconfig.py`, package lists, defconfigs and the task scripts themselves.
