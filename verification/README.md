# Kconfig engine and audio data path: a verified model

This project models two parts of the repository in Dafny and proves what they are for.

**The Kconfig engine** (`docs/bk7258/kconfiglib.py`). Tristate expressions with their smart
constructors, parser and printer; the pass that flattens nested `if`, `menu` and `choice` blocks into
conditions of single symbols; the evaluation of symbols and choices; the memo caches of values,
visibilities, selections and dependents with their invalidation; and the writing and reading of
`.config` files. `Configuration` defines, without any cache, what every symbol's value is for given user
values. `SymbolCache` is the engine itself, a class whose methods fill and drop the caches, and `Sessions`
proves that in every run of assignments, removals, loads and queries each answer is the one that
recomputation gives, exactly as long as caches are right when something is asked. What recomputation itself gives
is stated without its functions, by the positions of prompts, defaults, ranges, selects and settings: for
expressions and their tokens in `ExprLaws`, for property lines and nested blocks in `PropertyLines`, `BlockLaws` and
`BlockMeaning`, for values, modes and selections in `ValueLaws`, for user values in `UserLaws`, and for links in
`LinkLaws`.

**The audio data path.** The blocking ring buffer, once as a class over an array (`RingCore`,
`RingBuffer`) and once as a step system in which a reader, a writer and threads that raise flags
interleave freely (`RingProtocol`, `RingLiveness`, `RingEnd`, `RingAlone`, `RingAloneWrite`,
`FrameTransfers`, `FrameRuns`); the element task (`AudioElement`, `ElementStates`, `StaleStream`); the event
interface with its intrusive list and its queue set (`Stailq`, `Queues`, `ListenerSet`, `EventIface`, `EventLaws`),
which over any run is one queue of messages (`ListenerRuns`); and the speaker and microphone tasks (`FrameTasks`).

Check everything with `dafny verify dfyconfig.toml`.

## Assumptions

- `Configuration.Model`: names are resolved; the members of a choice, if it has any, are ordinary bool or
  tristate symbols; choice defaults are members; a rank orders every symbol after the symbols it is computed
  from, the members of a choice counting as one node. The source recurses without a check when there is
  a cycle. Symbols that MODULES is computed from, and MODULES itself, never go through "m", because
  promoting "m" reads MODULES (`kconfiglib.py:1379-1387`).
- Special bool and tristate symbols, such as those taken from the environment, hold bool and tristate values.
- `Sessions.Admissible`: assignments, removals and loads come in any order, but when something is asked, nothing
  may have changed since the last question that was not dropped from the caches (`Sessions.Clean`). Filled caches
  are right only then (`SymbolCache.Kconfig.FreshSince`). It is kept by operations that do not switch modules
  (`Sessions.NoSwitch`, `Sessions.StaysClean`), and so when MODULES does not depend on the symbol
  (`Sessions.UnrelatedToModules`); assigning MODULES, removing all user values, loading a file, or undoing what was
  done restores it (`Sessions.Repairs`, `Sessions.UndoneIsClean`). For MODULES itself
  `Sessions.UnsetModulesSwitches` says exactly when removing its user value switches modules.
- The visibility of a special symbol, and of a choice without members, is cached for good when it is first
  asked for (the field `pinned` of `SymbolCache.Kconfig`). Such answers are those of that moment; all others are
  those of the moment of the question (`Sessions.OrdinaryAnswers`).
- Python's `int()`, `hex()` and `str()` on numbers are parameters of a configuration (`Numerals`).
- The ring's step system is sequentially consistent, with one reader and one writer. Calls of the
  element's interface by other threads are single steps between the rounds of its task.
- `BK_OK` and `BK_FAIL`, which are defined outside the repository, are 0 and -1.
- FreeRTOS queues and queue sets are specified in `Queues`; semaphores and the mutex are fields of the
  step system.

## What does not hold

- `unset_user_value()` on MODULES leaves stale values behind, because unlike `set_user_value()` it does not
  invalidate everything (`CacheLimits.UnsetModulesGoesStale`). So does either of them on another symbol that MODULES
  depends on (`CacheLimits.SetSelectorGoesStale`). Filled caches are right afterwards exactly when no symbol or
  choice outside the cone changes (`SymbolCache.Kconfig.SetUserValue` and `UnsetUserValue`).
- The visibility cached for a special symbol, or for a choice without members, is never dropped
  (`CacheLimits.SpecialVisibilityGoesStale`, `CacheLimits.EmptyChoiceGoesStale`). It is still right exactly when it did
  not change, which can be checked before an assignment that does not switch modules: the symbol is outside the
  cone, or the cone has none of the symbols that the choice's prompts and defaults mention
  (`Sessions.PinnedStillRight`, `Sessions.OrphanStillRight`).
- "m" can be listed as assignable while modules are off; assigning it gives "y"
  (`CacheLimits.ListedNotHonoured`; `SymbolLaws.AssignableHonoured` says exactly when a listed value is honoured).
- A symbol whose name contains ".", "/" or "-" can be defined and is written to `.config`, but its line is passed over on
  loading. A string does not come back if it contains a line end; a number, if it contains one, starts with a quote,
  ends in white space or ends in a backslash, which joins its line with the next (`ConfStrings.LostLines`;
  `ConfStrings.SavedLineLoads` says exactly when a line comes back).
- After moving some bytes, a call of the ring that is then aborted returns RB_ABORT and hides their number
  (`RingBuffer.AbortHidesOne`; `RingBuffer.ReadCountKnown` and `RingBuffer.WriteCountKnown` say exactly when).
- An element that has ended its stream, is then paused and resumed, does not reset its output rings and produces data
  while they are still marked done, so that their reader takes the first moment without data for the end
  (`StaleStream.FinishedPausedResumed`; `StaleStream.StaleExactly` says exactly when).
- An element without an `open` callback that is resumed while it is new is marked running without ever processing,
  and its task no longer waits for commands. It processes at some time if and only if a "resume" comes after a
  "finish", "stop" or "pause" (`AudioElement.NoOpenProcesses`, and `NoOpenResumed` for a single "resume").
- An element without an `open` callback that is stopped and then resumed processes in every round from then on, whatever
  process returns other than AEL_IO_ABORT: the end of its stream and its errors are ignored, because it still counts as
  stopped (`ElementStates.NeverEnds`; `ElementStates.StateExactly` says in which state an element is after any rounds).
- `set_listener()` for a queue that is in some set already, another listener's or its own, returns BK_FAIL but keeps the
  queue in its list. From then on cleaning up never ends, so neither does the next set, remove or destroy
  (`EventIface.Iface.SetListener` with `Refused`, and `EventIface.SecondListenerStuck`, where the queue also loses its
  messages). `EventIface.Iface.ReadyExactly` says exactly when cleaning up ends.
- Receiving directly from a queue that is in somebody's set, as discarding an interface's own queues does, can
  lose a handle later, after which cleaning up the listener never ends
  (`ListenerSet.DirectReceiveThenStuck`; `Queues.RemovableExactly` and `Queues.CleanupEndsExactly` say exactly when it
  ends).
- Destroying an interface whose queue another listener still lists spoils that listener: its cleaning up ends no more
  (`Queues.DeletedWhileListed`).

`Choice._invalidate` (`kconfiglib.py:2919-2921`) drops both the selection and the visibility of a choice, and is called
for every choice with a member among the dependents, so the cache theorem covers choices.

## Model

| member | source | states |
|---|---|---|
| Expressions.MakeAndMeaning | docs/bk7258/kconfiglib.py:3168-3188 | the rewriting conjunction constructor has the minimum of its operands' values, in every environment |
| Expressions.MakeOrMeaning | docs/bk7258/kconfiglib.py:3190-3212 | the rewriting disjunction constructor has the maximum, with None counting as "y" |
| Expressions.RawFrame | docs/bk7258/kconfiglib.py:3214-3239 | an expression's value depends on nothing but the symbols collected from it |
| Expressions.NeverMSound | docs/bk7258/kconfiglib.py:1379-1387 | without "m" and tristate symbols an expression never has the value "m", so promotion never asks for MODULES |
| ExprLaws.AndValue | docs/bk7258/kconfiglib.py:1403-1414 | a conjunction of any length is "n" exactly when some operand is, and "y" exactly when all are |
| ExprLaws.OrValue | docs/bk7258/kconfiglib.py:1422-1433 | a disjunction of any length is "y" exactly when some operand is, and "n" exactly when all are |
| ExprLaws.NotValue | docs/bk7258/kconfiglib.py:1416-1420 | negation exchanges "n" and "y", and twice is nothing |
| ExprLaws.DeMorgan | docs/bk7258/kconfiglib.py:1403-1433 | negating a conjunction is the disjunction of the negations, in three values, and the other way round |
| ExprLaws.CompareValue | docs/bk7258/kconfiglib.py:1435-1439 | "=" is "y" exactly when both texts are the same and else "n"; "!=" is its negation |
| ExprLaws.OperandValue | docs/bk7258/kconfiglib.py:1391-1399 | a symbol that is neither bool nor tristate counts as "n" whatever its value, any other as its value, and a constant as its text |
| ExprParser.Feed.GetNext | docs/bk7258/kconfiglib.py:3070-3075 | delivers the next token, or None at the end, and advances past it |
| ExprParser.Feed.Check | docs/bk7258/kconfiglib.py:3080-3086 | consumes the next token exactly when it is the given one |
| ExprParser.Parser.ParseFactor | docs/bk7258/kconfiglib.py:1155-1188 | the index-based parser of a factor gives the grammar's result and leaves the grammar's rest, errors included; it records exactly the symbols among the tokens it consumed, with or without "m" rewriting |
| ExprParser.Parser.ParseOrTerm | docs/bk7258/kconfiglib.py:1144-1153 | the same for conjunctions |
| ExprParser.Parser.ParseExprRec | docs/bk7258/kconfiglib.py:1133-1142 | the same for whole expressions |
| ExprParser.ParsedSyms | docs/bk7258/kconfiglib.py:1128-1131 | without "m" rewriting the recorded symbols are exactly those that the resulting expression mentions |
| ExprLaws.ModulesRewriting | docs/bk7258/kconfiglib.py:1155-1188 | for all tokens: parsing with "m" rewriting fails with the same error, leaves the same rest, and gives what parsing without gives, except that every lone "m" or m is worth the minimum of "m" and MODULES and is recorded as MODULES, comparisons untouched |
| ExprLaws.FlatTokens | docs/bk7258/kconfiglib.py:1133-1153 | for any disjunction of conjunctions of operands, written without parentheses: the tokens are worth "y" exactly when some group has only operands worth "y", and "n" exactly when each has one worth "n" |
| ExprLaws.NegationTokens | docs/bk7258/kconfiglib.py:1177-1178 | "!" negates the next factor only |
| ExprLaws.ComparisonTokens | docs/bk7258/kconfiglib.py:1164-1175 | "=" and "!=" between any two operands compare their texts, with or without rewriting |
| ExprLaws.ParenthesisTokens | docs/bk7258/kconfiglib.py:1180-1185 | a parenthesised expression is one factor, whatever follows |
| ExprLaws.UnclosedTokens | docs/bk7258/kconfiglib.py:1180-1185 | a missing closing parenthesis is reported, whatever follows instead |
| ExprLaws.BadStart | docs/bk7258/kconfiglib.py:1187-1188 | anything else at the start of an expression is reported as malformed |
| ExprPrinter.RoundTrip | docs/bk7258/kconfiglib.py:3260-3312 | parsing the printed tokens of any expression consumes exactly them, whatever closes them, and gives the tree with directly nested nodes of the same operator spliced |
| ExprPrinter.ParseBack | docs/bk7258/kconfiglib.py:1133-1188 | the imperative parser, run on a printed expression, consumes every token and gives the spliced tree |
| ExprPrinter.SplicedMeaning | docs/bk7258/kconfiglib.py:3260-3286 | splicing keeps the tristate value in every environment |
| ExprPrinter.SplicedValue | docs/bk7258/kconfiglib.py:3260-3286 | the same for any reading of the operands |
| ExprLaws.SplicedModules | docs/bk7258/kconfiglib.py:1163-1169 | a printed expression that is read back with "m" rewriting is worth what it was, with every lone "m" or m worth the minimum of "m" and MODULES |
| ExprPrinter.FlatUnchanged | docs/bk7258/kconfiglib.py:3288-3312 | on spliced trees printing and parsing is the identity |
| ExprPrinter.SplicedIsFlat | docs/bk7258/kconfiglib.py:3288-3312 | the result of a round trip is spliced, so a second one changes nothing |
| BlockParser.Tables.ParseProperties | docs/bk7258/kconfiglib.py:811-1086 | one definition adds exactly its own prompt, defaults and selects, with "depends on", enclosing dependencies and "visible if" propagated |
| BlockParser.Tables.ParseStmt | docs/bk7258/kconfiglib.py:660-753 | a config, if, menu, choice or comment statement adds exactly what its contents contribute inside its dependencies |
| BlockParser.Tables.ParseBlock | docs/bk7258/kconfiglib.py:615-660 | a block adds exactly the contributions of its statements, in order, and nothing else |
| PropertyLines.SelectsInOrder | docs/bk7258/kconfiglib.py:896-905 | the selects of a definition are those of its select lines, all of them, in the order of their positions |
| PropertyLines.DefaultsInOrder | docs/bk7258/kconfiglib.py:913-921 | the same for its defaults |
| PropertyLines.DependsInOrder | docs/bk7258/kconfiglib.py:852-863 | the same for its "depends on" lines |
| PropertyLines.PromptIsLast | docs/bk7258/kconfiglib.py:923-928 | the prompt of a definition is that of its last prompt line |
| BlockLaws.BlockLaw | docs/bk7258/kconfiglib.py:660-753 | the definitions of an "if" are those of its body with its condition around each; a menu puts its dependencies and "visible if" conditions around, and a choice nothing |
| BlockLaws.SequenceLaw | docs/bk7258/kconfiglib.py:615-660 | blocks in sequence contribute in sequence |
| BlockMeaning.SelectListsExact | docs/bk7258/kconfiglib.py:1076-1086 | the lists of conditions for a target are exactly those of the lines, by definition and position, that select it: selector, condition, "depends on" lines and everything around |
| BlockMeaning.PromptListsExact | docs/bk7258/kconfiglib.py:1048-1062 | the same for the prompts that count, "visible if" included |
| BlockMeaning.DefaultListsExact | docs/bk7258/kconfiglib.py:1064-1074 | the defaults of an item are exactly its default lines, in the order of definitions and of lines |
| BlockMeaning.PromptsMean | docs/bk7258/kconfiglib.py:1048-1062 | one flattened condition for each prompt, worth the minimum of its own condition, its "depends on" lines and all "if", "menu" and "visible if" conditions around it |
| BlockMeaning.VisibilityMeaning | docs/bk7258/kconfiglib.py:3147-3166 | the visibility computed from the flattened prompts is the maximum of those minima over the nested definitions |
| BlockMeaning.DefaultsMean | docs/bk7258/kconfiglib.py:1064-1074 | defaults keep value and order, with the same conditions except "visible if" |
| BlockMeaning.SelectMeaning | docs/bk7258/kconfiglib.py:1076-1086 | the reverse dependency folded from all selects is worth the maximum over them of the minimum of selector, condition and everything around |
| BlockMeaning.SelectsHonoured | docs/bk7258/kconfiglib.py:1929-1937 | a symbol outside choices is never below any active select found in the nested blocks |
| BlockMeaning.SelectLinesHonoured | docs/bk7258/kconfiglib.py:1929-1937 | whatever definition and line select a symbol outside choices, it is never below the minimum of the selector and the conditions of that line |
| BlockMeaning.Flatten | docs/bk7258/kconfiglib.py:615-753 | parsing from empty tables gives every item, by the positions of the lines in the nested definitions, its visibility, its defaults in order, and as reverse dependency the highest of all lines that select it |
| Recomputation.ValueFrame | docs/bk7258/kconfiglib.py:1462-1503 | two contexts that agree on the symbols a value is linked to give the same value |
| Recomputation.QuietValue | docs/bk7258/kconfiglib.py:1379-1387 | symbols that never go through "m" have the same value whether modules are on or off |
| Recomputation.Fixpoint | docs/bk7258/kconfiglib.py:1872-2026 | recomputing a symbol from the final values of all others gives its final value |
| Recomputation.Unique | docs/bk7258/kconfiglib.py:1872-2026 | any assignment of values in which each symbol has the value computed from the others is the recomputed one |
| ValueLaws.CondLaw | docs/bk7258/kconfiglib.py:1371-1388 | a missing condition is "y", and "m" counts as "y" exactly when modules are off |
| ValueLaws.WorldLaw | docs/bk7258/kconfiglib.py:1379-1387 | modules are off exactly when there is no MODULES or its value is not "y"; expressions see bool and tristate symbols by their values |
| ValueLaws.PromptsLaw | docs/bk7258/kconfiglib.py:3147-3166 | prompts are "n" exactly when each condition is, and "y" exactly when some condition is |
| ValueLaws.VisibleLaw | docs/bk7258/kconfiglib.py:3147-3166 | a symbol is invisible exactly when no prompt holds or its choice is invisible; only tristate symbols are visible as "m"; as "y" when some prompt and the choice are |
| ValueLaws.ChoiceVisibleLaw | docs/bk7258/kconfiglib.py:3147-3166 | the same for choices |
| ValueLaws.FreeSymbolValue | docs/bk7258/kconfiglib.py:1906-1941 | a bool or tristate symbol outside choices has the maximum of its reverse dependency and: its user value up to its visibility, while visible; else the first default whose condition holds, up to that condition; else nothing |
| ValueLaws.FreeSymbolWritten | docs/bk7258/kconfiglib.py:1910-1936 | it is left out of the file exactly when it is invisible, no default holds and nothing selects it |
| ValueLaws.TextSymbolValue | docs/bk7258/kconfiglib.py:2010-2025 | a string has its user value while visible, else the first default whose condition holds, else nothing; when it is written |
| ValueLaws.RangeLaw | docs/bk7258/kconfiglib.py:1947-1958 | the bounds of a number are those of the first range whose condition holds |
| ValueLaws.NumberSymbolValue | docs/bk7258/kconfiglib.py:1943-2008 | a number has its user value while visible and within the bounds; else the first default that holds and is a number, moved to the bound it exceeds; else the lower bound if positive; else the text of the last default that holds; when it is written |
| ValueLaws.ModeLaw | docs/bk7258/kconfiglib.py:2797-2808 | the mode of a choice for every user mode, visibility and type; without a user mode an optional choice is off and any other in "m" mode, or "y" where "m" does not exist |
| ValueLaws.MemberSymbolValue | docs/bk7258/kconfiglib.py:1895-1905 | in "m" mode a visible member is "m" exactly when the user gave it "m" or "y"; in "n" mode it is "n"; when it is written |
| ValueLaws.SelectionLaw | docs/bk7258/kconfiglib.py:2712-2731 | in "y" mode the user selection counts if visible as "y"; otherwise an optional choice selects nothing and any other by its defaults; in no other mode is anything selected |
| ValueLaws.SelectedByDefault | docs/bk7258/kconfiglib.py:2733-2754 | the member of the first default whose condition holds, or else the first member, if visible; else the first visible member; none if none is visible |
| ValueLaws.FixedSymbolValue | docs/bk7258/kconfiglib.py:1875-1886 | special symbols have their fixed value and symbols without a type their name; neither is written |
| DependencyGraph.DependentsExact | docs/bk7258/kconfiglib.py:2469-2492 | the recursion over dependency links and choice siblings finds exactly the symbols reachable along them, the symbol itself left out |
| LinkLaws.MentionLaw | docs/bk7258/kconfiglib.py:3214-3239 | exactly the symbols that occur in an expression are collected, whatever its shape |
| LinkLaws.LinkedExactly | docs/bk7258/kconfiglib.py:1462-1503 | a symbol is linked to exactly what some prompt, default value or condition, range bound or condition, its reverse dependency, or a prompt or default of its choice mentions |
| Dependencies.ValueOutsideCone | docs/bk7258/kconfiglib.py:1462-1496 | a symbol that is not among the dependents keeps its value when the user value changes |
| Dependencies.RestOutsideCone | docs/bk7258/kconfiglib.py:1462-1503 | so do its visibility and its write flag, special symbols included |
| Dependencies.ChoiceOutsideCone | docs/bk7258/kconfiglib.py:1488-1503 | visibility, mode and selection of a choice without a member among the dependents stay |
| Dependencies.MentionedOutsideCone | docs/bk7258/kconfiglib.py:1488-1503 | the visibility of a choice stays when nothing that its prompts and defaults mention is among the dependents |
| Dependencies.ConeKeepsRest | docs/bk7258/kconfiglib.py:2360-2372 | unless modules are switched, a new user value changes nothing outside its cone: no value, write flag or visibility of a symbol, no visibility or selection of a choice |
| Dependencies.ModulesStay | docs/bk7258/kconfiglib.py:2360-2372 | an assignment from which MODULES cannot be reached does not switch modules on or off |
| SymbolCache.Kconfig.EvalExpr | docs/bk7258/kconfiglib.py:1371-1388 | evaluation through the caches gives the recomputed value with "m" promoted, and leaves all caches right |
| SymbolCache.Kconfig.EvalRec | docs/bk7258/kconfiglib.py:1390-1443 | the same for the recursion with its early exits |
| SymbolCache.Kconfig.EvalMin | docs/bk7258/kconfiglib.py:1444-1449 | minimum of two evaluated conditions |
| SymbolCache.Kconfig.EvalMax | docs/bk7258/kconfiglib.py:1451-1456 | maximum of two evaluated conditions |
| SymbolCache.Kconfig.GetVisibility | docs/bk7258/kconfiglib.py:3147-3166 | the cached or newly cached visibility is the recomputed one, for a special symbol the one of the first time it was asked for; all caches stay right |
| SymbolCache.Kconfig.GetChoiceVisibility | docs/bk7258/kconfiglib.py:3147-3166 | the same for choices, where those without members keep their first visibility |
| SymbolCache.Kconfig.GetValue | docs/bk7258/kconfiglib.py:1872-2026 | the same for values and write flags of symbols of all types |
| SymbolCache.Kconfig.GetMode | docs/bk7258/kconfiglib.py:2797-2808 | the mode of a choice is the recomputed one |
| SymbolCache.Kconfig.GetSelection | docs/bk7258/kconfiglib.py:2712-2731 | the cached or newly cached selection is the recomputed one |
| SymbolCache.Kconfig.GetSelectionFromDefaults | docs/bk7258/kconfiglib.py:2733-2754 | the default selection is the first active default, or the first member, if visible, and else the first visible member; None for a choice without members |
| Configuration.OrphanSelection | docs/bk7258/kconfiglib.py:2737-2738 | a choice without members selects nothing, and no user value can be given to it through a member |
| SymbolCache.Kconfig.BuildDep | docs/bk7258/kconfiglib.py:1462-1503 | the links of a symbol are exactly the symbols whose prompts, defaults, ranges, reverse dependency or choice mention it |
| SymbolCache.Kconfig.GetDependent | docs/bk7258/kconfiglib.py:2469-2492 | the memoised recursion terminates and returns exactly the dependents |
| SymbolCache.Kconfig.Invalidate | docs/bk7258/kconfiglib.py:2360-2368 | forgets value and visibility of the symbol and both caches of its choice, keeps special symbols |
| SymbolCache.Kconfig.InvalidateChoice | docs/bk7258/kconfiglib.py:2919-2921 | forgets selection and visibility of the choice |
| SymbolCache.Kconfig.InvalidateDependent | docs/bk7258/kconfiglib.py:2370-2372 | forgets exactly the caches of all dependents |
| SymbolCache.Kconfig.SetUserValue | docs/bk7258/kconfiglib.py:2171-2203 | assigns as specified, with rejections, whatever state the caches are in; forgets exactly the caches of the cone, or of everything for MODULES; the caches are right afterwards if, and when all had been filled only if, nothing has changed that was not dropped |
| SymbolCache.Kconfig.UnsetUserValue | docs/bk7258/kconfiglib.py:2205-2210 | removes the user value and forgets exactly the caches of the cone; the same condition, exact for filled caches, for the rest to be right |
| SymbolCache.Kconfig.UnsetUserValues | docs/bk7258/kconfiglib.py:556-560 | removes all user values and leaves no stale cache, also for MODULES and whatever was stale before |
| SymbolCache.Kconfig.LoadConfig | docs/bk7258/kconfiglib.py:445-504 | loads assignments on top of the user values or in place of them, in order, skipping unknown names, and leaves right caches even when modules are switched and whatever was stale before |
| SymbolCache.Kconfig.FreshSince | docs/bk7258/kconfiglib.py:2171-2210 | after any number of operations, caches that were right before are right again if, and when all had been filled only if, nothing has changed that was not dropped |
| UserLaws.AssignedLaw | docs/bk7258/kconfiglib.py:2374-2428 | exactly the values of the type are taken, for defined symbols that are not special; only that symbol changes; "y" for a member selects it and puts the choice into "y" mode, "m" deselects and puts it into "m" mode, "n" leaves the choice as it is |
| UserLaws.UnassignedLaw | docs/bk7258/kconfiglib.py:2430-2436 | the user value goes, with selection and mode of its choice, and nothing else |
| UserLaws.RemovalUndoes | docs/bk7258/kconfiglib.py:2430-2436 | removing after assigning is the same as removing |
| UserLaws.ChosenMember | docs/bk7258/kconfiglib.py:2423-2428 | a member assigned "y" is "y" and every other member "n", as soon as it and its choice are visible as "y", whatever was selected before |
| UserLaws.LoadedLaw | docs/bk7258/kconfiglib.py:454-504 | after loading a symbol has the value of its last accepted setting, and without one keeps its own |
| UserLaws.LoadedChoiceLaw | docs/bk7258/kconfiglib.py:454-504 | the last setting that gives "y" or "m" to a member decides selection and mode of a choice |
| SymbolCache.Kconfig.constructor | docs/bk7258/kconfiglib.py:2275-2358 | a new engine has right caches and links |
| Sessions.Perform | docs/bk7258/kconfiglib.py:1872-2210 | any operation gives the recomputed answer and the specified new session; questions need caches in which nothing has changed that was not dropped, other operations need nothing; the exact condition for right caches afterwards |
| Sessions.Run | docs/bk7258/kconfiglib.py:430-2372 | over every run of assignments, removals, loads and queries each answer equals recomputation from the user values of that moment, apart from the visibilities cached for good; caches may be stale in between as long as nothing is asked |
| Sessions.Whole | docs/bk7258/kconfiglib.py:2275-2372 | the same for every run from a new engine |
| Sessions.HarmlessRun | docs/bk7258/kconfiglib.py:2360-2372 | if no operation changes anything it does not drop, anything may be asked at any time |
| Sessions.StaysClean | docs/bk7258/kconfiglib.py:2360-2372 | an operation that changes nothing it does not drop keeps right caches right |
| Sessions.Repairs | docs/bk7258/kconfiglib.py:445-504 | loading, removing all user values and assigning MODULES make stale caches right |
| Sessions.UndoneIsClean | docs/bk7258/kconfiglib.py:2171-2210 | so does going back to the user values for which the caches were right |
| Sessions.NoSwitch | docs/bk7258/kconfiglib.py:2370-2372 | an operation that leaves modules as they are changes nothing that it does not drop |
| Sessions.UnrelatedToModules | docs/bk7258/kconfiglib.py:2171-2210 | the same from a check on the dependency graph alone: MODULES does not depend on the symbol |
| Sessions.UnsetModulesSwitches | docs/bk7258/kconfiglib.py:2205-2210 | removing the user value of MODULES switches modules if and only if being "y" differs between its values with and without it, both of them values in the present state |
| Sessions.PinnedStillRight | docs/bk7258/kconfiglib.py:2360-2362 | a special symbol's cached visibility is right after an assignment if and only if it did not change, and it did not outside the cone |
| Sessions.OrphanStillRight | docs/bk7258/kconfiglib.py:2364-2365 | the cached visibility of a choice without members is right after an assignment if and only if it did not change, and it did not if the cone has none of the symbols it mentions |
| Sessions.OrdinaryAnswers | docs/bk7258/kconfiglib.py:2360-2372 | for ordinary symbols and choices with members every answer is the plain recomputed one |
| CacheLimits.UnsetModulesGoesStale | docs/bk7258/kconfiglib.py:2205-2210 | a configuration in which removing the user value of MODULES leaves a wrong value in a cache |
| CacheLimits.SetSelectorGoesStale | docs/bk7258/kconfiglib.py:2171-2203 | a configuration in which assigning a symbol that selects MODULES leaves a wrong value in a cache |
| CacheLimits.SpecialVisibilityGoesStale | docs/bk7258/kconfiglib.py:2360-2368 | a configuration in which a special symbol keeps a wrong visibility |
| CacheLimits.EmptyChoiceGoesStale | docs/bk7258/kconfiglib.py:2364-2365 | a configuration in which a choice without members keeps a wrong visibility, even when everything is invalidated |
| SymbolLaws.SelectFloor | docs/bk7258/kconfiglib.py:1929-1937 | a bool or tristate symbol outside choices is never below its reverse dependency |
| SymbolLaws.AssignableMeans | docs/bk7258/kconfiglib.py:2079-2100 | the slice that lists assignable values contains exactly those between the reverse dependency and the visibility of a modifiable symbol |
| SymbolLaws.AssignableHonoured | docs/bk7258/kconfiglib.py:2171-2203 | after assigning a value to a modifiable symbol outside choices, MODULES included, it has that value if and only if the value was listed, and was not "m" with modules off |
| CacheLimits.ListedNotHonoured | docs/bk7258/kconfiglib.py:2079-2100 | a configuration in which "m" is listed and assigning it gives "y" |
| SymbolLaws.SwitchOrQuiet | docs/bk7258/kconfiglib.py:1379-1387 | a new user value of a symbol switches modules only if the symbol itself never goes through "m" |
| SymbolLaws.OwnConditionsSame | docs/bk7258/kconfiglib.py:1462-1496 | a symbol's own user value changes neither its visibility nor its reverse dependency |
| SymbolLaws.NotModifiable | docs/bk7258/kconfiglib.py:2212-2230 | a symbol outside choices that is not modifiable has the same value for every valid user value |
| SymbolLaws.SelectionFacts | docs/bk7258/kconfiglib.py:2712-2754 | the selection of a choice in "y" mode is a visible member; without "optional" there is one unless no member is visible |
| SymbolLaws.ChoiceExclusive | docs/bk7258/kconfiglib.py:1895-1905 | in "y" mode at most one member is "y", and it is visible; without "optional" exactly one if and only if some member is visible |
| ConfStrings.UnescapeEscape | docs/bk7258/kconfiglib.py:2459-2463 | the two replacements on loading undo the two on saving, for every string |
| ConfStrings.EscapeStep | docs/bk7258/kconfiglib.py:2459-2463 | the two passes escape each character on its own |
| ConfStrings.UnquoteQuote | docs/bk7258/kconfiglib.py:462-469 | the same with the quotes and the test for a malformed literal |
| ConfStrings.FileFeed.Next | docs/bk7258/kconfiglib.py:3109-3117 | delivers the next line with all its continuations and where it ends, None at the end, and reports running past the end of the file |
| ConfStrings.ContinuedLine | docs/bk7258/kconfiglib.py:3109-3117 | a line ending in a backslash is read as if the next line stood in its place, and past the end if there is none |
| ConfStrings.PlainLine | docs/bk7258/kconfiglib.py:3109-3117 | any other line is read as it is |
| ConfStrings.SavedForms | docs/bk7258/kconfiglib.py:2440-2463 | what is written for each type: "# NAME is not set" for "n", the bare value for other logical values and numbers, the quoted text for strings |
| ConfStrings.SavedLineLoads | docs/bk7258/kconfiglib.py:2440-2463 | whatever text follows, a written line is read by itself and as the same assignment if and only if the name is a word and the value has no line end and, for numbers, does not start with a quote, end in white space or end in a backslash |
| ConfStrings.SavedFileLoads | docs/bk7258/kconfiglib.py:454-504 | a whole file of written lines is loaded as the same assignments in the same order if and only if each line comes back by itself |
| ConfStrings.OnlyWordsAssigned | docs/bk7258/kconfiglib.py:402-403 | whatever a line is, only names made of word characters are assigned |
| ConfStrings.AssignedForms | docs/bk7258/kconfiglib.py:402-403 | and only lines that start with prefix, word and "=", or say that a word is not set, which means "n" |
| ConfStrings.ReadForms | docs/bk7258/kconfiglib.py:454-469 | a line with a word as its name, whatever white space ends it, assigns a value without a quote as it is and a quoted string with its escapes undone, and is malformed exactly when the string lacks its closing quote |
| ConfStrings.ReadUnset | docs/bk7258/kconfiglib.py:492-503 | a line that says that a word is not set assigns "n" |
| ConfStrings.OtherNamesIgnored | docs/bk7258/kconfiglib.py:3430-3430 | the line of a symbol whose name contains ".", "/" or "-" is passed over, for every type and value |
| ConfStrings.LostLines | docs/bk7258/kconfiglib.py:402-403 | a name, and two values of a number, that do not come back |
| RingCore.GetIsDequeue | components/avdk_utils/src/ring_buffer.c:225-248 | taking a chunk, wrapped or not, removes exactly the oldest bytes in order |
| RingCore.PutIsEnqueue | components/avdk_utils/src/ring_buffer.c:322-338 | putting a chunk, wrapped or not, appends exactly the given bytes and disturbs nothing stored |
| RingCore.OffsetsModulo | components/avdk_utils/src/ring_buffer.c:225-242 | the write offset is the read offset plus the fill count modulo the size, although offsets may equal the size |
| RingBuffer.RingBuf.TakeChunk | components/avdk_utils/src/ring_buffer.c:225-248 | the copies out of the array deliver the oldest bytes to their place in the caller's buffer |
| RingBuffer.RingBuf.PutBytes | components/avdk_utils/src/ring_buffer.c:322-339 | the copies into the array append the caller's bytes |
| RingBuffer.RingBuf.Read | components/avdk_utils/src/ring_buffer.c:157-267 | which bytes move, what is returned in which case, and which semaphores and flags are left how |
| RingBuffer.RingBuf.Write | components/avdk_utils/src/ring_buffer.c:269-357 | the same for writing |
| RingBuffer.RingBuf.Reset | components/avdk_utils/src/ring_buffer.c:116-130 | empties the ring and clears all flags but not the semaphores |
| RingBuffer.RingBuf.DoneWrite | components/avdk_utils/src/ring_buffer.c:401-410 | raises the flag and gives the reader's semaphore |
| RingBuffer.RingBuf.Abort | components/avdk_utils/src/ring_buffer.c:381-390 | raises both abort flags and gives both semaphores |
| RingBuffer.ReadResultMeans | components/avdk_utils/src/ring_buffer.c:255-267 | a result that is not negative is the number of bytes taken, RB_DONE and RB_TIMEOUT mean none, RB_DONE also that none is left |
| RingBuffer.ReadResultExactly | components/avdk_utils/src/ring_buffer.c:190-267 | for every fill, flags and length, exactly when a read returns RB_DONE, RB_ABORT, RB_TIMEOUT or a count, and which |
| RingBuffer.ReadLeaves | components/avdk_utils/src/ring_buffer.c:157-267 | exactly when the writer is woken, the reader's token used up and the "unblock" flag cleared; a second read of an empty ring finds no token |
| RingBuffer.ReadCountKnown | components/avdk_utils/src/ring_buffer.c:260-264 | the result tells the number of bytes taken if and only if the read was not aborted after it took some |
| RingBuffer.WriteResultMeans | components/avdk_utils/src/ring_buffer.c:346-357 | the same meaning of results for writing |
| RingBuffer.WriteResultExactly | components/avdk_utils/src/ring_buffer.c:286-357 | the same exact results for writing |
| RingBuffer.WriteLeaves | components/avdk_utils/src/ring_buffer.c:269-357 | the same for what a write leaves |
| RingBuffer.WriteCountKnown | components/avdk_utils/src/ring_buffer.c:351-355 | the same exact condition for writing |
| RingBuffer.AbortHidesOne | components/avdk_utils/src/ring_buffer.c:260-264 | an aborted read and an aborted write that moved one byte and returned RB_ABORT |
| RingProtocol.NextInv | components/avdk_utils/src/ring_buffer.c:157-421 | every step of reader, writer or controller keeps mutual exclusion, conservation, accounting, no lost wakeup and wakeups by flags |
| RingProtocol.StreamConserved | components/avdk_utils/src/ring_buffer.c:225-249 | in every interleaving the bytes copied out followed by the bytes stored are the bytes copied in, both are exactly what the calls moved, and every result is honest |
| RingProtocol.ReaderKeepsNoLostWakeup | components/avdk_utils/src/ring_buffer.c:214-258 | no step of the reader leaves a waiting thread that could go on without a token or somebody who owes it |
| RingProtocol.WriterKeepsNoLostWakeup | components/avdk_utils/src/ring_buffer.c:311-350 | the same for the writer's steps |
| RingProtocol.ReaderKeepsMutex | components/avdk_utils/src/ring_buffer.c:170-249 | the lock is held exactly in the locked sections |
| RingLiveness.NoDeadlock | components/avdk_utils/src/ring_buffer.c:214-223 | reader and writer never both wait without a token |
| RingLiveness.WriterWakesReader | components/avdk_utils/src/ring_buffer.c:280-350 | a reader waiting while bytes are stored gets its token within twelve steps of the writer alone |
| RingLiveness.ReaderWakesWriter | components/avdk_utils/src/ring_buffer.c:168-258 | a writer waiting while there is room gets its token within thirteen steps of the reader alone |
| RingLiveness.FlagsWakeReader | components/avdk_utils/src/ring_buffer.c:359-421 | "done", "abort" or "unblock" raised while the reader is blocked leaves it a token, or one still to be given |
| RingLiveness.AbortWakesWriter | components/avdk_utils/src/ring_buffer.c:370-379 | the same for a blocked writer and its abort flag |
| RingLiveness.EndOfStream | components/avdk_utils/src/ring_buffer.c:190-199 | if the writer makes no call after "done", a reader that was told RB_DONE has had every byte, in every interleaving |
| RingEnd.FlagsRaised | components/avdk_utils/src/ring_buffer.c:359-421 | each request raises its own flag and no other, and no step lowers a flag, except that the end of a read takes back "unblock" |
| RingEnd.FlagsOwe | components/avdk_utils/src/ring_buffer.c:359-421 | each request owes the thread that may wait for it a token |
| RingEnd.EndIsReported | components/avdk_utils/src/ring_buffer.c:190-206 | from every state with "done" up, the writer idle and nothing stored, each read for at least one byte that ends returns RB_DONE with no bytes, in every interleaving without a further write |
| RingEnd.AbortIsReported | components/avdk_utils/src/ring_buffer.c:201-206 | the same with RB_ABORT for "abort" without "done" |
| RingEnd.EndIsReached | components/avdk_utils/src/ring_buffer.c:170-267 | such a read never waits: each of its steps is possible and brings its end nearer |
| RingAlone.ReadStepPlanned | components/avdk_utils/src/ring_buffer.c:168-267 | each step of an undisturbed read keeps how the call will end and brings the end nearer |
| RingAlone.ReadAlone | components/avdk_utils/src/ring_buffer.c:157-267 | an undisturbed read in the step system ends within 27 steps with exactly the effect and result of the sequential class |
| RingAloneWrite.WriteAlone | components/avdk_utils/src/ring_buffer.c:269-357 | the same agreement for an undisturbed write |
| FrameTransfers.WholeFrameRead | components/audio_play/src/onboard_speaker_play.c:203-211 | once the only reader has seen a whole frame, its read returns a whole frame in every interleaving |
| FrameTransfers.WholeFrameWritten | components/audio_record/src/onboard_mic_record.c:216-224 | once the only writer has seen room for a frame, the whole frame goes in, in every interleaving |
| FrameRuns.WholeFramesPlayed | components/audio_play/src/onboard_speaker_play.c:203-211 | in every interleaving of a reader that looks before each read with writer and controllers, every read returns one whole frame, and the frames are the beginning of the written stream |
| FrameRuns.WholeFramesRecorded | components/audio_record/src/onboard_mic_record.c:216-224 | the same for a writer that looks for room: every write puts one whole frame, and what was read and is stored are these frames |
| FrameTasks.Speaker.PlayFrame | components/audio_play/src/onboard_speaker_play.c:203-227 | plays the next whole frame of the stream, or a frame of zero bytes and a notification if and only if less is stored; a read is never short |
| FrameTasks.Speaker.Task | components/audio_play/src/onboard_speaker_play.c:155-235 | over every run one frame is played for each round in which the task was told to start, not to be idle since nor ever to exit, and is asked for one; what was played without silence, followed by what is stored, is the written stream |
| FrameTasks.Microphone.RecordFrame | components/audio_record/src/onboard_mic_record.c:211-232 | puts the captured frame whole if it fits and drops it whole otherwise; a write is never short |
| FrameTasks.Microphone.Task | components/audio_record/src/onboard_mic_record.c:163-240 | over every run the frames captured are exactly those offered in rounds in which the task runs, in order; what the consumer took, followed by what is stored, are the kept ones |
| FrameTasks.NoFrameSplit | components/audio_record/src/onboard_mic_record.c:216-232 | the stream into the pool consists of captured frames at multiples of the frame size, in the order of capture |
| AudioElement.RunningExactly | components/bk_audio/audio_pipeline/audio_element.c:167-377 | an element with an open callback runs if and only if some "resume" opened it and no command or result since then stopped it |
| ElementStates.RunsExactly | components/bk_audio/audio_pipeline/audio_element.c:167-377 | the same in result values: some "resume" was answered by AEL_IO_OK or AEL_IO_DONE, and since then came no "finish", "stop" or "pause" and no AEL_IO_OK, AEL_IO_FAIL, AEL_IO_DONE, AEL_IO_ABORT or AEL_PROCESS_FAIL from process |
| ElementStates.Moved | components/bk_audio/audio_pipeline/audio_element.c:167-377 | for each state, exactly which commands, calls and result values of a round lead to it or leave it |
| ElementStates.StateExactly | components/bk_audio/audio_pipeline/audio_element.c:167-377 | after any rounds, with or without an open callback, an element is in a state if and only if some round moved it there and none since moved it away; new if none ever moved it |
| ElementStates.NeverEnds | components/bk_audio/audio_pipeline/audio_element.c:251-266 | without an open callback a "stop" and then a "resume" make it process in every round from then on, whatever process returns other than AEL_IO_ABORT |
| AudioElement.LifeIsPlain | components/bk_audio/audio_pipeline/audio_element.c:268-292 | over all rounds of such an element being open and being marked running follow from its state |
| AudioElement.StillInit | components/bk_audio/audio_pipeline/audio_element.c:169-173 | without an open callback the state leaves INIT if and only if a "finish", "stop" or "pause" arrives, and then stays past RUNNING |
| AudioElement.NoOpenProcesses | components/bk_audio/audio_pipeline/audio_element.c:335-340 | without an open callback process is called at some time if and only if a "resume" follows a "finish", "stop" or "pause" |
| AudioElement.NoOpenResumed | components/bk_audio/audio_pipeline/audio_element.c:268-292 | a single "resume" of such an element lets it process if and only if its state is PAUSED or later |
| AudioElement.OpensAndCloses | components/bk_audio/audio_pipeline/audio_element.c:167-215 | in a disciplined sequence of callbacks closes equal opens, except for the one still open |
| AudioElement.Element.ProcessInit | components/bk_audio/audio_pipeline/audio_element.c:167-199 | state, flags and callbacks after open for each of its results; a failed open is closed again |
| AudioElement.Element.OnCmdStop | components/bk_audio/audio_pipeline/audio_element.c:223-249 | ends stopped and not running; closes exactly an element that is open |
| AudioElement.Element.OnCmdFinish | components/bk_audio/audio_pipeline/audio_element.c:251-266 | ends finished and closed unless already stopped or in error |
| AudioElement.Element.OnCmdError | components/bk_audio/audio_pipeline/audio_element.c:210-221 | ends in error and closed unless already stopped |
| AudioElement.Element.OnCmdResume | components/bk_audio/audio_pipeline/audio_element.c:268-292 | opens an element at rest, with or without an open callback and for each of its results; state and flags afterwards are the prescribed ones, and process is not called |
| AudioElement.Element.OnCmd | components/bk_audio/audio_pipeline/audio_element.c:294-333 | each command leads to the state and flags the life cycle prescribes, whichever callbacks there are; only "destroy" ends the task |
| AudioElement.Element.ProcessRunning | components/bk_audio/audio_pipeline/audio_element.c:335-377 | process is called if and only if the element is running with a state of RUNNING or later; each of its results leads to the prescribed state, the end of the stream being announced before closing |
| AudioElement.Element.Round | components/bk_audio/audio_pipeline/audio_element.c:464-516 | one round of the task: state and flags follow, process is called exactly when prescribed, and open and close stay in turn |
| AudioElement.Element.Task | components/bk_audio/audio_pipeline/audio_element.c:464-516 | over all rounds of commands and results, whichever callbacks there are, state and flags are the prescribed ones, process is called in exactly the prescribed rounds, and in exactly the prescribed rounds while the output rings are still marked done; with both callbacks open and close alternate with process only in between, and closes equal opens at the end |
| StaleStream.StaleExactly | components/bk_audio/audio_pipeline/audio_element.c:268-292 | over all rounds of an element with an open callback, process is called while the output rings are marked done if and only if, after the end of a stream, each "resume" up to the first that opens the element comes after a "pause" that no "stop", "finish" or "resume" follows |
| StaleStream.RestState | components/bk_audio/audio_pipeline/audio_element.c:275-277 | after the end of a stream and until the element is opened again it is paused if and only if a "pause" was the last thing that moved it |
| StaleStream.FinishedPausedResumed | components/bk_audio/audio_pipeline/audio_element.c:1185-1194 | the end of a stream, a "pause" by call, and a "resume": process runs with the rings marked done |
| Stailq.Head.InsertTail | components/avdk_utils/include/bsd_queue.h:21-25 | appends to the list and keeps the tail link exact |
| Stailq.Head.Remove | components/avdk_utils/include/bsd_queue.h:54-66 | removes exactly the element, keeps the order and the tail link, and poisons its link |
| Stailq.Head.RemoveAfter | components/avdk_utils/include/bsd_queue.h:42-46 | removes the successor and corrects the tail link when it was the last |
| Stailq.Head.RemoveMatching | components/avdk_utils/include/bsd_queue.h:37-40 | the traversal that removes as it goes visits every original element once and never follows a poisoned link |
| Stailq.RestInOrder | components/avdk_utils/include/bsd_queue.h:37-40 | what is left are exactly the elements that do not match, in their order |
| Queues.RemovableExactly | components/bk_audio/audio_pipeline/audio_event_iface.c:114-117 | the loop that reads until a queue can leave the set ends if and only if the queue is a member of that set and at least as many handles are pending as messages wait |
| Queues.CleanupEndsExactly | components/bk_audio/audio_pipeline/audio_event_iface.c:110-118 | cleaning up all listed queues ends if and only if they are distinct and each of them can be taken out |
| Queues.NeverJoins | components/bk_audio/audio_pipeline/audio_event_iface.c:114-117 | a queue that is no member of the set does not become one by sends, receives, reads or removals, so a stuck listener stays stuck |
| Queues.DeletedWhileListed | components/bk_audio/audio_pipeline/audio_event_iface.c:163-183 | once a queue is deleted, cleaning up ends exactly for listeners that could be cleaned up and do not list it |
| ListenerSet.NeverOverflows | components/bk_audio/audio_pipeline/audio_event_iface.c:125-147 | as long as a listed queue has room, the set sized by the sum of the queues has room for the handle |
| ListenerSet.SendKeepsExact | components/bk_audio/audio_pipeline/audio_event_iface.c:276-285 | a send posts exactly one handle, none is lost, and each queue has as many handles as messages |
| ListenerSet.ReadKeepsExact | components/bk_audio/audio_pipeline/audio_event_iface.c:149-161 | a read delivers a message if and only if some listed queue has one, and keeps handles equal to messages |
| ListenerSet.DirectReceiveKeepsCovered | components/bk_audio/audio_pipeline/audio_event_iface.c:287-300 | receiving past the set leaves enough handles for the set to be taken apart |
| ListenerSet.DirectReceiveThenStuck | components/bk_audio/audio_pipeline/audio_event_iface.c:114-117 | but a later send can lose its handle, and then taking the queue out never succeeds |
| EventIface.Iface.Read | components/bk_audio/audio_pipeline/audio_event_iface.c:149-161 | takes the oldest handle and that queue's oldest message; a listener in order stays in order |
| EventIface.Iface.Discard | components/bk_audio/audio_pipeline/audio_event_iface.c:287-300 | empties the interface's own queues and leaves its set in a condition to be taken apart |
| EventIface.Iface.CleanupListener | components/bk_audio/audio_pipeline/audio_event_iface.c:106-123 | from every state in which it ends at all, it ends with the set gone, every listed queue empty and in no set, and nothing else changed |
| EventLaws.CleanedLaw | components/bk_audio/audio_pipeline/audio_event_iface.c:106-123 | cleaning up deletes the listener's set only, takes exactly the listed queues out of it, empties exactly these and the interface's own, and leaves every other queue and set as it was |
| EventIface.Iface.ReadyExactly | components/bk_audio/audio_pipeline/audio_event_iface.c:106-118 | the condition for cleaning up is exact: it holds if and only if the loops end |
| EventIface.Iface.UpdateListener | components/bk_audio/audio_pipeline/audio_event_iface.c:125-147 | succeeds if and only if no listed queue is in a set or listed twice; the new set, sized by the sum of the queues, holds the listed queues, empty, up to the first that is refused |
| EventLaws.BuiltLaw | components/bk_audio/audio_pipeline/audio_event_iface.c:125-147 | of a list that fits, exactly the listed queues are in the new set and empty; all others and all other sets are as before |
| EventLaws.RoomLaw | components/bk_audio/audio_pipeline/audio_event_iface.c:127-134 | the set has room for as many handles as the sizes add up to |
| EventIface.Iface.SetListener | components/bk_audio/audio_pipeline/audio_event_iface.c:185-202 | appends the external queue to the list and rebuilds the set; fails if and only if the queue is in some set, with the exact state it leaves behind, from which cleaning up never ends |
| EventIface.Iface.SetMsgListener | components/bk_audio/audio_pipeline/audio_event_iface.c:204-220 | the same for the internal queue |
| EventIface.SecondListenerStuck | components/bk_audio/audio_pipeline/audio_event_iface.c:139-142 | a queue listened to by one set is given to a second listener: its message is lost, its handle stays with the first, and the second can never be cleaned up |
| EventIface.Iface.RemoveListener | components/bk_audio/audio_pipeline/audio_event_iface.c:222-240 | from every state in which cleaning up ends, filters the queue out of the list, keeping the order, and rebuilds the set |
| EventIface.Iface.Destroy | components/bk_audio/audio_pipeline/audio_event_iface.c:163-183 | from every state in which cleaning up ends, empties list and set and deletes the interface's own queues |
| EventIface.Iface.Sendout | components/bk_audio/audio_pipeline/audio_event_iface.c:276-285 | posts to the external queue or fails when it is full; without one the message is dropped silently |
| EventIface.Iface.Command | components/bk_audio/audio_pipeline/audio_event_iface.c:259-266 | the same for the internal queue |
| EventLaws.PostedLaw | components/bk_audio/audio_pipeline/audio_event_iface.c:259-285 | a message goes last into a queue with room; exactly a full queue gives BK_FAIL and is left as it is; without a queue success is reported |
| ListenerRuns.SendAppends | components/bk_audio/audio_pipeline/audio_event_iface.c:276-285 | an accepted message waits behind all others, across all listed queues |
| ListenerRuns.ReadTakesFirst | components/bk_audio/audio_pipeline/audio_event_iface.c:149-161 | a read delivers the message that has waited longest, if any |
| ListenerRuns.Change | components/bk_audio/audio_pipeline/audio_event_iface.c:185-240 | starting or ending to listen: the list is as prescribed, nothing waits any more, and the listener is in order and can be cleaned up |
| ListenerRuns.Deliver | components/bk_audio/audio_pipeline/audio_event_iface.c:276-285 | a message for a listed queue is accepted if and only if fewer messages of that queue wait than its size, and then waits last |
| ListenerRuns.Run | components/bk_audio/audio_pipeline/audio_event_iface.c:149-285 | over every run of set, remove, send and read, with nothing listened to twice, the listener is in order after each operation and answers as one queue of messages with a list of queues does |
| ListenerRuns.FirstInFirstOut | components/bk_audio/audio_pipeline/audio_event_iface.c:149-161 | while the list stays as it is, the messages read followed by those waiting are those that waited at first followed by those accepted, in the order of sending |
| EventLaws.ReadsInOrder | components/bk_audio/audio_pipeline/audio_event_iface.c:149-161 | so what the reads return over a run, followed by what still waits, is what waited at first followed by what was accepted |
| EventLaws.OneAnswer | components/bk_audio/audio_pipeline/audio_event_iface.c:149-285 | a read returns nothing exactly when nothing waits; a message to a listed queue is refused exactly when its queue has no room |
| ListenerRuns.NewListener | components/bk_audio/audio_pipeline/audio_event_iface.c:70-97 | a new interface is a listener that lists nothing and has nothing waiting |

## Left out

- File access, warnings, environment variables, `$`-expansion and the character tokenizer of kconfiglib; help texts,
  menu and comment items as such, and the locations of definitions.
- `_FileFeed.unget` after a line continued with a backslash, which goes back to the last physical line only.
- That all values are the same after saving and loading again: `ConfStrings.SavedFileLoads` gives back the assignments,
  but a loaded user value may be cut off by a visibility that a default exceeded.
- Default values of string and number symbols that are not single operands, on which the source raises an exception;
  the model gives "".
- BlockParser.Tables.ParseProperties: does not collect ranges, types, help texts and options, which are not conditioned
  by enclosing blocks.
- ConfStrings.SavedLineLoads: white space and word characters are the ASCII ones, and the prefix of names consists of word
  characters, so that it means itself in a regular expression.
- Sessions.Run: questions asked while something has changed that was not dropped get answers that depend on what was
  cached; the text of a loaded file enters as its list of assignments.
- SymbolCache.Kconfig.SetUserValue: warnings, and the refusal messages for wrong types, are not modelled; a refused value
  leaves the user values as they are.
- `rb_create` and `rb_destroy` failures, NULL handles, a NULL destination in `rb_read`, `rb_reset` during concurrent use,
  negative lengths, several readers or writers, and weak memory.
- RingBuffer.RingBuf.Read: in the class nobody else acts during a call, so that a wait succeeds only on a token that is
  already there; the step system covers interleavings.
- FrameTasks.Speaker.Task: the other thread acts by whole calls at two points of each round; `FrameRuns` covers
  interleavings step by step, without silence and notifications.
- FrameTasks.Microphone.Task: the same at the recording end.
- AudioElement.Element.Task: `audio_element_reset_state` (which opens again without a close), elements without a task of
  their own, a failed buffer allocation, and `audio_element_stop` interleaved with the task between its single effects.
- AudioElement.Element.CallStop: the rings it aborts and the command it sends, which arrives as a later round.
- Status reports of elements and the copying of data by process callbacks.
- EventIface.Iface.SetListener: allocation failures; queues are given rather than created by the interface.
- ListenerRuns.Run: other listeners on the same queues, and direct receives by the owner of a listed queue; what they can
  break is in `EventIface.SecondListenerStuck` and `ListenerSet.DirectReceiveThenStuck`.
- StaleStream.StaleExactly: resets of the rings by other threads between the rounds of the task.
- EventIface.Iface.CleanupListener: messages sent by other threads while the set is taken apart; from states in which
  `ReadyExactly` fails there is nothing to promise, since the loops do not end.
- FreeRTOS scheduling, DMA, DAC and ADC, GPIO, power voting, and the drivers' own ring buffers.
- Demos, codecs and algorithms, AT commands, LVGL, and face detection: plumbing, or calls into code that is not part of
  this model.
