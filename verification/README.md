# Verified model of the regular-expression engines

This project models the three engines of the repository and proves what they
are for.

* **Ordered instruction engine** (`ordered_*.dfy`, `memo.dfy`, `iteration.dfy`).
  `OrderedProgram.Eval` is the recursive ordered search that carries only its
  active path. `OrderedMachine` is the frame machine with its memo and cycle
  epoch, one iteration at a time; `OrderedRun` iterates it; `OrderedEngine` runs
  it on arrays, over a memo that is a dense array or an open-addressing table.
  The main result is that the fast engine is the simple search.
* **BRE patterns** (`bre_*.dfy`, `search.dfy`). `BreReference.Outs` is the
  recursive meaning of an expression: all its matches in order, each with its
  captures and the tree of group and loop participations it went through.
  `BreLower` lowers a node array into linked code in place; `BreMachine` is the
  backtracking machine; `BreExecutor` runs it with a stack of states and a
  reference-counted arena of scope histories; `BreRank` ranks two histories by
  sorting their scopes. The main results are that compiled code runs exactly the
  expression's matches, that the executor reports the leftmost, longest,
  best-ranked one, and that this report does not depend on the order of
  exploration.
* **Generated parser** (`peg_*.dfy`, `bre_grammar*.dfy`). `PegGrammar.ParseRule` is
  the meaning of a grammar with ordered choice; `PegParser` is the generated
  code's scheme over a rule table, with a failure memo and events that are rolled
  back; `PegEvents` is the event collector. The main result is that memo and
  roll-back are invisible. `BreGrammar` is the table of BRE patterns; `PegAnalysis`
  proves, for any table, what its rules say about every parse, and `BreParsed`
  draws the conclusions for patterns.
* **Lexer and decoding** (`bre_patterns.dfy`, `bre_lexer.dfy`, `bre_operands.dfy`,
  `bre_decode.dfy`, `bre_pattern.dfy`). `BrePatterns` is the generated table of token
  programs; the lexer runs them on the ordered engine. `BreOperands` says what the
  scalars, quantifiers and classes below a node are; `BreDecode` reads them as the
  compiler does, while lowering, with steps and room charged.
* **From pattern to program** (`bre_front.dfy`). `BreFront.CompilePattern` takes the
  bytes of a pattern through all of this; its status is `PatternStatus`, a function
  of the bytes and the limits, it succeeds exactly under the stated conditions, and
  its program is what `BreExec.Exec` runs.

How the files build on each other: `bre_program` (trees, code, effects) →
`bre_paths` (paths of a tree) → `bre_keep`, `bre_machine`, `bre_layout` →
`bre_correct` (machine = paths); `bre_syntax` → `bre_lower_spec` →
`bre_lower_correct`, `bre_lower_bounds`; `peg_grammar` →
`peg_events` → `peg_trace` → `peg_parser`, `peg_analysis` → `bre_grammar` →
`bre_grammar_facts` → `bre_parsed`; `bre_quantity` → `bre_operands` → `bre_decode` →
`bre_nodes` → `bre_lower`, `bre_totals` → `bre_verdict` (the status, from the nodes) →
`bre_lower_complete` → `bre_compile` (node array → program) → `bre_loops`; `ordered_*` → `bre_patterns` → `bre_lexer`; `bre_pattern` → `bre_front`
(bytes → program);
`bre_scopes` → `bre_reference` → `bre_matches` → `bre_agree` (paths = reference),
`bre_unambiguous`, `bre_select`, `bre_nesting`; `bre_budget` → `bre_priority`,
`bre_arena_spec` → `bre_arena`; `bre_rank_cost`, `bre_search_cost` (step costs) →
`bre_rank` → `bre_points` → `bre_executor` → `bre_ledger` → `bre_executor_run` (one
start); `bre_answer` (the reference's answer), `bre_reading`, `bre_outlook` (cost of
all starts) → `bre_outcome` → `bre_exec` (a whole call). `folding`, `bre_status` and
`bre_limits` are shared.

How values are represented:

* Unsigned integers that stay below their width are naturals; `NONE` is the
  largest 32-bit value, as unset link and as unbounded repetition.
* A state of the executor is a value that is copied, as the C structure is. Its
  loop array is the sequence of active loops. The arena's node array and the
  state stack are sequences that grow; the records that are sorted, the node and
  code arrays of lowering, the frames and memo of the ordered engine and the
  collector's nodes are arrays updated in place.
* Bit masks on bytes are written as remainders and ranges with the same value:
  `c & 31` is `c % 32`, `(b & 192) == 128` is `b / 64 == 2`.
* Node names are the numbers of their rules. In the specification of lowering a
  node that lowers to one instruction carries its decoded operands, or the reason
  why there are none; the compiler's own nodes carry roles only and are decoded when
  they are lowered.
* Token texts are sequences of bytes; subtraction from a byte or a scalar wraps as
  the unsigned operation does.
* The hash of the sparse memo is an arbitrary function, reduced modulo the
  capacity.
* Whether memory is granted is nondeterministic: every growth may be refused as
  LIMIT or NOMEM, and `refused` records that it was. Without that, what is charged
  and whether the step limit stops it is a function of the call (`Budget.Charged`).
* The grammar file and the generated lexer disagree on one letter: the file's CHAR
  takes U+07DA, the generated ranges leave it out (they read `#x7Da-z` as one code
  point and two more). The model follows the generated table.
* The abstract machine has an outcome `Broken` for the internal errors, for the
  limit of active loops, and for closing a group that is not open. Compiled
  programs never reach it, so the executor has no such exits.

## Model

| member | source | states |
|---|---|---|
| OrderedProgram.Validate | maia_regex.c:86-117 | the loops accept a program exactly when it is well formed: indices, class ranges, units and assertion targets in bounds |
| OrderedProgram.MatchesUnit | maia_regex.c:227-239 | the class scan answers exactly whether CHAR, CLASS or NOT_CLASS accepts the unit |
| OrderedMachine.StepFaithful | maia_regex.c:171-291 | one iteration of the frame machine, from any state satisfying the invariant, keeps the invariant and keeps the answer it is heading for: plugging the top frame's value into the stack always gives the same unmemoised search result |
| OrderedMachine.StoreSound | maia_regex.c:259-264 | writing a cell is justified: a cached value has to be the search's value under every active path that avoids cached cells |
| OrderedMachine.FinishKeeps | maia_regex.c:259-264 | a frame caches its result only if the cycle epoch did not move since it started; otherwise the cell becomes unvisited again, and the cached cells stay sound |
| OrderedMachine.CutStep | maia_regex.c:186-202 | a VISITING cell is on the stack below: the branch is cut as a failure at the same assertion depth, and the whole program is invalid across an assertion boundary, as the search says |
| OrderedMachine.HitStep | maia_regex.c:203-207 | a cached value is the search's value under the current active path |
| OrderedRun.IterateFaithful | maia_regex.c:171-298 | after any number of iterations the machine is still heading for the reference answer, or has stopped with it or with LIMIT |
| OrderedRun.DepthBound | maia_regex.c:265-290 | started frames hold pairwise distinct cells, so the stack is never deeper than the number of cells plus one |
| OrderedRun.StepAdvances | maia_regex.c:185-290 | every iteration pops a frame or moves the top frame to a later phase and pushes a fresh child |
| OrderedRun.FuelDrops | maia_regex.c:171-291 | the weighted sum of remaining phases over the stack strictly decreases |
| OrderedRun.Halts | maia_regex.c:171-291 | without any step limit the loop ends |
| OrderedRun.EngineIsReference | test_regex_program_reference.c:21-65 | for every valid program, input and start, with no limits, the memoised iterative engine answers what the recursive search without a memo answers: the same end, NOMATCH or INVALID |
| OrderedRun.LimitsOnlyLimit | maia_regex.c:172-175 | limits can only replace the reference answer by LIMIT |
| OrderedRun.RaisingStepsKeepsAnswer | maia_regex.c:172-175 | an answer other than LIMIT is unchanged by a larger step limit or none |
| OrderedRun.EnoughFramesIsReference | maia_regex.c:266-269 | a frame limit above the number of cells never shows |
| OrderedEngine.Engine.Scan | maia_regex.c:189-193 | the ancestor scan finds the frame holding the same cell, and its assertion depth, exactly when there is one |
| OrderedEngine.Engine.FinishTop | maia_regex.c:259-264 | the array update performs the machine's finishing step on the memo and the stack |
| OrderedEngine.Engine.PushChild | maia_regex.c:265-290 | the child frame is pushed, the stack array growing by doubling up to the limit, or LIMIT is reported exactly when the machine's step reports it |
| OrderedEngine.Engine.Iteration | maia_regex.c:171-291 | one iteration on the frame array and the memo is one step of the machine |
| OrderedEngine.Exec | maia_regex.c:119-299 | the engine's outcome is a function of program, input, start and limits, the same for the dense and the sparse memo; it is the reference answer whenever it is not LIMIT, and always when there are no limits |
| Memo.Probe | maia_regex.c:43-49 | linear probing from the home slot ends at the key or at the first free slot of its chain, and never runs through a full table |
| Memo.InsertKeeps | maia_regex.c:80-83 | inserting at the end of a key's chain keeps keys unique and reachable and every other binding |
| Memo.Place | maia_regex.c:58-69 | rehashing one entry into the larger table keeps all bindings placed so far |
| Memo.SparseMemo.Grow | maia_regex.c:50-79 | growth doubles the table and preserves every binding |
| Memo.SparseMemo.Slot | maia_regex.c:37-84 | the returned slot belongs to the cell, new cells read UNVISITED, no cell's value changes, and the table stays at most half full, so the full-probe LIMIT is never taken |
| Memo.Store.Find | maia_regex.c:176-179 | dense or sparse, the memo is a total map with default UNVISITED |
| Memo.Store.Write | maia_regex.c:259-263 | writing through the slot changes that cell only |
| Search.YieldsFork | maia_bre.c:119-136 | stacking one branch and continuing with the other finds the accepting states of both, the continued branch's first |
| BreCorrect.RunTree | maia_bre.c:77-137 | wherever a lowered tree is placed, the exhaustive backtracking search from its entry is, in order, the search of what follows it over all the tree's paths |
| BreCorrect.RunForest | maia_bre_compile.cpp:127-135 | linked siblings run one after the other |
| BreCorrect.RunGroup | maia_bre.c:100-106 | OPEN, the body and CLOSE run the group's paths, resetting the captures inside |
| BreCorrect.RunWalk | maia_bre.c:114-133 | a REPEAT between iterations runs exactly the loop's remaining walks, entering before leaving |
| BreCorrect.GroupStaysOpen | maia_bre.c:100-106 | nothing inside a group resets the group or replaces its opening before its CLOSE |
| BreKeep.PathsKeep | maia_bre.c:100-106 | a tree's paths only extend the scope history and only touch the captures and openings of the groups inside the tree |
| BrePaths.IterationsBounded | maia_bre.c:114-133 | one activation of a loop runs its body at most as often as required, or once, and then once for every position it consumes |
| BreAgree.PathsSame | scripts/test-bre-model.mjs:7-16 | the machine's paths and the recursive path semantics give the same matches in the same order, with the same captures, and the logged history is the block of the nested scopes |
| BreAgree.WalkSame | scripts/test-bre-model.mjs:14 | loop counters with an empty-iteration flag walk as the recursive repetition does, including required, first and optional empty iterations |
| BreScopes.BlockRecords | maia_bre_history.h:38-40 | the closes of a properly nested history are one record for each of its scopes, each with the key of its opening and its length, and nothing earlier is closed |
| BreScopes.ListingSorted | maia_bre_history.h:41-49 | in order of their openings the records of a nested history are its scopes in preorder |
| BreLowerCorrect.LinkForest | maia_bre_compile.cpp:127-135 | chaining the children links each child's tail to the next child's entry and changes nothing else |
| BreLowerCorrect.LastInsideIs | maia_bre_compile.cpp:139 | the scan for the last group inside a group's range finds exactly its descendants |
| BreLowerCorrect.GroupStep | maia_bre_compile.cpp:136-142 | a group's OPEN and CLOSE are emitted behind its children and linked around them |
| BreLowerCorrect.LoopStep | maia_bre_compile.cpp:143-151 | a quantified piece's REPEAT and REPEAT_END are emitted behind its body and linked around it |
| BreLowerCorrect.LowerTree | maia_bre_compile.cpp:113-155 | lowering a tree's nodes, last to first, places the tree's code behind what was there, changes only entries and tails of its own nodes, and records its entry and tail |
| BreVerdict.SizeTree | maia_bre_compile.cpp:113-155 | the instructions that the nodes of a tree add one by one are together the tree's code, so the room left at each node is known from the nodes alone |
| BreVerdict.CompleteIs | maia_bre_compile.cpp:122-124 | looking a group up by its recorded place accepts a reference exactly when a group with that number ended before it in the array |
| BreLowerComplete.NodeJudged | maia_bre_compile.cpp:114-154 | a node whose children are lowered is refused exactly for the first of work, range room, undecodable operands, a bad reference and code room that applies, with that status; a loop always has something to repeat |
| BreLowerComplete.TreeJudged | maia_bre_compile.cpp:113-155 | lowering a tree fails exactly when one of its nodes is refused, with the status of the last one that is; statuses are judged on the original nodes, whatever has been recorded in between |
| BreLowerBounds.ProcessBounds | maia_bre_compile.cpp:147 | the recorded repetition bound is the largest one among the loops of the code so far |
| BreTotals.MaxDepthTree | maia_bre_compile.cpp:108-110 | the deepest group found by walking up parents is the nesting depth of the tree |
| BreTotals.RefsTree | maia_bre_compile.cpp:122-124 | the array test for references accepts exactly the references to groups begun before and not still open around them |
| BreLower.Compiler.Number | maia_bre_compile.cpp:103-112 | the first pass numbers the groups in preorder and records their depth; its status is that of the first node that is refused: too little work, an unsupported escape, too many or too deep groups |
| BreLower.Compiler.GroupDepthOf | maia_bre_compile.cpp:108-109 | walking up the parents counts the enclosing groups |
| BreLower.Compiler.LinkChildren | maia_bre_compile.cpp:127-135 | the loop over child ranges patches the code in place as the specification function says |
| BreLower.Compiler.LastGroup | maia_bre_compile.cpp:139 | the loop finds the last group inside |
| BreLower.Compiler.LowerNodes | maia_bre_compile.cpp:113-155 | the backward loop, decoding operands as it goes and charging work for rules and class elements, comes to the result of the node-by-node specification, every failure with its status included; afterwards the range table is the classes' ranges, and the recorded repetition bound is that of the code |
| BreLower.Compiler.FinishProgram | maia_bre_compile.cpp:156-158 | ACCEPT is appended and the root's tail linked to it |
| BreCompile.FlattenMirrors | maia_bre_compile.cpp:16-23 | a numbered preorder array holds exactly the tree it was flattened from |
| BreCompile.ReferencesChecked | maia_bre_compile.cpp:122-124 | success means that every reference names a group that ended before it in the node array |
| BreCompile.SurveyExplained | maia_bre_compile.cpp:103-112 | the first pass accepts only supported trees within the limits on nodes, groups and nesting, and refuses only others, with the status that says which |
| BreCompile.NodesAccepted | maia_bre_compile.cpp:113-155 | when the second pass refuses no node, all operands were decoded, every class lies in the range table, and every reference of the tree is to a group complete before it |
| BreCompile.CompiledRuns | maia_bre_compile.cpp:113-158 | code that is a tree followed by ACCEPT runs exactly the tree's paths |
| BreCompile.StatusExplained | maia_bre_compile.cpp:101-159 | the status that the nodes determine is Ok exactly when nothing is unsupported, all operands can be decoded, every reference names a group that is complete before it, and the limits on groups, nesting, work (class elements included), ranges and code suffice; any other status has its reason in the tree |
| BreCompile.Compile | maia_bre_compile.cpp:101-159 | the status is the one function of tree and limits that the passes define: the first node refused by the first pass, else the last node refused by the second, else room for ACCEPT; on success the program is the expression of the syntax tree with the table of its classes' ranges |
| BreCompile.ProgramRuns | maia_bre_compile.cpp:101-159 | started anywhere, a compiled program's exhaustive search is finite without any step limit, meets no internal error and no loop-depth limit, and accepts exactly the paths of its pattern, in order, with an empty loop stack |
| BreSyntax.LoopsNestInGroups | grammar/bre.ebnf:4-42 | in a pattern's expression loops nest at most one deeper than groups |
| BreLoops.LoopStackMatches | maia_bre.c:116-136 | in every state a compiled program reaches, the active loops are exactly the repeats enclosing the current instruction, so at most one more than groups nest; no internal error is ever due, and at ACCEPT no loop is active |
| BreSyntax.ElaborateNumbered | maia_bre_compile.cpp:106-108 | the expression's groups are the tree's, numbered in preorder |
| BreDecode.Decoder.Number | maia_bre_compile.cpp:91-93 | a repetition number is refused exactly when its decimal value exceeds the limit, whatever its digits |
| BreDecode.Decoder.Quantity | maia_bre_compile.cpp:88-100 | reading the numbers below a quantifier one by one gives the bounds that its form and all its numbers determine, or their error |
| BreDecode.Decoder.Scalar | maia_bre_compile.cpp:32-38 | the loop finds the token asked for below a node and reads it as exactly one scalar, or says what is wrong with it |
| BreDecode.Decoder.ReadClass | maia_bre_compile.cpp:65-86 | reading a class appends exactly its ranges, charges a step for every node looked at, and otherwise reports the fault that reading without limits finds, or LIMIT when steps or room for ranges run out first |
| BreOperands.ClassPlaced | maia_bre_compile.cpp:66-86 | a class instruction's operands name the part of the final range table that holds exactly the ranges read for it, and NOT_CLASS stands exactly for a negated class |
| BrePattern.TableOrdered | maia_bre_compile.cpp:39-42 | every range of a program's table runs upwards |
| BreUnambiguous.TreeUnambiguous | maia_bre_history.h:50-56 | a trace can be read back: from the same place and captures, two matches of a tree whose traces agree up to what follows end at the same place with the same captures |
| BreUnambiguous.TraceDetermines | maia_bre_history.h:50-56 | two matches of a pattern from one start with equal traces have equal ends and captures |
| BreUnambiguous.ElaborateKeyed | maia_bre_compile.cpp:140-150 | the node indices used as scope keys grow in preorder |
| BreSelect.BetterTotal | maia_bre_history.h:50-56 | ranking is total: of two different traces exactly one is better |
| BreSelect.BetterTransitive | maia_bre_history.h:50-56 | ranking is transitive |
| BreSelect.SelectUnbeaten | maia_bre.c:85-88 | keeping the better match as they are met selects one of them that is at least as long as all and outranked by none as long |
| BreSelect.SelectionIsCanonical | maia_bre.c:85-88 | any unbeaten match has the selected one's end and captures, so the report does not depend on exploration order |
| BreNesting.MatchNests | maia_bre.c:100-106 | a captured inner group lies inside the capture of every enclosing group |
| BreArenaSpec.FreeKeeps | maia_bre_history.h:4-6 | freeing a node whose last reference went moves that loss to its predecessor and keeps counts exact, the free list equal to the dead slots, and every other history unchanged |
| BreArenaSpec.GraftCounts | maia_bre_history.h:24-25 | a new node takes over its holder's reference: counts stay the number of holders plus live successors |
| BreArenaSpec.OpenLive | maia_bre_history.h:39 | the opening a live close names is live, further up on the same chain, and an opening |
| BreArenaSpec.HistoryPreserved | maia_bre_history.h:3-26 | the history behind a reference that stays live is unchanged, also when slots around it are freed and reused |
| BreArenaSpec.NoRootsNoNodes | maia_bre.c:145 | once no references are held every node is free |
| BreArena.Arena.Retain | maia_bre_history.h:3 | one more holder |
| BreArena.Arena.Drop | maia_bre_history.h:4-6 | giving up a reference frees exactly what nobody holds, iteratively, and changes no surviving history |
| BreArena.Arena.Slot | maia_bre_history.h:11-23 | a slot is taken from the free list, or a new one if memory is granted |
| BreArena.Arena.Tag | maia_bre_history.h:7-26 | the holder's history becomes one event longer and all others stay; a refusal changes nothing |
| BrePriority.Sift | maia_bre_history.h:43-45 | sinking a record restores the heap below it and shuffles only the records of the heap |
| BrePriority.Sort | maia_bre_history.h:46-49 | heapsort returns the same records in order of opening serial and touches nothing beyond them; it is refused exactly when the steps of sorting these records exceed what is left of the budget |
| BrePriority.HeapsortSame | maia_bre_history.h:42-49 | the steps sorting takes depend only on how the records compare, not on the serials themselves |
| BreRank.SortedIsPreorder | maia_bre_history.h:41-49 | sorted by opening serial, the records of a properly nested history are the preorder of its closed scopes |
| BreRank.FilledMet | maia_bre_history.h:38-40 | following the links from a live history's end meets the records of its closes, each with the serial and key of its opening and its length |
| BreRank.CountScopes | maia_bre_history.h:27-29 | the number of closed scopes met on the links from a history's end |
| BreRank.Fill | maia_bre_history.h:38-40 | exactly the counted records are written, the latest close first |
| BreRank.FilledTicks | maia_bre_history.h:38-49 | sorting the records of a live history takes the steps of sorting its scopes, whatever serials the arena gave them |
| BreRank.Ranking.Outranks | maia_bre_history.h:50-56 | counting, filling, sorting and comparing decide whether one match's trace is better than another's, at a cost that the two traces determine; refused exactly when that exceeds the budget, or memory is refused |
| BreExecutor.Executor.InRanges | maia_bre.c:95 | every range is charged for and the answer is membership |
| BreExecutor.Executor.Repeats | maia_bre.c:111 | the back-reference comparison answers whether the captured text repeats at the position |
| BreExecutor.Executor.MatchUnit | maia_bre.c:91-113 | a one-instruction match moves as the machine does |
| BreExecutor.Executor.Push | maia_bre.c:46-59 | a state is stacked, or refused because the stack is full or memory is |
| BreExecutor.Executor.Branch | maia_bre.c:119-120 | the leaving copy shares the history, logs its close and is stacked; the current state enters; on refusal every reference is given back |
| BreExecutor.Executor.Advance | maia_bre.c:78-136 | one dispatched instruction on arena-backed states is one step of the machine, charged to the budget; histories of other states are untouched |
| BreLedger.CoverFork | maia_bre.c:119-120 | what was found, what the current state finds and what the stack finds stay the whole search |
| BreLedger.CoverMove | maia_bre.c:78-136 | one step of the search moves exactly its price from what is still due to what is paid, and the stack's highest point is the higher of now and later |
| Search.PriceUnfolds | maia_bre.c:78-136 | the price of a search is that of its first step and of the searches that follow it |
| BreExecutorRun.Consider | maia_bre.c:82-90 | an accepting state replaces the best match exactly when it is longer, or as long and outranking it; references are exact afterwards |
| BreExecutorRun.CleanUp | maia_bre.c:144-145 | on every exit all references are given up |
| BreExecutorRun.SearchFrom | maia_bre.c:74-137 | from one start the loop meets every accepting run and keeps the selected one; it is refused exactly when the search costs more steps than are left or its stack grows past the frame limit, unless memory is refused, and then holds no reference |
| BreAnswer.ReferenceIsBest | maia_bre.c:73-139 | the answer has the smallest start with any match; its match is one from there, none is longer, and none as long outranks it; no answer means no start matches |
| BreAnswer.ReferenceIsCanonical | maia_bre.c:140-142 | the end and captures reported are those of every unbeaten match, and captures of nested groups are nested |
| BreOutlook.RunsAreMatches | scripts/test-bre-model.mjs:7-16 | for every compiled pattern and start the accepting runs of the machine are the matches of the recursive semantics, in order, with equal captures and scope traces |
| BreReading.Decode | maia_bre.c:70-72 | the text is read scalar by scalar, a step charged for every byte; offsets are scalar boundaries and the starting scalar is the one at the starting byte; it is refused exactly when reading up to the end or the first error takes more steps than are left |
| BreExec.Candidates | maia_bre.c:73-139 | trying starts in turn finds the reference's answer, at the summed cost of the starts tried, or reports a refusal; no history node is live afterwards |
| BreExec.Captures | maia_bre.c:141-142 | matched groups report scalar and byte offsets, the others are unmatched, for as many entries as the caller has room |
| BreExec.Exec | maia_bre.c:60-146 | an answer is the reference's for the text from the starting byte on, whatever the limits; and unless memory is refused, first workspace included, the outcome is determined by the call: LIMIT exactly when the step cost of reading and searching exceeds the limit or the stack would not fit |
| BreExec.ExecTwice | maia_bre.c:44 | a call and the same call with a larger step limit: unless memory is refused, an outcome of the first other than LIMIT is the outcome of the second |
| BreOutcome.RaisingStepsKeepsOutcome | maia_bre.c:44 | an outcome other than LIMIT stays the same under any larger step limit |
| BreOutcome.ExhaustedIsLimit | maia_bre.c:44 | a call whose reading and search cost more steps than the limit reports LIMIT, whatever candidate it had found |
| BreUtf8.Next | maia_bre.c:17-30 | accepts exactly when the bytes start with the encoding of a scalar other than NUL, and returns that scalar; NUL is an argument error, everything else an encoding error |
| BreUtf8.EncodedDecodes | maia_bre.c:17-30 | decoding inverts the encoder of section 3 of RFC 3629 |
| BreUtf8.OneReading | maia_bre.c:17-30 | a text has at most one reading |
| BreUtf8.TextCheck | maia_bre.c:31 | accepts exactly the well-formed texts without NUL, and otherwise reports what stands where reading stops: NUL or a malformed encoding |
| BreUtf8.ReadingOf | maia_bre.c:17-31 | reading scalar after scalar takes every text without NUL to its end, as its scalars |
| BreUtf8.LexDecode | generated/bre-parser.hpp:598-630 | the lexer's decoder accepts exactly well-formed UTF-8 and writes the UTF-16 units of its scalars, with the byte each one's scalar starts at, never more units than bytes |
| BreUtf8.Utf16 | generated/bre-parser.hpp:620-626 | a scalar's one or two units give the scalar back, as in section 2.1 of RFC 2781 |
| BreUtf8.DecodeBoth | generated/bre-parser.hpp:598-630 | run on one string without NUL, the text check and the lexer's decoder accept alike, and the decoder's units are those of the scalars the check read |
| BrePatterns.PatternEnds | generated/bre-parser.hpp:103-566 | what each of the 23 token programs matches at a position: one given unit, a range, `$` at the end or before `\)`, `[` before `:`, `.` or `=`, a surrogate pair or a unit outside the excluded ranges |
| BrePatterns.EvalIsPlain | generated/bre-parser.hpp:632-639 | programs whose edges all lead to earlier instructions never meet a cell twice, so the ordered search never finds them invalid |
| BreLexer.BestThere | generated/bre-parser.hpp:671-699 | where a scalar starts, the longest match is that scalar, by the first pattern that takes it; there is none exactly for NUL and U+07DA |
| BreLexer.Longest | generated/bre-parser.hpp:671-699 | the loop over the patterns, each run on the ordered engine, skips empty matches and keeps the first longest one |
| BreLexer.Tokenize | generated/bre-parser.hpp:641-732 | one token for every scalar, with exactly its bytes, and one for the end; it fails exactly when the text is malformed, holds NUL or U+07DA, or has no room in the token array; so there are at most as many tokens before the end as bytes |
| PegEvents.FlattenNested | maia_bre_compile.cpp:18-23 | the event array of a parse tree is a well-nested preorder tree: ranges tile their parents' ranges |
| PegEvents.Collector.Restore | maia_bre_compile.cpp:16-17 | restoring a mark brings back its count and open node and with them the node prefix |
| PegEvents.Collector.Append | maia_bre_compile.cpp:18-22 | a node is appended under the open one, or the overflow is noted |
| PegEvents.Collector.Close | maia_bre_compile.cpp:23 | the open rule's range ends here, its parent is open again, and a completed watched rule is noted for good |
| PegParser.Parser.Rule | generated/bre-parser.hpp:1007-1061 | a rule accepts, ends and emits as the grammar without a memo says; a failure, remembered or fresh, leaves position and events as at its entry; node room runs out only if the plain parse needs more, and the watched rule is noted exactly when the plain parse completes it |
| PegParser.Parser.Repetition | generated/bre-parser.hpp:1032-1042 | the loop repeats the rule while it matches and consumes, rolling back the last failure |
| PegParser.Parser.Choice | generated/bre-parser.hpp:1091-1193 | the first matching alternative is taken, failed ones leave no events |
| PegParser.Parser.Sequence | generated/bre-parser.hpp:1195-1214 | items match one after the other and emit in order |
| PegParser.ParseInput | generated/bre-parser.hpp:969-1005 | the memo is transparent: acceptance, position, the node array and the noted rule are those of the plain ordered-choice grammar; no node is dropped when the plain parse fits |
| PegSyntax.ShapeFlattens | maia_bre_compile.cpp:16-23 | naming the parser's node array gives exactly the array of the syntax tree that lowering expects |
| PegAnalysis.RuleGrown | generated/bre-parser.hpp:1007-1214 | in every parse tree of any grammar table, below a rule stand only rules it calls, and one of a set whenever its items need one, and its leaves are tokens the parse consumed |
| PegAnalysis.UnseenRule | maia_bre_compile.cpp:23 | a rule that was never completed during the parse is not in the tree |
| PegAnalysis.RulePaid | generated/bre-parser.hpp:1007-1214 | if every rule of a table pays for itself under a tariff, the tokens a parse consumes pay for its whole tree |
| PegAnalysis.RulePeak | maia_bre_compile.cpp:18-19 | the most nodes held at any moment of a parse, abandoned branches included, is bounded by the remaining tokens and a constant of the rule |
| BreGrammar.TableOk | grammar/bre.ebnf:2-73 | rules of the BRE table call only later ones, so the parser's recursion is bounded by the table |
| BreGrammarFacts.CallsAre | grammar/bre.ebnf:2-73 | which rules each rule of the BRE table can have directly below it |
| BreGrammarFacts.TablePays | grammar/bre.ebnf:2-73 | every rule of the BRE table pays for itself at two instructions, one range and four nodes a token |
| BreParsed.ParsedShape | grammar/bre.ebnf:3-73 | a pattern's syntax tree has the shape lowering relies on: a piece repeats one atom, loops are separated by groups, nothing lowers below a single instruction |
| BreParsed.ParsedBodied | grammar/bre.ebnf:4-53 | a repeated piece of an accepted pattern always has something to repeat |
| BreParsed.ParsedNesting | grammar/bre.ebnf:3-42 | groups nest at most nine deep |
| BreParsed.ParsedPattern | grammar/bre.ebnf:2-73 | for every token string the grammar accepts, shape, nesting of at most nine, and code of at most two instructions for every token before the end, and one more; the bound in bytes is that of BreFront.CompilePattern |
| BrePattern.PatternRanges | maia_bre_compile.cpp:39-86 | the ranges that decoding appends for all classes of a parsed pattern are at most as many as its tokens before the end |
| BrePattern.PatternClean | maia_bre_compile.cpp:32-38 | when every token before the end is one scalar, decoding any node of a complete parse can only report BADPAT, LIMIT or UNSUPPORTED, never a malformed text |
| BreParsed.PatternPeak | maia_bre_compile.cpp:18-19 | the parser never holds more than four nodes for every token, and nine more, so the array of 8192 nodes never overflows |
| BreFront.TextStatusOk | maia_bre_compile.cpp:167-183 | a readable pattern's status is Ok exactly when the lexer takes every scalar, the grammar accepts it without exceeding its nesting, and the tree can be compiled within the caller's own limits |
| BreFront.CompilePattern | maia_bre_compile.cpp:160-187 | from the bytes of a pattern to its program: the status is one function of bytes, limits and workspace, and Ok exactly when limits are in order, the text fits and is well-formed, the lexer takes every scalar, the grammar accepts it without exceeding its nesting, everything is supported, operands decode, references are legal and the caller's own limits suffice; at most 2n+1 instructions and n ranges for n bytes |
| BreFront.AllottedSuffices | maia_bre_compile.cpp:178-179 | the code and range arrays of twice the bytes and 16 entries are never the reason of a failure: with them a pattern exceeds the limits exactly when it exceeds the caller's |
| BreFront.CompiledRunnable | maia_bre_compile.cpp:160-187 | every program that compiling delivers is what the executor's theorems ask for |
| BreFront.LetterRefused | grammar/bre.ebnf:98 | the well-formed pattern U+07DA is refused with BADPAT, though the grammar file's CHAR includes it |

## Left out

- Size overflow: allocation sizes, the cycle epoch, opening serials and buffer growth are unbounded naturals; the LIMIT exits that guard their overflow are part of a refused growth or not modelled.
- Workspace accounting: the byte counts behind `max_workspace_bytes` and real allocation failure are one nondeterministic refusal in the BRE executor; the ordered engine's, the lexer's and the compiler's allocations succeed, and the size of the compiler's structure is a parameter.
- NULL pointers, magic numbers, freeing of whole programs, default limits and the info accessor.
- BreLexer.Tokenize: skipped tokens, contextual and template patterns and preferences between patterns are not modelled, because no pattern of the table has any.
- PegParser.ParseInput: error counters and contextual tokens are not modelled; when a node was dropped for lack of room nothing is said about the events, since the program then reports LIMIT.
- The legacy matcher `regex.c`, scripts, builds and bindings.
