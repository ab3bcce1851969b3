# A verified model of pbench

pbench runs benchmark queries against Presto clusters. This project models the parts of it whose correctness is
hard to see from the code, and proves what they guarantee:

- **Stage execution.** Stages form a graph. Each stage is run by the goroutine that wins its `started` flag, waits for
  a latch, propagates its settings, runs its queries and triggers its children. `StageRun` models this as a step
  relation in which every step is one access to shared state and the steps of different goroutines interleave in any
  order; `StageSafety` and `StageProgress` prove invariants and termination for all runs. `StageFiles` and `StageGraph`
  cover how the graph is read and checked, `StageSettings` inheritance and clients, `QuerySchedule`, `RandomDraws` and
  `RandomRun` the queries inside a stage, `RunResults` what happens to the results.
- **The SQL splitter.** `SqlLexer` holds a byte-at-a-time automaton and the index-jumping scanner that must agree with
  it, `SqlText` what the automaton makes of strings, comments and open text; `SqlSplitter` is the streaming driver,
  which sees the input in arbitrary pieces.
- **Query plans.** `PlanTraverse` walks a plan cut into fragments, and `PlanOrder` says in which order. `PlanValues` is
  the meaning of tracing identifiers through assignments, `PlanTrace` the tracing itself, which overwrites shared values
  in place, `PlanTables` the tables that columns end up with, `PlanJoins` the collection of joins, `JoinShape` which
  joins those are, and `JoinSearch` the collection over a whole plan.
- **Denormalization.** `RowProduct` is the ordered product, `Denormalize` the collector that extends row objects in
  place, `RowShape` what the rows look like, `DroppedRows` what a shortcut of the collector costs.
- **Forwarding.** `ForwardLoop` is the poll loop of `pbench forward`.

Where the code updates state in place the model is a class or a method with loops, proved against a specification
function; the lemmas then say what that function means. Methods and classes carry the names of the code where they
model one function of it, and some of its longer functions are cut into several methods at block borders. `Wrappers`
holds the option type.

`bufio.Scanner` is part of Go's standard library. It is modelled after its documentation: a split call that returns
no token makes the scanner read more, and after the end of the input it ends the scan.

## What does not hold

Some properties that the design suggests are false of the code. Each is stated as the exact condition under which the
code has it, with an example of the failure.

- `SplitQueries` loses statements. At the end of the input, an empty statement (`;;`) ends the scan although text is
  left, because ScanSqlStmt returns no token for it (prestoapi/query_splitter.go:86-88). A file read in one piece keeps
  all statements exactly if no two blank statements come before another one: `SqlSplitter.FileSplitExactly`,
  `SqlSplitter.DroppedStatement`.
- A run can hang. A stage that returns an error without cancelling the context counts down its children's latches but
  does not trigger them, so a grandchild with another parent waits forever. Errors of `expandQueryFileDirs` and of
  `runRandomly` without `randomly_execute_until` are of that kind when `abort_on_error` is off, whether written or left
  out. Given stages can hang a run by failing exactly if that cuts off a parent of a stage that is still reached, and
  none of them that runs has `abort_on_error` on, its own or inherited: `StageProgress.HangsExactly`,
  `StageProgress.OrphanedExactly`, `StageProgress.HangExample`.
- A root cancelled at its `select` dereferences an unset `AbortOnError`. A run that does so exists exactly if the root
  has no `abort_on_error` setting: `StageSafety.CanCrashExactly`, `StageSafety.CrashingRun`.
- A slice is skipped as a whole when its first element is nil (utils/orm.go:152-155), although the comment above the
  function promises one row per element: `DroppedRows.CollectsAllExactly`, `DroppedRows.NilFirstExample`.
- Tracing identifiers keeps their meaning exactly if no value mentions a name that is assigned afterwards. `x := f(x)`
  makes tracing run forever, and a name assigned late changes values stored before: `PlanValues.KeptExactly`.
- The traversal mode called breadth-first is depth-first, parents before children. Its visits are level by level exactly
  if under no visited node a branch reaches below the top of a later one; where references to fragments have no children
  this means that only the last visited node under each parent has children: `PlanOrder.ByLevelExactly`,
  `PlanOrder.SingleFileExactly`, `PlanOrder.NotBreadthFirst`.
- A query is never forwarded when it is created no later than a query listed by an earlier poll, even if it had not
  been listed yet: `ForwardLoop.FirstTimeOrNever`, `ForwardLoop.SameTimeExample`.
- A stage's own session parameters are set only on a new client (stage/stage_utils.go:166-171). A stage has them on its
  client exactly if it gets a new one or the inherited one has them already: `StageSettings.Stage.PrepareClient`,
  `StageSettings.LostParameterExample`.

## Model

| member | source | states |
|---|---|---|
| SqlLexer.FirstEndEnds | prestoapi/query_splitter.go:22-94 | the reference terminator is a ';' the automaton reads outside comments and quotes, and there is none before it |
| SqlLexer.EndsIsLocal | prestoapi/query_splitter.go:103-104 | asking for more data is safe: later bytes never change whether a ';' already read ends a statement |
| SqlText.StringSkipped | prestoapi/query_splitter.go:47-61 | a string in single or double quotes, with backslashes that take the next byte with them, ends no statement, and after it the text is open |
| SqlText.LineCommentSkipped | prestoapi/query_splitter.go:28-34 | nor does a comment from two dashes to the end of the line |
| SqlText.BlockCommentSkipped | prestoapi/query_splitter.go:35-46 | nor a block comment up to its first end mark |
| SqlText.OpenByte | prestoapi/query_splitter.go:62-94 | in open text exactly a ';' ends a statement, and every byte leaves it open but a quote, a second dash and a star after a slash |
| SqlLexer.CountBackslashes | prestoapi/query_splitter.go:52-55 | the backward loop counts exactly the backslashes that end the text before the quote |
| SqlLexer.JumpQuote | prestoapi/query_splitter.go:47-61 | jumping to the next quote byte stays in the string, and an odd backward count of backslashes is the automaton's escape state |
| SqlLexer.JumpBlock | prestoapi/query_splitter.go:35-46 | jumping to the next '*' stays inside the block comment |
| SqlLexer.JumpOpen | prestoapi/query_splitter.go:62-64 | jumping to the next special byte passes no terminator, comment or quote |
| SqlLexer.ScanSqlStmt | prestoapi/query_splitter.go:22-105 | for every buffer, at the end of input or not, the jumping scanner returns the advance and the trimmed statement given by the first terminator of the byte-at-a-time automaton |
| SqlSplitter.PiecesCut | prestoapi/query_splitter.go:82-89 | the reference split loses no byte: its pieces are uncut, all but the last are terminated, and joined with ';' they are the input |
| SqlSplitter.CutIsPieces | prestoapi/query_splitter.go:82-89 | the converse: every list of such pieces is the split of the text it joins to |
| SqlSplitter.StatementAt | prestoapi/query_splitter.go:83-104 | the statements are the pieces that are not blank, trimmed, in their order |
| SqlSplitter.Scanner.Scan | prestoapi/query_splitter.go:16-18 | one call hands out the next token and consumes input, or stops where no token is left |
| SqlSplitter.SplitQueries | prestoapi/query_splitter.go:10-20 | the list returned is the token stream of the scanner on the given reads |
| SqlSplitter.TokensAreStatements | prestoapi/query_splitter.go:10-20 | for every cutting into reads the list is a first part of the statements of the input, and all of them exactly if what is held at the end of input has no blank piece before a statement |
| SqlSplitter.ChunkIndependentExactly | prestoapi/query_splitter.go:10-20 | all cuttings into reads give the statements of the input exactly if no blank statement comes before another one |
| SqlSplitter.FileSplitExactly | prestoapi/query_splitter.go:10-20 | for files, whose end of input is a read of its own: all cuttings agree with the statements exactly if no two blank ones come before another one, which is when one whole read does |
| SqlSplitter.DroppedStatement | prestoapi/query_splitter.go:86-88 | "a;;b;;c" read at once loses a statement, the same bytes in three reads lose none |
| SqlSplitter.SplitJoinSplit | prestoapi/query_splitter.go:83-104 | normal form: joining any list the splitter gave with a newline and ';' and splitting again, in any cutting, gives that list |
| StageGraph.Stages.ParseStageFromFile | stage/map.go:84-95 | a file is registered once, and a name known already is answered without reading; on success the stage and everything registered with it is complete and reachable from it; an error is that of the file or of one it leads to |
| StageGraph.Stages.ParseStage | stage/map.go:97-124 | keeps the map sound (latch of each stage = edges into it, children are what the paths name), also on errors and on cyclic files, and ends because unparsed ids decrease; it fails only for a missing, directory or unreadable next path of a definition that this one leads to, and names it |
| StageGraph.Stages.LinkChildren | stage/map.go:115-122 | every path becomes a child, in order, and the latch of each child grows by one; it fails only where a child's file cannot be read or leads to a fault |
| StageGraph.Stages.AddEdge | stage/map.go:119-120 | the edge and the latch change together, nothing else does |
| StageFiles.FaultBelow | stage/map.go:115-118 | a fault of a file that a definition names, or of what that file leads to, is one the definition leads to |
| StageGraph.Stages.FirstBadPath | stage/map.go:103-113 | finds an error exactly if some path is missing or a directory, and names the first |
| StageGraph.LinkChecker.Check | stage/map.go:138-155 | `visiting` is restored on every way out, and the result is the check as a function of the set |
| StageGraph.CheckSound | stage/map.go:138-155 | when the check passes, no walk from the stage repeats a stage or meets a duplicated child |
| StageGraph.CheckComplete | stage/map.go:138-155 | when it fails, such a walk exists |
| StageGraph.LinksExactly | stage/map.go:134-155 | the check passes exactly if no reachable stage lies on a cycle or lists a child twice |
| StageGraph.ErrorMeans | stage/map.go:138-155 | the error names a reachable stage on a cycle, or a reachable stage and the child that it lists twice |
| StageGraph.AncestorsRank | stage/map.go:138-155 | without cycles the number of ancestors grows along every edge, which orders the stages topologically |
| StageGraph.GraphIsRunnable | stage/map.go:22-32 | a checked graph is what Run needs: the root's latch is zero, every other stage has a parent, a topological numbering exists |
| StageGraph.ParsedHasNoFault | stage/map.go:84-124 | where file names, ids and contents agree, a graph that was read leads to no missing, directory or unreadable file, although files are looked up by name |
| StageGraph.ParseStageGraph | stage/map.go:22-32 | either the start leads to a fault and the error is one, or the map holds exactly complete stages reachable from the start, latches count edges, and the outcome is that of the link check, on success with the root's latch at zero; with unambiguous names every fault that the start leads to is an error |
| StageSafety.Keeps | stage/stage.go:250-311 | every step of every goroutine and of the main loop keeps the eleven invariants of the protocol |
| StageSafety.ExitLatchCounts | stage/stage.go:165-182 | in every reachable state `wgExitMainStage` is the number of live stage goroutines, children about to be started and background writers; at zero nothing is left, and it stays zero |
| StageSafety.StagesRunOnceInOrder | stage/stage.go:251-284 | no latch goes below zero, no stage body runs twice, a stage passes its wait only after each parent counted its latch down, and without cancellation the order is topological |
| StageSafety.SettingsBeforeStart | stage/stage_utils.go:244-304 | no goroutine of a stage other than the root gets past `started` before the stage inherited its settings |
| StageSafety.NoResultLost | stage/stage.go:197-245 | sent results are received ones followed by buffered ones, and when Run returns all were received |
| StageSafety.CrashExactly | stage/stage.go:256-283 | in every run an unset AbortOnError is dereferenced only by a root cancelled at its select with nothing run, and such a root does nothing else |
| StageSafety.CanCrashExactly | stage/stage.go:256-283 | some run dereferences an unset AbortOnError exactly if the root has no abort_on_error setting |
| StageSafety.CrashingRun | stage/stage.go:256-283 | the run that does: start, signal, return at the select |
| StageProgress.MeasureStep | stage/stage.go:250-311 | every step but the interruption decreases the measure |
| StageProgress.RunsAreFinite | stage/stage.go:250-311 | every interleaving ends: no run has more steps than its initial measure, and one for the interruption |
| StageProgress.StuckMeans | stage/stage.go:197-284 | where nothing can move, the run has finished with the exit latch at zero, or some stage waits forever |
| StageProgress.OrphanedMeans | stage/stage.go:265-277 | which failures block a stage can be read off the graph: a triggered stage with a parent no one triggers |
| StageProgress.OrphanedExactly | stage/stage.go:265-277 | failures orphan a stage exactly if an edge leads from a stage that every way from the root to it fails on to one that is reached without a failure |
| StageProgress.TreesHaveNoOrphans | stage/stage.go:265-277 | with one parent per stage no failure blocks anything |
| StageProgress.RunEndsExactly | stage/stage.go:250-311 | for every interleaving, a run that can go no further has finished exactly if the context was cancelled or the failures orphaned no stage |
| StageProgress.AbortingRunFinishes | stage/stage.go:257-263 | if each failing stage has abort_on_error set, or none fails, every maximal run that does not dereference an unset AbortOnError finishes with the exit latch at zero |
| StageProgress.FailureFreeRun | stage/stage.go:250-311 | without failure and cancellation every stage runs exactly once, after all its parents |
| StageProgress.HangsExactly | stage/stage.go:257-279 | given failures can hang a run only if they orphan a stage, and they can if moreover none of the failing stages that run may cancel the context, by its own or an inherited abort_on_error; exactly then, unless what a failing stage inherits depends on which parent comes first |
| StageProgress.NothingSet | stage/stage_utils.go:288-290 | no stage may cancel the context in a configuration in which none switches abort_on_error on, whether it is written or left out |
| StageProgress.HangExample | stage/stage.go:293-295 | four stages without settings of which one fails: the run hangs |
| StageSettings.Stage.SetDefaults | stage/stage_utils.go:212-242 | after it every setting a run reads is there; run counts that add up to at least one are kept, otherwise one cold run is made |
| StageSettings.Stage.PropagateOnce | stage/stage_utils.go:246-302 | a child inherits from the first parent only; a second one changes nothing; a child that leaves both run counts open gets the parent's cold and warm ones, any other makes its own |
| StageSettings.Stage.PropagateStates | stage/stage_utils.go:244-304 | all children are served, those served before stay as they are |
| StageSettings.Stage.PrepareClient | stage/stage_utils.go:154-210 | declared catalog, schema and time zone are those of the client used and the current ones; the inherited client is kept exactly if allowed and fitting, and never changed; the stage's own session parameters are on the client exactly if it is new or had them |
| StageSettings.Stage.SetUp | stage/stage_utils.go:178-209 | a new client has what the stage declares, session parameters included, and keeps the rest: no parameter is lost, and none appears that neither had |
| StageSettings.Stage.SetParams | stage/stage_utils.go:194-196 | in whatever order the map is read, the client's session parameters are overlaid by the stage's |
| StageSettings.LostParameterExample | stage/stage_utils.go:154-171 | a child with a session parameter of its own goes on with its parent's client, which does not have it |
| StageSettings.Stage.InheritParameters | stage/stage_utils.go:253-275 | in whatever order the map is read: the parent's parameters that have a value, under the child's own |
| StageSettings.Stage.InheritRunCounts | stage/stage_utils.go:276-287 | with both counts open the parent's cold and warm ones; otherwise the stage's own, a missing one as zero, or one cold run if they add up to none |
| StageSettings.NearestWins | stage/stage_utils.go:244-304 | along every chain of stages the nearest one that sets a field decides it |
| StageSettings.DefaultWins | stage/stage_utils.go:212-304 | and the default only if none does |
| StageSettings.FieldsPass | stage/stage_utils.go:212-304 | the ten fields this holds for |
| StageSettings.ChainIsComplete | stage/stage_utils.go:212-304 | along every chain each stage makes at least one run |
| StageSettings.NearestCounts | stage/stage_utils.go:276-287 | along every chain the nearest stage that sets either run count decides both |
| StageSettings.DefaultCounts | stage/stage_utils.go:232-241 | and where none does, one cold run is made and no warm one |
| StageSettings.OpenCountsInherited | stage/stage_utils.go:276-278 | a stage that leaves both open runs as often as its parent, cold and warm |
| StageSettings.ParamInherited | stage/stage_utils.go:268-275 | each session parameter is the stage's own, or else the parent's if that has a value, or else not there |
| StageSettings.OwnSettingsKept | stage/stage_utils.go:246-299 | inheriting never overwrites what the stage set itself, session parameters included, run counts apart |
| StageSettings.OwnCountsKeptExactly | stage/stage_utils.go:276-287 | a stage's own cold and warm runs are kept exactly if they add up to at least one run, or say one and none |
| StageSettings.InheritedIsComplete | stage/stage_utils.go:276-287 | what is inherited from a running stage is complete, so the later defaults change nothing |
| QuerySchedule.ExpectedByGlobalIndex | stage/stage.go:404-451 | the expected row count of a query of the stage goes by its number over inline queries and files, up to the first unreadable file |
| QuerySchedule.ExpectedExactly | stage/stage.go:404-451 | where file f is the first unreadable one, query g is expected to have the rows of entry g if it stands before that file, and is unspecified otherwise and past the end of the counts |
| QuerySchedule.InlineAt | stage/stage.go:404-406 | the inline queries come first, in order, with their place and batch size |
| QuerySchedule.FileQueryAt | stage/stage.go:407-414 | query i of readable file f stands after all queries before that file, with its text, the file's name, its place and batch size |
| QuerySchedule.JobsAt | stage/stage.go:568-590 | query i of a batch has its text, place, batch size and the expected count of its number in the stage |
| QuerySchedule.AllRunsAt | stage/stage.go:578-587 | run j of job q is run number q times the runs per job plus j, and cold exactly among the first cold ones |
| QuerySchedule.ThroughRuns | stage/stage.go:577-587 | going through jobs adds exactly the cold and warm runs of each, in order, the first of each job cold: stated on what was sent |
| QuerySchedule.StageRunner.RunCycles | stage/stage.go:577-615 | as many results as cold and warm runs together, the first ones cold; it stops after the first result that aborts, and no earlier one does; only then the exit code is set, to 1 if it was zero |
| QuerySchedule.StageRunner.RunJob | stage/stage.go:570-624 | two script batches around the runs; a failing script before them runs nothing, an aborting run still gets the scripts after it, and the exit code is the one set first: 1 for a run, the script's own for a script |
| QuerySchedule.StageRunner.RunQueries | stage/stage.go:568-626 | all queries of the batch were gone through in order, or all before one of them, and that one stopped the stage in one of the ways above |
| QuerySchedule.StageRunner.RunQueryFile | stage/stage.go:418-454 | an unreadable file stops the stage with its exit code set, or else drops the expected counts and keeps the start index |
| QuerySchedule.StageRunner.RunFileAt | stage/stage.go:407-414 | the start index passed on is the number of queries so far, over all readable files |
| QuerySchedule.StageRunner.RunSequentially | stage/stage.go:404-416 | every query in order, each with all its cold and warm results, or up to one that stopped the stage, or, with abort_on_error, up to the first file that cannot be read; results, scripts run and exit code are given in each case |
| QuerySchedule.StoppedSends | stage/stage.go:568-626 | wherever a stage stops, what it sent is a first part of all its runs |
| QuerySchedule.StoppedConcat | stage/stage.go:404-416 | stopping in a later batch after going through the earlier ones is stopping in all of them together |
| RandomDraws.Dealer.NextIndex | stage/stage.go:488-501 | draw i without duplicates is entry i modulo n of permutation i / n, for all i |
| RandomDraws.BlockDraws | stage/stage.go:491-499 | each aligned block of n draws is one permutation of all queries |
| RandomDraws.EvenUse | stage/stage.go:485-499 | after m draws every query was drawn m / n or m / n + 1 times |
| RandomDraws.DifferByOne | stage/stage.go:485-487 | any two queries' counts differ by at most one |
| RandomDraws.SkipDropsFirst | stage/stage.go:505-510 | skipping k rounds picks exactly what runs without skipping, minus the first k, under the same names |
| RandomDraws.PicksExactly | stage/stage.go:503-528 | one pick for each round after the skipped ones, of the query or file drawn in that round and under its number |
| RandomRun.RunPick | stage/stage.go:511-527 | an inline query or a query file runs under the name of its round; it goes through, or stops for a run, a script or an unreadable file, with results, scripts run and exit code given |
| RandomRun.RunRound | stage/stage.go:503-528 | a skipped round draws but runs nothing; any other runs what it drew |
| RandomRun.DrawnPicks | stage/stage.go:456-531 | with a count limit exactly the rounds up to it pick, less the skipped ones, and round i picks draw i - 1 |
| RandomRun.PickRuns | stage/stage.go:511-527 | an inline pick is one query, a file pick all queries of the file, under the name of the round |
| RandomRun.PlanQueryAt | stage/stage.go:503-528 | the queries of each pick stand after those of all picks before it |
| RandomRun.RunRandomly | stage/stage.go:456-531 | with a count limit: all queries drawn in the rounds after the skipped ones were gone through, each drawn query existing; or those up to one that stopped the stage or, with abort_on_error, to the first unreadable file |
| RunResults.MainStage.Receive | stage/stage.go:199-205 | each result is kept and passed once to every recorder, in order |
| RunResults.MainStage.Collect | stage/stage.go:197-243 | every recorder sees all results in the order received, once, and then the whole list; the finish time is the latest end |
| RunResults.MainStage.SetFinishTime | stage/stage.go:233-237 | the loop computes the latest end time |
| RunResults.FinishTimeIsMax | stage/stage.go:229-237 | which is the maximum of the initial value and all end times |
| PlanTraverse.Walker.Traverse | prestoapi/plan_node/plan_node.go:60-99 | in every mode and for every behaviour of the callback and the context: the recursion does what running the event list of the stitched tree does, up to the first error |
| PlanTraverse.Walker.VisitChildren | prestoapi/plan_node/plan_node.go:68-76 | the children one after the other, one level deeper, stopping at the first error |
| PlanTraverse.Walker.VisitSources | prestoapi/plan_node/plan_node.go:82-91 | the fragments at the depth of the node they replace; a missing one is an error |
| PlanTraverse.TraversePlan | prestoapi/plan_node/plan_node.go:105-110 | starts at fragment "0" one level below the caller, or reports that there is none |
| PlanTraverse.VisitsArePrefix | prestoapi/plan_node/plan_node.go:60-99 | whatever fails, the nodes visited are a first part of the order, and all of it without an error |
| PlanTraverse.StopsOnlyAtMissing | prestoapi/plan_node/plan_node.go:83-91 | without cancellation and callback errors the walk visits exactly the nodes before the first missing fragment and names it |
| PlanTraverse.StopsAtFirst | prestoapi/plan_node/plan_node.go:60-99 | whatever the context, the callback and the fragments do: the walk stops at the first cancelled check, failing callback or missing fragment, with that error, and has visited what came before |
| PlanTraverse.GoesThrough | prestoapi/plan_node/plan_node.go:60-99 | and goes through if there is none |
| PlanTraverse.ChecksEachNode | prestoapi/plan_node/plan_node.go:65-67 | both modes look at the context exactly once for each node, first |
| PlanTraverse.SameVisits | prestoapi/plan_node/plan_node.go:77-97 | both orders visit the same nodes at the same depths, equally often |
| PlanTraverse.StitchLeveled | prestoapi/plan_node/plan_node.go:48-58 | each visited node is one level below its parent across fragments, and no node that refers to fragments is visited |
| PlanOrder.StitchInOrder | prestoapi/plan_node/plan_node.go:68-91 | the stitched tree has the plan's children and fragments in their order |
| PlanOrder.PostOrderReached | prestoapi/plan_node/plan_node.go:77-92 | the depth-first mode hands out the nodes of the stitched tree in post-order, up to the first missing fragment |
| PlanOrder.ChildrenFirst | prestoapi/plan_node/plan_node.go:77-92 | so an uninterrupted depth-first walk visits exactly those |
| PlanOrder.BelowComesFirst | prestoapi/plan_node/plan_node.go:77-92 | in that order a node comes right after everything below it, at any place in the tree |
| PlanOrder.RootsCover | prestoapi/plan_node/plan_node.go:77-97 | the default mode hands out the visited nodes of the stitched tree in pre-order, up to the first missing fragment |
| PlanOrder.PreOrderByLevel | prestoapi/plan_node/plan_node.go:95-97 | pre-order is an order by level exactly if no branch reaches below the top of a later one, here and further down |
| PlanOrder.ByLevelExactly | prestoapi/plan_node/plan_node.go:48-99 | for every plan without cycles, missing fragments included: an uninterrupted walk in the default mode visits level by level exactly under that condition |
| PlanOrder.SingleFileExactly | prestoapi/plan_node/plan_node.go:48-99 | where references have no children of their own: exactly if only the last visited node under each parent has children |
| PlanOrder.NotBreadthFirst | prestoapi/plan_node/plan_node.go:95-97 | a grandchild is visited before the second child |
| PlanValues.TraceIsSubst | prestoapi/plan_node/plan_node.go:112-135 | when no stored value mentions a stored name, tracing ends and is one simultaneous replacement |
| PlanValues.TracedIsNormal | prestoapi/plan_node/plan_node.go:120-125 | whatever is stored, a traced value mentions no stored name |
| PlanValues.SelfReferenceDiverges | prestoapi/plan_node/plan_node.go:120-122 | tracing a name whose value mentions itself ends with no amount of lookups |
| PlanValues.StableExactly | prestoapi/plan_node/plan_node.go:112-135 | tracing every stored name gives just its stored value exactly if no stored value mentions a stored name |
| PlanValues.ClosedNextExactly | prestoapi/plan_node/plan_node.go:149-152 | an assignment keeps that property exactly if the assigned name occurs in no other value and not in its own traced one |
| PlanValues.KeptExactly | prestoapi/plan_node/plan_node.go:148-153 | through a whole run tracing any name gives its value by direct evaluation in visit order, exactly if every assignment is of that kind |
| PlanValues.DirectMeans | prestoapi/plan_node/plan_node.go:148-153 | the symbolic values mean what running the assignments on plain values gives, under every interpretation |
| PlanValues.TracingKeepsMeaning | prestoapi/plan_node/plan_node.go:112-153 | so the traced value of a name over base columns has the value of the name, whatever columns and operators mean |
| PlanValues.SelfAssignmentExample | prestoapi/plan_node/plan_node.go:121-122 | x := f(x) is stored, and tracing x then never ends |
| PlanValues.LateAssignmentExample | prestoapi/plan_node/plan_node.go:150-152 | y := f(x), x := c: y is read with the later x |
| PlanTrace.TraceValue | prestoapi/plan_node/plan_node.go:112-135 | in place and with sharing: the result is the replaced term, values stored before keep their terms, and of all values exactly the columns in the result that had no table get the given one |
| PlanTrace.TraceLeaf | prestoapi/plan_node/plan_node.go:113-124 | a column without a table gets the given one, nothing else changes |
| PlanTrace.TraceArgs | prestoapi/plan_node/plan_node.go:118-132 | the arguments are overwritten one by one by their traced values, and so are the tables of their columns |
| PlanTrace.SettledClosed | prestoapi/plan_node/plan_node.go:121-122 | the stored values mention no stored name, so lookups end |
| PlanTrace.WholeSpells | prestoapi/plan_node/plan_node.go:112-135 | among values whose shapes fit their terms the fields alone, read from the value down, spell out its term |
| PlanTables.TableIsFirst | prestoapi/plan_node/plan_node.go:113-117 | a column without a table ends up with that of the first traced value that reaches it and has one |
| PlanTables.TableUnreached | prestoapi/plan_node/plan_node.go:113-117 | and with none if there is no such value |
| PlanTables.TableStays | prestoapi/plan_node/plan_node.go:113-117 | a table that is set is never overwritten |
| PlanTables.OwnTable | prestoapi/plan_node/plan_node.go:141-153 | a column of a value ends up with the table of the value's own plan node if that has one |
| PlanJoins.JoinParser.Assign | prestoapi/plan_node/plan_node.go:150-152 | the map binds each name to its value by direct evaluation, the fields of joins found earlier still spell out what they did, also for values no longer stored, and exactly the columns reached that had no table get the node's |
| PlanJoins.JoinParser.ParseStatements | prestoapi/plan_node/plan_node.go:148-153 | the assignments of a node are traced from the last to the first |
| PlanJoins.JoinParser.AddPairs | prestoapi/plan_node/plan_node.go:166-174 | a join is added exactly for predicates with one identifier on each side, with the values bound to them |
| PlanJoins.JoinParser.ParseNode | prestoapi/plan_node/plan_node.go:140-179 | a node is an error exactly if its details or join condition do not parse or the condition is empty; its own assignments count for its joins |
| PlanJoins.ParseJoins | prestoapi/plan_node/plan_node.go:140-183 | the joins of all nodes in order; the fields of each side, read down to its columns, spell out the direct value of its identifier at that node, although values are shared and overwritten; every column has the table it had, or else that of its own node if there is one |
| JoinShape.JoinsExactly | prestoapi/plan_node/plan_node.go:154-175 | the joins found are those of comparisons of one name with one name in the conditions of join nodes, all of them and no others, the left name's value on the left |
| JoinShape.PredicatesExactly | prestoapi/plan_node/identifier.go:116-134 | the predicates of a condition are its comparisons in both halves of logical expressions |
| JoinShape.BackwardFrom | prestoapi/plan_node/plan_node.go:148-153 | each assignment of a node is traced after exactly those that follow it in the text |
| JoinSearch.WalkPlan | prestoapi/plan_node/plan_node.go:137-181 | the nodes reach the parser in the post-order of the stitched plan, and the walk goes through exactly if there is a root fragment, no fragment is missing and every node parses |
| JoinSearch.FindJoins | prestoapi/plan_node/plan_node.go:137-183 | the joins and tables of a whole plan are those of its nodes in that order; otherwise the error is that of the walk |
| RowProduct.ProductAssoc | utils/row.go:47-62 | multiplying rows is associative, so merging field by field is one product |
| RowProduct.CartAppend | utils/orm.go:26-38 | merging one more factor into the rows so far gives the product of all factors |
| RowProduct.CartSize | utils/orm.go:32-34 | the number of rows is the product of the factors' sizes |
| RowProduct.CartAt | utils/row.go:54-62 | each choice of one row per factor is one row, with the columns in field order |
| RowProduct.CartOrdered | utils/row.go:54-62 | the rows stand in lexicographic order of the choices |
| Denormalize.Row.AddColumn | utils/row.go:15-18 | appends one column in place |
| Denormalize.MergeColumns | utils/row.go:27-45 | a new row object with the columns of both |
| Denormalize.MultiplyRows | utils/row.go:47-62 | new, pairwise different row objects that hold the product |
| Denormalize.MergeRowsMap | utils/orm.go:26-38 | for every table the product with the rows so far, or with one empty row; fails exactly if one product is over the limit, whatever the order of the tables |
| Denormalize.AddToAll | utils/orm.go:136-138 | the column is added in place to each row of the table once, because no row object occurs twice |
| Denormalize.AddTags | utils/orm.go:113-139 | a tagged field multiplies the rows of each of its tables by one column and touches no other table |
| Denormalize.AppendRowsMap | utils/orm.go:162-164 | the rows of an element follow those of the elements before it |
| Denormalize.CollectElements | utils/orm.go:149-165 | a slice is the concatenation of its elements' rows; fails exactly if an element does |
| Denormalize.CollectField | utils/orm.go:106-169 | one more field is one more factor; fails only if the struct cannot fit |
| Denormalize.CollectRowsForEachTable | utils/orm.go:100-172 | for each table the rows are the ordered product of the factors in field order, as fresh and different objects; an error exactly if some struct's product for a named table is over the limit |
| Denormalize.OnlyTables | utils/orm.go:113-117 | tables that were not named get no rows |
| Denormalize.TooBig | utils/orm.go:32-34 | a product over the limit at some field stays over it to the end, so stopping early changes no outcome |
| RowShape.PlainStruct | utils/orm.go:106-139 | a struct of plain fields is one row: its fields that are not nil and named for the table, in field order |
| RowShape.FieldAt | utils/orm.go:113-138 | each of them with its name and value at its place |
| RowShape.PlainThenNested | utils/orm.go:140-168 | in a struct of plain fields that ends with a nested one each row is the plain columns followed by one nested row |
| RowShape.ElemRowAt | utils/orm.go:156-165 | the rows of a slice are those of its elements in their order |
| DroppedRows.CollectsAllExactly | utils/orm.go:152-155 | the rows are those of the product over all slice elements exactly if no slice with a column for the table starts with something else than a struct |
| DroppedRows.NilFirstExample | utils/orm.go:152-155 | the slice [nil, &x] loses the row of x |
| ForwardLoop.Run | cmd/forward/main.go:141-186 | the loop forwards what it should and keeps the cutoff for every series of answers; it stops early only if cancelled or if the last ten polls failed, and at the first such moment |
| ForwardLoop.StreakExactly | cmd/forward/main.go:148-160 | the failure counter counts the failures since the last answer |
| ForwardLoop.UnansweredExactly | cmd/forward/main.go:141-183 | the first batch is the first poll that is answered |
| ForwardLoop.ScanStates | cmd/forward/main.go:164-182 | one answer is compared with the old cutoff only, in whatever order it lists the queries |
| ForwardLoop.CutoffIsMax | cmd/forward/main.go:139-184 | the cutoff is the maximum create time over all answered polls |
| ForwardLoop.ForwardsExactly | cmd/forward/main.go:165-182 | a query is forwarded by a poll exactly if listed there, not in the first answer, and newer than all listed before |
| ForwardLoop.FirstTimeOrNever | cmd/forward/main.go:139-145 | a query is forwarded by the poll that lists it first or never, exactly if that is not the first answer and the query is newer than all listed before |
| ForwardLoop.ForwardedOnce | cmd/forward/main.go:139-145 | no query is forwarded twice |
| ForwardLoop.SameTimeExample | cmd/forward/main.go:170-173 | of two queries created at the same time and listed by different polls the second is never forwarded |

## Left out

- SplitQueries: the 1 MiB limit of the scanner's buffer and its error for a hundred empty reads in a row; white space is ASCII only, and bytes are characters.
- ParseStage: two files of the same name are one stage, of which only the first is read, so that every fault is reported is stated for names that are unambiguous. Making paths absolute, JSON decoding, validation and the check of query files are one outcome, readable or not; a stage pointer is its number in the order of registration. Only ParseStageGraph is modelled as an entry point, ParseStageGraphFromFile differs in reading the first file.
- Run: what a stage does between its prerequisites and its return is a bounded number of results and background writers in any order, including those of several streams; Presto, scripts, files, logging and recorders are outcomes of single steps, and a signal is an interruption at any moment.
- HangsExactly: where a failing stage inherits abort_on_error from parents that disagree, whether the run can hang depends on which parent comes first, and only the two one-way statements are given; RunEndsExactly decides it for each run.
- PropagateOnce: that no other goroutine writes the child's fields meanwhile is StageSafety.SettingsBeforeStart.
- SetUp: session parameters without a value are not modelled on the client.
- RunQueries: the outcome of each run and script, and whether the context is cancelled then, are functions of how many came before, and so is the exit code of a failing script; a batch of scripts is one step.
- RunSequentially: the choice of the expected row counts by catalog and schema is a parameter.
- RunRandomly: time limits and the error for an unset or malformed limit; the random source is any sequence of permutations and draws, and making a file name relative is left out.
- PropagateStates: children are distinct, as the link check ensures.
- Collect: the time limits of the recorder calls.
- Traverse: fragments that refer to each other in a cycle, on which the code does not return; a ghost ranking excludes them.
- TraceValue: calls under which a stored value mentions a stored name. PlanValues covers those, where tracing may not return.
- ParseJoins: the grammars and the table regular expression are not part of this model, so details and conditions arrive parsed or as an error; a comparison without a right side, on which the code panics, is not represented.
- PlainStruct: tables that are named more than once in the call, for which the collector adds a column each time; CollectRowsForEachTable covers them.
- CollectRowsForEachTable: reflection, the compaction of raw JSON and the conversion of durations; a field's value is kept as it is.
- Forwarding a query, cancelling it and the cache of running queries are not modelled, nor is the wait between polls.
- The commands that generate, save, load, compare and replay are left out: they are input and output around small functions.
- Merging stage definitions (MergeWith), log marshallers and the JSON unmarshaller are left out.
