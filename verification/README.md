# Models of ns-3's tooling

ns-3 is a network simulator. This project models five pieces of its Python and C++ tooling and proves
what they are for. Each module follows one source file, or one part of it; `Common` has what several of them use.

**Dependency graphs** (`bindings/python/topsort.py`, with `is_rotated` of `bindings/python/rad_util.py`).
`Graphs` defines walks, cycles, reachability and longest chains on a finite multigraph. `Topsort` holds the
first-in first-out sort and the sort by levels as loops over the two dictionaries; `Rotations` the test for
rotated lists; `Cycles` the cycle search with its stack of paths. `TopsortLaws` and `CycleAgreement` relate
the three, and `TopsortOrder` says in which order the first-in first-out sort lists the elements. A
dictionary is a map whose iteration order is left open.

**The parallel test runner** (`test.py`). `Runner` is a state machine: a main thread that starts workers,
dispatches, sends sentinels, collects and joins; worker threads that take, look at the interrupt flag, run
and return; two queues; an interrupt that may come at any moment. A run is any interleaving. `RunnerSummary`
is the collector's arithmetic and shows that the schedule does not show in it; `RunnerInterrupt` what an
interrupt does to the jobs, and `RunnerReport` what the counters and lists say in terms of return codes.

**The shell pipeline** (`waf-tools/shellcmd.py`). `Shell` has the nodes and an independent surface syntax;
`ShellParse` the six-state token parser, as a class with the source's two fields, and the proof that it
accepts exactly that syntax; `ShellRoundTrip` which pipelines can be a result; `ShellRun` the execution loop
and a recursive meaning, given as the events a run causes; `ShellRunLaws` what follows for the commands
started, where their streams go, the processes waited for and the files closed; `ShellWords` which words
are assignments and how directories follow one another.

**Configuration paths** (`utils/print-introspected-doxygen.cc`). `TypeWalks` has the type database as a
finite graph with named edges and its repetition-free walks, and `TypeEdges` where the edges come from;
`Gather` is the recursive search, a class with the two explicit stacks and the output list of the source.

**Unified diffs** (`utils/check-style.py`). `PatchText` has patches as values, how they are written and how
text is read; `PatchLines` which texts can be read and what is read from them; `PatchRoundTrip` which patch
sets survive being written and read back; `PatchBlanks` the rewriting of dropped trailing blanks on values,
and `PatchBlankLaws` when it keeps the source side and when its result can be written and read again; `Patches` and `PatchReading` the objects, with lines that both
sides of a chunk share, and the methods that write, read and change them.

Where the code and its own documentation disagree, the models follow the code:

- `bindings/python/topsort.py:109-110` says that every leftover has a child. It has a leftover parent;
  `TopsortLaws.LeftoverWithoutChild` gives an input whose leftover has no child, and
  `TopsortLaws.LeftoversHaveChildrenExactlyWhen` says for which inputs the comment holds.
- `utils/print-introspected-doxygen.cc:379-400` says that duplicates are removed in place. The container is
  passed by value, so nothing is removed; `TypeWalks.RepeatedAggregation` gives outputs with a duplicate and
  `TypeWalks.DuplicatesExactlyWhen` says when there is none, and
  `TypeWalks.ReadableDuplicatesExactlyWhen` when that can be seen from the edges.
- `utils/check-style.py:414` asks for any number of trailing blanks, but its greedy first group leaves a
  single one for the second, so two blanks dropped at once are not put back. `PatchBlanks.TwoBlanksKept`
  gives the input, and `PatchBlanks.NoBlanksLeftExactlyWhen` says when no such change is left.
- `bindings/python/topsort.py:232` raises StopIteration at the end of a generator, which is its normal end in
  the Python 2 the file is written for.

## Model

| member | source | states |
|---|---|---|
| Topsort.BuildTables | bindings/python/topsort.py:77-90 | After the loop the parent counts are, for every element of every pair, the number of pairs into it, and the child lists are the children in pair order, duplicates and self-loops included |
| Topsort.KeysAtZero | bindings/python/topsort.py:93 | The list has, without repetition, exactly the keys whose count is zero; the order, which the dictionary decides, is left open |
| Topsort.KnockDown | bindings/python/topsort.py:100-103 | The inner loop takes one listed parent off the counts of its children; no decrement meets a missing key or makes a count negative, and the queue grows by exactly the children that reach zero, one level further down, in the order of their last places in the list of children |
| Topsort.TakeParent | bindings/python/topsort.py:97-106 | One round of the loop takes the next parent out of both tables, which afterwards describe the graph without it; what is left gets smaller, and the queue is again every node left with count zero |
| Topsort.Topsort | bindings/python/topsort.py:77-112 | The answer lists once each, parents first and first in, first out, exactly the nodes that cannot be reached from a cycle; CycleError is raised if and only if there is a cycle, and the two tables it carries are those of the nodes below cycles only |
| Topsort.CountDown | bindings/python/topsort.py:222-223 | Taking a level parent off the counts of its children leaves the counts of the graph without it |
| Topsort.RemoveLevel | bindings/python/topsort.py:217-224 | After a whole level is deleted both tables describe the graph without it |
| Topsort.TakeLevel | bindings/python/topsort.py:205-224 | One round of the loop lists the next level and deletes it from both tables; fewer nodes have a longer chain of ancestors |
| Topsort.TopsortLevelsCore | bindings/python/topsort.py:203-232 | Level k lists exactly the nodes whose longest chain of ancestors has k edges, none is missing, CycleError is raised if and only if there is a cycle, and the tables left over are those of the nodes below cycles |
| Topsort.TopsortLevels | bindings/python/topsort.py:157-172 | The same from a list of pairs: it fails exactly when topsort fails and leaves the same two tables |
| TopsortLaws.TablesOfAGraph | bindings/python/topsort.py:198-200 | The tables asked for, with the number of parents of every item and the lists of children, are exactly those that describe some graph |
| Graphs.StuckIsBelowCycles | bindings/python/topsort.py:108-111 | If the nodes not listed each keep a parent among themselves, they are exactly the nodes reachable from a cycle, and there are some exactly when there is a cycle |
| Graphs.LevelUnique | bindings/python/topsort.py:203-212 | A node has one level only: the length of its longest chain of ancestors |
| TopsortLaws.SuccessfulOrder | bindings/python/topsort.py:62-64 | On success every element of every pair is listed exactly once and every parent stands before its child, for any list of pairs |
| TopsortLaws.CountIsNumberOfPairs | bindings/python/topsort.py:86-87 | A count is the number of positions in the pair list with the node as child and a parent in the given set |
| TopsortLaws.LeftoversHaveParents | bindings/python/topsort.py:108-111 | Every leftover of a failed sort has a leftover parent and a positive count |
| TopsortLaws.LeftoverWithoutChild | bindings/python/topsort.py:109-110 | The comment there, that every leftover has a child, is false: for the pairs (1,1), (1,2) the leftover 2 has none |
| TopsortLaws.LeftoversHaveChildrenExactlyWhen | bindings/python/topsort.py:109-110 | The comment holds, for any pairs, if and only if every element that can be reached from a cycle is a parent in some pair |
| TopsortLaws.BelowCycleHasChains | bindings/python/topsort.py:203-212 | A node below a cycle has chains of ancestors of every length, so it is on no level |
| TopsortLaws.SortFollowsLevels | bindings/python/topsort.py:93-107 | The first-in first-out answer is the concatenation of the levels up to reordering inside each level, whether or not the sort succeeds |
| TopsortOrder.ParentlessFirst | bindings/python/topsort.py:93 | Elements without parents come first, and every other element of the answer has a last pair: the one with the parent listed last, and with that parent the last in the list |
| TopsortOrder.OrderOfAnswer | bindings/python/topsort.py:97-103 | First in, first out: of two elements with parents the one stands first whose parent listed last stands first or, where that is the same parent, whose last pair with it comes first in the list |
| TopsortOrder.OneOutcome | bindings/python/topsort.py:93-112 | The order of the elements without parents, which the dictionary gives, decides the whole outcome |
| Cycles.FindCycles | bindings/python/topsort.py:343-385 | It ends on every finite graph; every list found is a duplicate-free closed walk along edges, no two are rotations of each other, and every simple cycle is found up to rotation, although roots already visited are skipped |
| Cycles.ReadChildren | bindings/python/topsort.py:357-385 | One pass over the children of a path keeps every simple path from the root either closed or an extension of the stack, lowers the cost of the stack, and records cycles up to rotation |
| Cycles.CycleFound | bindings/python/topsort.py:346-349 | A simple cycle through any reachable node is found even when the search began at another root |
| Cycles.IsDuplicate | bindings/python/topsort.py:371-375 | The test is true exactly when the cycle is a rotation of one already listed |
| Cycles.IndexOf | bindings/python/topsort.py:369 | The first position of a child that is on the path |
| CycleAgreement.HasCycleIsSimpleCycle | bindings/python/topsort.py:109-111 | A graph has a closed walk if and only if its child table has a simple cycle |
| CycleAgreement.SortFailsExactlyOnCycles | bindings/python/topsort.py:108-111 | topsort raises CycleError on a pair list if and only if find_cycles yields a cycle on the child lists built from it |
| CycleAgreement.LeftoversKeepCycles | bindings/python/topsort.py:104-111 | The child table in a CycleError has exactly the simple cycles of the whole input |
| CycleAgreement.CyclesFromLeftovers | bindings/python/topsort.py:104-111 | A list enumerates the cycles of the leftover table if and only if it enumerates those of the whole input |
| Rotations.IsRotated | bindings/python/rad_util.py:761-775 | On lists that are not both empty the answer is true if and only if some rotation of the first is the second; two empty lists raise IndexError |
| Rotations.RotationBack | bindings/python/rad_util.py:735-760 | Being a rotation is symmetric |
| Rotations.RotationChain | bindings/python/rad_util.py:735-760 | Being a rotation is transitive |
| Runner.StepInv | test.py:969-1037 | Every step of any thread, and the interrupt, keeps the invariant: each job taken from the input queue is in exactly one place, the input queue is what was sent less what was taken, and jobs change only as the worker loop changes them |
| Runner.RunInv | test.py:969-1037 | The invariant holds in every state of every run |
| Runner.EveryRunIsShort | test.py:1407-1830 | No run is longer than seven steps a worker, six a job and seven more, so every schedule ends |
| Runner.NoDeadlock | test.py:1690-1691 | A state of a run in which no thread can move, whether or not there has been an interrupt, is final, provided there is a worker or nothing to do |
| Runner.AllCollected | test.py:1690-1691 | When as many results as jobs have been collected, each job has been collected once and none is queued or held by a worker |
| Runner.MaximalRunsFinish | test.py:1829-1830 | With a worker or nothing to do, every run in which no thread can go on, under any interleaving and with an interrupt at any moment or none, ends with main past its joins, both queues empty, every worker stopped by exactly one sentinel, and every job returned exactly once |
| Runner.StopsComeLast | test.py:1668-1671 | No sentinel is taken before all jobs have been dispatched and taken |
| Runner.Complete | test.py:1407-1830 | Every run can be continued, without an interrupt of its own, to one in which no thread can go on |
| Runner.UninterruptedRun | test.py:1407-1830 | There is a run to the end without an interrupt |
| Runner.InterruptAtAnyMoment | test.py:571-576 | There is one with an interrupt at any moment of any run that has had none |
| Runner.FinishesExactlyWithWorkers | test.py:1407-1410 | Every run in which no thread can go on is finished, interrupted or not, if and only if there is a worker or there are no jobs |
| Runner.SomeWorker | test.py:1379-1407 | There is a worker if and only if there is a processor and the process limit is not negative, 0 being no limit; with both positive their minimum is used |
| Runner.FinishesExactlyWithinLimit | test.py:1396-1410 | So all schedules finish if and only if there are no jobs, or there is a processor and the limit is not negative |
| Runner.NegativeLimitHangs | test.py:1396-1410 | With one job, four processors and a limit of -1 no schedule finishes |
| RunnerInterrupt.NothingLaunched | test.py:978-986 | After an interrupt no process is launched: what runs later was running then, in the same worker |
| RunnerInterrupt.UntouchedComesBack | test.py:978-986 | A job not yet looked at in an interrupted state comes back once, marked as broken off, with its return code and all else as dispatched |
| RunnerInterrupt.InterruptDecides | test.py:978-1034 | What comes back and is reported is decided by the state at the interrupt, whatever the schedule after it: jobs not yet looked at are broken off, all others have their results |
| RunnerInterrupt.ResultWithInterrupt | test.py:1913-1916 | An interrupted run returns 0 if and only if every job had been looked at before, and every one that is not skipped exits with 0 |
| RunnerInterrupt.BrokenOffFails | test.py:1913-1916 | It returns 1 when some job is not yet looked at in any interrupted state |
| RunnerReport.SummaryMeans | test.py:1683-1724 | Each counter is the number of jobs, not broken off, that are skipped, or exit with 0, with 1, with 2, or with any other code; each list has the names of just those jobs in alphabetical order, a skipped one with its reason |
| RunnerReport.UninterruptedReport | test.py:1683-1724 | On every schedule without an interrupt the counters, lists and return value are those read off the skip flags and return codes of the jobs dispatched |
| RunnerReport.InterruptedReport | test.py:1683-1724 | With an interrupt they are those of the jobs that had been looked at |
| RunnerReport.NameLeMeans | test.py:1849-1860 | Names are in the order of their first different characters, a beginning before what it begins |
| RunnerSummary.Summarise | test.py:1683-1724 | The collector loop computes the five counters and the sorted name lists of the results in the order they arrive, and the return value |
| RunnerSummary.SortNamesSorts | test.py:1849-1860 | The names are sorted and none is lost or added |
| RunnerSummary.OrderDoesNotMatter | test.py:1683-1724 | The summary depends only on which results arrive, not on their order |
| RunnerSummary.ScheduleDoesNotMatter | test.py:1683-1724 | On every schedule without an interrupt, and there is one, the counters, the sorted name lists and the return value are those of the jobs as dispatched with the return codes given |
| RunnerSummary.SummaryAccounts | test.py:1844-1916 | On every schedule, interrupted or not, the counters and the interrupted jobs add up to the number of tests, and the return value is 0 exactly when every job passed or was skipped |
| RunnerSummary.ResultWithoutInterrupt | test.py:1913-1916 | Without an interrupt the return value is 0 exactly when every job not skipped exits with 0 |
| ShellParse.Pipeline.CommitCommand | waf-tools/shellcmd.py:101-104 | Appends the current command and clears it, or fails when there is none |
| ShellParse.Pipeline.ParseToken | waf-tools/shellcmd.py:136-199 | One turn of the six-state loop does to the fields what the step function says, fails exactly where an assertion does, and then leaves the fields as that assertion finds them |
| ShellParse.Pipeline.Parse | waf-tools/shellcmd.py:121-201 | Parsing succeeds exactly when the tokens can be read, and stores what they are read as; when it fails the fields hold what the assertion that failed leaves; what is stored can always be run |
| ShellParse.ReadKeepsPairs | waf-tools/shellcmd.py:154-187 | Every token keeps what is stored fit to be run: pairs of a node and an operator, standard output equal to a pipe exactly before a Pipe |
| ShellParse.ReadLine | waf-tools/shellcmd.py:136-200 | A command line of the surface syntax is read as the pipeline it stands for |
| ShellParse.LineBack | waf-tools/shellcmd.py:136-200 | Tokens that are accepted are those of a command line standing for the result |
| ShellParse.ParserAcceptsLines | waf-tools/shellcmd.py:121-201 | The parser accepts a token list with a given result if and only if it is the rendering of a command line that stands for that result |
| ShellParse.LineWellFormed | waf-tools/shellcmd.py:154-187 | A command line stands for a well-formed pipeline |
| ShellParse.ParsedWellFormed | waf-tools/shellcmd.py:154-200 | Every accepted parse alternates nodes and operators, starts and ends with a node, has standard output equal to a pipe exactly before a Pipe, and never follows a cd by anything but And or the end |
| ShellRoundTrip.LineFor | waf-tools/shellcmd.py:121-201 | Every well-formed pipeline of plain words can be written as a command line |
| ShellRoundTrip.ParseResults | waf-tools/shellcmd.py:121-201 | A pipeline is the result of some parse if and only if it is well-formed and none of its words reads as an operator, a redirection, cd or an assignment |
| ShellRoundTrip.RedirectionWords | waf-tools/shellcmd.py:145-199 | A command with `< f > g` has f for standard input and g for standard output |
| ShellRoundTrip.ErrorWords | waf-tools/shellcmd.py:145-195 | A command with `2> h` has h for standard error |
| ShellRoundTrip.JoinedWords | waf-tools/shellcmd.py:149-152 | A command with a word and `2>&1` has the word as argument, unless it is an operator or redirection, and its standard error joins standard output |
| ShellRoundTrip.OperatorWords | waf-tools/shellcmd.py:154-169 | Two commands with an operator between them: `|` makes the standard output of the first a pipe, and each operator becomes its node |
| ShellRoundTrip.AssignmentBeforeCd | waf-tools/shellcmd.py:136-145 | An assignment before cd fails, after the cd has become the current command |
| ShellWords.AssignmentExactly | waf-tools/shellcmd.py:24 | A token is an environment assignment, of a name and a value, if and only if it is a nonempty name of letters, digits and underscores, an equals sign and a nonempty value without white space, and perhaps a newline |
| ShellWords.WordCharacters | waf-tools/shellcmd.py:24 | The characters of a name |
| ShellWords.SpaceCharacters | waf-tools/shellcmd.py:24 | The characters that a value must not have |
| ShellRun.ExecPipedCommands | waf-tools/shellcmd.py:203-212 | All processes of a pipe are waited for in order, and its status is that of its last command |
| ShellRun.CloseFiles | waf-tools/shellcmd.py:301-304 | Every file on the list but the null device is closed, in order |
| ShellRun.StartProcess | waf-tools/shellcmd.py:242-291 | The streams are chosen and files opened in the order stdin, stdout, stderr, and one process is started with them; the first file or process that cannot be had ends it |
| ShellRun.RunNodes | waf-tools/shellcmd.py:214-346 | The loop over the nodes causes exactly the events, and returns the outcome, that the recursive meaning of the pipeline's reading gives, whatever the exit codes and whichever files and processes cannot be had |
| ShellParse.Pipeline.Run | waf-tools/shellcmd.py:214-346 | Running whatever is stored, also the empty pipeline and what a failed parse has left, has that meaning and leaves the fields as they are |
| ShellRun.ReadingKeepsNodes | waf-tools/shellcmd.py:214-346 | The right-nested reading has the nodes of the pipeline, in order |
| ShellRunLaws.OneReading | waf-tools/shellcmd.py:214-346 | It is the only reading that has them: a pipeline is not ambiguous |
| ShellRunLaws.RunStartsCalls | waf-tools/shellcmd.py:222-346 | The commands the reading calls for are started, in order: a pipe runs as a whole, And goes on after status 0 and Or after any other, a cd changes the directory of all later commands; every stream goes to the file, null device, pipe or other stream it is redirected to and is else inherited, and just before a start the files for it, and no others, are opened in the order input, output, error; the run ends as the reading says, with the exit code of the last process started, a TypeError, an IndexError or no value, or is broken off exactly where a file or process cannot be had |
| ShellRunLaws.NeverRaisesExactlyWhenSound | waf-tools/shellcmd.py:222-346 | When nothing fails, a run returns an exit code whatever the codes of its commands if and only if every cd of its reading names a directory and is followed by a command |
| ShellRunLaws.SoundReading | waf-tools/shellcmd.py:225-231 | The reading is of that kind if and only if the pipeline ends in a command and every cd in it names a directory |
| ShellRunLaws.CallsAreJoined | waf-tools/shellcmd.py:242-256 | Whatever the exit codes, a command that is called reads from a pipe if and only if the one called before it writes into one |
| ShellRunLaws.RunOfPipeline | waf-tools/shellcmd.py:214-346 | All of this for a run of any stored pipeline, also one that a failed parse has left behind; a process reads from a pipe exactly when the one started before it writes into one, and then from that process; there is an OSError exactly when the next file or process cannot be had, and all before it could |
| ShellRunLaws.CdAtTheEnd | waf-tools/shellcmd.py:225-231 | A command that does not write into a pipe, And, cd: a status other than 0 is returned, and after 0 there is an IndexError |
| ShellRunLaws.RedirectionsClosed | waf-tools/shellcmd.py:293-346 | A run that returns an exit code has waited for every process it started and closed every file it opened for a redirection, each exactly once |
| ShellRunLaws.RunInOrder | waf-tools/shellcmd.py:293-346 | Processes are waited for only after the last of their pipe has been started, and files closed only after the waiting |
| ShellRunLaws.NothingOpenAtFirst | waf-tools/shellcmd.py:214-221 | No redirection is open and no process unwaited for when a run begins |
| ShellWords.JoinPathMeans | waf-tools/shellcmd.py:228 | An absolute directory takes the place of the current one, another is appended after one slash |
| ShellWords.TwoDirectories | waf-tools/shellcmd.py:225-231 | Where the command of `cd a && cd b && c` runs, for any a and b |
| Gather.StaticInformation.RecordAggregationInfo | utils/print-introspected-doxygen.cc:294-314 | A pair is added when both names are known; otherwise the first unknown name, and only that, is noted |
| Gather.StaticInformation.GetCurrentPath | utils/print-introspected-doxygen.cc:328-338 | The path is every name on the stack, each after a slash |
| Gather.StaticInformation.RecordOutput | utils/print-introspected-doxygen.cc:341-346 | One output is appended, with the current path; the stacks are untouched |
| Gather.StaticInformation.HasAlreadyBeenProcessed | utils/print-introspected-doxygen.cc:349-361 | True exactly when the type is on the stack |
| Gather.StaticInformation.Get | utils/print-introspected-doxygen.cc:364-377 | The paths recorded for one type, in order |
| Gather.StaticInformation.DoGather | utils/print-introspected-doxygen.cc:420-503 | It ends on every finite type graph, cyclic or not, leaves both stacks as it found them, and appends exactly the visits of the type graph from its starting type |
| Gather.StaticInformation.GatherAttributes | utils/print-introspected-doxygen.cc:428-468 | The attribute loop visits the targets of pointers other than to Object and of object vectors, in order |
| Gather.StaticInformation.GatherChildren | utils/print-introspected-doxygen.cc:469-481 | The second loop visits the registered children, in order |
| Gather.StaticInformation.GatherAggregates | utils/print-introspected-doxygen.cc:482-502 | The third loop visits the other side of each aggregation pair, in order |
| Gather.StaticInformation.Descend | utils/print-introspected-doxygen.cc:446-450 | Both stacks are pushed before and popped after the recursive call |
| Gather.StaticInformation.Gather | utils/print-introspected-doxygen.cc:411-417 | The same as DoGather: the duplicates are removed from a copy, so none is removed |
| TypeEdges.EdgesAre | utils/print-introspected-doxygen.cc:428-502 | The edges out of a type are, in order, one for each attribute that is a pointer other than to Object or an object vector, one for each registered child and one for each aggregation pair with the type on one side, with the names the source prints, and no others |
| Gather.PathsAre | utils/print-introspected-doxygen.cc:364-377 | The paths of a type are those of all outputs for it, in order |
| TypeWalks.WalksInTurn | utils/print-introspected-doxygen.cc:425-502 | The outputs come depth first: a type before what is reached from it, and what is reached by an earlier edge before what is reached by a later one |
| TypeWalks.WalksAreFree | utils/print-introspected-doxygen.cc:420-425 | The list of walks has no walk twice and has exactly the walks that never come to a barred type or to one twice |
| TypeWalks.VisitsFollowWalks | utils/print-introspected-doxygen.cc:425-502 | The i-th output is that of the i-th walk: the type it ends in, and the path extended by its names |
| TypeWalks.FreeMeansNoRepeats | utils/print-introspected-doxygen.cc:420-424 | A walk is free exactly when it follows edges, meets no type twice and none that was on the stack |
| TypeWalks.DuplicatesExactlyWhen | utils/print-introspected-doxygen.cc:394-417 | The output has no duplicate if and only if no two different repetition-free walks come to the same type by the same printed path; removing duplicates is what the helper is documented to do |
| TypeWalks.ReadableDuplicatesExactlyWhen | utils/print-introspected-doxygen.cc:394-417 | Where no edge out of a type prints as a beginning of another, the output has no duplicate if and only if no walk without repetition comes to a type with two equal edges to a type that is new |
| TypeWalks.UnreadableNames | utils/print-introspected-doxygen.cc:328-338 | Without that condition names with a slash give a duplicate although no two edges are equal |
| TypeWalks.RepeatedAggregation | utils/print-introspected-doxygen.cc:537-539 | An aggregation pair that is recorded twice, as one of the program's is, gives a duplicate when a search comes to one of its types and the other is not on the stack |
| TypeWalks.OneOutputPerWalk | utils/print-introspected-doxygen.cc:420-502 | There is exactly one output for every repetition-free edge walk from the starting type, labelled with that walk's names, and no other |
| PatchRoundTrip.HeaderExactly | utils/check-style.py:370 | A line is a header with four given numbers if and only if it is `@@ -`, digits, a comma, digits, ` +`, digits, a comma, digits and ` @@` with anything after it, for digits of these numbers |
| PatchText.NextDigit | utils/check-style.py:370 | The numbers are decimal |
| PatchLines.TokenMeans | utils/check-style.py:368-410 | Each line is read by the one pattern it fits, described by its characters alone, and fits none exactly when there is an exception |
| PatchLines.AcceptedExactlyWhen | utils/check-style.py:376-411 | Reading raises no exception if and only if every line fits a pattern, the first names a source file, and a header comes before any line that belongs to a chunk |
| PatchLines.ReadExactly | utils/check-style.py:376-411 | What is read: the source names in order, each with the last destination name and the number of headers before the next, and all chunks in order, each with the lines up to the next header, even across file names |
| PatchRoundTrip.NumbersBack | utils/check-style.py:370 | The four numbers of a written header are read back from it |
| PatchRoundTrip.HeaderBack | utils/check-style.py:302-303 | Reading a written header gives the positions and the number of lines on each side |
| PatchRoundTrip.HeaderCountsItsBody | utils/check-style.py:295-305 | The lengths in a written header are the numbers of lines under it marked for each side |
| PatchRoundTrip.LineToken | utils/check-style.py:214-227 | A written line is read back as the same kind and text when no removed line begins with `-- ` and no added line with `++ ` |
| PatchRoundTrip.ParsedIsClean | utils/check-style.py:376-411 | Whatever the text, the patches read from it have no newline in a name or text, no negative position, and no line that would be written like a file name |
| PatchRoundTrip.LinesOfPieces | utils/check-style.py:356-365 | Reading a written file line by line gives the pieces that were written |
| PatchRoundTrip.SurvivesExactlyWhenClean | utils/check-style.py:356-411 | A patch set, written and read back, is the same if and only if it is clean |
| PatchRoundTrip.ReadingAgain | utils/check-style.py:367-411 | What was read once survives being written and read again, so write-parse-write equals write |
| Patches.PatchChunkLine.Write | utils/check-style.py:214-227 | One marked line is written, or nothing for a line of no kind, which is the exception |
| Patches.PatchChunk.SideLines | utils/check-style.py:263-282 | The lines of one side are those objects of the chunk that belong to it, in order; context lines are in both lists |
| Patches.PatchChunk.SideLen | utils/check-style.py:283-294 | The number of lines on one side |
| Patches.PatchChunk.Write | utils/check-style.py:295-305 | The header and the lines up to the first of no kind are written, all of them when there is none, and it succeeds exactly then |
| Patches.Patch.Write | utils/check-style.py:356-365 | The two file names and the chunks up to the first line of no kind are written, all of them when there is none, and it succeeds exactly then |
| PatchReading.StartPatch | utils/check-style.py:377-382 | A source file name begins a new patch; everything else keeps its place and value |
| PatchReading.NameDst | utils/check-style.py:383-386 | A destination file name goes to the current patch and to nothing else |
| PatchReading.StartChunk | utils/check-style.py:387-391 | A header begins a chunk in the current patch |
| PatchReading.AddBody | utils/check-style.py:392-409 | A line goes to the current chunk, which may belong to an earlier patch than the current one |
| PatchReading.ReadLine | utils/check-style.py:376-410 | One line does what the first pattern that fits says, and fails exactly where an exception is raised |
| PatchReading.ParsePatchset | utils/check-style.py:367-411 | The objects built hold exactly what the text says, no object is in two places, and None is returned exactly when an exception is raised |
| PatchReading.FixPair | utils/check-style.py:421-426 | One comparison changes one line object only, even when both sides share it |
| PatchReading.FixChunkLines | utils/check-style.py:418-428 | The loop over one chunk, on the line objects both sides share, does what its value says, and reports exactly when the destination side is too short |
| PatchReading.FixPatch | utils/check-style.py:417-428 | The chunks of a patch are rewritten up to and with the first that is too short; no other patch changes |
| PatchReading.RemoveTrailingWhitespaceChanges | utils/check-style.py:413-429 | The patches read are rewritten in place up to the first chunk whose destination side is too short |
| PatchBlanks.SideComplete | utils/check-style.py:263-294 | Removed and context lines are on the source side, added and context lines on the other, and none is missing |
| PatchBlanks.RaisesExactly | utils/check-style.py:420-428 | The loop over a chunk raises exactly when it has more lines on its source side |
| PatchBlanks.BlankCharacters | utils/check-style.py:414 | The blanks are the space and the tabulator |
| PatchBlanks.FixedPatchesKept | utils/check-style.py:413-429 | Files, positions, kinds and numbers of lines are kept, and every text up to one blank added to a line of the destination side |
| PatchBlanks.PatchesDone | utils/check-style.py:416-428 | The rewriting ends early exactly when some chunk has more lines on its source side than on the other; otherwise every chunk is done |
| PatchBlanks.NoneDropped | utils/check-style.py:413-429 | If no chunk has, then afterwards no removed line, in any chunk, is the line at the same place on the other side with one blank more |
| PatchBlanks.BlanksLeftAt | utils/check-style.py:414-426 | After the rewriting a removed line is its counterpart with blanks more exactly where it was before, with two or more or in a chunk after one that ends the rewriting |
| PatchBlanks.NoBlanksLeftExactlyWhen | utils/check-style.py:413-429 | No change of trailing blanks alone is left anywhere if and only if each was of a single blank, in a chunk with none before it that ends the rewriting |
| PatchBlanks.TwoBlanksKept | utils/check-style.py:414-426 | A removed `x` with two blanks against an added `x` is left as it is |
| PatchBlanks.FixedAt | utils/check-style.py:416-428 | A chunk is rewritten if and only if no chunk before it ends the rewriting, and is otherwise as it was |
| PatchBlankLaws.SourceSideChanges | utils/check-style.py:421-426 | The source side is not always kept: a removed `x ` against a context line `x` puts a blank on the context line |
| PatchBlankLaws.SourceSidesKeptExactlyWhen | utils/check-style.py:413-429 | The source side of every chunk is kept if and only if no context line, in a chunk that is reached, is compared with the same text with one blank more |
| PatchBlankLaws.RewrittenDoesNotSurvive | utils/check-style.py:463-466 | A removed `++ ` against an added `++`: the patch set survives being written and read, and its rewriting does not |
| PatchBlankLaws.RewrittenSurvivesExactlyWhen | utils/check-style.py:413-429 | A clean patch set survives the rewriting, written and read back, if and only if no added line `++`, in a chunk that is reached, is compared with `++ ` |
| PatchBlankLaws.ReadAndRewrittenSurvivesExactlyWhen | utils/check-style.py:413-429 | The same of the patches read from any text |
| PatchBlankLaws.FirstSurvivesExactlyWhen | utils/check-style.py:463-466 | The same of the first patch alone, which is the one the program writes |
| PatchBlanks.NoTrailingBlankDropped | utils/check-style.py:421-426 | The same for one chunk: what its loop leaves |

## Left out

- Generators: the level sort and the cycle search return the whole list of what they would yield; that a caller may stop early or change the graph in between is not modelled.
- Topsort.TopsortLevelsCore: the tables have to be what the documentation of the function asks for, and the graph they describe is a ghost argument (`TopsortLaws.TablesOfAGraph`); on other tables the source may stop with a KeyError, which is not modelled.
- Loop bodies as methods: `TakeParent`, `KnockDown`, `TakeLevel`, `CountDown`, `RemoveLevel`, `ReadChildren`, `ParseToken`, `StartProcess`, `Descend`, `GatherAttributes`, `ReadLine`, `PlaceChunk`, `FixPair` and the like are bodies of one loop or function in the source.
- Runner: a queue operation, a look at the flag, a process run and a thread start are each one step; two steps at the same instant are two steps in either order. What a process does is its return code, given for each job. An exception inside a worker thread is not modelled.
- Runner.SomeWorker: how the number of processors is found out from the machine is not modelled.
- test.py otherwise: discovery of suites and examples, the text, XML and HTML reports, and the interrupt during the phase after the joins.
- ShellParse.Pipeline: commands and directory changes are values held in the fields, not shared objects. Splitting a string into tokens (`shlex`) is not modelled; the parser is given the token list.
- ShellRun.RunNodes: processes, pipes and files are events; the n-th process has a given exit code, and whether the n-th file can be opened and the n-th process started is given. The parent's ends of pipes, which the source never closes, are not counted among the open files. Environment variables are passed on as given, without the surrounding environment. POSIX path joining only. The case of standard error set to a pipe cannot arise from the parser and is not a value of the model.
- shellcmd.py otherwise: `run(verbose=True)`, whose messages read a variable before it is set, and `get_abbreviated_command`, which never prints `||`.
- Gather.StaticInformation: the TypeId database is a finite relation given as data; a name is looked up as any type with that name. Printing, `GetNoTypeIds` and the fixed list of aggregations are not modelled.
- Patches: the three setters of a line are one method, and so are `src` and `dst` of a chunk.
- check-style.py otherwise: uncrustify, git, patch and temporary files; universal newlines, so a carriage return is an ordinary character.
- bindings/python/rad_util.py otherwise: bits, Gray code, permutations and Euclid's algorithm; they would add separate, easier members. Its floating-point helpers.
- examples/tcp/dctcp-example.cc and utils/grid.py: one inequality and two binary searches, likewise easier than what is here; drawing is not modelled at all.
- All other example programs, the build helpers and the code generators.
