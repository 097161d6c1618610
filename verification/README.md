# Verified models of the ns-3 tooling

The simulator tree ships a good deal of tooling with algorithms of its own. This project models
those algorithms in Dafny and proves what they guarantee, for every input and every run.

| files | what they model |
|---|---|
| `ClassScan.dfy`, `ClassScanTheorems.dfy` | PyBindGen's worklist that registers C++ classes: a topological sort by rotation with a cap on postponements |
| `Demangle.dfy` | the bracket scanners PyBindGen runs over demangled names |
| `TypePaths.dfy` | the recursive collector of configuration paths over the cyclic graph of types |
| `ShellParse.dfy`, `ShellShape.dfy`, `ShellReading.dfy` | the token parser of the shell-command tool: its exact output, its inverse, and what it reads at every position |
| `ShellRun.dfy`, `ShellTheorems.dfy`, `ShellPaths.dfy`, `ShellDiscipline.dfy`, `ShellDisplay.dfy`, `ShellPosix.dfy` | the executor: what it computes and starts, and where, what it releases or leaks, what it prints, and how it compares with POSIX |
| `Patches.dfy`, `PatchReading.dfy`, `PatchFilter.dfy`, `PatchObjects.dfy` | the unified-diff reader, writer and in-place whitespace filter of the style checker |
| `Template.dfy` | the `@name@` substitution of the build tool |
| `PlotScale.dfy`, `Timeline.dfy`, `EventBench.dfy` | axis scaling, window queries and the self-rescheduling benchmark |

Loops and objects of the source are methods and classes here. Each is proved against a function
on values, and the theorems are about that function. Exceptions are results: `None`, a failed
state, or a constructor of an outcome type. `dafny verify dfyconfig.toml` checks everything.

What the environment decides is a parameter: declarations and names of classes, the type system,
exit codes, environment lookups, delays, and the order in which events fire.

## Where the code is not what it seems

- The conversion check of the worklist looks only at the first unknown target, so a class can be
  registered before a queued second target (`ClassScanTheorems.SecondTargetIsOverlooked`).
- The tenth postponement raises even on acyclic declarations: some order of the queue raises as
  soon as a class needs a chain of eleven queued classes (`ClassScanTheorems.EveryOrderSafeIff`).
- `&&` and `||` are not an AND-OR list: the first job that does not proceed ends the run. So
  mixed operators differ from the shell's (`ShellPosix.AgreesIffOneWay`), and so does
  `a || cd d && b`, where `b` is never started after a successful `a`
  (`ShellPosix.ChdirBehindOrDiffers`).
- A bare `cd`, or one that ends the list, fails inside a pipe after the processes of the pipe
  were started, and nobody waits for them (`ShellDiscipline.LeaksInPipe`).
- A verbose run with more than one job never returns: it fails on an unassigned variable where
  the first job ends, if not on a bad `cd` before (`ShellDisplay.VerboseRun`).
- The whitespace filter can change the source side of a patch through a shared context line
  (`PatchFilter.UnalignedChangesSource`), and a chunk with more source than destination lines
  silently ends the filter for all that follows (`PatchFilter.FiltersUpToFirstShort`).
- Filtering is not idempotent on every chunk (`PatchFilter.SecondPassChanges`), and it can turn
  an added `++` into a line that is read back as a file header
  (`PatchFilter.FilteredHeaderIsLost`).
- The path collector's step that claims to remove duplicates works on a copy and has no effect,
  so the records are those of `TypePaths.StaticInformation.DoGather`.

## Model

| member | source | states |
|---|---|---|
| `ClassScan.JudgeBases` | PyBindGen-0.22.1/pybindgen/castxmlparser.py:1234-1256 | the first unregistered base decides: a class passes exactly when all its bases are registered, waits when that base is queued and is dropped otherwise |
| `ClassScan.Scanner.CheckBases` | PyBindGen-0.22.1/pybindgen/castxmlparser.py:1234-1258 | the loop over the bases returns that verdict |
| `ClassScan.Scanner.CheckConversions` | PyBindGen-0.22.1/pybindgen/castxmlparser.py:1263-1277 | the loop over the conversion operators stops at the first class-typed target the root module does not know |
| `ClassScan.Scanner.PostponeClass` | PyBindGen-0.22.1/pybindgen/castxmlparser.py:1165-1182 | counts the postponement, then puts the class at the back of the queue or, from the tenth time on, raises |
| `ClassScan.Scanner.ScanOne` | PyBindGen-0.22.1/pybindgen/castxmlparser.py:1195-1421 | one iteration pops the front class and registers, drops or postpones it; the whole new state is stated |
| `ClassScan.Scanner.Scan` | PyBindGen-0.22.1/pybindgen/castxmlparser.py:1184-1420 | the loop halts in the state `Final`, with an empty queue unless it raised |
| `ClassScan.StepBurnsFuel` | PyBindGen-0.22.1/pybindgen/castxmlparser.py:1165-1195 | each iteration that does not raise strictly lowers the sum, over the queue, of ten minus the postponements |
| `ClassScan.HaltsInTime` | PyBindGen-0.22.1/pybindgen/castxmlparser.py:1184-1195 | every scan, of any declarations, halts within ten iterations per class, and every halted state of the run is the final one |
| `ClassScanTheorems.Conservation` | PyBindGen-0.22.1/pybindgen/castxmlparser.py:1184-1420 | in every state of every run each class is exactly once queued, registered, dropped, or the one that raised |
| `ClassScanTheorems.VerdictIs` | PyBindGen-0.22.1/pybindgen/castxmlparser.py:1205-1328 | what happens to a class, test by test: it waits for its first unregistered base or, with all registered, for its first unknown conversion target, as long as that is queued; it is registered exactly when nothing holds it back and no test excludes it |
| `ClassScanTheorems.RaisesTheTenthTime` | PyBindGen-0.22.1/pybindgen/castxmlparser.py:1165-1182 | in every state of every run the class that raised has been postponed ten times and every other class at most nine times |
| `ClassScanTheorems.BasesRegisteredFirst` | PyBindGen-0.22.1/pybindgen/castxmlparser.py:1234-1258 | in every state of every run each registered class comes after all its bases |
| `ClassScanTheorems.RegistersExactlyTheEligible` | PyBindGen-0.22.1/pybindgen/castxmlparser.py:1205-1420 | a scan that does not raise registers exactly the named, not ignored classes without a private template argument whose bases are, recursively, registered, and drops exactly the others |
| `ClassScanTheorems.Confluence` | PyBindGen-0.22.1/pybindgen/castxmlparser.py:1163-1420 | two orders of the same queue that both finish register the same set and drop the same set |
| `ClassScanTheorems.FirstUnknownDecides` | PyBindGen-0.22.1/pybindgen/castxmlparser.py:1263-1277 | the conversions hold a class back if and only if the first unknown target is queued; later targets are not looked at |
| `ClassScanTheorems.SoleTargetFirst` | PyBindGen-0.22.1/pybindgen/castxmlparser.py:1263-1281 | in every run, a registered class with a single conversion target finds that target registered earlier or dropped, never queued |
| `ClassScanTheorems.AllTargetsFirst` | PyBindGen-0.22.1/pybindgen/castxmlparser.py:1263-1281 | in every run, a class all of whose conversion targets are known beforehand or are queued classes that can be registered comes after every one of them |
| `ClassScanTheorems.SecondTargetIsOverlooked` | PyBindGen-0.22.1/pybindgen/castxmlparser.py:1268-1275 | with two targets that guarantee fails: a queue of two classes where the first is registered while its second target is still queued |
| `ClassScanTheorems.PostponedAtMostRank` | PyBindGen-0.22.1/pybindgen/castxmlparser.py:1165-1195 | with acyclic dependencies, on bases not registered and names not known before, no class is postponed more often than its height, in any state of any run |
| `ClassScanTheorems.ShallowGraphsNeverRaise` | PyBindGen-0.22.1/pybindgen/castxmlparser.py:1172-1177 | acyclic dependencies of height at most nine never raise |
| `ClassScanTheorems.FallingOrderIsExact` | PyBindGen-0.22.1/pybindgen/castxmlparser.py:1165-1258 | for any graph of bases, queued with the height falling and without open conversions, each class is postponed exactly as often as its height, and the scan raises if and only if some height is ten or more |
| `ClassScanTheorems.EveryOrderSafeIff` | PyBindGen-0.22.1/pybindgen/castxmlparser.py:1165-1258 | for any distinct eligible classes without open conversions, every order of the queue ends without the AssertionError if and only if no class needs a chain of more than ten queued classes |
| `ClassScanTheorems.ChainRaisesIffTooDeep` | PyBindGen-0.22.1/pybindgen/castxmlparser.py:1172-1177 | in particular a derivation chain queued derived-first raises if and only if it has more than ten classes |
| `ClassScanTheorems.KnotRaises` | PyBindGen-0.22.1/pybindgen/castxmlparser.py:1165-1281 | classes that wait for each other in a cycle of bases or single conversions, and are otherwise eligible, always end in the AssertionError |
| `ClassScanTheorems.MutualConversionRaises` | PyBindGen-0.22.1/pybindgen/castxmlparser.py:1263-1281 | in particular two eligible classes that convert to each other |
| `Demangle.CheckTemplate` | PyBindGen-0.22.1/pybindgen/castxmlparser.py:64-74 | true exactly when the first non-blank behind the name is `<`, no result exactly when only blanks follow |
| `Demangle.GetTemplateArg` | PyBindGen-0.22.1/pybindgen/castxmlparser.py:76-98 | the forward loop computes `ScanArg` |
| `Demangle.TemplateArgIsInside` | PyBindGen-0.22.1/pybindgen/castxmlparser.py:76-98 | when a bracket opens behind the name there is a result if and only if that bracket is closed, and its pieces joined by commas are the text inside the matching pair |
| `Demangle.TemplateArgByPosition` | PyBindGen-0.22.1/pybindgen/castxmlparser.py:76-98 | on any text the scan ends at the first `>` that closes the only open bracket and fails when there is none; the pieces hold no comma, and joined they are the characters before it without the outermost `<` and the blanks before the first of these |
| `Demangle.GetDemangledArgType` | PyBindGen-0.22.1/pybindgen/castxmlparser.py:100-123 | the backward loop, negative indices included, computes `ScanBack` |
| `Demangle.RecoversArguments` | PyBindGen-0.22.1/pybindgen/castxmlparser.py:100-123 | from `prefix(a, b, ...)suffix`, for any bracket-balanced arguments without top-level comma and any suffix without `)`, the trimmed argument list is recovered |
| `Demangle.DemangledByPosition` | PyBindGen-0.22.1/pybindgen/castxmlparser.py:100-123 | on any text, read backwards from the last `)` and, past the start, once more from the end, the scan stops at the first `(` behind which the brackets are balanced, and fails when there is none; the result is the text behind it split at the top-level commas, trimmed |
| `Demangle.StripIs` | PyBindGen-0.22.1/pybindgen/castxmlparser.py:107-112 | trimming removes white space at both ends and nothing else, and leaves none there |
| `TypePaths.StaticInformation.HasAlreadyBeenProcessed` | utils/print-introspected-doxygen.cc:349-361 | true exactly when the type is on the stack |
| `TypePaths.StaticInformation.GetCurrentPath` | utils/print-introspected-doxygen.cc:328-338 | the path segments, each behind a slash |
| `TypePaths.SlashedByPosition` | utils/print-introspected-doxygen.cc:328-338 | in a path every segment stands behind its own slash, one after the other |
| `TypePaths.StaticInformation.RecordOutput` | utils/print-introspected-doxygen.cc:341-346 | appends the type with the current path |
| `TypePaths.StaticInformation.Follow` | utils/print-introspected-doxygen.cc:450-455 | one edge: the records of its target are appended, and path and stack are restored |
| `TypePaths.StaticInformation.FollowAttributes` | utils/print-introspected-doxygen.cc:429-469 | the pointer and container attributes, in order, without pointers to the Object type |
| `TypePaths.StaticInformation.FollowChildren` | utils/print-introspected-doxygen.cc:470-482 | the registered child types, in order |
| `TypePaths.StaticInformation.FollowAggregates` | utils/print-introspected-doxygen.cc:483-502 | the aggregates on either side of the type, in order, duplicates kept |
| `TypePaths.StaticInformation.DoGather` | utils/print-introspected-doxygen.cc:420-503 | appends one record per walk of `Walks`, ends on cyclic graphs, and restores path and stack |
| `TypePaths.EdgesByOrigin` | utils/print-introspected-doxygen.cc:429-502 | the edges followed from a type are, in order and once each, exactly those that the data give: a pointer to its pointee under its name unless that is the Object type, a container to its item with `/[i]`, then each registered child, then the other side of each recorded pair that holds the type |
| `TypePaths.EdgeIffGiven` | utils/print-introspected-doxygen.cc:429-502 | an edge leaves a type if and only if some attribute, registered type or pair gives it |
| `TypePaths.ListsSimplePaths` | utils/print-introspected-doxygen.cc:420-503 | a walk is listed if and only if it repeats no type and avoids the stack |
| `TypePaths.ListedInPreorder` | utils/print-introspected-doxygen.cc:420-503 | the walks come in strictly increasing depth-first preorder |
| `TypePaths.ListedOnce` | utils/print-introspected-doxygen.cc:420-503 | no walk is listed twice |
| `TypePaths.StaticInformation.Get` | utils/print-introspected-doxygen.cc:364-377 | the recorded paths of a type, in order of recording |
| `TypePaths.PathsInOrder` | utils/print-introspected-doxygen.cc:364-377 | these are all records of the type, each once, in order |
| `TypePaths.PathsAreSimplePaths` | utils/print-introspected-doxygen.cc:364-503 | after a gathering from a root the paths returned for a type are exactly the spellings of the routes from the root to it whose every edge the recorded data give and that repeat no type |
| `ShellParse.EnvRoundTrip` | waf-tools/shellcmd.py:24 | a valid assignment, written and matched again, gives the same name and value |
| `ShellReading.EnvMatchIs` | waf-tools/shellcmd.py:24 | a token is an assignment if and only if it is a valid name, `=` and a value, with or without a final newline |
| `ShellParse.Pipeline.CommitCommand` | waf-tools/shellcmd.py:101-104 | appends the pending command, or fails when there is none |
| `ShellParse.Pipeline.FeedPending` | waf-tools/shellcmd.py:154-198 | the four states with a pending command take one token as the state machine says, for any dictionary of assignments |
| `ShellParse.Pipeline.ParseTokens` | waf-tools/shellcmd.py:121-201 | the loop computes `Parse`, and leaves the fields as the machine does also when an assertion fails |
| `ShellReading.RejectedIff` | waf-tools/shellcmd.py:121-201 | any token list is rejected if and only if its last segment has no command, a `cd` follows an assignment, or two tokens of one segment set the same redirect or directory |
| `ShellReading.SegmentsRead` | waf-tools/shellcmd.py:121-201 | every segment of any accepted token list gives its node: the words that are neither assignments nor redirects nor files, in order; each redirect the file behind its own token, wherever it stands; merged errors exactly when `2>&1` stands there; a pipe exactly before a pipe operator; and of each assigned name the last value; and every operator gives its own node |
| `ShellShape.ParseIsWellFormed` | waf-tools/shellcmd.py:121-201 | every successful parse alternates commands and operators, with `&&` behind a `cd` and a pipe as output exactly before a pipe operator |
| `ShellShape.ShapeByPosition` | waf-tools/shellcmd.py:121-201 | the same, position by position: commands and `cd`s at even positions, operators at odd ones, `cd` last or before `&&`, piped output if and only if a pipe operator follows |
| `ShellShape.ParseUnparse` | waf-tools/shellcmd.py:121-201 | every list of that shape is the parse of its own tokens |
| `ShellShape.ParsedIffWellFormed` | waf-tools/shellcmd.py:121-201 | the parser produces exactly the lists of that shape |
| `ShellRun.ExecPipedCommands` | waf-tools/shellcmd.py:203-212 | waits for every process in order, and the two loops return the status of the last one |
| `ShellRun.StartCommand` | waf-tools/shellcmd.py:230-292 | opens the redirects, connects the input and starts the process |
| `ShellRun.FinishIteration` | waf-tools/shellcmd.py:294-346 | what follows a started command: end, next command of the pipe, or the end of a job with its waits, closes and short circuit |
| `ShellRun.Run` | waf-tools/shellcmd.py:214-346 | the loop computes `RunFrom` on any node list, exceptions and the missing result included |
| `ShellTheorems.RunRefinesEval` | waf-tools/shellcmd.py:214-346 | for any exit codes, verbose or not, the run of any list the parser can produce ends as the right-nested reading says, in a status or in the exception of a bad `cd` or an unassigned status, and has started exactly the first commands of the plan |
| `ShellTheorems.ParsedRunRefinesEval` | waf-tools/shellcmd.py:121-346 | the same from the tokens on, for every text that parses |
| `ShellTheorems.AlwaysReturnsIffRunnable` | waf-tools/shellcmd.py:214-232 | a parsed list ends in a status for all exit codes if and only if no `cd` is bare or last |
| `ShellTheorems.PlanByPosition` | waf-tools/shellcmd.py:222-292 | the plan holds a command exactly when no bare `cd` stands before it; the command then has its own words, redirects and environment, reads the process just before when a pipe feeds it, and runs in the directory of all the `cd`s before it |
| `ShellPaths.JoinIs` | waf-tools/shellcmd.py:228 | an absolute directory replaces the path, a relative one follows it behind one separator, unless the path is empty or ends in one |
| `ShellPaths.DirectoryAfter` | waf-tools/shellcmd.py:221-232 | behind any nodes the directory starts with the last absolute `cd`, or the initial directory, and has the components of all later `cd`s, in order |
| `ShellPaths.StartedDirectory` | waf-tools/shellcmd.py:214-292 | in the run of any parsed text a started command has no directory of its own if and only if no `cd` stands before it, and otherwise runs in the directory of all of them |
| `ShellDiscipline.RunIsDisciplined` | waf-tools/shellcmd.py:203-346 | for any parsed list and exit codes, the run satisfies an observer that lets a job start only when nothing runs, a process only when exactly its own redirects were opened for it, for reading or writing and except null devices, a piped input only from the open pipe of the process just before, and waits and closes only once, in order, before the next job, and leaves nothing behind, if and only if it does not end on a bad `cd` inside a pipe; so every run that returns a status does |
| `ShellDiscipline.NeverLeaksIff` | waf-tools/shellcmd.py:214-346 | no exit codes leave anything behind if and only if the first `cd` of the list that is bare or last, if there is one, stands outside every pipe |
| `ShellDiscipline.EverythingReleasedOnce` | waf-tools/shellcmd.py:203-346 | in the run of any parsed text, verbose or not, nothing is waited for or closed twice or without having been started or opened; every process is waited for and every file closed exactly once if and only if the run does not end on a bad `cd` inside a pipe |
| `ShellDiscipline.LeaksInPipe` | waf-tools/shellcmd.py:225-232 | a piped command followed by a bare `cd` parses, starts its process, fails with IndexError and never waits, for any command and exit code |
| `ShellDisplay.VerboseRun` | waf-tools/shellcmd.py:229-325 | every verbose run of a parsed list, for any exit codes: a bad `cd` in the first job fails it, a second job fails it on the unassigned status, and otherwise it prints the displayed nodes |
| `ShellDisplay.DisplayParsesBack` | waf-tools/shellcmd.py:229-310 | a verbose run returns a status if and only if the list is one job without a bad `cd`; what it prints parses back to the nodes without overridden input redirects, and to the very nodes if and only if there are none |
| `ShellPosix.AgreesIffOneWay` | waf-tools/shellcmd.py:214-346 | for every parsed text: with all exit codes the run gives the status of section 2.9.3 of POSIX.1-2017 and starts the same commands, if and only if no `cd` is bare or last and the list has no `OR` operator, or no `AND` operator directly behind a command and no `cd` behind an `OR` |
| `ShellPosix.ChdirBehindOrDiffers` | waf-tools/shellcmd.py:312-324 | a command, an `OR` operator and a `cd d && b`, when the command succeeds: the run returns 0 and starts one process, where POSIX starts `b` and gives its status |
| `Patches.ChunkStartRoundTrip` | utils/check-style.py:303-304 | a chunk header, with any positions and counts, is matched with the same four numbers |
| `Patches.ChunkIsWritten` | utils/check-style.py:297-306 | a written chunk has a header with the two positions, the number of lines below it that start with `-` or a blank, and the number that start with `+` or a blank, and then every line behind its mark |
| `Patches.PatchIsWritten` | utils/check-style.py:359-368 | a written patch is the two file headers and then every chunk, so written, at its place |
| `PatchReading.HeaderMatches` | utils/check-style.py:373 | any line with the shape of a chunk header, whatever follows it, is matched with its four numbers |
| `PatchReading.MatchIsHeader` | utils/check-style.py:373 | and no other line is matched |
| `PatchReading.BodyLines` | utils/check-style.py:374-413 | a line is a body line if and only if it is a mark and a text that do not make a file header |
| `PatchReading.ReadByPosition` | utils/check-style.py:370-414 | any text is rejected if and only if a line is of no kind, names a destination or starts a chunk before the first patch, or is a body line before the first chunk; otherwise each source line gives a patch, with the last destination named for it, and each chunk header a chunk of that patch, with all body lines up to the next chunk header |
| `Patches.ParseWrite` | utils/check-style.py:215-414 | a patchset of one-line texts without header-like body lines is read back from its written lines |
| `Patches.RoundTripIffClean` | utils/check-style.py:359-414 | a patchset survives being written to a text and read from it if and only if no removed line starts with `-- `, no added line with `++ `, and no line or file name holds a newline |
| `Patches.WriteIsNormalForm` | utils/check-style.py:359-414 | for every text the reader accepts, writing the result and reading it again gives the same patchset |
| `PatchFilter.SourceKeptIffNoHit` | utils/check-style.py:416-432 | the filter leaves the source side unchanged if and only if no context line meets, at its rank of the destination view, a source line with one more trailing blank |
| `PatchFilter.AlignedIsKept` | utils/check-style.py:265-284 | in particular when context lines have equal rank in both views |
| `PatchFilter.UnalignedChangesSource` | utils/check-style.py:416-432 | a removed line with a trailing blank before the same text as context rewrites that context line |
| `PatchFilter.DestinationAfter` | utils/check-style.py:425-429 | when no context line is hit, a destination line becomes the source line exactly when it lacks one trailing blank or tab |
| `PatchFilter.BlankOrTab` | utils/check-style.py:417-428 | the test of the filter is that the source line is the destination line and one blank or tab |
| `PatchFilter.OthersUntouched` | utils/check-style.py:425-429 | every other line stays as it is, in any case |
| `PatchFilter.IdempotentIffStable` | utils/check-style.py:416-432 | filtering a chunk twice is filtering it once if and only if no step gives a blank to a context line that an earlier step took as its source and found or made equal to its destination |
| `PatchFilter.FilterIsIdempotent` | utils/check-style.py:416-432 | in particular when no context line is hit |
| `PatchFilter.SecondPassChanges` | utils/check-style.py:416-432 | an added line, a context line of the same text and a removed line with one more blank: the second pass changes the chunk again |
| `PatchFilter.PatchesIdempotentIff` | utils/check-style.py:416-432 | filtering a patchset twice is filtering it once if and only if every chunk up to and including the first short one is stable in that sense |
| `PatchFilter.FilteredRoundTripIff` | utils/check-style.py:359-432 | for every text the reader accepts, the filtered patchset is read back as written if and only if no step turns an added `++` into `++ ` |
| `PatchFilter.FilteredHeaderIsLost` | utils/check-style.py:359-432 | the patch that replaces the line `++ ` by `++` is accepted, and its filtered form is not read back as written |
| `PatchFilter.FilterKeepsCounts` | utils/check-style.py:285-296 | the line counts of both views do not change |
| `PatchFilter.FiltersUpToFirstShort` | utils/check-style.py:419-432 | chunks up to the first with more source than destination lines are filtered, all later ones in all patches are left alone |
| `PatchFilter.ShortIff` | utils/check-style.py:421-431 | a chunk ends the filter exactly when it has more source than destination lines |
| `PatchObjects.PatchChunkLine.AppendToLine` | utils/check-style.py:190-196 | appends to the text and keeps the type |
| `PatchObjects.FeedObjects` | utils/check-style.py:379-413 | one line of the reader's loop on objects is one step on the values, with at most one new object |
| `PatchObjects.ParsePatchset` | utils/check-style.py:370-414 | the reader returns new, pairwise distinct line objects whose values are `Parse` of the text, and fails exactly when it does |
| `PatchObjects.Select` | utils/check-style.py:265-284 | the source or destination view holds the selected objects themselves, in order |
| `PatchObjects.FixLine` | utils/check-style.py:425-429 | one step edits the destination object in place, and through it every view that shares it |
| `PatchObjects.FilterObjects` | utils/check-style.py:421-431 | the in-place loop over a chunk computes `FilterLines`, and stops the filter exactly on a short chunk |
| `PatchObjects.FilterChunkObjects` | utils/check-style.py:420-431 | the in-place loop over the chunks of a patch computes `FilterChunks`, and stops exactly when one of them is short |
| `PatchObjects.RemoveTrailingWhitespaceChanges` | utils/check-style.py:416-432 | reading and filtering in place gives `FilterPatches` of the parsed text |
| `PatchObjects.WriteChunkObject` | utils/check-style.py:297-306 | writes the header with the counts of the lines below it, as in `Patches.ChunkIsWritten`, then the lines |
| `PatchObjects.WritePatchObject` | utils/check-style.py:359-368 | writes the two file headers and every chunk at its place, as in `Patches.PatchIsWritten` |
| `Template.EscapeKeepsNames` | waf-tools/misc.py:91-98 | the names found in the escaped text are those of the text |
| `Template.NameAtIff` | waf-tools/misc.py:86-93 | a name is found exactly where word characters, at least one, stand between two `@`s |
| `Template.SubstitutionIsDirect` | waf-tools/misc.py:90-102 | for every text and dictionary, escaping, rewriting and formatting equals replacing each leftmost `@name@` directly, missing names included |
| `Template.FillDictionary` | waf-tools/misc.py:98-100 | the dictionary holds exactly the names found, each with its own value or, when that is empty, the value of its upper case |
| `Template.SubstFunc` | waf-tools/misc.py:83-102 | with a given dictionary it replaces from that or fails on the first missing name; without one it looks every name up and cannot fail |
| `Template.NoNamesUnchanged` | waf-tools/misc.py:90-102 | a text without names comes out unchanged, whatever per cent signs it contains |
| `PlotScale.IncrementSize` | nsc/scons-time.py:83-97 | for five and more the increment is a fifth of the value cut to its first digit, and fits five to nine times; the small and the negative cases are stated too |
| `PlotScale.MaxGraphValue` | nsc/scons-time.py:99-103 | for any value, with one added to its integer part: when that is positive the top is the first multiple of the increment from there on, above the value and at most ten increments high; when it is zero the division fails; when it is negative increment and top are bounded too |
| `Timeline.TimelineDataRange.Search` | utils/grid.py:105-122 | finds a range that holds the key, if and only if there is one when the ranges are separated |
| `Timeline.TimelineDataRange.GetRangesBounds` | utils/grid.py:153-169 | on separated ranges, with an endpoint in a range no overlapping range is missed, with both the window is exact, an endpoint in no range leaves its side open, and with neither the window is empty |
| `Timeline.TimelineEvent.Search` | utils/grid.py:201-219 | an event at the key, or the place where it would be inserted |
| `Timeline.TimelineEvent.GetEvents` | utils/grid.py:226-235 | on events in order the window starts at or after the start, with an event of that time if there is one, holds every event strictly between, and only its last event may lie past the end; without simultaneous events it holds exactly the events from the start on whose predecessor lies before the end |
| `EventBench.Bench.Cb` | utils/bench-simulator.cc:133-145 | schedules one successor and counts it until the total is reached |
| `EventBench.Bench.RunBench` | utils/bench-simulator.cc:97-131 | for any delays and any choice among the pending events exactly population plus total callbacks fire, and never more than the population is pending |

## Left out

- The FEC agents and the TCP changes of the simulator are not part of this model.
- The queries, annotations, hooks, warnings and generated text of PyBindGen's parser, and its recursion into nested classes: bases, conversion targets, names and exclusions are fixed data per class, so `ClassScanTheorems.Confluence` speaks of scans in which no base is a nested class.
- All printing of the documentation generator, the recording of aggregation pairs by name, and the lookup of type identifiers.
- `shlex` splitting, operating-system errors while opening files or starting processes, and the abbreviated command used for display: tokens are a list and exit codes a function of the process number.
- The characters of `\s` and `\S` outside ASCII.
- The external programs of the style checker, its temporary files, and carriage returns: a text is split at newlines, and a last line may lack its terminator.
- PatchObjects.ParsePatchset: patches and chunks are values and only line objects are shared and edited in place, because the code never edits a patch or chunk after reading it.
- PatchObjects.RemoveTrailingWhitespaceChanges: does not model an exception other than running off the destination view, which is the only one the loop can raise.
- Template.SubstFunc: conversions other than `%%` and `%(key)s` are reported as bad formats, because the rewritten text never contains them.
- Drawing, dragging and floating-point scaling of the timeline, and sorting its lists: the window queries are proved on lists in order.
- EventBench.Bench.RunBench: does not model wall-clock timing or the 32-bit width of the counters, because no counter exceeds its bound.
- ShellPosix.AgreesIffOneWay: takes every `cd` to succeed, because the executor only joins paths, and compares statuses and started commands but not directories.
- The waf and SCons build scripts, `utils.py`, `wutils.py`, option parsing, the shell drivers and the plotting scripts under `Data Processing` and `misc-scripts`: they configure and call other programs and read their output, and hold no state of their own to prove something about.
