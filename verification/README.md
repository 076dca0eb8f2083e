# A model of cinit, the log monitor and gpasswd

`cinit` is process 1 of the container: it loads service directories, starts the services in
dependency order, restarts them, reaps everything that dies and shuts the container down. The log
monitor follows log files and sends notifications about the lines it finds. `gpasswd` administers the
group and gshadow files. This project models their decision logic in Dafny and proves what they keep.

## How it is organised

| files | what they hold |
|---|---|
| `ServiceGraph.dfy`, `Loader.dfy` | the dependency graph with its depth-first walk as reference; the service table and the start order as two arrays of 64 slots, changed in place |
| `Kernel.dfy`, `Protocol.dfy`, `Supervisor.dfy`, `Runs.dfy`, `Container.dfy` | the system as an adversary; events, traces and what makes a trace legal; the supervisor as a class that records its trace; theorems about every legal trace; loading and running together |
| `Exceptions.dfy` | the Try/Catch/ExitTry/Throw macros as a machine over one frame pointer and one cell, and structured exceptions as its specification |
| `Lines.dfy`, `LineReader.dfy` | the lines of a byte stream; the reader with its 4096-byte buffers |
| `LogText.dfy`, `LogFollower.dfy` | the lines of a log; their reassembly from chunks |
| `Notifications.dfy` | the table of monitored files, dispatch of a line, debouncing |
| `Text.dfy`, `StringOps.dfy`, `OutputCollector.dfy` | what the string routines compute; the routines on a `char` array; the growing output buffer |
| `UserLists.dfy`, `Gpasswd.dfy` | comma-separated users; the two files and the commands on them |

A run of the supervisor is driven by a finite script of answers. Each system call consumes one: it
says how long the call took, whether a signal arrived, which orphans were adopted and what the call
returned. The run is cut where the script ends. Every prefix of every run has such a script, so an
invariant that holds for all scripts holds at every call of every run, endless ones included. The
class `Supervisor.Init` appends an event to its ghost trace whenever something observable happens, and
every method is proved to keep the trace legal (`Protocol.Legal`) and the table in agreement with it.
The promises about whole runs are then theorems about all legal traces. What was asked of the system and
what it answered is a ghost history (`Kernel.Reply`); where a method may throw, its contract says which
answers it throws for, and the invariant ties every attempt to start a service to its answers and to the
fork it led to, if any.

The table invariant (`Supervisor.Sound`) says that live services have distinct pids, all of unreaped
children, that a descriptor is open exactly while its service is live, and that a started logger has a
live service; it is kept by every method, also where a run is cut.

What is modelled is the build with one output stream per service (`SINGLE_CHILD_STDOUT_STDERR_STREAM`),
with either way of choosing the roots of the walk.

Where the code and its comments disagree, the code is followed:

- The comment of `child_handler` says that a given service ends the wait when it is reaped. The
  condition at `src/cinit/cinit.c:1665` needs a killed child, and none is left unhandled there, so it
  never fires; `Supervisor.Init.ChildHandler` proves that.
- `src/cinit/cinit.c:2083` multiplies the interval by 1000 on 32 bits. The spacing of starts is stated
  for that product, and `Runs.IntervalIsExact` says exactly when it is the interval.
- A restart command can name a disabled service or a group (`src/cinit/cinit.c:2136`); the model
  lets it.
- A function that returns, breaks or continues out of a Try body leaves the frame pointer at a jump
  buffer that no longer exists. `Exceptions.FrameRestoredExactly` gives the condition, `Exceptions.EarlyExitBreaks`
  a program that fails.
- `handle_read` drops the pending text and the chunk when they are too long together.
  `LogFollower.ExactUnlessOverflow` says that this is the only way in which lines are lost, and
  `LogFollower.LongLineIsLost` that it happens.

## Model

| member | source | states |
|---|---|---|
| ServiceGraph.Visit | src/cinit/cinit.c:1294-1364 | the reference walk keeps what was loaded, never loads more than 64 names, and terminates on every graph |
| ServiceGraph.VisitLists | src/cinit/cinit.c:1294-1364 | a walk lists exactly the enabled services it newly loaded, each once |
| ServiceGraph.VisitReached | src/cinit/cinit.c:1294-1364 | everything a walk lists is reachable from where it started |
| ServiceGraph.VisitOrders | src/cinit/cinit.c:1294-1364 | invariant of the recursion: an edge out of a finished service is respected by the list, or it closes a cycle |
| ServiceGraph.OrderIsTheReachablePart | src/cinit/cinit.c:1294-1364 | the finished order holds exactly the enabled services reachable from the roots through enabled services, each once |
| ServiceGraph.OrderIsDepthFirstPostOrder | src/cinit/cinit.c:1294-1364 | for every graph a dependency precedes its dependent unless it also reaches it; on acyclic graphs the order is topological |
| ServiceGraph.LoadsExactlyWhen | src/cinit/cinit.c:1294-1364 | loading succeeds if and only if every name that is a root or a dependency of a reachable enabled service is not empty, fits its buffer and names a valid service with readable dependencies (or a disabled one), and there are at most 64 such names |
| ServiceGraph.LoadsTheNamed | src/cinit/cinit.c:1294-1364 | a successful load loads exactly those names; a disabled one is loaded and not listed |
| ServiceGraph.RootsFromLeftToRight | src/cinit/cinit.c:1370-1389 | roots are walked in their order: further roots only append to the start order |
| ServiceGraph.DependenciesFromLeftToRight | src/cinit/cinit.c:1325-1363 | a service stands right after its dependencies, which stand as if walked on their own in directory order, unless one leads back to it |
| Loader.InsertedAt | src/cinit/cinit.c:506-524 | slot by slot: the service stands before its first dependent, what was there moved right by one, the rest stayed |
| Loader.InsertionDropsNothing | src/cinit/cinit.c:506-524 | while a slot is free, the right shift over the fixed array is insertion into the list and pushes no entry out |
| Loader.SpliceInside | src/cinit/cinit.c:1322-1361 | inserting the dependencies one by one before their dependent puts their whole sub-order there |
| Loader.ServiceTable.AddToStartOrder | src/cinit/cinit.c:506-524 | the array after the shift loop is the insertion before the first occurrence of the dependent, or at the end |
| Loader.ServiceTable.FindService | src/cinit/cinit.c:571-581 | the slot of that name, or -1 exactly when no slot has it |
| Loader.ServiceTable.AllocServiceIndex | src/cinit/cinit.c:554-562 | the first free slot, which is the end of the occupied prefix, or -1 exactly when the table is full |
| Loader.ServiceTable.LoadService | src/cinit/cinit.c:655-964 | occupied slots stay a contiguous prefix with distinct names; every refusal of a name, slot or setting, in the order of the checks |
| Loader.ServiceTable.Enlist | src/cinit/cinit.c:1316-1323 | an enabled service enters the start order, which stays free of duplicates |
| Loader.ServiceTable.LoadServiceWithDeps | src/cinit/cinit.c:1294-1364 | the recursive in-place loader does what the reference walk says: same error, same table, and its list inserted before the dependent |
| Loader.ServiceTable.LoadDependencies | src/cinit/cinit.c:1325-1363 | the same for the loop over the dependencies of one service |
| Loader.ServiceTable.LoadRoots | src/cinit/cinit.c:1370-1389 | throws exactly when some name that has to be loaded is not acceptable or there are too many; otherwise exactly those names are loaded and the start order is the depth-first post-order of the reachable enabled services, topological on acyclic graphs |
| Kernel.System.Fork | src/cinit/cinit.c:992-1195 | a positive pid is that of a new child that no unreaped child has; otherwise 0 |
| Kernel.System.WaitAny | src/cinit/cinit.c:1649-1652 | reaps one dead child at a time, each once; -1 only when there is no child |
| Kernel.System.WaitFor | src/cinit/cinit.c:1430-1440 | waits for one child, possibly interrupted |
| Supervisor.BuryKeepsSound | src/cinit/cinit.c:1564-1586 | after the bookkeeping of a death the table is sound again for the children that are left |
| Supervisor.Init.FindByPid | src/cinit/cinit.c:590-598 | the service with that pid, or -1 exactly when none has it |
| Supervisor.Init.MarkReaped | src/cinit/cinit.c:1564-1565 | the pid is cleared and the reaping recorded, first of all |
| Supervisor.Init.JoinLogger | src/cinit/cinit.c:1567-1578 | only a started logger of a dead service is joined |
| Supervisor.Init.CloseFd | src/cinit/cinit.c:1580-1586 | a descriptor is closed only when its service is dead and its logger joined |
| Supervisor.Init.Bury | src/cinit/cinit.c:1564-1586 | the three steps together keep the invariant and change nothing else |
| Supervisor.Init.Judge | src/cinit/cinit.c:1610 | the outcome of the check enters the trace: what was requested, and whether the service is being restarted |
| Supervisor.Init.Decide | src/cinit/cinit.c:1609-1627 | the exit code becomes the exit status, 128 plus the signal, or 1, and a shutdown is requested |
| Supervisor.Init.Settle | src/cinit/cinit.c:1609-1627 | the judgement comes last, followed by the exit code if and only if it is decisive |
| Supervisor.Init.HandleKilled | src/cinit/cinit.c:1534-1628 | invariant kept; the reaped service is stopped, its finish script run if its directory and the script are there, with the status as argument, and its death judged; the exit code is written exactly when the service asks for a shutdown, is not being restarted and no shutdown was requested, and a request counts then exactly when it was there before or a signal arrived by the end of the finish script |
| Supervisor.Init.ReapTheDead | src/cinit/cinit.c:1649-1652 | ends with nothing left to reap now, or with no child at all, as the last wait answered; starts nothing |
| Supervisor.Init.ChildHandler | src/cinit/cinit.c:1641-1676 | true only when no child is left, false only after the period; it pauses, 50 ms at a time, only while the clock read right before is within the period; a given service never ends the wait |
| Supervisor.Init.StartLogger | src/cinit/cinit.c:1228-1251 | the logger counts as started exactly when both the allocation and the thread creation succeed, as the answers show; it never runs twice |
| Supervisor.Init.TryFork | src/cinit/cinit.c:1222-1253 | one try to fork: process and logger run, or no process was made and nothing changed, or the logger failed; each with the answers that led to it |
| Supervisor.BookOne | src/cinit/cinit.c:1202-1256 | an attempt that ended as the answers say enters the books, which hold every attempt with its answers, and whose processes are exactly the forks of the trace |
| Supervisor.Init.ForkSeveralTimes | src/cinit/cinit.c:1221-1255 | the loop ends at the first fork that makes a process, and throws after four that make none, each followed by a pause of 500 ms |
| Supervisor.Init.StartService | src/cinit/cinit.c:1202-1256 | a live service is left alone; otherwise one attempt is made, and it throws if and only if the directory cannot be entered, or four forks make no process, or the allocation or the thread creation for the logger fails: the answers, the fork in the trace and the books of attempts agree |
| Supervisor.Init.RunSync | src/cinit/cinit.c:1425-1448 | returns normally only when the service exited with 0, or the wait was interrupted and a shutdown requested; throws only when it died otherwise or the wait failed without being interrupted |
| Supervisor.Init.AwaitUptime | src/cinit/cinit.c:1456-1486 | the service is considered up only after its minimum time, while it is still unreaped; before each pause it was found alive; throws only when it died or could not be waited for |
| Supervisor.Init.FindCheck | src/cinit/cinit.c:1492 | whether there is a readiness check, as the system answered |
| Supervisor.Init.RunCheck | src/cinit/cinit.c:1505 | the exit code of the check, as the system answered, enters the trace |
| Supervisor.Init.AwaitReady | src/cinit/cinit.c:1488-1515 | true only when the latest check passed or there is none, false only when a shutdown was requested; the check is run only before its time is up and while the process exists, both found out right before; throws only when the directory cannot be entered, the process is gone or the time is up |
| Supervisor.Init.AwaitStartUp | src/cinit/cinit.c:1425-1515 | returns normally only when the service no longer holds back later ones or a shutdown was requested, and throws only for one of those reasons |
| Supervisor.Init.StartOne | src/cinit/cinit.c:1421-1516 | one attempt for the service at this position, and nothing else is started; throws only when that start failed or the wait for it was given up |
| Supervisor.Init.StartEntry | src/cinit/cinit.c:1414-1524 | groups are skipped; the pass is ended only by a failure that happened and is not to be ignored |
| Supervisor.StartUpsAre | src/cinit/cinit.c:1405-1424 | the attempts of a pass up to a position are the entries that are no groups, each once and in order |
| Supervisor.Init.StartServices | src/cinit/cinit.c:1405-1526 | a pass that ends normally without shutdown request attempted exactly the non-group entries, in order, and none of them holds back the others; a pass that throws does so at an entry that failed and whose failure is not ignored, after exactly the attempts up to it |
| Supervisor.Init.StopService | src/cinit/cinit.c:1263-1286 | a dead service is left alone; a live one is asked and, right after, its kill program is run if it is there and SIGTERM sent to its pid; throws if and only if its directory cannot be entered |
| Supervisor.Init.StopOne | src/cinit/cinit.c:1694-1718 | a live service at this position is asked, whether or not asking fails, and 250 ms are spent reaping; the exit status does not change |
| Supervisor.Init.StopInTurn | src/cinit/cinit.c:1694-1718 | at the end of the loop nobody is left, or each service still alive, groups aside, was asked |
| Supervisor.Init.TellAll | src/cinit/cinit.c:1725-1727 | SIGTERM goes to everyone only after each live service was asked on its own |
| Supervisor.Init.KillEveryone | src/cinit/cinit.c:1736-1738 | SIGKILL goes to everyone only after the grace time |
| Supervisor.Init.ForceDown | src/cinit/cinit.c:1725-1741 | SIGTERM to everyone, a wait for the grace time, and SIGKILL to everyone with a wait without limit exactly when that wait left somebody; nobody is left at the end, and the status of the program is what it was |
| Supervisor.Init.CinitShutdown | src/cinit/cinit.c:1690-1742 | on every return path no unreaped child is left, as the last wait found, every service has pid 0, and the exit status is what it was |
| Supervisor.Init.IntervalTick | src/cinit/cinit.c:2081-2105 | a stopped service whose interval elapsed is attempted once, a live one has its start time moved to now, others are untouched |
| Supervisor.Init.RunIntervals | src/cinit/cinit.c:2081-2105 | every stopped service whose interval has elapsed is attempted |
| Supervisor.Init.RestartTick | src/cinit/cinit.c:2108-2122 | a service due for restart is attempted; the request is cleared exactly when it was started completely |
| Supervisor.Init.RunRestarts | src/cinit/cinit.c:2108-2122 | every service due for restart is attempted and live ones are left alone |
| Supervisor.Init.ReadCommand | src/cinit/cinit.c:2125-2152 | only the service named by the answer is touched; its restart is noted right after SIGTERM went to its pid, or when it was not running; it is not noted exactly when its directory cannot be entered |
| Supervisor.Init.RunRound | src/cinit/cinit.c:2080-2155 | every start due at the beginning of an iteration is attempted in it, a command is read, and a pause of a second comes last |
| Supervisor.Init.BecomeIdle | src/cinit/cinit.c:2061-2078 | the supervisor gives up on its own only when no child is left and nothing is to be restarted |
| Supervisor.Init.MainLoop | src/cinit/cinit.c:2049-2156 | keeps the invariant round after round and ends only with a shutdown request; a round follows each reaping but the last; attempts are never forgotten |
| Supervisor.Init.BringUp | src/cinit/cinit.c:2016-2046 | status 1 and a shutdown request exactly when loading or the start-up pass threw; a successful load means that the pass is begun, and it throws only at an entry that failed; otherwise, unless shutdown was requested, it was completed |
| Supervisor.Init.Run | src/cinit/cinit.c:2016-2176 | a whole run is a legal trace with nobody left at its end and every fork accounted for; start-up throws only because loading threw or the pass failed; without signal, decisive death or failed start-up the run ends only when idle, after every service of the order was attempted |
| Runs.AlwaysSane | src/cinit/cinit.c:992-1256 | at every moment of every run nonzero pids are distinct and a live service or a running logger has its descriptor open |
| Runs.EveryDeathIsJudged | src/cinit/cinit.c:1534-1628 | every death of a service is judged before anything else is started, reaped or stopped, and before the program ends |
| Runs.GoneMeansReaped | src/cinit/cinit.c:1534-1586 | a pid disappears from the table only by being reaped |
| Runs.StartsAlternateWithReaps | src/cinit/cinit.c:1202-1256 | between two starts of a service its process was reaped |
| Runs.ReapsAlternateWithStarts | src/cinit/cinit.c:1534-1586 | between two reaps of a service it was started |
| Runs.ReadyHappened | src/cinit/cinit.c:1456-1515 | a service counted as ready had run for its minimum time, and since its latest start a check had passed or there was none |
| Runs.StartUpBarrier | src/cinit/cinit.c:1405-1526 | when the pass starts a service, every earlier entry is a group, became ready, was sync and exited with 0, has an interval, or ignores failures |
| Runs.StartsAreSpaced | src/cinit/cinit.c:2081-2122 | restarts come more than 500 ms after any earlier start of the service, interval starts at least the multiplied interval after |
| Runs.IntervalIsExact | src/cinit/cinit.c:2083 | the 32-bit product is the interval in milliseconds if and only if the interval is at most 4294967 s |
| Runs.KeywordsAreExactButYearly | src/cinit/utils.c:567-588 | hourly to monthly lie inside that bound; yearly does not and means 1471228928 ms |
| Runs.KeywordsMean | src/cinit/utils.c:567-588 | the keywords in seconds, a month being 30 days and a year 365 |
| Runs.ExitCodeWrittenOnce | src/cinit/cinit.c:1609-1627 | no run writes the exit code twice |
| Runs.JudgedIsTheLatestDeath | src/cinit/cinit.c:1609-1627 | what is judged is the latest death |
| Runs.DecisiveMeansExitCode | src/cinit/cinit.c:1609-1627 | a judgement is followed at once by the exit code if and only if the service asks for a shutdown on its termination, no shutdown was requested and it is not being restarted; the code is the exit status, 128 plus the signal, or 1 |
| Runs.ExitCodeIsThatOfTheLatestDeath | src/cinit/cinit.c:1609-1627 | the code written is that of the latest death: of a service whose termination asks for a shutdown, that was not being restarted, when no shutdown was requested |
| Runs.FirstDecisiveDeathDecides | src/cinit/cinit.c:1609-1627 | unless start-up threw, the program exits with the code of the first service whose death called for a shutdown, and with 0 if none did, whatever dies later |
| Runs.FinalStatusExplained | src/cinit/cinit.c:2158-2160 | the program exits with 1 if start-up threw, otherwise with the code written, otherwise with 0, whatever dies later |
| Runs.NothingStartsAfterTheEnd | src/cinit/cinit.c:2042-2077 | once the exit code is written, start-up threw or the shutdown began, no service is started |
| Runs.NothingStartsInShutdown | src/cinit/cinit.c:1690-1742 | after the shutdown has begun nothing starts, nothing becomes ready and no exit code is written |
| Runs.StopsGoBackwards | src/cinit/cinit.c:1694-1718 | the services asked one by one are a subsequence of the reversed start order |
| Runs.AskedIsTold | src/cinit/cinit.c:1263-1286 | the event after a service is asked to stop is SIGTERM to its pid, or that its directory cannot be entered |
| Runs.OnlyTheAskedAreTold | src/cinit/cinit.c:1263-1286 | SIGTERM goes to a single service only right after it was asked, and to the pid it then has |
| Runs.LaterOnesAreAskedFirst | src/cinit/cinit.c:1694-1718 | when a service is asked, everything after it in the order is a group, dead, or was told before: sent SIGTERM with the pid it had, or its directory could not be entered |
| Runs.KillingComesLast | src/cinit/cinit.c:1690-1742 | in every run SIGKILL to everyone comes at least the grace time after SIGTERM to everyone |
| Runs.EachIsToldFirst | src/cinit/cinit.c:1690-1727 | SIGTERM goes to everyone only when each service still alive, groups aside, was told to stop on its own before |
| Container.LoadedInPostOrder | src/cinit/cinit.c:1294-1364 | what loading leaves is a post-order: no service twice, every dependency first unless it reaches back |
| Container.DependencyComesFirst | src/cinit/cinit.c:1294-1364 | a dependency that does not reach back stands at an earlier position of the order |
| Container.DependenciesPassFirst | src/cinit/cinit.c:1405-1526 | when the pass starts a service, its dependencies have passed as their settings say, unless they reach back |
| Container.DependentsStopFirst | src/cinit/cinit.c:1690-1717 | a dependency is not asked to stop before a dependent that is still alive was told to, unless it reaches back |
| Container.ReadPlan | src/cinit/cinit.c:1405-1413 | the loops over the table and over the order stop exactly at the first empty slot |
| Container.Boot | src/cinit/cinit.c:2016-2176 | loading and running together: the plan is the walk's, index by index, with the settings of each service; a legal trace of it; loading fails exactly when some name cannot be loaded, and then nothing is started and the status is 1; otherwise the pass is begun; why the run ended; nobody left at the end |
| Exceptions.NoOtherWayOut | src/cinit/CException.h:80-112 | a Try body that is not left early ends normally or with an exception |
| Exceptions.ThrowSkipsTheRest | src/cinit/CException.h:80-112 | in structured exceptions a throw ends the body at once, and the handler runs with the effects so far and the message, unless that is empty |
| Exceptions.RethrowIsTransparent | src/cinit/CException.h:80-112 | a handler that only throws again makes no difference, but that nothing escapes as an empty message |
| Exceptions.MacrosRefineExceptions | src/cinit/CException.h:80-112 | every program with conditionals, loops, calls and nested Try blocks, without early exit from a Try body, in any surroundings and however its conditions turn out, does what structured exceptions say: effects, handler, variable, frame pointer |
| Exceptions.WhileRefines | src/cinit/CException.h:80-112 | the same for loops, also with break and continue, inside a Try body or around a Try |
| Exceptions.TryEnds | src/cinit/CException.h:92-106 | from the end of a body, or a throw in it, the machine reaches the code after the Try, or the handler exactly when the exception is not empty, with the frame pointer restored |
| Exceptions.AfterTheBody | src/cinit/CException.h:92-106 | the same with the handler; what the handler throws goes to the enclosing Try |
| Exceptions.FrameRestoredExactly | src/cinit/CException.h:80-106 | the frame pointer is restored if and only if the body does not return, break or continue out of the Try; otherwise it points at the buffer that is gone |
| Exceptions.EarlyExitDangles | src/cinit/CException.h:80-106 | a function that returns from its Try leaves the frame pointer above its caller's stack |
| Exceptions.EarlyExitBreaks | src/cinit/CException.c:11-20 | a program with an early exit whose next throw jumps into a dead frame |
| Exceptions.ProgramEnds | src/cinit/CException.c:11-20 | the configuration in which a whole program ends: done with no frame left, or an exception reported as unhandled |
| Exceptions.Machine.Throw | src/cinit/CException.c:11-20 | the cell is set and control goes to the innermost frame, or the exception is reported as unhandled |
| Exceptions.Machine.Try | src/cinit/CException.h:80-89 | the frame pointer is saved and set, the cell is cleared |
| Exceptions.Machine.ReturnFromFunction | src/cinit/CException.h:80-106 | a return drops everything up to its function and does not touch the frame pointer |
| Exceptions.Machine.LeaveBody | src/cinit/CException.h:80-106 | a break or a continue leads to the innermost loop and does not touch the frame pointer |
| Exceptions.Execute | src/cinit/CException.h:80-112 | whole programs without early exit end as structured exceptions say and never jump to a dead frame |
| Lines.Pieces | src/cinit/utils.c:333-340 | pieces hold between 1 and 4095 bytes |
| Lines.PiecesAreFull | src/cinit/utils.c:333-340 | the pieces put together are the run, and only the last one may hold less than 4095 bytes |
| Lines.LinesEndAtEol | src/cinit/utils.c:366-393 | a line end ends the run before it, whatever follows, and leaves no empty line |
| Lines.StreamingIsDeclarative | src/cinit/utils.c:252-419 | taking one byte at a time gives the runs without CR and LF, each cut into pieces of 4095 bytes and a non-empty remainder |
| Lines.LinesHoldTheStream | src/cinit/utils.c:252-419 | the lines in order hold every byte of the stream but CR and LF |
| LineReader.LastLine | src/cinit/utils.c:352-361 | the delivered lines and what is buffered are the lines of everything read |
| LineReader.ReadState.Deliver | src/cinit/utils.c:371-378 | the callback receives the bytes before the terminator that is written into the buffer |
| LineReader.ReadState.End | src/cinit/utils.c:314-323 | at the end the remaining bytes are the last line, unless there are none |
| LineReader.ReadState.Flush | src/cinit/utils.c:333-340 | a full buffer is delivered as one line, which is its content when it holds no NUL, and emptied |
| LineReader.ReadState.Scan | src/cinit/utils.c:366-393 | in place, complete lines are delivered and the unfinished one moves to the front, as the streaming form says |
| LineReader.ReadState.TakeLine | src/cinit/utils.c:370-386 | the bytes before a line end are delivered unless there are none; the bytes after it move to the front |
| LineReader.ReadState.Handle | src/cinit/utils.c:304-394 | one descriptor in one round: the invariant is kept for any answer of poll and read, all indices stay in the buffer; reported data is read, or a full buffer emptied first |
| LineReader.HandleRound | src/cinit/utils.c:303-403 | one round over all descriptors, which share no memory; it fails if and only if a live descriptor with room in its buffer reports data that cannot be read; otherwise every live one responds to its report |
| LineReader.ReadLines | src/cinit/utils.c:252-419 | per descriptor the lines depend on the bytes only, not on the chunks or on the interleaving; 0 means that every descriptor is at its end; -1 comes with the first failing poll or failing read and never otherwise; until then no report of data goes unanswered, so the reading ends |
| LogText.LinesCompose | src/logmonitor/logmonitor.c:670-733 | lines and rest of a text cut anywhere, also inside a CRLF |
| LogText.LinesAreSegments | src/logmonitor/logmonitor.c:706-733 | the lines are exactly the segments between the newlines, each without one final carriage return if it has one, empty ones left out; the rest is what follows the last newline |
| LogText.LinesReadBack | src/logmonitor/logmonitor.c:706-733 | lines written with either line ending, one by one, are read back as they are |
| LogFollower.FeedComposes | src/logmonitor/logmonitor.c:670-733 | two chunks in a row do what the two as one do |
| LogFollower.CutsMatterBeyondTheLimit | src/logmonitor/logmonitor.c:677-684 | beyond the size limit two chunks and their concatenation differ |
| LogFollower.NoOverflowIsExact | src/logmonitor/logmonitor.c:670-733 | as long as nothing overflows, the handled lines are those of the text read and the unfinished line is pending |
| LogFollower.UpToDateMeans | src/logmonitor/logmonitor.c:670-733 | what being exact means, said of the segments of the text and without the definition of the lines |
| LogFollower.OverflowShows | src/logmonitor/logmonitor.c:677-684 | after an overflow some text is never accounted for again |
| LogFollower.ExactUnlessOverflow | src/logmonitor/logmonitor.c:670-733 | every completed non-empty line is handled once and in order if and only if no unfinished line grew too long for the next chunk |
| LogFollower.LongLineIsLost | src/logmonitor/logmonitor.c:677-684 | a long enough line is lost, for every buffer size; 63 full buffers of 8192 bytes do it |
| LogFollower.MonitoredFile.HandleRead | src/logmonitor/logmonitor.c:670-733 | the recursive routine does what the specification of a chunk says, and pending text stays below 512000 bytes |
| LogFollower.MonitoredFile.ReadToEnd | src/logmonitor/logmonitor.c:1551-1570 | one poll over a file that may grow before each read: the chunks are everything written so far and not yet read, each handed on once |
| LogFollower.FollowLog | src/logmonitor/logmonitor.c:1551-1570 | the polling loop over a log that grows between and within polls, for every buffer size: exact if and only if nothing overflowed, also said of the segments of the log between its newlines |
| Notifications.Target.constructor | src/logmonitor/logmonitor.c:76-84 | a new target has sent nothing |
| Notifications.Target.Notify | src/logmonitor/logmonitor.c:630-652 | sent unless this very notification was sent before and the debouncing holds it back; other notifications neither matter nor change; once ever for 0, at least d seconds apart for d |
| Notifications.PeriodsFit | src/logmonitor/logmonitor.c:636-641 | sendings at least d apart need the room for it |
| Notifications.WindowBound | src/logmonitor/logmonitor.c:636-641 | at most w / d + 1 sendings in any window of w seconds |
| Notifications.Target.WithinBounds | src/logmonitor/logmonitor.c:630-652 | what a target was ever sent of a notification: once for 0, at most w / d + 1 times in any w seconds for d |
| Notifications.TabulatesOneMore | src/logmonitor/logmonitor.c:1331-1353 | one more configured file conflicts exactly when the table has its path with the other type; otherwise it is present or can be added |
| Notifications.ConflictIs | src/logmonitor/logmonitor.c:1331-1353 | a conflict is one between two configured files, wherever they are configured |
| Notifications.AllFilesFit | src/logmonitor/logmonitor.c:39-41 | sixteen notifications with four files each fit the table |
| Notifications.SetMonitoredFiles | src/logmonitor/logmonitor.c:1325-1364 | fails if and only if a path is configured with both types; otherwise the table holds exactly the files that some notification lists, without duplicates, within its 64 entries |
| Notifications.ListsFile | src/logmonitor/logmonitor.c:489-496 | whether the notification lists the file |
| Notifications.SendToAll | src/logmonitor/logmonitor.c:630-652 | every target for which the notification is due gets it, and no other entry of any target changes |
| Notifications.HandleLine | src/logmonitor/logmonitor.c:484-668 | a line is offered, in order, to exactly the notifications that list its file; a matching one reaches each target that never got it, has no debouncing, or whose period has elapsed, shared or not |
| Text.DropAllAppends | src/cinit/utils.c:177-191 | dropping a character depends on no context, so the rest keeps its order |
| Text.CollapseOfRun | src/cinit/utils.c:161-175 | a run of any length becomes one character and what follows is collapsed on its own |
| Text.CollapseIsExact | src/cinit/utils.c:161-175 | no two are left side by side, only that character goes, and a text without doubles is left alone |
| Text.TrimIsExact | src/cinit/utils.c:142-159 | only white space at the ends goes, and all of it |
| Text.TokensJoin | src/cinit/utils.c:203-250 | the tokens joined give the text back, minus at most one delimiter at its end |
| Text.TokensAreClean | src/cinit/utils.c:203-250 | no token holds the delimiter, and without doubled delimiters only the first can be empty |
| Text.TokensFit | src/cinit/utils.c:212-219 | there are at most as many tokens as the delimiters counted allow for |
| Text.SplitInvertsJoin | src/cinit/utils.c:203-250 | the whole of it, for a text with doubled delimiters |
| StringOps.ShiftLeft | src/cinit/utils.c:166-170 | the loop moves the string over its first byte and touches nothing else |
| StringOps.RemoveAllChar | src/cinit/utils.c:177-191 | the double recursion ends, computes the text without the character, and never touches a byte beyond the original terminator |
| StringOps.RemoveDuplicatedChar | src/cinit/utils.c:161-175 | the same for the collapsed text |
| StringOps.NulDoesNothing | src/cinit/utils.c:161-250 | with NUL as the character nothing is removed and nothing is split |
| StringOps.TrimTail | src/cinit/utils.c:142-152 | the first loop cuts exactly the white space at the end |
| StringOps.TrimInPlace | src/cinit/utils.c:142-159 | the trimmed text at the start of the buffer, nothing beyond the terminator touched |
| StringOps.CutToken | src/cinit/utils.c:235-242 | a token is ended in place; the tokens before it and the text after it stay |
| StringOps.FillVector | src/cinit/utils.c:221-243 | the entries are the places of the tokens, each ended by NUL, the first ofs entries are left alone, and no write leaves the vector |
| StringOps.Split | src/cinit/utils.c:203-250 | the tokens of the collapsed text, in an allocation that suffices whenever ofs is at most plus |
| OutputCollector.OutputOneMore | src/cinit/utils.c:95-99 | one more line is a newline and the line, or the line alone |
| OutputCollector.Collector.Grow | src/cinit/utils.c:69-86 | a larger buffer with the same string |
| OutputCollector.Collector.Append | src/cinit/utils.c:95-99 | the two appends leave the joined lines in the buffer, inside it |
| OutputCollector.Collector.ProcessLine | src/cinit/utils.c:46-100 | the buffer is the accepted lines joined by newlines; growing once always suffices and stays within 1 MiB; which error is recorded otherwise |
| UserLists.ParseAppend | src/shadow-rs/gpasswd/src/gpasswd.rs:291-300 | a list is read one part at a time |
| UserLists.ParseTrims | src/shadow-rs/gpasswd/src/gpasswd.rs:291-300 | white space around a user is not part of it, and a part of white space alone is no user |
| UserLists.ParseIsClean | src/shadow-rs/gpasswd/src/gpasswd.rs:291-300 | every user read is non-empty, trimmed and without comma |
| UserLists.ParseInvertsJoin | src/shadow-rs/gpasswd/src/gpasswd.rs:291-300 | users joined by commas are read back |
| Gpasswd.WithoutIsExact | src/shadow-rs/gpasswd/src/gpasswd.rs:308-321 | exactly the occurrences of the user go |
| Gpasswd.WithoutInParts | src/shadow-rs/gpasswd/src/gpasswd.rs:308-321 | the others stay in their order |
| Gpasswd.AcceptedIf | src/shadow-rs/gpasswd/src/gpasswd.rs:121-207 | a command is accepted if and only if no two of its options exclude each other (only -A and -M go together), the group exists and everybody it adds or lists exists |
| Gpasswd.CheckUsers | src/shadow-rs/gpasswd/src/gpasswd.rs:173-207 | the user that is refused is the first missing one |
| Gpasswd.EditShadows | src/shadow-rs/gpasswd/src/gpasswd.rs:239-271 | a missing gshadow line is created with the new members before it is edited |
| Gpasswd.Root.Run | src/shadow-rs/gpasswd/src/gpasswd.rs:92-285 | a refused command changes no file; an accepted one writes the group file, then the gshadow file if it exists; cut off in between it leaves the first only |
| Gpasswd.MembersAfter | src/shadow-rs/gpasswd/src/gpasswd.rs:173-191 | who is a member of the group afterwards |
| Gpasswd.PasswordsAfter | src/shadow-rs/gpasswd/src/gpasswd.rs:191-271 | the gshadow password is empty after a removal, ! after a restriction, the new hash without options and otherwise as before (! for a created line); the administrators are the list of -A, or lose the deleted user, or stay; the members of the line; the group password is x exactly in the three password cases |
| Gpasswd.FinishedByRerun | src/shadow-rs/gpasswd/src/gpasswd.rs:209-278 | a command cut off between the writes is still accepted when repeated and reaches the uninterrupted final state |
| Gpasswd.InterruptionsLeaveNoTrace | src/shadow-rs/gpasswd/src/gpasswd.rs:209-278 | any history in which interrupted commands are repeated ends as the history without the interruptions |
| Gpasswd.StaysInStep | src/shadow-rs/gpasswd/src/gpasswd.rs:155-278 | member lists that agree in both files agree after any sequence of commands |
| Gpasswd.ComesInStep | src/shadow-rs/gpasswd/src/gpasswd.rs:239-258 | a created gshadow line, or one whose members are set, agrees with the group file |
| Gpasswd.OthersUnchanged | src/shadow-rs/gpasswd/src/gpasswd.rs:155-278 | a sequence of commands touches only the first entries of the groups it names; names and group numbers stay |

## Left out

- The child side of `fork_and_exec`, pseudo-terminals, user and group ids, priorities: only the pid, the status and the descriptor of the parent are kept.
- The text of service directories: settings and the edges that the `.dep` loop follows are inputs. The loop reads `.dep` relative to the current directory, which the recursion has moved, and its variable has no initialiser, so which edges it follows is not decided here.
- Termination of a run: a run is observed up to the end of its script, and what is stated holds when a call returns. That SIGKILL ends every process is the kernel's business.
- Fork and the reading of the clock after it are one step: no signal handler sees the state between them.
- HandleKilled: a run can be cut in the finish script, before the death is judged; `InvUnless` states what holds then. Between the clearing of the pid and the joining of the logger a started logger has no live pid; the state is stated by `Agrees` there, and the invariant holds again when the bookkeeping ends. The finish script has no effect in the model but to take time and to leave its answers in the history.
- ReadCommand: the text of the command is not parsed; the service it names, or none, is an input.
- ForceDown: a grace time of 2^31 ms or more becomes negative, as in the conversion from unsigned to int, and the wait then has no limit.
- MacrosRefineExceptions: programs that return, break or continue out of a Try body are excluded; they break the macros, and the two lemmas on early exits say how. Clobbering of local variables by `setjmp` is not modelled.
- ReadLines: without exit callback, which may stop the reading before the data is drained. Streams with NUL bytes keep the buffer discipline, but their lines are not characterised. Poll and read are inputs, so the reading ends within given rounds only if these report the data.
- FeedComposes: within the size limit, because two chunks that fit one by one can be too long as one.
- FollowLog: for logs that only grow, and reads that succeed; a log that is truncated or replaced has its pending text joined with the new content, and status files without a final newline likewise.
- HandleLine: filters are external programs, so what they answer is an input; titles, descriptions and levels are left out.
- StartService: when a run is cut in the middle of a start, that attempt is counted but not yet in the books; the invariant states it as underway.
- SetMonitoredFiles: allocation of the path always succeeds.
- Split: allocation of the vector always succeeds.
- KeywordsAreExactButYearly: an interval given as a number is an input, not parsed.
- Root.Run: reading, locking and writing a file always succeeds except for the interruption between the two writes; the text format of the files, audit and cache invalidation are left out, and the password hash is an input.
- The check of the caller's identity and the hardening of the process in gpasswd.
- Number, boolean and id parsing, logging, usage texts and option parsing.
- Shell scripts, image building, package helpers and `mkpasswd`.
