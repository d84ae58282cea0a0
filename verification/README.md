# Models of yajudge

Dafny models of the stateful and algorithmic parts of yajudge, a system for programming courses
with automatic grading, and proofs about them. `dafny verify dfyconfig.toml` checks everything.

| file | what it models |
|---|---|
| `Supervisor.dfy`, `SupervisorProperties.dfy`, `Service.dfy` | the service supervisor: a monitor goroutine, Start and Stop, dying children and a clock, over every interleaving |
| `DiffAlignment.dfy` | the two-pane diff view: filler maps built from an edit script, and the painters that consume them |
| `Templates.dfy` | installing a configuration template by one `ReplaceAll` per key, in the random order of a Go map |
| `ConfigVariables.dfy` | the loop that expands `$NAME` in configured paths |
| `CourseFiles.dfy`, `CourseLoader.dfy`, `CourseRuns.dfy` | the course loader with its ten-second caches, whose loads can fail anywhere |
| `StaticIndex.dfy` | the web server's map of static files |
| `Arguments.dfy` | test arguments, from the generator wrapper to the tokenizer of the grading service |
| `Verdicts.dfy` | one test result, the loops over artifacts and tests, the verdict |
| `Checkers.dfy` | the text checker |
| `CsvTable.dfy` | importing a CSV table |
| `Benchmark.dfy` | the prime-counting speed benchmark |
| `Text.dfy`, `Wrappers.dfy` | the library functions these share |

Where the source changes fields step by step, so does the model: a class, or a method with a loop,
proved against functions about which the theorems are stated.

## What the models assume

- Supervisor: Start and Stop do not overlap, and Start is called only when no monitor is alive; a
  failed respawn ends the monitor, because the code then waits on a nil process
  (`yajudge_server/service.go:136-138`, `:175`); the clock counts whole seconds and never goes back.
  A signal has no effect of its own: a child may die at any time. One action is one critical
  section, or one wait, spawn, signal, timeout or rendezvous on the channel. `Stop` is not
  claimed to stop: lemmas show how it hangs and how it is outlived, and say exactly which calls can
  hang, when its last wait can return, when a respawn follows a Stop that has returned, and from
  where it always stops the service.
- Diff view: the operations are those that `diff` prints for an edit script, in order, with common
  lines between hunks. Either text may end with a line break. Rows are counted, not pixels.
- Templates and path variables: the environment and the key set are parameters. Besides what the
  source suggests, two conditions turned out to be needed, and lemmas show why: no key may contain
  '@', and no '$', not even a lone one, may have another '$' directly behind it or its name, unless
  all values begin with a character that is no name character.
- Course loader: times are milliseconds. What a load meets on the disk is the list of files it
  touches, with their times and whether reading each succeeds, so files may change between loads
  and a load may fail after any of them. `updateCourseLastModified` asks for the time of a file
  twice; the model lets both answers agree. A file of the course level counts for the course only.
- CSV: tables are rendered with commas, so the comma must separate. A tab separates when semicolons
  do; the option for tabs is never read (`yajudge_client/lib/src/utils/csv_parser.dart:43`).
- Grading: how each run ends and what the checkers print are inputs.

## Findings

- `Stop` can hang after its single timeout (`yajudge_server/service.go:272-281`;
  `SupervisorProperties.StopCanHang`; exactly for which calls: `SupervisorProperties.HangsIff`). It
  can return before a respawn, from its loop (`yajudge_server/service.go:257-260`) or at its guard
  (`yajudge_server/service.go:106-109`; `SupervisorProperties.StopCanBeOutlived`,
  `SupervisorProperties.GuardedStopCanBeOutlived`; exactly when: `SupervisorProperties.OutlivedIff`).
- With per-test builds a test whose build fails counts as passed
  (`yajudge_grader/lib/src/submission_processor.dart:207-212`; `Verdicts.BuildsAreOkIff`).
- `expandPathEnvVariables` does not end on some undefined names, nor on some texts in which all
  names are defined (`yajudge_common/lib/src/conf/config_file.dart:51-58`; exactly when, where no
  value can be glued to a name: `ConfigVariables.SafeEndsIff`; elsewhere:
  `ConfigVariables.TouchingVariablesHang`, `ConfigVariables.LoneDollarHangs`,
  `ConfigVariables.ValueWithItselfHangs`).
- A clock set back makes the course loader serve a course without its last sections
  (`yajudge_common/lib/src/course_loader.dart:119-127`, `:198-205`; exactly when:
  `CourseRuns.RequestTwice`).
- A quote of one kind inside quotes of the other kind is swallowed by the tokenizer, so no argument
  with a quote can be passed to a test (`yajudge_grader/lib/src/runtimes.dart:331-339`;
  `Arguments.TokensReturnIff`).
- With quoting on, the CSV import drops quoted text (`yajudge_client/lib/src/utils/csv_parser.dart:32-39`;
  `CsvTable.QuotedTextIsLost`); tables without quotes come back all the same
  (`CsvTable.RoundTripIff`).

## Model

| member | source | states |
|---|---|---|
| `Supervisor.RunKeepsInv` | yajudge_server/service.go:80-283 | The invariant behind the supervisor theorems (status, process, handshake, counters, budget) holds after every interleaving of monitor, Start/Stop, child deaths and clock. |
| `SupervisorProperties.StatusTellsProcess` | yajudge_server/service.go:132-237 | In every reachable state RUNNING has a process; RESPAWNING, DEAD, FAILED, STOPPED and DISABLED have none; attempts stay within the limit and below the crashes since Start, which are exactly the entries into RESPAWNING; DEAD at rest means all attempts are used up. |
| `SupervisorProperties.AtMostOneChild` | yajudge_server/service.go:205-237 | No interleaving ever has two live children. |
| `SupervisorProperties.StartStarts` | yajudge_server/service.go:80-102 | In every reachable state in which Start may be called and the service does not run, whatever its status: Start begins both counters anew; if the process can be started the service is RUNNING with one live child, the new one, the time of the start, and a monitor for it; otherwise FAILED without process, child or monitor. |
| `SupervisorProperties.StartOfRunning` | yajudge_server/service.go:81-85 | Start of a running service changes nothing. |
| `SupervisorProperties.CrashOutcome` | yajudge_server/service.go:163-203 | After a crash the attempts before an uptime of at least the reset interval count for nothing; if fewer than the limit are left the service is RESPAWNING with one more attempt and one more crash, otherwise DEAD, and the monitor is gone. |
| `SupervisorProperties.RespawnOutcome` | yajudge_server/service.go:175-237 | A respawn gives RUNNING with one live child, the new one, a new start time and the same monitor; or FAILED, and the monitor waits on no process. |
| `SupervisorProperties.StoppedMeansGone` | yajudge_server/service.go:272-277 | With no call of Start or Stop under way, STOPPED means no process, no monitor and no live child. |
| `SupervisorProperties.SenderHasReceiver` | yajudge_server/service.go:146-149 | A monitor blocked on `shutdownComplete` always has a stopper still in its loop, with the dead process still recorded. |
| `SupervisorProperties.SendIsNeverLost` | yajudge_server/service.go:149-149 | From a blocked send every step either keeps the send offered to a stopper, or receives it; after that only the clock can move before the state is STOPPED, without process, monitor or child. |
| `SupervisorProperties.HandshakeCompletes` | yajudge_server/service.go:250-283 | From a blocked send at most five steps of the stopper lead to the fully stopped state. |
| `SupervisorProperties.FinalWaitReturnsIff` | yajudge_server/service.go:251-281 | Once its single timeout has fired, a stopper in its select can return if and only if the monitor is sending or is still to read SHUTDOWN for this process. |
| `SupervisorProperties.StopCanHang` | yajudge_server/service.go:143-148 | The other case is reachable from every configuration: a monitor that had already read the status leaves Stop waiting for ever. |
| `SupervisorProperties.HangsIff` | yajudge_server/service.go:104-112 | A call of Stop can be left waiting for ever if and only if its guard lets it pass, and at the call there is a process or a respawn is coming. |
| `SupervisorProperties.StopCanBeOutlived` | yajudge_server/service.go:257-260 | Stop can find no process while a crash is being handled and return, and the respawned child runs. |
| `SupervisorProperties.GuardedStopCanBeOutlived` | yajudge_server/service.go:104-109 | So can a Stop that returns at its guard, because an earlier one left SHUTDOWN behind in the middle of a crash. |
| `SupervisorProperties.OutlivedIff` | yajudge_server/service.go:104-112 | With Stop not running and no process, a child runs again without a new Start if and only if the monitor is sleeping before a respawn, spawning, or has a child just spawned. This covers a Stop that returned from its loop and one that returned at its guard. |
| `SupervisorProperties.MeetingStops` | yajudge_server/service.go:250-283 | From a stopper in its loop and a monitor that sends, or is still to read SHUTDOWN for this process, every way on without a new Start in which Stop returns leaves the service stopped, without process, monitor or child. |
| `SupervisorProperties.StopCanSucceed` | yajudge_server/service.go:104-112 | A Stop of a running service whose exit the monitor has not read yet can end with the service fully stopped. |
| `SupervisorProperties.StopOfNothing` | yajudge_server/service.go:104-112 | A Stop at status STOPPED or SHUTDOWN, or one that finds no process, changes nothing. |
| `SupervisorProperties.RestartBudget` | yajudge_server/service.go:192-203 | With a positive reset interval a run of T seconds since Start makes at most MaxTries * (T / ResetAfterSec + 1) respawns, over every interleaving. |
| `SupervisorProperties.NoBudgetWithoutInterval` | yajudge_server/service.go:193-194 | Without a positive interval any number of respawns fits into zero seconds. |
| `SupervisorProperties.BudgetedIff` | yajudge_server/service.go:192-203 | Some function of the elapsed time bounds the respawns of all runs if and only if the interval is positive or no restart is allowed. |
| `SupervisedService.Service.constructor` | yajudge_server/service.go:37-57 | A new service begins the empty run and satisfies the invariant of all reachable states. |
| `SupervisedService.Service.MonitorMoves` | yajudge_server/service.go:132-237 | The monitor, deciding on the object's own fields, does an enabled step of the transition system; it does nothing only when no step of the monitor is enabled. |
| `SupervisedService.Service.ControllerMoves` | yajudge_server/service.go:80-283 | The same for Start and Stop, given what the caller asks for and what the operating system answers. |
| `SupervisedService.Service.Take` | yajudge_server/service.go:80-283 | Each turn does the one enabled action that the turn allows, or nothing if there is none, and keeps the invariant. |
| `SupervisedService.Supervise` | yajudge_server/service.go:80-283 | For every schedule the object makes a run of the transition system; its fields satisfy the status theorem, have at most one live child, report STOPPED only when all is gone, and stay within the restart budget. |
| `SupervisedService.Replay` | yajudge_server/service.go:80-283 | Every run is one of the object's: told only who moves, it goes through the same states. |
| `Templates.InstallConfigFile` | tools/yajudge_create_instance/main.go:369-401 | The installed text is the sequential replacement in some order of the key set, each key once; an installed file is kept. |
| `Templates.AnyOrderIsOnePass` | tools/yajudge_create_instance/main.go:379-382 | If no key begins another, keys and values hold no '@', and every '@' of the template starts a key, then every order of the keys gives the simultaneous one-pass substitution. |
| `Templates.InstalledIsOnePass` | tools/yajudge_post_install/main.go:214-217 | So whatever order the map iteration takes, the installed text is the one-pass substitution. |
| `Templates.OneMoreKey` | tools/yajudge_create_instance/main.go:380-382 | Replacing one further key in a partly substituted text is one pass with that key added. |
| `Templates.ToolKeysAreWellKeyed` | tools/yajudge_post_install/main.go:149-174 | The key sets of both tools are prefix-free and free of '@'. |
| `Templates.PrefixKeyMatters` | tools/yajudge_create_instance/main.go:380-382 | For all keys of which one begins the other there is a template on which one order gives the longer key's value and the other the shorter key's value and the rest of the longer key. |
| `Templates.MarkInValueMatters` | tools/yajudge_create_instance/main.go:380-382 | If a value holds the mark of another key, two orders give different texts, for all such keys and values with no other mark. |
| `Templates.MarkInKeyMatters` | tools/yajudge_create_instance/main.go:380-382 | If a key holds the mark of another key, two orders give different texts, although all other conditions hold, for all such keys and values. |
| `Templates.StrayMarkMatters` | tools/yajudge_create_instance/main.go:380-382 | With an '@' in the template that starts no key, two orders give different texts, for all keys of a whole family. |
| `ConfigVariables.ExpandPathEnvVariables` | yajudge_common/lib/src/conf/config_file.dart:51-58 | On every input on which the loop ends, its result has no variable left and is the text after some turn; if all variables are defined by values without '$', nothing can be glued, and no name begins another, it is the simultaneous expansion. |
| `ConfigVariables.FirstNameIs` | yajudge_common/lib/src/conf/config_file.dart:29-55 | The first match in a text is the longest name behind the first dollar sign that a name follows. |
| `ConfigVariables.NameCharIff` | yajudge_common/lib/src/conf/config_file.dart:29-29 | A name consists of digits, letters and underscores. |
| `ConfigVariables.SafeEnds` | yajudge_common/lib/src/conf/config_file.dart:51-58 | If every variable is defined by a value without '$', and nothing can be glued (no '$' stands directly behind a '$' and its name, or every value begins with a character that is no name character), the loop ends. |
| `ConfigVariables.SafeEndsIff` | yajudge_common/lib/src/conf/config_file.dart:51-58 | If values hold no '$' and nothing can be glued: the loop ends if and only if every variable, read from left to right, is defined or has a defined one before it whose name begins its own. |
| `ConfigVariables.DefinedNamesEndIff` | yajudge_common/lib/src/conf/config_file.dart:51-58 | If also no name begins another: the loop ends if and only if every name in the text is defined. |
| `ConfigVariables.TurnsAreBounded` | yajudge_common/lib/src/conf/config_file.dart:51-58 | For any text, when no value holds a '$': after as many turns as the text has '$' it never changes again; the loop ends within them, or else an undefined variable stays in front for ever. |
| `ConfigVariables.TurnKeepsCover` | yajudge_common/lib/src/conf/config_file.dart:52-57 | Replacing the leftmost variable does not change whether every variable is covered by a defined one. |
| `ConfigVariables.TurnsKeepMeaning` | yajudge_common/lib/src/conf/config_file.dart:51-57 | No number of turns changes what the text expands to. |
| `ConfigVariables.ReplaceKeepsShape` | yajudge_common/lib/src/conf/config_file.dart:56-56 | Replacing one variable keeps variables apart, brings in no name, and removes at least one '$' when the variable occurs. |
| `ConfigVariables.RewriteKeepsMeaning` | yajudge_common/lib/src/conf/config_file.dart:52-57 | One turn of the loop does not change what the text expands to. |
| `ConfigVariables.RewriteProgresses` | yajudge_common/lib/src/conf/config_file.dart:51-57 | One turn keeps the conditions of the loop and makes the number of '$' smaller. |
| `ConfigVariables.PrefixNameMatters` | yajudge_common/lib/src/conf/config_file.dart:56-56 | For any two names of which one begins the other there is a text where one turn yields the shorter value and the rest of the longer name. |
| `ConfigVariables.UndefinedNameHangs` | yajudge_common/lib/src/conf/config_file.dart:51-55 | An undefined leftmost variable is met again in every turn: the loop never ends. |
| `ConfigVariables.TouchingVariablesHang` | yajudge_common/lib/src/conf/config_file.dart:51-57 | For a whole family of names: defined variables that touch can glue into an undefined name, and the loop never ends. |
| `ConfigVariables.ValueWithItselfHangs` | yajudge_common/lib/src/conf/config_file.dart:51-57 | A variable whose value holds it again is replaced for ever: values without '$' are needed. |
| `ConfigVariables.LoneDollarHangs` | yajudge_common/lib/src/conf/config_file.dart:51-57 | A lone '$' directly before a defined variable makes a variable of its value; if nobody has that name the loop never ends. |
| `DiffAlignment.FileDiffView.constructor` | yajudge_client/lib/src/screens/screen_diffview.dart:55-57 | A new view holds the fillers and changed lines of its operations. |
| `DiffAlignment.FileDiffView.BuildAlignment` | yajudge_client/lib/src/screens/screen_diffview.dart:59-91 | The loop fills both maps and both sets with what the operations ask for, later operations overriding earlier ones. |
| `DiffAlignment.FileDiffView.AlignOne` | yajudge_client/lib/src/screens/screen_diffview.dart:60-90 | The effect of one operation on both maps and both sets. |
| `DiffAlignment.PaintText` | yajudge_client/lib/src/widgets/source_view_widget.dart:123-174 | The painter draws exactly the pane: the filler of each line, then the line, highlighted if it is marked. |
| `DiffAlignment.PaintNumbers` | yajudge_client/lib/src/widgets/source_view_widget.dart:306-329 | Each line number is drawn once, on the row on which the other painter draws that line. |
| `DiffAlignment.EmptyLinesCount` | yajudge_client/lib/src/widgets/source_view_widget.dart:79-85 | The accumulated count is the sum of all map values, in any iteration order. |
| `DiffAlignment.PanesLineUp` | yajudge_client/lib/src/screens/screen_diffview.dart:59-91 | For every edit script with common lines between its hunks, both panes, painted with the built maps, are the two columns of one layout read off the script. |
| `DiffAlignment.PanesOfTexts` | yajudge_client/lib/src/widgets/source_view_widget.dart:69-69 | The same for texts with or without a line break at the end: the empty line that splitting adds stands behind all others, the last filler in front of it. |
| `DiffAlignment.RowsMatch` | yajudge_client/lib/src/screens/screen_diffview.dart:59-91 | So for any two texts that the script relates every row holds equal lines that the script calls common, a highlighted pair of one hunk, or a line against filler or nothing; the panes are equally high but for the empty line behind a last line break that only one text has. |
| `DiffAlignment.DrawSideBySide` | yajudge_client/lib/src/screens/screen_diffview.dart:50-91 | Building and painting together: each drawn pane shows every line of its text once, from the first to the last. Two lines stand side by side without highlight if and only if the script calls them common (or both are the empty line behind a last line break), and highlighted if and only if one replaces the other in a hunk; every other line stands alone, not highlighted, against filler or, where one pane ends earlier, nothing. |
| `DiffAlignment.LayoutMatches` | yajudge_client/lib/src/screens/screen_diffview.dart:59-91 | The layout of a script that relates two texts pairs only equal or changed lines. |
| `DiffAlignment.BuiltFillers` | yajudge_client/lib/src/screens/screen_diffview.dart:60-83 | The built maps are the ones read off the script, on either side. |
| `DiffAlignment.BuiltChanges` | yajudge_client/lib/src/screens/screen_diffview.dart:84-88 | The marked lines are the paired lines of changed hunks, on either side. |
| `DiffAlignment.HeightIsConserved` | yajudge_client/lib/src/widgets/source_view_widget.dart:79-85 | Lines plus filler have the same total on both sides, and each hunk's filler stands in the map as the hunk asked for it: none is overwritten. |
| `DiffAlignment.FullPaneHeight` | yajudge_client/lib/src/widgets/source_view_widget.dart:79-85 | A pane is as high as its lines plus the sum of its filler map. |
| `DiffAlignment.TouchingHunksCollide` | yajudge_client/lib/src/screens/screen_diffview.dart:66-70 | Any two insertions that touch would overwrite each other's filler: the separation is needed. |
| `DiffAlignment.ScriptIsPrinted` | yajudge_common/lib/src/models/diff.dart:3-7 | Every script has a list of operations with ranges of which both ends count, so the theorems are about all scripts. |
| `CourseLoading.CourseLoader.UpdateCourseLastModified` | yajudge_common/lib/src/course_loader.dart:706-715 | Raises the course's time to a later file, does nothing while there is no time, fails for a missing file otherwise. |
| `CourseLoading.CourseLoader.UpdateProblemLastModifiedFromFile` | yajudge_common/lib/src/course_loader.dart:717-731 | Creates, sets or raises the problem's time; a missing file changes nothing. |
| `CourseLoading.CourseLoader.LoadProblemData` | yajudge_common/lib/src/course_loader.dart:326-411 | Succeeds if and only if every file does; then both times are those after all files, and no other item is touched. |
| `CourseLoading.CourseLoader.LoadCourseLesson` | yajudge_common/lib/src/course_loader.dart:250-324 | Succeeds if and only if all files of the lesson do; then the lesson has its id and title and, one for one, the ids and texts of its readings and problems, and the items of its problems are dropped. |
| `CourseLoading.CourseLoader.LoadCourseSection` | yajudge_common/lib/src/course_loader.dart:219-248 | The same for the loop over lessons. |
| `CourseLoading.CourseLoader.LoadCourse` | yajudge_common/lib/src/course_loader.dart:143-217 | Succeeds if and only if every file of the course does; then the item is the complete course, its time and the time of the check. A failed load leaves the time of the check and the error, and possibly a partial course; other problems' items are untouched. |
| `CourseLoading.CourseLoader.GetCourseData` | yajudge_common/lib/src/course_loader.dart:56-66 | An item checked less than 10000 ms ago is served unchanged; otherwise the answer is the load's error, or the whole course: as many sections, lessons, readings and problems as on the disk, each by its index with its own id, title and text; a course without sections becomes one section without a name. |
| `CourseLoading.CourseLoader.GetCourseLastModified` | yajudge_common/lib/src/course_loader.dart:83-97 | The same for the time; a failed load is remembered as an error. |
| `CourseLoading.CourseLoader.GetProblemData` | yajudge_common/lib/src/course_loader.dart:68-81 | A fresh item is served unchanged; otherwise it is replaced by a complete one, or by a blank one after an error. |
| `CourseLoading.CourseLoader.GetProblemLastModified` | yajudge_common/lib/src/course_loader.dart:99-117 | The same for the time, counted from the epoch; a failed load is remembered as an error. |
| `CourseRuns.ServeAll` | yajudge_common/lib/src/course_loader.dart:56-141 | Over any sequence of requests, loads failing anywhere, if no request for the course reads an earlier clock than one before it that could not load the course: every answer comes from one complete load, by this request or one that ended less than ten seconds before it; a course time is not before that load's files, and is the epoch or the time of a file that some request so far met; an error only from a load that failed; the same per problem. |
| `CourseRuns.Serve` | yajudge_common/lib/src/course_loader.dart:56-141 | Each request keeps the invariant that whatever may be served later holds a complete load. |
| `CourseRuns.CourseServed` | yajudge_common/lib/src/course_loader.dart:119-127 | Why a partial course left by a failed load is never served: the reasons to reload survive the failure. |
| `CourseRuns.ProblemServed` | yajudge_common/lib/src/course_loader.dart:129-141 | The same for a problem. |
| `CourseRuns.ProblemTimeServed` | yajudge_common/lib/src/course_loader.dart:99-117 | A served time is the newest file of the problem or the epoch, although the check was noted before the load. |
| `CourseRuns.CourseStaysTrusted` | yajudge_common/lib/src/course_loader.dart:331-332 | Loading a problem alone moves the course's time at most up, to the time of one of the problem's files, and nothing else. |
| `CourseRuns.RequestTwice` | yajudge_common/lib/src/course_loader.dart:56-66 | Of two requests of which the first fails to load, the second gets what the first left behind exactly if no error is remembered and the check before the failure is less than ten seconds old, so only on a clock set back; otherwise a complete course or an error. |
| `CourseRuns.LeftBehindIsPartial` | yajudge_common/lib/src/course_loader.dart:198-205 | If the course's own files were readable, what is left behind are the whole sections in front of the one that failed, item by item; of a course without sections nothing. |
| `CourseRuns.ServesPartialCourse` | yajudge_common/lib/src/course_loader.dart:119-127 | The condition can be met: a partial course served five seconds after a load, on a clock set back. |
| `CourseFiles.CourseTouchedIsMaximum` | yajudge_common/lib/src/course_loader.dart:706-715 | The time after any list of files is the maximum of the base and of the files that count. |
| `CourseFiles.ProblemTouchedIsMaximum` | yajudge_common/lib/src/course_loader.dart:717-731 | The same for a problem, with or without a base. |
| `CourseFiles.LastModifiedIsOneOfTheFilesIff` | yajudge_common/lib/src/course_loader.dart:143-217 | After a successful load the course's time is that of one of its files if and only if some file is not older than the epoch. |
| `CourseFiles.WholeCourseIff` | yajudge_common/lib/src/course_loader.dart:182-324 | The result of a complete load is the one course with the ids, titles and texts on the disk, section by section, lesson by lesson, reading by reading, problem by problem. |
| `CourseFiles.FilesOfCourse` | yajudge_common/lib/src/course_loader.dart:143-324 | A load looks at a file if and only if it is one of the course's own, the file of a section or lesson, or one of a reading or problem listed in a lesson. |
| `CourseFiles.CourseSucceedsIff` | yajudge_common/lib/src/course_loader.dart:143-324 | A course can be loaded if and only if each of these can be read and parsed and, where its time counts, found. |
| `CourseFiles.FirstFailingIff` | yajudge_common/lib/src/course_loader.dart:197-205 | A section is the one at which a load stops if and only if all files of the sections before it load and some file of its own does not. |
| `CourseFiles.ProblemIdsOfCourse` | yajudge_common/lib/src/course_loader.dart:318-320 | The problem items that a course load drops are those of the problems its lessons list. |
| `Benchmark.TestPrime` | yajudge_grader/lib/src/grader_service.dart:185-191 | The flag after the trial division is true exactly for primes. |
| `Benchmark.FindPrimes` | yajudge_grader/lib/src/grader_service.dart:181-196 | For any number N of primes the loop ends, and behind it `currentPrime - 1` is the N-th prime. |
| `Benchmark.RunBenchmark` | yajudge_grader/lib/src/grader_service.dart:177-202 | The benchmark counts to the 20000th prime. |
| `Benchmark.PrimeAbove` | yajudge_grader/lib/src/grader_service.dart:184-196 | There is a prime above every bound, which is why the loop ends. |
| `Benchmark.NthPrimeIsUnique` | yajudge_grader/lib/src/grader_service.dart:192-194 | There is only one N-th prime. |
| `CsvTable.ParseRow` | yajudge_client/lib/src/utils/csv_parser.dart:20-55 | The loop with its quoting state computes the cells of a line. |
| `CsvTable.ParseTable` | yajudge_client/lib/src/utils/csv_parser.dart:57-72 | The rows of all lines that are not blank, the first line skipped if asked for, padded. |
| `CsvTable.NormalizeColumnsCount` | yajudge_client/lib/src/utils/csv_parser.dart:74-84 | Every row is padded with empty cells to the width of the widest, and no cell changes. |
| `CsvTable.TableIsRectangular` | yajudge_client/lib/src/utils/csv_parser.dart:74-84 | Whatever the text and the options, all rows of the table have one width. |
| `CsvTable.SeparatesIff` | yajudge_client/lib/src/utils/csv_parser.dart:38-49 | A symbol behind a plain cell ends it if and only if it is a comma, a semicolon, a tab or a space, and the option for it is set, for a tab the one for semicolons. |
| `CsvTable.RowRoundTripIff` | yajudge_client/lib/src/utils/csv_parser.dart:28-54 | A joined row gives its cells back, but for an empty last one, if and only if all cells are plain: no separator, and no quote if quoting is on. |
| `CsvTable.ParsedIsPlain` | yajudge_client/lib/src/utils/csv_parser.dart:20-72 | Whatever the text and the options, no parsed cell holds a separator, a line end or, with quoting on, a quote. |
| `CsvTable.LineIsBlankIff` | yajudge_client/lib/src/utils/csv_parser.dart:65-67 | A rendered line is skipped as blank if and only if its row is one blank cell. |
| `CsvTable.RoundTripIff` | yajudge_client/lib/src/utils/csv_parser.dart:20-84 | For all options under which the comma separates, and every rectangular table: rendering and parsing returns the table if and only if it is empty, or all cells are plain, no row renders blank and some cell of the last column is not empty. |
| `CsvTable.QuotedTextIsLost` | yajudge_client/lib/src/utils/csv_parser.dart:32-39 | With quoting on, any text in quotes is dropped, wherever it stands in a line. |
| `StaticIndex.StaticHandler.LoadDirectoryContent` | yajudge_grpcwebserver/static_handler.go:75-111 | The recursive loader, writing into the map, adds what the specification adds and stops at the first error. |
| `StaticIndex.StaticHandler.ReloadDirectoryContent` | yajudge_grpcwebserver/static_handler.go:65-73 | A reload succeeds if and only if the whole tree is readable; then the map holds, at each list of names joined by slashes, exactly the file to which these names lead, and has as many entries as there are files; after an error it holds exactly the files in front of the first entry that could not be read. |
| `StaticIndex.StaticHandler.Handle` | yajudge_grpcwebserver/static_handler.go:113-141 | On an index of a tree the answer is the file at the path, at `/` the start page; 404 for a path that begins with `/favicon.` and has no file; for any other path the start page, or an empty answer if there is none. |
| `StaticIndex.LoadSucceedsIff` | yajudge_grpcwebserver/static_handler.go:76-95 | A load succeeds if and only if everything below is readable. |
| `StaticIndex.LoadStops` | yajudge_grpcwebserver/static_handler.go:79-110 | A load adds the paths of all files, in the order of the entries, in front of the first entry that cannot be read, and no others. |
| `StaticIndex.LoadFinds` | yajudge_grpcwebserver/static_handler.go:80-110 | For each path a load gives the file that walking finds, or else what was there before. |
| `StaticIndex.LoadCounts` | yajudge_grpcwebserver/static_handler.go:102-107 | No entry overwrites another: the map grows by the number of files. |
| `StaticIndex.IndexIsTree` | yajudge_grpcwebserver/static_handler.go:65-111 | For any finite tree with distinct, slash-free sibling names a load into the empty map is exactly the tree. |
| `StaticIndex.WalkIff` | yajudge_grpcwebserver/static_handler.go:80-110 | Walking by the first entry of each name finds a file if and only if some entries bearing the names lead to it. |
| `Arguments.ParseTestInfArgumentsLine` | yajudge_grader/lib/src/runtimes.dart:319-348 | The loop with its quote symbol; for every line that is arguments of bare and quoted pieces joined by spaces, its result is what the pieces say if and only if they are kept. |
| `Arguments.TestRunArguments` | yajudge_grader/lib/src/runtimes.dart:289-317 | The generated file wins over the stored one; its value counts if and only if the trimmed text before its first `=` is `params`; arguments printed by the wrapper come back if and only if they survive. |
| `Arguments.TokensAreFree` | yajudge_grader/lib/src/runtimes.dart:325-346 | Tokens are never empty and never hold a quote, whatever the line. |
| `Arguments.TokensReturnIff` | yajudge_grader/lib/src/runtimes.dart:319-348 | Arguments, each made of any sequence of bare and quoted pieces (inside a quoted one the other quote ends one text and begins the next), joined by spaces: they come back as the concatenations of their pieces if and only if none is empty, no piece holds a quote, and only quoted ones hold spaces. |
| `Arguments.UnclosedQuotesHold` | yajudge_grader/lib/src/runtimes.dart:325-346 | Behind such arguments, quotes that the line does not close hold to its end: all that follows, spaces included, belongs to the last argument. |
| `Arguments.ArgumentsSurviveIff` | yajudge_grader/resources/tests_generator_wrapper.py:56-60 | Printed to the `.inf` file and read back, arguments return if and only if none is empty or holds a space or a quote and the line neither begins nor ends with other white space. |
| `Arguments.ParamsOfPrinted` | yajudge_grader/lib/src/runtimes.dart:299-306 | The reader finds the key `params` and takes the joined arguments, trimmed. |
| `Arguments.BothRoutesAgree` | yajudge_common/lib/src/course_loader.dart:606-610 | A printed file among the problem's tests reaches the tokenizer as the same line by way of the course loader. |
| `Verdicts.ToTestResult` | yajudge_grader/lib/src/runtimes.dart:95-128 | OK if and only if not killed, no error detected and in time; a timeout overrides everything, a valgrind report the signal; the other fields tell how the run ended. |
| `Verdicts.ProcessCheckAnswer` | yajudge_grader/lib/src/submission_processor.dart:529-551 | The answer is accepted if and only if both checkers are silent. |
| `Verdicts.FullResult` | yajudge_grader/lib/src/submission_processor.dart:391-410 | The result of one test run to its end is OK if and only if the run was not killed, had no error, was in time and the checkers said nothing; TIME_LIMIT, VALGRIND_ERRORS and WRONG_ANSWER each exactly for their cause; it carries the test's number and the artifact's name. |
| `Verdicts.ProcessSolutionArtifacts` | yajudge_grader/lib/src/submission_processor.dart:369-414 | The results are those of the tests that count (all, or the one asked for), artifact by artifact and test by test, each once, up to and with the first failure. |
| `Verdicts.StopsOnlyThere` | yajudge_grader/lib/src/submission_processor.dart:408-410 | Those conditions leave one possible list of results. |
| `Verdicts.ProcessTests` | yajudge_grader/lib/src/submission_processor.dart:181-234 | Without per-test builds one such list over all tests; with them, for each build that succeeded, such a list over the test it was made for, and nothing for a build that failed. |
| `Verdicts.Submission.ApplyTestResults` | yajudge_grader/lib/src/submission_processor.dart:129-158 | The chain of tests for statuses computes the most severe one, in the order RUNTIME_ERROR, VALGRIND_ERRORS, TIME_LIMIT, WRONG_ANSWER; the results are added, the build log cleared. |
| `Verdicts.VerdictIsWorst` | yajudge_grader/lib/src/submission_processor.dart:139-153 | The verdict is OK or the status of some result, and no result is more severe. |
| `Verdicts.VerdictOfPermutation` | yajudge_grader/lib/src/submission_processor.dart:130-134 | The verdict depends neither on the order nor on the repetition of results. |
| `Verdicts.VerdictOfConcatenation` | yajudge_grader/lib/src/submission_processor.dart:221-227 | The verdict over accumulated results is the more severe of the two verdicts. |
| `Verdicts.VerdictIsFirstFailure` | yajudge_grader/lib/src/submission_processor.dart:129-158 | Stopping early loses nothing: the verdict is OK if and only if every test that counts passes; otherwise one of them is the first to fail, its result comes last, and the verdict is its status. |
| `Verdicts.BuildsAreOkIff` | yajudge_grader/lib/src/submission_processor.dart:207-212 | With per-test builds the verdict is OK if and only if, for every test i whose build succeeded, test i passes with each artifact of that build that has it: a test whose build failed counts as passed. |
| `Verdicts.BuildsVerdict` | yajudge_grader/lib/src/submission_processor.dart:218-230 | Otherwise it is the status with which some build first fails, and no build first fails with a more severe one. |
| `Verdicts.CompilationErrorIsLost` | yajudge_grader/lib/src/submission_processor.dart:135-153 | A result with a compilation error, which `processTests` never makes, would not change the verdict. |
| `Verdicts.ProcessSubmissionGuarded` | yajudge_grader/lib/src/submission_processor.dart:72-126 | Style errors and a failed build end the grading. Otherwise, without per-test builds, the status is OK if and only if every test of every artifact passes, else that of the lexicographically first failing (artifact, test), whose result, with its number and target, is the last one; with per-test builds the two statements above hold of the status. |
| `Checkers.MatchText` | yajudge_grader/lib/src/checkers.dart:65-100 | Lax acceptance holds if and only if the normal forms are equal, strict acceptance if and only if the right-trimmed texts are; the message names the first line that differs. |
| `Checkers.StrictIff` | yajudge_grader/lib/src/checkers.dart:68-79 | The mode is strict if and only if one of the words of the options is `strict`. |
| `Text.TrimTakes` | yajudge_grader/lib/src/checkers.dart:71-94 | `trim` takes all white space at both ends and nothing else. |
| `Text.SpaceIff` | yajudge_grader/lib/src/checkers.dart:71-94 | White space is the set of code points that Dart's `trim` removes. |
| `Checkers.MatchLines` | yajudge_grader/lib/src/checkers.dart:92-98 | The loop finds the first pair of lines that differ after trimming, if any. |
| `Checkers.NormalFormIsFixed` | yajudge_grader/lib/src/checkers.dart:87-98 | A normal form is its own normal form. |
| `Checkers.LinesAreTold` | yajudge_grader/lib/src/checkers.dart:87-98 | For any two texts whose lines, trimmed, are two given lists with no blank line at either end of several: lax acceptance holds if and only if the lists are equal. So white space around every line is forgiven and nothing else; a blank line inside counts. |
| `Checkers.StrictImpliesLax` | yajudge_grader/lib/src/checkers.dart:79-98 | What strict mode accepts, lax mode accepts; on texts in normal form they agree. |
| `Checkers.LaxForgivesIndent` | yajudge_grader/lib/src/checkers.dart:79-98 | White space in front of any text that is not blank is forgiven by lax mode and not by strict mode. |

## Left out

- Processes, signals, pipes, file permissions, cgroups and mounts: only "a child dies", "a start succeeds or fails" and "time passes" are kept.
- SIGHUP, `checkFilesPermissions`, `cleanFiles` and the log files of the supervisor: they do not touch the modelled fields.
- `RestartIntervalMs`: it only delays the monitor, which any run may do anyway.
- The text of error and log messages, except where a checker's message tells what differs.
- Pixels, hover, comments and line widths in the painters.
- The parsing of `diff` output: the view starts from the operations.
- `path.absolute` and the defaults that `expandPathEnvVariables` puts into the environment: the environment is a parameter.
- YAML, deadlines, limits and code styles of courses: a problem and a reading are opaque texts.
- CourseRuns.ServeAll: an error from a problem is traced to a load that would fail with the course tracked; while no course was ever loaded the source skips one lookup.
- A reload of the static files between the two lookups of one request: `Handle` reads one map.
- HTTP headers, content types, ETags and the HTTP/2 push of the web server.
- CsvTable.NormalizeColumnsCount: returns the padded table; the source appends to the rows of its argument.
- The Python and sequence checkers and `screenBadSymbols`: they need floating point or other programs, or would only add easy members.
- UTF-8: the text checker gets decoded text, or None for output that cannot be decoded.
- Test counts, generators and the unpacking of test bundles: the runs of each artifact are given.
- gRPC, the database and all widgets.
