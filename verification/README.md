# HiClaw engines in Dafny

HiClaw runs teams of agents: a controller writes configuration and team context for its workers,
workers keep projects, files and credentials in step with it, and a Leader schedules work as task
graphs or loops. Most of the repository moves data between services. This project models the engines
in it that decide something, and proves what they keep over all inputs, runs and interleavings.

| module | what it models |
|---|---|
| `Text`, `Items`, `Sorting`, `Lists`, `MarkerText` | strings, line splitting, replacing, sorted sets, first occurrences, comment markers |
| `Dag`, `Scheduler` | the graph check and the ready/delegate scheduler, on tasks as values |
| `TaskLine`, `PlanPatterns`, `PlanText`, `PlanLayout`, `PlanRoundTrip`, `LoopRoundTrip` | the Markdown plan, which is the only store of graph and loop state; its lines and the patterns that read them |
| `PlanRuns`, `Taskflow` | runs on the stored text, and the task store as a class |
| `Json`, `JsonCodec`, `OpenclawMerge`, `Pull` | deep merging, parsing and printing as parameters, the merge of two `openclaw.json` documents, pulling |
| `PushLoop` | the timestamp-driven push, interleaved with writers |
| `Overlay` | the table of controller fields laid over `agent.json` |
| `TokenCache`, `Authenticator` | the bounded token cache, first on values, then on shared objects |
| `Markers`, `Coordination` | the managed blocks of `AGENTS.md` |
| `Dotenv` | the `.env` file of a Hermes worker |
| `AccessResolver` | template variables and access entries |
| `History` | the per-room history window |

`dafny verify dfyconfig.toml` checks all of it. Where the source changes something step by step the
model is a class or a method with a loop, proved against a function on values; the properties are
proved about that function and about runs of it. Clock readings, the answers of the object store and of
the token review, JSON parsing and printing, and the digest function are parameters.

## Where the promise holds, exactly

Some promises do not hold for all inputs. Each is stated with the condition under which the code keeps
it.

- A task line reads back as the task exactly when its title has no line feed and no white space directly
  before "(", and its assignee has no line feed, no comma, no closing parenthesis and does not itself
  announce dependencies (`TaskLine.LineRoundTrip`). A written plan gives its tasks back exactly when
  besides that no title and no assignee holds any other line break (`PlanRoundTrip.DagRoundTrip`).
- The payload check lets titles with line breaks through. Runs from a new project stay sound when every
  added task can be stored (`PlanRuns.StoredRunsAreSound`); the text stands for what `add_tasks` returned
  exactly then (`AddIsReadBack`). Otherwise they need not: a title that goes on with the line of another
  task puts that task into the plan, whatever its status and its dependencies
  (`TornTitleForgesTask`, `NewProjectMayBreak`).
- One rewrite always keeps the lines before the section, and keeps the foreign sections exactly when no
  line it writes imitates a foreign heading (`PlanRoundTrip.DagKeepsIff`, `LoopRoundTrip.LoopKeepsIff`).
  Any number of such rewrites keeps the foreign sections up to trailing white space, unless the whole rest
  of the file after the plan is a heading with nothing behind its marks: trimming turns "## " into "##",
  which is no heading any more, and the next rewrite drops it (`PlanLayout.RewritesPreserve`,
  `PlanLayout.BareHeading`).
- A loop plan reads back unchanged exactly when the text can carry it: goal and stop condition on one
  line, a trimmed template without section lines, readable tasks of one line each, a history without
  blank entries; a template that repeats a later heading, indented, has its own rest read in that
  heading's place (`LoopRoundTrip.LoopRoundTripExact`).
- A recorded loop decision reads back as recorded exactly when the text could carry the loop before and
  its summary and its next action are not both blank (`Taskflow.RecordReread`).
- `delegate_task` ignores the loop status that `ready_loop_nodes` looks at, so in a stopped loop it still
  hands out nodes that are not offered as ready (`Taskflow.LoopDelegation`).
- Upgrading the builtin section twice is upgrading it once for every file that carries the start marker;
  for files without it, `Markers.UpgradeTwiceIff` says which ones.
- Injecting a team context twice is injecting the second one alone exactly when removal leaves neither
  a start marker nor a builtin end marker. With a builtin end marker every further injection leaves two
  more line feeds; a start marker that lost its end marker swallows the text behind it
  (`Coordination.InjectTwiceIff`, `InjectionsStack`, `DanglingMarkerLosesText`).
- Merging the same remote document again gives the same document exactly when the remote's
  `channels.matrix` is an object or absent; otherwise the second merge raises an exception
  (`OpenclawMerge.MergeAgainIff`).
- A push pass leaves the store in agreement with every eligible file not written since the pass began,
  unless its last upload failed; such a file stays as it is in the store until it is written again
  (`PushLoop.PassConverges`, `FailedStaysBehind`). Agreement is agreement of the text that Python's text
  mode reads. A text is the only one that reads as it does exactly when it has no line ending at all
  (`OneReadingIff`); rewrites that only change line endings are not uploaded (`LineEndingsStay`); where no
  carriage return is written, a quiet pass leaves the very texts in the store (`QuietPassExact`).
- A written `.env` reads back as its non-empty entries exactly when their keys fit a line and their
  values have no line break (`Dotenv.EnvRoundTripIff`, `BreakForgesEntry`).
- The four template replacements are one substitution when no variable occurs in a literal or starts at
  its end, and the values used are safe: no later variable occurs in the value or starts at its end. The
  value of the team, replaced last, is always safe. A value is safe exactly when it spoils no template
  (`AccessResolver.ExpandIsSubstitution`, `SafeValueIff`, `ValuesExpandAgain`).

Where code and its own documentation disagree, the model follows the code: the comment at
hermes/src/hermes_worker/bridge.py:186-191 says that a setting missing on the Manager side does not
shadow a value the worker had, but the bridge first drops every key it owns, so the value is gone
(`Dotenv.KeysAfterBridge`); the comment at
hiclaw-controller/internal/agentconfig/coordination.go:35-36 says that the block is replaced, while line
feeds stack; the package comment at hiclaw-controller/internal/accessresolver/defaults.go:10-12 lists two
kinds and three variables, and the code has four of each.

## Model

| member | source | states |
|---|---|---|
| Dag.ValidateDag | copaw/src/copaw_worker/task.py:768-798 | accepts exactly the graphs with distinct ids, known dependencies and a topological order; the order in which nodes leave the queue is one; a cycle report comes with a non-empty set of nodes that each depend on a member of it; a missing dependency is the first one |
| Dag.DeadlockMeansNoOrder | copaw/src/copaw_worker/task.py:768-798 | a set of nodes that all wait for each other rules out every topological order |
| Dag.DrainedSome | copaw/src/copaw_worker/task.py:786-798 | the nodes that never leave the queue each depend on another of them |
| Scheduler.AddAllContents | copaw/src/copaw_worker/task.py:217-244 | a payload is accepted exactly when its ids are distinct and belong to no started task; the result is the payload plus what it did not replace |
| Scheduler.DelegateIffReady | copaw/src/copaw_worker/task.py:411-493 | delegation succeeds exactly for the ids of ready nodes |
| Scheduler.DelegateEffect | copaw/src/copaw_worker/task.py:434-493 | a delegation changes one status, keeps the graph valid and takes exactly that node from the ready list |
| Scheduler.RunsAreSound | copaw/src/copaw_worker/task.py:217-244 | in every run of adding, delegating, pausing, resuming and accepting, the graph is valid and started nodes have only completed dependencies |
| Scheduler.NextSound | copaw/src/copaw_worker/task.py:434-525 | every single step keeps that invariant |
| Scheduler.SomethingIsReady | copaw/src/copaw_worker/task.py:411-431 | a valid graph of pending and completed nodes with a pending one has a ready node |
| Scheduler.RoundsFinish | copaw/src/copaw_worker/task.py:411-493 | delegating and accepting ready nodes in any order completes the graph in as many delegations as there were pending nodes |
| TaskLine.LineRoundTrip | copaw/src/copaw_worker/task.py:758-765 | parsing a rendered task gives the task back exactly for readable tasks; a line feed in title or assignee makes it unreadable |
| TaskLine.BodyRoundTrip | copaw/src/copaw_worker/task.py:872-900 | the lazy title match finds the whole title when neither title nor details hold a line feed and no white space precedes a parenthesis in the title |
| TaskLine.BodyCutsTitle | copaw/src/copaw_worker/task.py:872-900 | white space before a parenthesis cuts the title |
| TaskLine.ParsedPart | copaw/src/copaw_worker/task.py:872-900 | a title or assignee that is read has no line feed, and no character that the line lacks |
| TaskLine.AssigneeIsCut | copaw/src/copaw_worker/task.py:872-900 | a comma or a closing parenthesis cuts the assignee |
| TaskLine.DependsRoundTrip | copaw/src/copaw_worker/task.py:872-900 | dependencies come back when the assignee announces none |
| TaskLine.DependsAreForged | copaw/src/copaw_worker/task.py:872-900 | an assignee that announces dependencies changes those that are read |
| PlanPatterns.TaskLineIff | copaw/src/copaw_worker/task.py:872-900 | the parser reads exactly the lines that its regular expressions describe, as the task they give: the pattern of the head, the shortest title, the details behind it, and the first assignee and dependencies announced there |
| PlanPatterns.HeadIff | copaw/src/copaw_worker/task.py:872-879 | the scan of marker, id and dash finds what the pattern describes, and nothing else |
| PlanPatterns.BodyIff | copaw/src/copaw_worker/task.py:872-879 | the scan of title and details finds the lazy match |
| PlanPatterns.FieldScan | copaw/src/copaw_worker/task.py:884-886 | the first announcement of a field, with the longest value behind it |
| PlanPatterns.StopsAre | copaw/src/copaw_worker/task.py:884-886 | where an assignee and where the dependencies end |
| PlanPatterns.SplitJoined | copaw/src/copaw_worker/task.py:887-893 | the dependencies are split at the commas |
| PlanPatterns.NonBlankIs | copaw/src/copaw_worker/task.py:887-893 | blank dependencies are dropped, the others stripped, in order |
| PlanPatterns.SafeIdIff | copaw/src/copaw_worker/task.py:1021-1025 | which characters an id is made of |
| PlanPatterns.CountersIff | copaw/src/copaw_worker/task.py:998-1002 | the counters of a loop are read from exactly the texts of two numbers with a slash between them |
| PlanPatterns.LoopIff | copaw/src/copaw_worker/task.py:654-679 | for any text: whether it is a loop plan, which loop plans are refused and why, and what every field of the others is read from, with the values for missing fields |
| PlanPatterns.FieldValueIs | copaw/src/copaw_worker/task.py:978-983 | a field is what stands behind the first line that starts with its name |
| PlanPatterns.SectionIs | copaw/src/copaw_worker/task.py:986-995 | a section is what stands behind the first line that is its heading, up to the next section |
| PlanLayout.RewritesPreserve | copaw/src/copaw_worker/task.py:682-755 | any sequence of DAG and loop rewrites that imitate no foreign heading keeps the lines before the execution heading, and the foreign sections exactly when they are durable |
| PlanLayout.AfterWrite | copaw/src/copaw_worker/task.py:682-708 | how a written plan falls into prefix, managed section and suffix again |
| PlanLayout.BareHeading | copaw/src/copaw_worker/task.py:964-975 | which foreign headings survive trimming |
| PlanLayout.WrittenLines | copaw/src/copaw_worker/task.py:682-755 | a plan is written as the prefix, the lines of its items and the suffix, trimmed at the end only, whatever line breaks a title, an assignee or a template holds |
| PlanRoundTrip.DagWritten | copaw/src/copaw_worker/task.py:682-708 | the lines of a plan rewritten to a DAG: the prefix, or all lines and a blank one where there was no heading, the section and the foreign sections |
| Items.RereadItems | copaw/src/copaw_worker/task.py:702-708 | joining items, trimming the text and splitting it gives the lines of the items, trimmed at the end |
| PlanRoundTrip.DagKeepsIff | copaw/src/copaw_worker/task.py:682-708 | a DAG rewrite keeps the prefix, and the foreign sections exactly when no written task line imitates a foreign heading |
| LoopRoundTrip.LoopKeepsIff | copaw/src/copaw_worker/task.py:711-755 | the same for a loop rewrite, its template and its tasks |
| PlanRoundTrip.DagReread | copaw/src/copaw_worker/task.py:616-623 | what is parsed from a rewritten plan, for any tasks: those before the section, those that the written lines stand for and those after it |
| PlanRoundTrip.DagRoundTrip | copaw/src/copaw_worker/task.py:682-708 | without task lines elsewhere the tasks written are the tasks read, in order, exactly when all are readable and take one line each |
| PlanRoundTrip.CollectRendered | copaw/src/copaw_worker/task.py:616-623 | a rendered list is collected unchanged, item by item, exactly when every task is readable |
| PlanRoundTrip.DagTypeReread | copaw/src/copaw_worker/task.py:645-651 | a plan rewritten to a DAG, whatever its tasks, is read as one |
| LoopRoundTrip.LoopReread | copaw/src/copaw_worker/task.py:654-679 | a written loop plan is parsed back: status, counters, the tasks its lines stand for, goal and stop condition on one line, template trimmed, history without blank entries |
| LoopRoundTrip.LoopRoundTripExact | copaw/src/copaw_worker/task.py:711-755 | every loop plan that is written comes back unchanged exactly when the text can carry each of its fields |
| LoopRoundTrip.KeptByPlanQuiet | copaw/src/copaw_worker/task.py:711-755 | what that means, field by field, for a template that imitates no heading |
| LoopRoundTrip.IterationRoundTrip | copaw/src/copaw_worker/task.py:998-1002 | the iteration counters survive printing and parsing |
| LoopRoundTrip.NumberRoundTrip | copaw/src/copaw_worker/task.py:998-1002 | decimal printing and parsing of a counter |
| LoopRoundTrip.HistoryReread | copaw/src/copaw_worker/task.py:986-995 | the history section gives back the entries that are not blank |
| LoopRoundTrip.TemplateStays | copaw/src/copaw_worker/task.py:711-755 | a template with line feeds only is kept, trimmed |
| PlanRuns.PayloadAccepted | copaw/src/copaw_worker/task.py:903-918 | when a payload becomes a task, and that the task carries its id, title, assignee and dependencies, each stripped |
| PlanRuns.AddRawIsAddAll | copaw/src/copaw_worker/task.py:217-244 | the loop over raw payloads does what the abstract one does with the tasks they stand for, which are pending and carry the payloads' fields |
| PlanRuns.AddRawEnters | copaw/src/copaw_worker/task.py:217-244 | which payloads a plan accepts, and the tasks that result: ids in order of first mention, the payload's stripped fields under its id, pending, and the plan's last task with the id under every other |
| PlanRuns.WithPayloadsOnce | copaw/src/copaw_worker/task.py:217-244 | this description determines the tasks |
| PlanRuns.PayloadReady | copaw/src/copaw_worker/task.py:411-431 | an added task is offered exactly when each dependency its payload names is a completed task |
| PlanRuns.RewriteTidy | copaw/src/copaw_worker/task.py:682-708 | storable tasks written into a tidy plan are exactly what the plan then holds |
| PlanRuns.InitialTidy | copaw/src/copaw_worker/task.py:947-954 | a new project's plan is tidy and empty when its title's lines are harmless |
| PlanRuns.PlainTitle | copaw/src/copaw_worker/task.py:947-954 | a title of one line is harmless |
| PlanRuns.InitialReread | copaw/src/copaw_worker/task.py:947-954 | for any title, a new plan holds the tasks that the title's lines stand for, and no others |
| PlanRuns.AddIsReadBack | copaw/src/copaw_worker/task.py:217-244 | after an accepted add the text stands for the tasks returned exactly when every added task is storable |
| PlanRuns.StoredIsNext | copaw/src/copaw_worker/task.py:217-244 | an operation on the stored text is the abstract step on what the text stands for |
| PlanRuns.StoredRunIsRun | copaw/src/copaw_worker/task.py:191-493 | a run on the text from a new project is a run on the graphs its texts stand for, from an empty one |
| PlanRuns.StoredRunsAreSound | copaw/src/copaw_worker/task.py:191-493 | from a new project on, through any operations on the text whose added tasks are storable, the plan parses to a valid graph in which started tasks have only completed dependencies |
| PlanRuns.TornTitleForgesTask | copaw/src/copaw_worker/task.py:217-244 | an accepted task whose title goes on with the line of any storable task with dependencies puts that task into the plan; with an unknown dependency the graph is not valid |
| PlanRuns.NewProjectMayBreak | copaw/src/copaw_worker/task.py:191-244 | one accepted add on a new project can leave a plan with an invalid graph |
| Taskflow.TaskStore.CreateProject | copaw/src/copaw_worker/task.py:191-214 | when a project is created, and what is stored |
| Taskflow.TaskStore.AddTasks | copaw/src/copaw_worker/task.py:217-244 | when tasks are added, which tasks are then returned, field by field, the rewritten plan, and nothing changed on failure |
| Taskflow.TaskStore.AddThenReady | copaw/src/copaw_worker/task.py:217-431 | add_tasks, then ready_nodes: an added task is offered exactly when every dependency that its payload names is completed |
| Taskflow.TaskStore.PlanDag | copaw/src/copaw_worker/task.py:247-278 | one task for each payload, with its stripped fields, and with the status of the plan's last task with that id, or else pending; nothing changes on failure |
| Taskflow.TaskStore.PlanLoop | copaw/src/copaw_worker/task.py:281-338 | when a loop plan is accepted, the plan stored, and its tasks: the payloads' fields with the statuses that the loop's tasks had |
| Taskflow.ReplanIs | copaw/src/copaw_worker/task.py:247-278 | which payloads a plan can be made of, and the tasks it then has |
| Taskflow.ReplannedOnce | copaw/src/copaw_worker/task.py:247-278 | this description determines the tasks |
| Taskflow.TaskStore.ReadyNodes | copaw/src/copaw_worker/task.py:411-431 | the answer for every kind of project, plan and graph |
| Taskflow.TaskStore.ReadyLoopNodes | copaw/src/copaw_worker/task.py:341-363 | the same for loops, with the statuses in which nothing is ready |
| Taskflow.TaskStore.DelegateTask | copaw/src/copaw_worker/task.py:434-493 | when a task is handed out, the files written, and the one failure after which files have been written already |
| Taskflow.TaskStore.PauseProject | copaw/src/copaw_worker/task.py:496-509 | only the status changes |
| Taskflow.TaskStore.ResumeProject | copaw/src/copaw_worker/task.py:512-525 | only the status changes |
| Taskflow.TaskStore.RecordLoopIteration | copaw/src/copaw_worker/task.py:366-408 | which decisions are accepted, and the plan stored: for each of the five words the status it leads to, the counter, the entry added, and everything else as before |
| Taskflow.DecisionIs | copaw/src/copaw_worker/task.py:1013-1018 | the five decisions, whatever their case and the white space around, the word each is recorded under and the status it leads to |
| Taskflow.TaskStore.RecordThenReady | copaw/src/copaw_worker/task.py:341-408 | record_loop_iteration, then ready_loop_nodes: nothing after a stop or a question to the user, otherwise exactly the pending tasks whose dependencies are completed |
| Taskflow.TaskStore.MayDelegateIffReady | copaw/src/copaw_worker/task.py:434-462 | on a valid DAG plan delegation is allowed exactly for the nodes ready_nodes answers with |
| Taskflow.TaskStore.ReadyDelegateReady | copaw/src/copaw_worker/task.py:411-493 | ready_nodes, delegate_task, ready_nodes: a task is handed out exactly when it was offered, and is then the only one missing |
| Taskflow.TaskStore.Perform | copaw/src/copaw_worker/task.py:217-525 | a call that succeeds is an operation on the stored text, one that fails changes nothing |
| Taskflow.TaskStore.PerformAll | copaw/src/copaw_worker/task.py:191-525 | any calls on a new project make a run on the stored text and leave a valid graph, if the added tasks are storable |
| Taskflow.RecordsAccumulate | copaw/src/copaw_worker/task.py:366-408 | any sequence of decisions appends one entry each, never runs the counter backwards or past the limit, ends in the status that the last one leads to, and leaves everything else alone |
| Taskflow.RecordReread | copaw/src/copaw_worker/task.py:366-408 | a recorded decision reads back as recorded exactly when the text could carry the loop before and summary or next action is not blank |
| Taskflow.LoopDelegation | copaw/src/copaw_worker/task.py:341-363 | delegation and readiness differ in loops exactly by the loop's status |
| Taskflow.PlannedLoopReread | copaw/src/copaw_worker/task.py:281-338 | what plan_loop returns is what the plan it wrote says, exactly when its tasks are readable and take one line each |
| Taskflow.WorkerIs | copaw/src/copaw_worker/task.py:602-613 | a worker is the first word of a text, bare or as a mention, without quotes, domain and separators |
| PlanText.SingleLineIs | copaw/src/copaw_worker/task.py:1032-1033 | a text on a single line is its words with one space between each two |
| PlanText.LowerIff | copaw/src/copaw_worker/task.py:1005-1018 | the words of a loop are recognised in any case |
| Json.DeepMergeLoop | copaw/src/copaw_worker/sync.py:67-75 | the loop computes the deep merge |
| Json.SameMerge | copaw/src/copaw_worker/bridge.py:595-607 | the deep merges of sync.py and bridge.py are one function on objects |
| Json.OverrideAbsorbed | copaw/src/copaw_worker/sync.py:67-75 | merging the override in again changes nothing |
| Json.BaseAbsorbed | copaw/src/copaw_worker/sync.py:67-75 | merging the result over the base again changes nothing |
| Json.OverrideLeafWins | copaw/src/copaw_worker/sync.py:67-75 | every non-object value of the override is in the merge |
| Json.BaseKept | copaw/src/copaw_worker/sync.py:67-75 | what only the base has stays |
| OpenclawMerge.TopLevelKeys | copaw/src/copaw_worker/sync.py:88-95 | keys other than models, gateway, channels and plugins stay; models and gateway are the remote's when it has them |
| OpenclawMerge.RemoteChannelLeafWins | copaw/src/copaw_worker/sync.py:97-105 | every non-object remote value under channels is in the merge, except at a worker's own access token |
| OpenclawMerge.LocalChannelKept | copaw/src/copaw_worker/sync.py:97-105 | what only the worker has under channels stays |
| OpenclawMerge.LocalTokenKept | copaw/src/copaw_worker/sync.py:101-105 | a non-empty local access token survives |
| OpenclawMerge.PluginsMerged | copaw/src/copaw_worker/sync.py:107-123 | which plugin keys come from where |
| OpenclawMerge.LocalPluginEntryWins | copaw/src/copaw_worker/sync.py:109-116 | the worker's plugin entries win |
| OpenclawMerge.PathsUnion | copaw/src/copaw_worker/sync.py:117-122 | load paths are the union of both sides, ascending, without repetition |
| OpenclawMerge.MergeAgainIff | copaw/src/copaw_worker/sync.py:78-125 | merging again is a fixed point exactly when the remote's channels.matrix is an object or absent, and fails otherwise |
| OpenclawMerge.WellTypedMerge | copaw/src/copaw_worker/sync.py:78-125 | on well-typed documents the merge succeeds and is a fixed point |
| OpenclawMerge.MergeIff | copaw/src/copaw_worker/sync.py:78-125 | exactly which documents can be merged, and what the merge makes of every key, on the documents alone |
| Pull.PullFiles | copaw/src/copaw_worker/sync.py:654-690 | file by file: a mergeable file holds the printed merge of the store's text and its own, every other file the text of the first key that the store has, and what is reported is what changed; on a failure, which file fails and what was pulled before it |
| Pull.PullIs | copaw/src/copaw_worker/sync.py:654-690 | the same of the function the loop computes |
| Pull.PulledTokenKept | copaw/src/copaw_worker/sync.py:101-105 | after a pull the worker's openclaw.json has the access token it had before, unless that was empty |
| Pull.PulledChannelLeaf | copaw/src/copaw_worker/sync.py:97-105 | after a pull the worker's openclaw.json has every non-object value under channels that the store's has, except at the worker's own access token |
| Pull.PullFailsIff | copaw/src/copaw_worker/sync.py:654-690 | a pull fails exactly when some file cannot be merged |
| Pull.OnePullSettles | copaw/src/copaw_worker/sync.py:654-690 | with well-typed documents a pull succeeds and the next one reports and changes nothing |
| Pull.TwoPullsSettle | copaw/src/copaw_worker/sync.py:675-690 | without a readable local file the remote text is taken over first, and the pull after next changes nothing |
| JsonCodec.FaithfulCodecExists | copaw/src/copaw_worker/sync.py:88-125 | a parser and a printer as these properties ask for do exist |
| PushLoop.LockSuffixIff | copaw/src/copaw_worker/sync.py:762-808 | which names count as lock files |
| PushLoop.EligibleIff | copaw/src/copaw_worker/sync.py:720-808 | which files are pushed, on the parts of a path: not the four managed files, nothing in or below the five shared directories, no path with an excluded part and no lock file |
| PushLoop.BelowIff | copaw/src/copaw_worker/sync.py:797-802 | the test on the text of a path is whether it is the directory or lies below it |
| PushLoop.PassConverges | copaw/src/copaw_worker/sync.py:720-850 | in every interleaving with writers, after every pass each eligible file not written since the pass began agrees with the store unless its last upload failed |
| PushLoop.OneQuietPassSuffices | copaw/src/copaw_worker/sync.py:841-850 | one pass after the writes stop, without failures, makes the store agree with all eligible files |
| PushLoop.FailedStaysBehind | copaw/src/copaw_worker/sync.py:820-821 | once the watermark is past a file only a new write brings it to the store |
| PushLoop.WatermarkIs | copaw/src/copaw_worker/sync.py:841-850 | in every run the watermark is the time at which the last completed pass began, and stays where it was when a pass is given up |
| PushLoop.PassIs | copaw/src/copaw_worker/sync.py:841-850 | in every run a pass is under way exactly from its beginning to its end, with the watermark of its beginning |
| PushLoop.FailedIff | copaw/src/copaw_worker/sync.py:808-823 | in every run a file counts as failed exactly when an attempt at it failed and no write, deletion, upload or matching comparison has come since |
| PushLoop.OnlyEligibleWritten | copaw/src/copaw_worker/sync.py:720-823 | paths that are not eligible are never written |
| PushLoop.OneReadingIff | copaw/src/copaw_worker/sync.py:811-813 | a text is the only one that reads as it does exactly when it holds no line ending |
| PushLoop.AgreesExactly | copaw/src/copaw_worker/sync.py:811-813 | agreement is equality where no carriage return is involved |
| PushLoop.QuietPassExact | copaw/src/copaw_worker/sync.py:841-850 | with no carriage return at the start or written, one pass after the writes stop leaves the very texts in the store |
| PushLoop.LineEndingsStay | copaw/src/copaw_worker/sync.py:811-813 | in any run, as long as the store answers, rewrites that only change line endings leave the stored text as it is |
| PushLoop.PushLocal | copaw/src/copaw_worker/sync.py:781-823 | undisturbed, the loop uploads exactly the newer, eligible, different files whose upload works, and is a run of the interleaving model |
| Overlay.GetAfterSet | copaw/src/copaw_worker/bridge.py:573-592 | what was written at a path is read there |
| Overlay.GetElsewhere | copaw/src/copaw_worker/bridge.py:573-592 | other paths keep their values, whatever stood on the way |
| Overlay.SetTwice | copaw/src/copaw_worker/bridge.py:583-592 | the second of two writes at a path counts |
| Overlay.SetSame | copaw/src/copaw_worker/bridge.py:583-592 | writing what is there changes nothing |
| Overlay.SetsCommute | copaw/src/copaw_worker/bridge.py:583-592 | writes at paths apart from each other commute |
| Overlay.UnionListLoop | copaw/src/copaw_worker/bridge.py:610-626 | the loop keeps the first of equal entries, local ones first |
| Overlay.UnionKeepsLocal | copaw/src/copaw_worker/bridge.py:610-626 | no local entry is lost, and they keep their place |
| Overlay.PolicyIsLocal | copaw/src/copaw_worker/bridge.py:629-664 | a policy's effect is one write at its path, decided by what is there |
| Overlay.OverlayLoop | copaw/src/copaw_worker/bridge.py:752-754 | the loop over the table |
| Overlay.OverlayTwice | copaw/src/copaw_worker/bridge.py:752-754 | for paths apart from each other, overlaying twice is overlaying once |
| Overlay.OverlayOrder | copaw/src/copaw_worker/bridge.py:752-754 | the order of the table does not matter |
| Overlay.OverlayAt | copaw/src/copaw_worker/bridge.py:752-754 | at each path the overlay leaves what that row's policy makes of the old value |
| Overlay.OverlayElsewhere | copaw/src/copaw_worker/bridge.py:752-754 | everything else in agent.json stays |
| Overlay.ControllerFieldsApart | copaw/src/copaw_worker/bridge.py:670-707 | no path of the controller's table is a prefix of another |
| Overlay.BridgeTwice | copaw/src/copaw_worker/bridge.py:752-757 | the controller's own table: twice is once |
| Overlay.BridgeMeans | copaw/src/copaw_worker/bridge.py:670-757 | for each of the eighteen fields: the controller's value, the union of both lists, the merge of both objects with the local values winning, or the value there was |
| TokenCache.Bounded | hiclaw-controller/internal/auth/authenticator.go:134-147 | at most cacheMax entries in every run |
| TokenCache.EntryIsLastPut | hiclaw-controller/internal/auth/authenticator.go:134-147 | an entry is the latest insertion of its key |
| TokenCache.LookupExact | hiclaw-controller/internal/auth/authenticator.go:124-132 | a lookup hits exactly when the latest insertion, neither invalidated nor evicted since, is younger than the time to live, and answers with it |
| TokenCache.HitWasPut | hiclaw-controller/internal/auth/authenticator.go:124-147 | in any interleaving a hit was put for the same digest less than the time to live ago, with no invalidation since |
| TokenCache.EvictsEarliest | hiclaw-controller/internal/auth/authenticator.go:197-214 | the evicted entry was inserted earliest, at a moment when the cache is full of live entries |
| TokenCache.SweepsAreInvisible | hiclaw-controller/internal/auth/authenticator.go:158-195 | leaving out the background sweeps of a run, or adding some, changes no answer and no eviction |
| Authenticator.TokenReviewAuthenticator.GetFromCache | hiclaw-controller/internal/auth/authenticator.go:124-132 | the caller gets a fresh object with the cached value |
| Authenticator.TokenReviewAuthenticator.PutInCache | hiclaw-controller/internal/auth/authenticator.go:134-147 | an insertion on the objects is the insertion on values, with a fresh object inside |
| Authenticator.TokenReviewAuthenticator.SweepExpired | hiclaw-controller/internal/auth/authenticator.go:186-195 | exactly the live entries stay, and the count is right |
| Authenticator.TokenReviewAuthenticator.EvictOldest | hiclaw-controller/internal/auth/authenticator.go:200-214 | an entry of earliest expiry goes |
| Authenticator.TokenReviewAuthenticator.InvalidateCache | hiclaw-controller/internal/auth/authenticator.go:150-154 | nothing stays |
| Authenticator.TokenReviewAuthenticator.Authenticate | hiclaw-controller/internal/auth/authenticator.go:88-122 | who is returned, what is cached, and that the caller's object is not the cache's, when nobody comes in between |
| Authenticator.AuthenticateAmong | hiclaw-controller/internal/auth/authenticator.go:88-122 | the same with any calls of others between the locked sections: who is returned, and that all of it is a run of the cache on values |
| Authenticator.Step | hiclaw-controller/internal/auth/authenticator.go:88-147 | one call of any caller keeps callers' objects and the cache's apart |
| Authenticator.Interleave | hiclaw-controller/internal/auth/authenticator.go:88-214 | every interleaving on shared objects, writes to returned identities included, is a run of the cache on values |
| Markers.ExtractFrontmatter | hiclaw-controller/internal/agentconfig/agents_merge.go:30-48 | the loop finds the closing fence |
| Markers.FenceIff | hiclaw-controller/internal/agentconfig/agents_merge.go:30-48 | which lines are fences |
| Markers.FrontmatterRecomposes | hiclaw-controller/internal/agentconfig/agents_merge.go:30-48 | the split loses nothing but line feeds |
| Markers.UpgradeTwice | hiclaw-controller/internal/agentconfig/agents_merge.go:14-26 | on a file with the start marker, merging s1 then s2 is merging s2 |
| Markers.UpgradeTwiceIff | hiclaw-controller/internal/agentconfig/agents_merge.go:14-26 | exactly which other files have this property |
| Markers.UpgradesCollapse | hiclaw-controller/internal/agentconfig/agents_merge.go:14-26 | any number of merges is the last of them |
| Markers.UserTextSurvives | hiclaw-controller/internal/agentconfig/agents_merge.go:50-82 | the text after the last end marker survives any number of upgrades, up to line feeds at its ends |
| Markers.HeaderMentionsEnd | hiclaw-controller/internal/agentconfig/agents_merge.go:50-82 | the header names the end marker, so the first one in a file is inside the section and only the last one ends it |
| Markers.EndMarkerCuts | hiclaw-controller/internal/agentconfig/agents_merge.go:70-82 | an end marker in the user's text costs what stands before it |
| Coordination.RemoveCoordinationBlock | hiclaw-controller/internal/agentconfig/coordination.go:151-169 | terminates, and leaves no start marker with an end marker after it |
| Coordination.RemovedIsClean | hiclaw-controller/internal/agentconfig/coordination.go:151-169 | removal leaves no complete block and is idempotent |
| Coordination.RemovePlaced | hiclaw-controller/internal/agentconfig/coordination.go:37-49 | removal takes out exactly the block that was placed, but not the line feeds before it |
| Coordination.RemoveExact | hiclaw-controller/internal/agentconfig/coordination.go:151-169 | one round of removal takes out what stands between the first start marker and the first end marker behind it, with both and at most one line feed |
| Coordination.InjectTwiceIff | hiclaw-controller/internal/agentconfig/coordination.go:37-49 | exactly when injecting twice is injecting the second context alone |
| Coordination.InjectionsStack | hiclaw-controller/internal/agentconfig/coordination.go:37-49 | in a builtin file n injections leave the last block and 2(n-1) extra line feeds |
| Coordination.DanglingMarkerLosesText | hiclaw-controller/internal/agentconfig/coordination.go:37-49 | a start marker without an end marker costs the text behind it at the second injection |
| Coordination.UniqueCoordinationIds | hiclaw-controller/internal/agentconfig/coordination.go:135-149 | every id but the empty and the excluded one, once, in order of first mention |
| Dotenv.QuotingRoundTrip | hermes/src/hermes_worker/bridge.py:148-154 | the reader's two replacements undo the writer's for every mixture of backslashes and quotes |
| Dotenv.HandWritten | hermes/src/hermes_worker/bridge.py:157-182 | a value in either quotes, or in none, reads as written |
| Dotenv.LineSays | hermes/src/hermes_worker/bridge.py:157-182 | a line reads as its key and its value, whatever white space stands around; a comment reads as nothing |
| Dotenv.ReadEnvFile | hermes/src/hermes_worker/bridge.py:157-182 | the loop over the lines; whatever is read fits lines again |
| Dotenv.WriteEnvFile | hermes/src/hermes_worker/bridge.py:185-206 | the loop over the sorted keys writes the non-empty entries in ascending order |
| Dotenv.EnvRoundTripIff | hermes/src/hermes_worker/bridge.py:157-206 | a written file reads back as its non-empty entries exactly when these fit lines |
| Dotenv.BreakForgesEntry | hermes/src/hermes_worker/bridge.py:185-206 | a value with a line break writes an entry of its own |
| Dotenv.BridgeEnv | hermes/src/hermes_worker/bridge.py:430-446 | the loops of the bridge step |
| Dotenv.BridgeTwice | hermes/src/hermes_worker/bridge.py:430-446 | bridging twice with the same configuration is bridging once |
| Dotenv.KeysAfterBridge | hermes/src/hermes_worker/bridge.py:430-446 | what every key's value is after the bridge: the configuration's, the user's, or gone when it is one of the bridge's own keys |
| AccessResolver.Expand | hiclaw-controller/internal/accessresolver/resolver.go:213-219 | the four replacements answer what is meant for every way to write the text with safe literals and safe values |
| AccessResolver.ExpandIsSubstitution | hiclaw-controller/internal/accessresolver/resolver.go:213-219 | the four replacements in a row are one simultaneous substitution |
| AccessResolver.SafeValueIff | hiclaw-controller/internal/accessresolver/resolver.go:213-219 | which values of which variable are expanded as they are in every template |
| AccessResolver.NoStartIff | hiclaw-controller/internal/accessresolver/resolver.go:213-219 | when no occurrence of a variable starts in a text, whatever follows it |
| AccessResolver.ValuesExpandAgain | hiclaw-controller/internal/accessresolver/resolver.go:213-219 | a value that holds a variable is expanded again by a later replacement |
| AccessResolver.LiteralsCanJoin | hiclaw-controller/internal/accessresolver/resolver.go:213-219 | a literal that ends in the middle of a variable is completed by a plain value |
| AccessResolver.ResolveEntries | hiclaw-controller/internal/accessresolver/resolver.go:221-251 | all entries resolved in order, or the first failing one reported |
| AccessResolver.StorageResolved | hiclaw-controller/internal/accessresolver/resolver.go:261-296 | when an object storage entry resolves, and the bucket, prefixes and permissions it resolves to |
| AccessResolver.GatewayResolved | hiclaw-controller/internal/accessresolver/resolver.go:304-338 | the same for a gateway entry |
| AccessResolver.RegistryResolved | hiclaw-controller/internal/accessresolver/resolver.go:346-373 | the same for a registry entry |
| AccessResolver.Refused | hiclaw-controller/internal/accessresolver/resolver.go:221-373 | why an entry is refused |
| AccessResolver.OtherServiceRefused | hiclaw-controller/internal/accessresolver/resolver.go:221-251 | an entry without a service or for another one is refused |
| AccessResolver.SuccessGrantsStorage | hiclaw-controller/internal/accessresolver/resolver.go:261-296 | a success answers the effective entries one for one and grants object storage under at least one prefix |
| AccessResolver.EveryRoleGrantsStorage | hiclaw-controller/internal/accessresolver/resolver.go:81-199 | the same for workers, team members and managers |
| AccessResolver.MemberDefaults | hiclaw-controller/internal/accessresolver/resolver.go:118-169 | a team member without storage entries of its own gets its agent's folder, the shared folder and its team's folder, spelt out by its names, its team's names and what the caller gave |
| AccessResolver.MemberGets | hiclaw-controller/internal/accessresolver/resolver.go:118-169 | which entries a member's resolution expands, with which values: the leader goes before the workers, and the first fitting worker counts |
| AccessResolver.SomethingIsPicked | hiclaw-controller/internal/accessresolver/resolver.go:118-169 | every call picks the leader, a worker or nobody |
| AccessResolver.KindOfMember | hiclaw-controller/internal/accessresolver/resolver.go:118-169 | the kind of a member is TeamLeader exactly for the leader |
| AccessResolver.WorkerDefaults | hiclaw-controller/internal/accessresolver/resolver.go:81-116 | the folders of a worker without storage entries of its own |
| AccessResolver.ManagerDefaults | hiclaw-controller/internal/accessresolver/resolver.go:179-203 | the folders of a manager without storage entries of its own |
| AccessResolver.OwnPrefix | hiclaw-controller/internal/accessresolver/defaults.go:64-80 | the expanded default prefixes |
| History.HistoryBuffer.Record | hermes/src/hermes_matrix/policies.py:198-207 | the loop that drops the oldest messages: a message with a body goes to the end of its room, of which the newest stay |
| History.HistoryBuffer.Drain | hermes/src/hermes_matrix/policies.py:209-219 | the text returned, the entries line by line between the two markers, and the room emptied |
| History.HistoryBuffer.Clear | hermes/src/hermes_matrix/policies.py:221-222 | the room emptied |
| History.PendingIs | hermes/src/hermes_matrix/policies.py:198-222 | which messages are pending: recorded, and the room neither drained nor cleared since |
| History.BufferIsWindow | hermes/src/hermes_matrix/policies.py:198-222 | a room's buffer is the last `limit` pending messages |
| History.RoomsAreApart | hermes/src/hermes_matrix/policies.py:198-222 | a room's buffer depends on that room's events only |
| History.DrainedOnce | hermes/src/hermes_matrix/policies.py:209-219 | no message is in two drained texts |
| History.DrainText | hermes/src/hermes_matrix/policies.py:209-219 | a drained text holds exactly the messages counted as drained |

## Left out

- RunsAreSound: plan_dag is not among the steps, because it replaces dependencies and keeps statuses, so started nodes may get dependencies that are not completed.
- RunsAreSound: no function of the source marks a node completed; the Leader's acceptance is a step of the environment.
- LineRoundTrip: ids that are not safe, statuses without a marker and titles or assignees that are empty or not trimmed are not covered, as the payload check lets none of them through.
- LoopReread: templates with section lines and tasks with lines that open a section or repeat the history's heading are left to LoopRoundTripExact, which says when they come back.
- RecordReread: templates that repeat the history's heading, indented, are left to LoopRoundTripExact.
- StoredRunsAreSound: what runs with tasks that are not storable do beyond breaking the graph is not described.
- PerformAll: the Leader's edits between the calls are in StoredRunsAreSound only.
- CountersIff: Python's \d also matches digits of other scripts; counters are ASCII digits here.
- MergeAgainIff: values are compared, not printed text; the order of an object's keys is not modelled.
- Merge: where an object is expected, Python's dict() also takes a list of pairs, and paths may be a list of numbers or two strings; the model answers with an error there.
- UnionListLoop: entries are compared as values; the source compares their printed form, which tells 0.0 from -0.0.
- OnePullSettles: skills and executable bits are not pulled here; numbers are integers and finite doubles, without the negative zero, NaN and the infinities, and without Python's limit on the digits of an integer.
- PassConverges: modification times are the clock's readings at the last write; copies that carry older times over are not modelled.
- PushLocal: bytes that are not UTF-8 are not modelled, and paths are lists of parts without drive or root.
- SetPath: nested dictionaries are values; that the overlay stores the derived object itself, not a copy, is not captured.
- Authenticate: calls of others in between are in AuthenticateAmong; the digest is a function without collisions being ruled out or used; user name parsing is part of the review's outcome.
- EnvRoundTripIff: values are strings; a JSON null in the configuration is written as an empty quoted value.
- UniqueCoordinationIds: the role-specific lines around the ids are a parameter of the block.
- InjectTwiceIff: Go's byte offsets are character offsets here, which cut valid UTF-8 at the same places.
- ExpandIsSubstitution: templates with a literal that ends in the middle of a variable are not covered; LiteralsCanJoin shows what becomes of one.
- extract_mentions_from_text, _merge_mentions_block and the allow list: their regular expression and case folding would only add easy members.
- ack_task, submit_task, check_task, complete_project, parse_task_result and render_task_result: one status change or one line format each.
- The Hermes worker's own merge and push repeat the ones modelled.
- Derivation of the controller's field values, config.yaml, SOUL.md and AGENTS.md copying in the bridges: field by field copying.
- The enricher, the authorizer and the middleware: case tables over Kubernetes lookups; the enricher is present as a caller that writes to a returned identity.
- Process startup, HTTP, Matrix, Kubernetes and the mc command: input and output.
- Universal newlines on writing files, wall-clock formatting, and locale-dependent lower-casing beyond ASCII and the Kelvin sign.
