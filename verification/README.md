# Verified models of the ns-3 bundle's algorithmic cores

The repository bundles the ns-3 simulator's tooling, the NetAnim viewer, the NSC globaliser and build scripts. This
project models its self-contained algorithms and proves what they are for. Each state-changing method is written in
the form of the original and proved against a specification function; lemmas then say what that function means.
`dafny verify dfyconfig.toml` checks everything.

| module | original | main results |
|---|---|---|
| `Introspection`, `PathSearch`, `RecordOrder` | `StaticInformation`: all configuration paths to every type | the search yields exactly the simple walks; both stacks are restored; the output is sorted and duplicate-free |
| `PacketWindow` | NetAnim's sliding window of packets | over every run, every tick shows exactly the wired packets of the window if and only if the trace, wireless packets included, is in order, and every wireless packet about to start that nothing blocks |
| `UpdateReplay` | node and link update managers | whatever was sought before, a node or link that a due update mentions shows what the last due updates say |
| `TimeValues` | the floor-lookup cursor | a seek lands on the floor exactly when it did not fall back to the first key |
| `WorkerPool` | `test.py`'s threads, queues, pills and interrupt | conservation, no deadlock, termination, at most one more command per worker after the signal, meaning of the exit status, for every interleaving |
| `ShellSyntax`, `ShellTexts`, `ShellRun`, `ShellLaunches`, `ShellOrder`, `AndOrLists`, `PosixLists`, `Shell` | `shellcmd.py` | parsing accepts exactly the texts of well-formed lines and inverts writing them; `run` refines a recursive evaluator; every file is closed once, every process awaited once; exactly when the program reads a pipeline as POSIX does |
| `FlowMonitor`, `FlowDocument`, `FlowTables`, `FlowMonParser` | the flow-monitor reader | round trip from tables through any document that lists them, if and only if the 32-bit conversions lose nothing |
| `GlobalNames`, `GlobalRewrite`, `InitialiserRegistry` | NSC's name and initialiser machinery | names never clash; both rewrites terminate and do what one pass would; the sweep blanks exactly the unreferenced nodes |
| `PatchSet`, `CheckStyle` | unified diffs in `check-style.py` | round trip if and only if no line looks like a file header; exact effect of the trailing-blank pass |
| `Timeline`, `Plotter` | `grid.py`'s searches, `scons-time.py`'s increments | which events and ranges a query returns; when the grid has 5 to 9 lines |

Where the code and what it promises differ, the model follows the code, and a lemma says exactly when the promise
holds:

- `shellcmd.py` stops at the first `&&` or `||` that does not let the next command run, where section 2.9.3 of the
  POSIX Shell Command Language gives the two operators equal precedence and left association; it takes a `cd` as a
  prefix of the next command even behind `||` or a pipe; and it ignores a redirected input behind a pipe, which section
  2.9.2 lets override the pipe. `AgreesWithPosix` gives the exact condition, `CdBehindOr` and `CdBehindPipe` are
  instances.
- The flow-monitor reader converts the numbers of dropped packets and bytes with a 32-bit conversion although they are
  stored in 64 bits; larger numbers become 0 (`FlowSurvives`, `TablesReadBack`).
- `parse_patchset` takes a removed line whose text starts with `-- ` for a file header, and likewise an added line whose
  text starts with `++ ` (`PatchRoundTrip`).
- `increment_size` promises 5 to 9 lines; values below 5 get fewer (`IncrementGivesLines`).
- `get_ranges` returns nothing when both ends of the window miss, even if ranges lie inside it, and leaves out ranges
  that only touch the window (`RangesExact`, `OnlyTouchingMissed`, `TouchingMissed`).
- A tick of the animator stops at the first packet still to come, so a trace out of order hides packets
  (`WindowExact`). A wireless packet, which a transmission shorter than 10 microseconds becomes, also stops it when it
  starts at the very time of the tick or at or beyond the end of the update interval (`MixedTraceMisses`).
- Rewriting the mangled name of stack 0 for another stack gives that stack's name iff the mangled prefix of stack 0
  occurs in the name at its start only. Identifiers such as `GLOBAL_0_x`, which shares an underscore with the prefix,
  and `x_GLOBAL_0`, which the suffix completes, fail this (`NameRenumbered`).

## Model

| member | source | states |
|---|---|---|
| `Introspection.FindAndReplace` | ns-3.16/utils/print-introspected-doxygen.cc:368-378 | the in-place search that resumes one position later terminates and marks every `::` met in one left-to-right pass, for both values of the marker |
| `PathSearch.MarkFirst` | ns-3.16/utils/print-introspected-doxygen.cc:368-378 | the first `::` is marked right behind it, and what is behind that is marked in turn |
| `PathSearch.MarkNone` | ns-3.16/utils/print-introspected-doxygen.cc:368-378 | a text without `::` stays as it is |
| `PathSearch.MarkScopesErased` | ns-3.16/utils/print-introspected-doxygen.cc:368-378 | marking only inserts markers: for any text, deleting all markers before or after gives the same |
| `PathSearch.ScopedLabelErased` | ns-3.16/utils/print-introspected-doxygen.cc:320-322 | in the text form and in the Doxygen form, a child's or aggregate's label without its markers is `$` and the type's name |
| `PathSearch.MarkScopesGuards` | ns-3.16/utils/print-introspected-doxygen.cc:344-358 | in the Doxygen form, every `::` of the result is directly followed by `%` |
| `PathSearch.ScopedLabelIs` | ns-3.16/utils/print-introspected-doxygen.cc:320-322 | the label is `$`, the marker, and the marked name |
| `PathSearch.EdgesExact` | ns-3.16/utils/print-introspected-doxygen.cc:274-365 | the edges the search takes from a type are exactly: a pointer attribute to a type other than the object type, under its name; a container attribute, under its name and `/[i]`; a child; and the other end of an aggregation, in both directions, under their labels |
| `PathSearch.RenderPathAppend` | ns-3.16/utils/print-introspected-doxygen.cc:210-220 | a path is rendered piece by piece |
| `PathSearch.RenderPathOne` | ns-3.16/utils/print-introspected-doxygen.cc:210-220 | one segment is rendered with a slash before it |
| `Introspection.StaticInformation.constructor` | ns-3.16/utils/print-introspected-doxygen.cc:177-192 | a new collector has no output, no aggregates and empty stacks |
| `Introspection.StaticInformation.RecordAggregationInfo` | ns-3.16/utils/print-introspected-doxygen.cc:194-198 | adds one aggregate pair and changes nothing else |
| `Introspection.StaticInformation.GetCurrentPath` | ns-3.16/utils/print-introspected-doxygen.cc:210-220 | the segments on the stack, each behind a slash |
| `Introspection.StaticInformation.RecordOutput` | ns-3.16/utils/print-introspected-doxygen.cc:222-226 | appends the type with the current path |
| `Introspection.StaticInformation.HasAlreadyBeenProcessed` | ns-3.16/utils/print-introspected-doxygen.cc:228-239 | true iff the type is on the stack |
| `Introspection.StaticInformation.Descend` | ns-3.16/utils/print-introspected-doxygen.cc:294-298 | pushing, recursing and popping leaves both stacks as they were and appends what the search from the target appends |
| `Introspection.StaticInformation.DoGather` | ns-3.16/utils/print-introspected-doxygen.cc:265-366 | terminates (the registered types off the stack shrink), restores both stacks, and appends exactly the specified records, in order |
| `PathSearch.WalkOfRecord` | ns-3.16/utils/print-introspected-doxygen.cc:265-366 | every record the search appends is that of a simple walk along the graph's edges, as `EdgesExact` lists them, that avoids the types on the stack |
| `PathSearch.RecordOfWalk` | ns-3.16/utils/print-introspected-doxygen.cc:265-366 | every such simple walk is recorded |
| `PathSearch.CollectedIsSimpleWalks` | ns-3.16/utils/print-introspected-doxygen.cc:265-366 | a record is appended iff it is that of a simple walk |
| `Introspection.StaticInformation.Gather` | ns-3.16/utils/print-introspected-doxygen.cc:256-263 | the output is strictly increasing and holds exactly the earlier records and those of the simple walks |
| `RecordOrder.Order` | ns-3.16/utils/print-introspected-doxygen.cc:261-262 | the order of pairs is a strict total order |
| `RecordOrder.LessMeans` | ns-3.16/utils/print-introspected-doxygen.cc:261-262 | records are ordered by type, and by path within a type: a proper prefix first, else by the first character that differs |
| `RecordOrder.SortUniqueSorts` | ns-3.16/utils/print-introspected-doxygen.cc:261-262 | sorting and dropping duplicates keeps the members and makes them strictly increasing |
| `RecordOrder.IncreasingIsUnique` | ns-3.16/utils/print-introspected-doxygen.cc:261-262 | a strictly increasing sequence is determined by its members, so no other sort could give another output |
| `Introspection.StaticInformation.Get` | ns-3.16/utils/print-introspected-doxygen.cc:241-254 | the recorded paths of one type and no others, in increasing order once the output is |
| `PacketWindow.TraceIsNewPackets` | netanim-3.103/animator/animpacket.cpp:34-58 | exactly the packets the constructor makes have a reception time iff they are not wireless |
| `PacketWindow.NewPacketMeans` | netanim-3.103/animator/animpacket.cpp:34-58 | a packet becomes wireless iff it is said to be or lasts less than ten microseconds, and then keeps no reception time |
| `PacketWindow.ClassifyMeans` | netanim-3.103/animator/animatorscene.cpp:866-906 | the three verdicts, on the fields of a packet |
| `PacketWindow.TickShowsWindow` | netanim-3.103/animator/animatorscene.cpp:484-511 | the step of the invariant: on a trace in order a tick keeps "every wired packet before the cursor is over or already shown" and shows exactly the wired packets of the window |
| `PacketWindow.RunKeepsInv` | netanim-3.103/animator/animatorscene.cpp:484-593 | the invariant holds after any run of forward ticks, backward seeks, soft resets and rate changes |
| `PacketWindow.WindowExact` | netanim-3.103/animator/animatorscene.cpp:484-511 | on any trace: after every tick of every run the wired packets in the set are exactly those with first transmission at or before and last reception at or after the time, iff before each wired packet that is visible at its start only wireless packets that start earlier, and wired ones not still to come then, are listed |
| `PacketWindow.WiredWindowExact` | netanim-3.103/animator/animatorscene.cpp:484-511 | without wireless packets the set itself is the window, iff the trace is in order |
| `PacketWindow.DisorderMisses` | netanim-3.103/animator/animatorscene.cpp:1295-1333 | the other direction: a trace out of order has an update rate and a first tick that misses a visible packet |
| `PacketWindow.SortedIsInOrder` | netanim-3.103/animator/animatorscene.cpp:1295-1333 | a trace whose first transmission times do not decrease is in order iff no wireless packet is listed before a visible wired one with the same time |
| `PacketWindow.RunKeepsWireless` | netanim-3.103/animator/animatorscene.cpp:484-593 | after any run on any trace, every wireless packet before the cursor is shown or its start is over |
| `PacketWindow.WirelessShown` | netanim-3.103/animator/animatorscene.cpp:866-906 | after any run, a tick shows every wireless packet that starts strictly within the update interval in force, unless a packet listed before it is still to come |
| `PacketWindow.KeptUntilStart` | netanim-3.103/animator/animatorscene.cpp:929-976 | while time does not run backwards, a wireless packet in the set stays iff its start is not over |
| `PacketWindow.FirstTickExact` | netanim-3.103/animator/animatorscene.cpp:1295-1333 | a first tick shows a packet iff it is visible or about to start and no packet listed before it is still to come |
| `PacketWindow.RunBounded` | netanim-3.103/animator/animatorscene.cpp:866-976 | on any trace, after any run, the set holds only packets the last tick's time and the largest rate allow |
| `PacketWindow.MixedTraceBounded` | netanim-3.103/animator/animatorscene.cpp:866-906 | with wireless packets and in any order, a tick shows only wired packets in their window and wireless ones at or after the time and within the update rate |
| `PacketWindow.MixedTraceMisses` | netanim-3.103/animator/animatorscene.cpp:871-885 | two instances: a wireless packet starting at the time of the tick, and one starting beyond the update interval, hide a visible wired packet |
| `PacketWindow.AnimatorScene.SetCurrentUpdateRate` | netanim-3.103/animator/animatorscene.cpp:424-428 | changes the rate alone |
| `PacketWindow.AnimatorScene.AddToPacketsToAnimate` | netanim-3.103/animator/animatorscene.cpp:1341-1362 | adds the packet, once |
| `PacketWindow.AnimatorScene.PurgeOldPackets` | netanim-3.103/animator/animatorscene.cpp:929-976 | drops everything when forced, otherwise exactly the expired packets |
| `PacketWindow.AnimatorScene.PacketForwardScan` | netanim-3.103/animator/animatorscene.cpp:1295-1333 | the loop's effect on cursor and set is the recursive scan from the saved cursor, rewound on a step back; `ClassifyMeans` and `FirstTickExact` say what that adds |
| `PacketWindow.AnimatorScene.ShowPackets` | netanim-3.103/animator/animatorscene.cpp:1273-1292 | drops exactly the expired packets |
| `PacketWindow.AnimatorScene.TimeToUpdate` | netanim-3.103/animator/animatorscene.cpp:484-511 | one tick is the specified step, and leaves exactly the wired packets of the window in the set on a trace in order, and every wireless packet about to start that nothing blocks on any trace |
| `PacketWindow.AnimatorScene.SoftReset` | netanim-3.103/animator/animatorscene.cpp:584-593 | empties the set, rewinds the cursor and the time, keeps the rate, and re-establishes both invariants |
| `UpdateReplay.DueIsAllDue` | netanim-3.103/animator/nodeupdatemanager.cpp:58-75 | with sorted times the replayed prefix holds exactly the updates due |
| `UpdateReplay.FromScratchIsLast` | netanim-3.103/animator/nodeupdatemanager.cpp:46-79 | replaying a prefix on any node leaves the description and visibility of its last update and the colour of its last one that sets a colour |
| `UpdateReplay.AnimNode.UpdateNode` | netanim-3.103/animator/animnode.cpp:286-302 | the colour changes unless skipped; an empty description becomes the node number |
| `UpdateReplay.AnimNode.CaptionMeans` | netanim-3.103/animator/animnode.cpp:293-297 | a description stands for itself, an empty one becomes the numeral of the node's number |
| `UpdateReplay.NodeUpdateManager.AddNodeUpdate` | netanim-3.103/animator/nodeupdatemanager.cpp:82-97 | appends one update and rewinds cursor and time |
| `UpdateReplay.NodeUpdateManager.SystemReset` | netanim-3.103/animator/nodeupdatemanager.cpp:40-44 | forgets the updates |
| `UpdateReplay.NodeUpdateManager.UpdateNodes` | netanim-3.103/animator/nodeupdatemanager.cpp:46-79 | after any history of calls, every node with an update in the longest due prefix shows its last one there, so re-applying the stepped-back entry is harmless |
| `UpdateReplay.AnimLink.UpdateCurrentLinkDescription` | netanim-3.103/animator/animlink.cpp:191-200 | the link has the new description |
| `UpdateReplay.LinkUpdateManager.AddLinkUpdate` | netanim-3.103/animator/linkupdatemanager.cpp:40-52 | appends one update and rewinds cursor and time |
| `UpdateReplay.LinkUpdateManager.SystemReset` | netanim-3.103/animator/linkupdatemanager.cpp:54-58 | forgets the updates |
| `UpdateReplay.LinkUpdateManager.UpdateLinks` | netanim-3.103/animator/linkupdatemanager.cpp:60-91 | after any history of calls, every link with an update in the longest due prefix has its last description there |
| `TimeValues.WalkFinds` | netanim-3.103/statistics/timevalue.h:130-147 | from a key at or below the time, the two iterators moving together stop on the floor, or at the end past the last key |
| `TimeValues.SeekIsFloor` | netanim-3.103/statistics/timevalue.h:117-149 | a seek designates the greatest key at or below the time iff it did not fall back to the first key or that key is the floor |
| `TimeValues.SeekFallsBack` | netanim-3.103/statistics/timevalue.h:124-128 | a seek to time 0 or to before the cursor's key lands on the first entry |
| `TimeValues.SeekTwice` | netanim-3.103/statistics/timevalue.h:117-149 | after a seek to a non-zero time at or past the first key, seeking there again gives the floor |
| `TimeValues.AddKeeps` | netanim-3.103/statistics/timevalue.h:86-96 | an insertion sets one key, keeps the order and leaves the cursor on its element |
| `TimeValues.TimeValue.Add` | netanim-3.103/statistics/timevalue.h:86-96 | the map and cursor after an insertion into an ordered map |
| `TimeValues.TimeValue.SystemReset` | netanim-3.103/statistics/timevalue.h:98-103 | empties the map |
| `TimeValues.TimeValue.GetCurrent` | netanim-3.103/statistics/timevalue.h:106-115 | the value at the cursor, the last one at the end |
| `TimeValues.TimeValue.SetCurrentTime` | netanim-3.103/statistics/timevalue.h:117-149 | moves the cursor alone, to the floor when it stood at or before the non-zero time |
| `WorkerPool.ActKeepsInv` | ns-3.16/test.py:904-972 | every step of main, of any worker, and the signal keeps the invariant of the pool |
| `WorkerPool.ActSummary` | ns-3.16/test.py:904-972 | every step uses up a measure over queued, running and uncollected jobs, pills and live workers |
| `WorkerPool.HeldElsewhere` | ns-3.16/test.py:904-972 | a job a worker holds is on no queue, not collected, and held by no other worker |
| `WorkerPool.PoolSafety` | ns-3.16/test.py:898-972 | in every state of every run: each job and pill sent is in exactly one place; only jobs are collected; a worker that has left took a pill and then no job is queued; a marked job a worker has just taken is a pill; a job being run is neither marked nor to be skipped; no job is marked before the interrupt |
| `WorkerPool.RunInv` | ns-3.16/test.py:898-972 | the invariant holds in every state that any interleaving reaches, and the steps so far plus what is left of the measure never exceed the initial measure |
| `WorkerPool.AfterSignal` | ns-3.16/test.py:918-944 | in any run, after the signal each worker starts at most one more command, and only if it had read the flag before it was raised |
| `WorkerPool.NeverStuck` | ns-3.16/test.py:1536-1556 | every reachable state is finished or lets main or a worker move |
| `WorkerPool.PoolCompletes` | ns-3.16/test.py:1281-1284 | no run is longer than ten steps for each job and processor plus five, and a run that cannot be continued has finished, joins included |
| `WorkerPool.PoolOutcome` | ns-3.16/test.py:1536-1753 | on finishing, the queues are empty, all workers have left, every job was collected once, and the status is 0 iff no job was interrupted and each was skipped or its command returned 0 |
| `ShellSyntax.ParseShape` | ns-3.16/waf-tools/shellcmd.py:120-200 | a parsed pipeline alternates commands and operators, starts and ends with a command, a command writes to a pipe iff a pipe follows, and `cd` is last or followed by `&&` |
| `ShellSyntax.ParseInvertsTokens` | ns-3.16/waf-tools/shellcmd.py:120-200 | parsing the tokens of any well-formed command line gives back its pipeline |
| `ShellTexts.EnvMatchMeans` | ns-3.16/waf-tools/shellcmd.py:23-23 | which tokens are assignments, by character codes, and what they assign |
| `ShellTexts.ParseMeans` | ns-3.16/waf-tools/shellcmd.py:120-200 | parsing succeeds with a pipeline iff the tokens are the text of a well-formed line with these nodes, a left-over redirection sign at the very end aside; so second redirections, second directories, assignments for `cd`, stray operators and redirected output into a pipe are rejected |
| `ShellTexts.ParseSpelt` | ns-3.16/waf-tools/shellcmd.py:120-200 | one line with assignments, redirections and a pipe, and its nodes, spelt out |
| `Shell.Pipeline.constructor` | ns-3.16/waf-tools/shellcmd.py:96-98 | starts empty |
| `Shell.Pipeline.CommitCommand` | ns-3.16/waf-tools/shellcmd.py:100-103 | moves the current command to the end of the pipeline |
| `Shell.Pipeline.Parse` | ns-3.16/waf-tools/shellcmd.py:120-200 | the token loop succeeds iff the recursive parser does, with the same pipeline |
| `Shell.Pipeline.ExecPipedCommands` | ns-3.16/waf-tools/shellcmd.py:202-211 | awaits every process in order and picks the group's status |
| `ShellRun.GroupStatusIsLast` | ns-3.16/waf-tools/shellcmd.py:202-211 | that status is the one of the last command |
| `ShellRun.ProceedsMeans` | ns-3.16/waf-tools/shellcmd.py:319-340 | an and-operator lets the next command run on status 0, an or-operator on any other |
| `Shell.Pipeline.CloseFiles` | ns-3.16/waf-tools/shellcmd.py:291-294 | closes the listed files in order, except the null device |
| `Shell.Pipeline.OpenOutFile` | ns-3.16/waf-tools/shellcmd.py:45-49 | either name of the null device gives the shared handle, any other name a new file |
| `Shell.Pipeline.Spawn` | ns-3.16/waf-tools/shellcmd.py:241-281 | opens the redirections of one command in order and launches it, as `StartLaunches` describes |
| `ShellLaunches.StartLaunches` | ns-3.16/waf-tools/shellcmd.py:241-281 | the new events are the openings of the command's files and then its launch with these streams, its arguments, environment and directory |
| `ShellRun.JoinMeans` | ns-3.16/waf-tools/shellcmd.py:227-227 | a joined path has the components of the first and then those of the second, or those of the second alone if that is absolute |
| `Shell.Pipeline.Run` | ns-3.16/waf-tools/shellcmd.py:213-345 | the loop's status and events are those of the recursive runner, short circuits and failures included |
| `ShellRun.RunClosesFiles` | ns-3.16/waf-tools/shellcmd.py:213-345 | when a run returns, every redirection file was opened once and closed once; the null device never |
| `ShellLaunches.LaunchesAsWritten` | ns-3.16/waf-tools/shellcmd.py:213-281 | every launched process has the arguments, environment and redirections of its command, reads from the command before its pipe, and starts in the directory whose components are those of all the `cd`s before it in order, from the last absolute one on |
| `ShellLaunches.AllAwaited` | ns-3.16/waf-tools/shellcmd.py:202-345 | when a run returns, every process was launched at most once and awaited as often as launched |
| `ShellOrder.AwaitsThenCloses` | ns-3.16/waf-tools/shellcmd.py:202-345 | processes are awaited in the order of their commands, and no file is closed before every process launched by then has been awaited |
| `AndOrLists.RunRefinesEval` | ns-3.16/waf-tools/shellcmd.py:213-345 | running the pipeline of an and-or list gives the status and events of a right-nested recursive evaluator |
| `AndOrLists.ListOf` | ns-3.16/waf-tools/shellcmd.py:120-200 | every pipeline that ends in a command and whose `cd`s name directories is that of an and-or list |
| `AndOrLists.ParsedRuns` | ns-3.16/waf-tools/shellcmd.py:120-345 | so parsing and then running evaluates the list |
| `PosixLists.SingleAgrees` | ns-3.16/waf-tools/shellcmd.py:213-345 | if a pipeline reads alike, the run does what the standard says, for all statuses |
| `PosixLists.MixedDiffers` | ns-3.16/waf-tools/shellcmd.py:213-345 | if not, there are statuses for which status or events differ |
| `PosixLists.AgreesWithPosix` | ns-3.16/waf-tools/shellcmd.py:213-345 | status and events are those of sections 2.9.2 and 2.9.3, with `cd` a command of its own, for all statuses, iff no `cd` comes last or directly behind a pipe or an or-operator, no command directly behind a pipe redirects its input, and all connectives but those behind a `cd` are the same |
| `PosixLists.CdBehindOr` | ns-3.16/waf-tools/shellcmd.py:311-322 | an instance: an or-operator before `cd d`, with a successful first command; the program stops, the standard runs what follows the `cd` |
| `PosixLists.CdBehindPipe` | ns-3.16/waf-tools/shellcmd.py:224-242 | an instance: a pipe before `cd d`; the program feeds the command behind the `cd` from the pipe, the standard does not |
| `FlowMonParser.FlowMonXmlParser.ParseHistogram` | netanim-3.103/statistics/flowmonxmlparser.cpp:297-318 | consumes up to the end of the histogram and returns its bins |
| `FlowMonParser.FlowMonXmlParser.ParseFlowProbe` | netanim-3.103/statistics/flowmonxmlparser.cpp:245-269 | consumes one probe and returns its per-flow numbers |
| `FlowMonParser.FlowMonXmlParser.ParseFlowProbes` | netanim-3.103/statistics/flowmonxmlparser.cpp:271-295 | consumes all probes and sets the state |
| `FlowMonParser.FlowMonXmlParser.ParsePacketsDropped` | netanim-3.103/statistics/flowmonxmlparser.cpp:419-427 | appends the reason to the dropped packets |
| `FlowMonParser.FlowMonXmlParser.ParseBytesDropped` | netanim-3.103/statistics/flowmonxmlparser.cpp:429-437 | appends the reason, its number from the attribute for bytes |
| `FlowMonParser.FlowMonXmlParser.ParseFlowStatsFlow` | netanim-3.103/statistics/flowmonxmlparser.cpp:320-390 | consumes one flow with its nested elements |
| `FlowMonParser.FlowMonXmlParser.ParseNext` | netanim-3.103/statistics/flowmonxmlparser.cpp:139-206 | one outer step: which element the next token starts depends on the state; the state and the end are tracked |
| `FlowMonParser.FlowMonXmlParser.DoParse` | netanim-3.103/statistics/flowmonxmlparser.cpp:89-137 | fills the three tables as the recursive reader does, or reports that a nested loop would not end |
| `FlowDocument.FlowReadBack` | netanim-3.103/statistics/flowmonxmlparser.cpp:326-340 | the attributes of a flow read back |
| `FlowDocument.ClassifierReadBack` | netanim-3.103/statistics/flowmonxmlparser.cpp:403-417 | the attributes of a classifier read back |
| `FlowDocument.BinsRead` | netanim-3.103/statistics/flowmonxmlparser.cpp:303-316 | the bins of a histogram read back through any white space, and the loop ends at its end element |
| `FlowDocument.FlowParts` | netanim-3.103/statistics/flowmonxmlparser.cpp:342-385 | dropped reasons and histograms, in any mixture, read back into their lists |
| `FlowDocument.OtherElements` | netanim-3.103/statistics/flowmonxmlparser.cpp:343-385 | inside a flow, any other element adds nothing, no histogram in particular |
| `FlowDocument.FlowElsewhere` | netanim-3.103/statistics/flowmonxmlparser.cpp:181-191 | a `Flow` element outside both sections changes no table |
| `FlowDocument.Conversions` | netanim-3.103/statistics/flowmonxmlparser.cpp:409-437 | missing, malformed and out-of-range numbers become 0; a reason code keeps its low byte |
| `FlowDocument.ProbesRead` | netanim-3.103/statistics/flowmonxmlparser.cpp:271-295 | any list of probes reads back |
| `FlowDocument.DocumentRoundTrip` | netanim-3.103/statistics/flowmonxmlparser.cpp:89-206 | reading any written document gives its flow, classifier and probe tables, each `Flow` in the table its section selects, with any of the four kinds of histogram |
| `FlowDocument.FlowSurvives` | netanim-3.103/statistics/flowmonxmlparser.cpp:419-437 | a flow comes back as written iff each dropped number fits in 32 bits |
| `FlowTables.TablesReadBack` | netanim-3.103/statistics/flowmonxmlparser.cpp:89-206 | for any flow, classifier and probe tables and any document that lists their entries once each, in any order and layout: reading the document gives exactly these tables iff every dropped number in them fits in 32 bits |
| `GlobalNames.GlobalNameInjective` | nsc-0.5.3/globaliser/handle_global.cc:905-917 | the mangled name determines identifier and stack number |
| `GlobalNames.ArrayNameInjective` | nsc-0.5.3/globaliser/handle_global.cc:932-939 | a new-array name determines identifier and number |
| `GlobalNames.TypeNameInjective` | nsc-0.5.3/globaliser/handle_global.cc:941-948 | a type name determines its number |
| `GlobalNames.NamesSpelt` | nsc-0.5.3/globaliser/handle_global.cc:905-953 | a name of each family, spelt out |
| `GlobalNames.NumbersSpelt` | nsc-0.5.3/globaliser/handle_global.cc:932-948 | array names and type names are numbered from 0, separately |
| `GlobalNames.NamesNeverClash` | nsc-0.5.3/globaliser/handle_global.cc:905-953 | over any run of the four name builders, two calls return the same name only if they ask for the same existing name |
| `GlobalNames.NameSource.NewArrayName` | nsc-0.5.3/globaliser/handle_global.cc:932-939 | the counter names what the run so far prescribes |
| `GlobalNames.NameSource.NewTypeName` | nsc-0.5.3/globaliser/handle_global.cc:941-948 | likewise for types |
| `GlobalRewrite.OccurrencesAfter` | nsc-0.5.3/globaliser/handle_global.cc:982-984 | one replacement removes the first occurrence, creates none and shifts the others, even where two share an underscore |
| `GlobalRewrite.ReplaceFirst` | nsc-0.5.3/globaliser/handle_global.cc:982-984 | one replacement leaves the one-pass result unchanged |
| `GlobalRewrite.Unchanged` | nsc-0.5.3/globaliser/handle_global.cc:982-984 | the one-pass result keeps every stretch without an occurrence |
| `GlobalRewrite.GlobalReplaceToplevel` | nsc-0.5.3/globaliser/handle_global.cc:972-985 | the loop terminates, leaves no occurrence and renumbers exactly the original ones |
| `GlobalRewrite.NameRenumbered` | nsc-0.5.3/globaliser/handle_global.cc:905-985 | a stack-0 name becomes the name for the stack iff the prefix occurs only at its start |
| `GlobalRewrite.StackPostfixMeans` | nsc-0.5.3/globaliser/handle_global.cc:965-970 | the index is the stack number's numeral, without leading zeros, between brackets |
| `GlobalRewrite.IndexedFirst` | nsc-0.5.3/globaliser/handle_global.cc:995-997 | in the one-pass result the first index is replaced, and what is behind it in turn |
| `GlobalRewrite.IndexedNone` | nsc-0.5.3/globaliser/handle_global.cc:995-997 | a text without an index stays as it is |
| `GlobalRewrite.IndexedSpelt` | nsc-0.5.3/globaliser/handle_global.cc:995-997 | one index, spelt out |
| `GlobalRewrite.GlobalOldReplaceToplevel` | nsc-0.5.3/globaliser/handle_global.cc:987-998 | terminates, leaves no occurrence and does what one pass would, for every stack number |
| `InitialiserRegistry.ReplayKeepsWaiting` | nsc-0.5.3/globaliser/handle_global.cc:575-599 | after any sequence of registrations and references a node waits under an identifier iff that identifier was not referenced after the node's registration |
| `InitialiserRegistry.Registry.RegisterExternGlobalArrayInitialiser` | nsc-0.5.3/globaliser/handle_global.cc:580-589 | the map is that of the longer history |
| `InitialiserRegistry.Registry.RegisterGlobalReference` | nsc-0.5.3/globaliser/handle_global.cc:594-599 | the map is that of the longer history |
| `InitialiserRegistry.Registry.SpecialCase` | nsc-0.5.3/globaliser/handle_global.cc:605-618 | the sweep empties exactly the nodes with an unreferenced registration and touches no other |
| `PatchSet.HeaderReadBack` | ns-3.16/utils/check-style.py:193-224 | both positions of a chunk header read back |
| `PatchSet.HeaderMeans` | ns-3.16/utils/check-style.py:224-224 | exactly the lines with four numerals in their places start a chunk, whatever follows, and its positions are the first and the third |
| `PatchSet.HeaderCounts` | ns-3.16/utils/check-style.py:193-195 | the written header has the source position, the number of source lines, the destination position and the number of destination lines, in this order |
| `PatchSet.ClassifyMeans` | ns-3.16/utils/check-style.py:230-264 | what every line is taken for, whatever it is |
| `PatchSet.ParseAccepts` | ns-3.16/utils/check-style.py:221-265 | parsing raises iff some line is unknown, names a destination or starts a chunk before any source name, or belongs to a body before any chunk |
| `PatchSet.StaleChunk` | ns-3.16/utils/check-style.py:231-263 | a new file header does not end the chunk: body lines go to the previous file until a chunk starts |
| `PatchSet.LineReadBack` | ns-3.16/utils/check-style.py:157-165 | a line reads back as itself iff it is not taken for a file header |
| `PatchSet.PatchRoundTrip` | ns-3.16/utils/check-style.py:215-265 | parsing what was written gives the patches back iff no removed text starts with `-- ` and no added text with `++ ` |
| `PatchSet.CountsAreLengths` | ns-3.16/utils/check-style.py:177-195 | the written counts are the numbers of source and destination lines |
| `PatchSet.PatchSpelt` | ns-3.16/utils/check-style.py:157-219 | one small patch, spelt out |
| `CheckStyle.WritePatchset` | ns-3.16/utils/check-style.py:193-219 | the loops write the specified file |
| `CheckStyle.WriteChunk` | ns-3.16/utils/check-style.py:193-197 | a header and one line per line |
| `CheckStyle.ParsePatchsetLoop` | ns-3.16/utils/check-style.py:221-265 | the loop parses what the recursive reader does and raises on the same inputs |
| `CheckStyle.SideOf` | ns-3.16/utils/check-style.py:177-188 | the positions of one side's lines, in order |
| `CheckStyle.SideExact` | ns-3.16/utils/check-style.py:153-188 | a side has exactly the lines of its own kind and those of both |
| `CheckStyle.PassExact` | ns-3.16/utils/check-style.py:275-280 | the exact effect on each destination line: it becomes the source line of its index, as that stands at that turn, if that is the same text with one more space or tab at its end, and stays otherwise |
| `CheckStyle.PassEvensOut` | ns-3.16/utils/check-style.py:274-280 | the same for the whole chunk, from the texts before and after alone: a source line counts with its final text if it had its turn as a destination line earlier |
| `CheckStyle.PassMeaning` | ns-3.16/utils/check-style.py:275-280 | the pass changes a line only at such a turn and only by one blank; lines that are no destination stay |
| `CheckStyle.PassAddsAtMostOne` | ns-3.16/utils/check-style.py:274-280 | no line gains more than one character, and that is a blank |
| `CheckStyle.EvenChunk` | ns-3.16/utils/check-style.py:272-282 | over the shared line objects: the texts become those of the pass, which `PassEvensOut` describes, kinds stay, and it stops where a source line has no partner |
| `CheckStyle.RemoveTrailingWhitespaceChanges` | ns-3.16/utils/check-style.py:267-283 | kinds of all lines, and so the counts, stay; every chunk that is reached is evened out space for space and tab for tab; exactly the chunks before and including the first one with more source than destination lines get the pass; it completes iff there is no such chunk |
| `Timeline.SearchEvents` | ns-3.16/utils/grid.py:101-113 | the first event at or after the key |
| `Timeline.GetEvents` | ns-3.16/utils/grid.py:116-119 | the events of the window in order, then the next event unless one lies exactly at the end or none is left |
| `Timeline.GetEventsBounds` | ns-3.16/utils/grid.py:120-123 | the bounds of that slice before Python clips it |
| `Timeline.SearchRanges` | ns-3.16/utils/grid.py:49-61 | the loop is the recursive bisection on any list, and on ranges in order, touching or not, finds a range holding the key, or -1 when there is none |
| `Timeline.GetRanges` | ns-3.16/utils/grid.py:66-76 | on any list, the slice the two search results select |
| `Timeline.GetRangesBounds` | ns-3.16/utils/grid.py:77-87 | on any list, the bounds of that slice |
| `Timeline.RangesExact` | ns-3.16/utils/grid.py:66-76 | on ranges in order, which may touch, the slice is exactly the ranges that meet the window iff each end hits the outermost range holding it or misses with no range outside on its side, or both miss and none lies inside |
| `Timeline.OnlyTouchingMissed` | ns-3.16/utils/grid.py:66-76 | with at least one hit, a meeting range that is left out ends at the window's start or starts at its end |
| `Timeline.DisjointExact` | ns-3.16/utils/grid.py:66-76 | where no two ranges touch, two hits give exactly the ranges that meet the window |
| `Timeline.TouchingMissed` | ns-3.16/utils/grid.py:66-76 | an instance in which a touching range is left out |
| `Plotter.IncrementSize` | nsc-0.5.3/scons-time.py:83-97 | the loop computes the coarsened fifth of the value |
| `Plotter.IncrementGivesLines` | nsc-0.5.3/scons-time.py:83-97 | a positive value gets one digit followed by zeros, and 5 to 9 lines iff it is at least 5 |
| `Plotter.IncrementIsLargest` | nsc-0.5.3/scons-time.py:83-97 | from 5 on, no larger number of that form fits below a fifth of the value; below 5 the value is its own increment, and below 0 the increment is the floor of a fifth |
| `Plotter.TruncateMeans` | nsc-0.5.3/scons-time.py:101-101 | rounding goes towards zero |
| `Plotter.FloorDivMeans` | nsc-0.5.3/scons-time.py:103-103 | division rounds down for divisors of either sign |
| `Plotter.MaxGraphValue` | nsc-0.5.3/scons-time.py:99-103 | for every non-negative input, the least multiple of the increment at or above the next integer, strictly above the input; it fails only for inputs whose next integer is 0 |

## Left out

- Shell.Pipeline.Run: real processes, failing `open` or `Popen` calls and the verbose branches; a run is a log of events, and `exit` gives each command's status. A final `cd`, or one without a directory, ends in the exception the code would raise.
- ShellSyntax.ParseInvertsTokens: starts from tokens, because splitting words is library behaviour; an assertion that fails in the original is a failed parse. Environment words need at least one character after the sign, as the original's expression does.
- PosixLists.AgreesWithPosix: a `cd` without a directory, which the standard sends to the home directory, is not compared; every `cd` succeeds. Redirection files are compared by the name written: the program opens them from its own directory, not from the one the `cd`s lead to. The order of `2>&1` and `>` is lost in parsing, so it is not compared either. Signals, background lists and parentheses do not exist in the original.
- WorkerPool.PoolCompletes: commands are taken to return (`codes`), and there is at least one processor; what a command prints, elapsed times and reports are not part of this model, nor is a second signal arriving inside the handler.
- WorkerPool.PoolOutcome: jobs are put on the queue from a ready list, without the conditions that choose suites and examples.
- PacketWindow.WirelessShown: a lower bound, with `MixedTraceBounded` as the upper one; in between, a wireless packet that an earlier tick showed may stay. Times are real numbers.
- PacketWindow.AnimatorScene.TimeToUpdate: node locations, links, routes and all drawing.
- UpdateReplay.NodeUpdateManager.UpdateNodes: the widgets behind a node; a node is its number, colour, description and visibility.
- TimeValues.TimeValue.SetCurrentTime: a seek from the end cursor reads past the last element in the original, so a cursor on an element is required unless the time is zero. Copying a `TimeValue` is not modelled.
- Introspection.StaticInformation.DoGather: `IsChildOf` (ns-3.16/src/core/model/type-id.cc:499-508) is any relation between registered types, and attribute checkers are the three kinds it distinguishes. Its three loops are separate methods here.
- Introspection.StaticInformation.Gather: the library's sort and unique are one function on values, characterised by `IncreasingIsUnique`.
- FlowDocument.DocumentRoundTrip: starts from start, end and white-space tokens; numbers written as text are numbers with their width, times carry no unit suffix, and the sections come in the order the simulator writes them.
- FlowMonParser.FlowMonXmlParser.DoParse: a token stream on which a nested loop would never end is reported instead of looping; reader errors and file handling are not modelled.
- GlobalNames.NamesNeverClash: stack numbers are non-negative, as callers pass them.
- GlobalRewrite.GlobalReplaceToplevel: stack numbers are non-negative.
- InitialiserRegistry.Registry.SpecialCase: the reports it prints.
- PatchSet.PatchRoundTrip: patches are values, lines carry no newline, and positions are non-negative.
- CheckStyle.ParsePatchsetLoop: patches are values and the current chunk is a position among them; the line objects of the trailing-blank pass are real shared objects.
- CheckStyle.RemoveTrailingWhitespaceChanges: takes the chunks of all patches as one list, and starts from the parsed chunks; the indenter and file comparison around it are not modelled.
- Timeline.GetEvents: requires strictly increasing times, where the sort provides only order. Times are real numbers. `RangesExact` takes ranges in order, as the sort by start leaves ranges that do not overlap.
- Plotter.MaxGraphValue: inputs are real numbers; drawing is not modelled.
- The mobility manager, the designer mode, `shiva/`, build scripts, option parsing, report writers and all Qt and GTK code.
- The globaliser's symbol-collision checks, which depend on calls made by a grammar outside the file.
