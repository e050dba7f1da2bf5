# A verified model of the Job Arranger core

Job Arranger runs nets of jobs: a server keeps the icons of every running
jobnet in database tables and moves tokens along the flows between them, and an
agent on each host starts the processes, watches them and reports back. This
project models the parts of both where most of the state, branching and
arithmetic lies, and proves what they promise.

* **Flow engine** (`FlowTables`, `Arrivals`, `FlowOperations`, `FlowEngine`,
  `FlowLaws`, `FlowValues`, `ValueTables`, `Runs`, `Branches`, `TokenFlow`,
  `TokenProgress`, `TokenLimits`, `JobnetStatus`, `JobnetEnds`, `TestMode`,
  `Launches`, `Confluence`). Completing an icon walks its outgoing
  flows; a target counts arrivals and becomes READY, is reset when it had ended,
  resets the jobnet it links, and receives the values of its predecessor.
  `FlowEngine` is the imperative engine over the tables, proved equal to
  functions on one database value; `Runs` interleaves its transactions, and the
  other modules prove safety, progress, termination, confluence and value passing
  over whole runs, the exact steps that keep the join count, and when a jobnet is
  said to have ended.
* **Agent jobs** (`AgentJobs`, `JobList`, `AgentProtocol`, `AgentResults`,
  `AgentRounds`). The job table, the
  linked list the executive sweeps, and the wake-up protocol of any number of
  listeners with one executive, one atomic step at a time, with restarts.
* **Process-tree kill** (`ProcessKill`), **backup and recovery** (`Journal`,
  `Recovery`), **text and paths** (`SqlEscape`, `VariableExpansion`,
  `Utf8Filter`, `JobPath`) and the **self-monitor** (`SelfMonitor`). `Common`
  holds what they share.

A SQL table is a finite map or a log of rows in a field; a transaction is one
step; clocks, processes, sockets and query orders are parameters. Where a select
has no order, its result is a parameter that answers the query in any order, or
the first row in a fixed table order.

Findings, each a lemma below:

* An icon whose successor refuses a flow is first set to ENDERR and then, in the
  same completion, to END: ENDERR survives only on an icon without flows
  (`FlowLaws.SourceOutcome`, with an instance in `FlowLaws.RefusedThenEnded`).
* A jobnet icon that failed follows its jobnet when that runs, ends or fails again.
  This keeps the join count exactly when the icon has not released its successors,
  or is completed again and that is stopped or harms none of them
  (`TokenLimits.ResyncInRun`). Set back to RUN after its release it is refused by
  any successor that is READY, RUN, being aborted or in error
  (`TokenLimits.RevivedIsRefused`, with a run in `TokenProgress.ContinuedIconRevived`).
* A jobnet is said to have ended while an icon with the continue flag is being
  aborted, or failed without releasing its successors: those are counted as ended
  (`JobnetEnds.EndExact`, with an instance in `JobnetEnds.EndsWhileAborting`).
* A launched jobnet that stands still without END or error is shown as RUNERR only
  if an icon without the continue flag has failed; if all failed icons have it, the
  jobnet stays RUN (`JobnetEnds.StalledIsRunErr`).
* A listener that cannot raise the request flag closes or deletes its row without
  looking whether the executive has its job in hand. That is harmless exactly when
  no live node has the jobid (`AgentProtocol.SoundStep`); otherwise the jobid is
  accepted again while its process is being started
  (`AgentProtocol.UnsafeWithdrawal`).
* A job submitted again while its node, given up after the last send retry, is
  still in the list can miss its scan; the exact condition is
  `AgentProtocol.ScanKeeps`, and `AgentProtocol.LosesWakeup` is such a run.
* A result is sent at least once, so the number of failed sends before a job is
  closed is the larger of one and the configured retries
  (`AgentJobs.GivesUp`).
* The journal's framing is faithful exactly when every statement is shorter than
  4096 characters and none begins with white space (`Journal.FramingRoundTrip`),
  and a journal that holds the BEGIN of a transaction cut off by a crash makes
  later replays fail (`Recovery.RestartKeepsRecoverable`).
* A backup that has begun does not look at the result of the copy before it empties
  the journal: the database stays recoverable exactly when the backup did not begin,
  the copy was made, the journal could not be emptied, or what it held had no effect
  on the backup (`Recovery.BackupExact`). A restore ignores the same result
  (`Recovery.RestoreExact`).
* A job is accepted although nobody is told of it exactly when the request flag is
  down, cannot be created, and the row can be neither closed nor deleted
  (`JobList.Agent.Begin`).
* The byte filter on values keeps characters of one and three bytes and silently
  drops those of two and four (`Utf8Filter.FilterKeeps`).

## Model

| member | source | states |
|---|---|---|
| FlowEngine.FlowEngine.FlowSetStatus | src/jalibs/jaflow.c:50-157 | one flow into an icon, told by the rows: refused for a missing icon, an END icon that has ended, a busy one or an unlinked jobnet icon, without effect on such icons in test mode, and otherwise one arrival counted, from nothing after an end or a failure; the end of an IF and a loop icon start at once, others at their boot count, and a starting jobnet icon resets its jobnet |
| FlowEngine.FlowEngine.StoreArrival | src/jalibs/jaflow.c:125-157 | the taken flow: a jobnet icon without link row refuses with a message, otherwise its jobnet is reset, the row stored and the source's values copied |
| FlowEngine.FlowEngine.Flow | src/jalibs/jaflow.c:175-236 | a completion, told by the rows: with no flow the icon ends in error, in a jobnet that does not run it fails, otherwise it ends, every other icon is counted exactly the flows that lead to it and are of the kind asked for, and only those get before-rows; equal to `Flowed` |
| Arrivals.EntriesCount | src/jalibs/jaflow.c:190-216 | a walk enters an icon as often as the flow table has rows from the source to it that are of the kind asked for, or of any kind for a normal completion |
| Arrivals.CompletedRow | src/jalibs/jaflow.c:86-224 | after a completion that goes on, the status and count of every icon no reset touches follow from its row and the number of those flows |
| FlowLaws.BranchNotTaken | src/jobarg_server/jarun/jaruniconif.c:139-143 | an IF icon that decides one way leaves a successor that only the other way leads to alone, before-rows included |
| FlowLaws.BranchTaken | src/jobarg_server/jarun/jaruniconif.c:139-143 | a waiting successor that one flow of its way leads to has one more arrival, and starts exactly if it ends an IF, is a loop icon, or has its boot count |
| Branches.RunFirstCome | src/jalibs/jaflow.c:99-104 | in every state of every run from a loaded or reset jobnet the end of an IF or a loop icon at BEGIN has counted nothing |
| Branches.FirstFlowStarts | src/jalibs/jaflow.c:102-104 | so the first completion with a flow into such an icon makes it READY with one arrival, whatever its boot count and however many of its flows lead there |
| FlowEngine.FlowEngine.SetRunErr | src/jalibs/jastatus.c:581-673 | a run error leaves RUNERR and, exactly with the continue flag, a status other than -99 and no IF icon, counts the flows as a normal completion does; otherwise no other icon changes; the mutual recursion with the flow walk ends because the walk re-enters only with -99 |
| FlowEngine.FlowEngine.SetRun | src/jalibs/jastatus.c:514-528 | starting an icon cleans its before-values and sets RUN, and nothing else changes |
| FlowEngine.FlowEngine.SetEnd | src/jalibs/jastatus.c:543-566 | nothing at message flag 0, otherwise cleaned after-values and END |
| FlowEngine.FlowEngine.SetEndErr | src/jalibs/jastatus.c:688-743 | cleaned after-values, ENDERR and, with the message flag, one message row |
| FlowEngine.FlowEngine.Tell | src/jalibs/jalog.c:490-504 | an error log appends one message row to the after-values of the icon; without an icon row nothing changes |
| FlowEngine.FlowEngine.SetStatusJob | src/jalibs/jastatus.c:237-278 | only the status of that icon changes; a missing row is no change |
| FlowEngine.FlowEngine.CleanValueAfter | src/jalibs/javalue.c:99-133 | the after-table loses exactly the superseded and nameless rows of the icon |
| FlowEngine.FlowEngine.CleanValueBefore | src/jalibs/javalue.c:49-83 | the same for the before-table |
| FlowEngine.FlowEngine.ValueAfterBefore | src/jalibs/javalue.c:555-578 | every after-row of the source is appended to the before-rows of the successor, in order |
| FlowLaws.FlowedJobs | src/jalibs/jaflow.c:175-236 | the effect of a completion on the icons, with or without the message flag, up to the final status of the icon itself |
| FlowLaws.SourceOutcome | src/jalibs/jaflow.c:219-232 | after a completion an icon is ENDERR exactly when it has no flow, RUNERR exactly when its jobnet does not run, END exactly otherwise: a refused flow leaves no trace on its source |
| FlowLaws.RefusedThenEnded | src/jalibs/jaflow.c:114-122 | an icon whose successor is running: the flow is refused, ENDERR is written, and the completion ends with END |
| FlowLaws.RunErrOutcome | src/jalibs/jastatus.c:663-672 | a run error always leaves the icon RUNERR, whatever the continued walk did |
| FlowLaws.RunErrContinues | src/jalibs/jastatus.c:663-672 | with the continue flag, a status other than -99 and no IF icon, the successors move exactly as after a normal completion; otherwise only the icon changes |
| FlowLaws.StepsAreOperations | src/jalibs/jastatus.c:514-743 | every step of `Runs` that works on an icon is what the engine's operation does to the icon table |
| FlowValues.FlowedValues | src/jalibs/jaflow.c:187-232 | a completion, with the message flag or without, overrides the before-variables of exactly the icons that took a flow by the source's after-variables, and changes no other variables; all but the error message |
| FlowValues.InheritsExactly | src/jalibs/jaflow.c:150-157 | the icons given variables are exactly those that a flow of the kind asked for enters and counts for |
| FlowLaws.FlowedLatest | src/jalibs/jaflow.c:175-224 | every value handed on is the latest of its name the completed icon had, or an error message about it; none is superseded or nameless |
| FlowValues.FailedValues | src/jalibs/jastatus.c:586-672 | a run error hands on the after-variables, ICON_STATUS included, exactly when it goes on, and to exactly the icons that take a flow; all but the error message |
| FlowValues.StatusLeft | src/jalibs/jastatus.c:627-631 | ICON_STATUS is left exactly by job icons with a status other than -99, in a jobnet with an id |
| FlowOperations.StatusReads | src/jalibs/jastatus.c:590-629 | a status of up to nine characters is written so that it reads as the same number |
| FlowValues.PlayedValues | src/jalibs/javalue.c:519-578 | over any run of after- and before-writes, removals, jobnet values, error logs, hand-ons, starts, completions, run errors, ends and status changes elsewhere, an icon's before-variables are what it inherited, all but the error message |
| FlowValues.LastArrivalWins | src/jalibs/jastatus.c:514-528 | when an icon starts, its before-rows are one per name and equal, in arrival order and but for the error message, the right-biased merge of what sources, jobnet and direct writes gave it, less what was removed |
| FlowValues.StartVariables | src/jobarg_server/jarun/jarunvalue.c:50-97 | an icon started by the server sees exactly what it inherited under its own id, name, time and path, and no error message |
| ValueTables.DeleteRepeats | src/jalibs/javalue.c:60-83 | the cursor loop deletes exactly the rows whose name equals that of the row before |
| ValueTables.CleanLog | src/jalibs/javalue.c:49-133 | with the cursor ordered by name and falling sequence number, the loop deletes exactly the stale rows |
| ValueTables.RepeatsAreStale | src/jalibs/javalue.c:60-83 | in the ordered cursor a repeated name is the same as a superseded or nameless row |
| ValueTables.CleanKeeps | src/jalibs/javalue.c:60-83 | a row survives cleaning exactly when it is not superseded and has a name |
| ValueTables.CleanKeepsValues | src/jalibs/javalue.c:110-132 | cleaning one icon changes no variable of any icon except its nameless ones |
| ValueTables.CleanIsFunctional | src/jalibs/javalue.c:110-132 | afterwards the icon has one row per name |
| ValueTables.InsertAllValues | src/jalibs/javalue.c:565-570 | copied variables override those already there, and only for the target |
| ValueTables.EraseValues | src/jalibs/javalue.c:439-464 | removing a name takes that variable from that icon and nothing else |
| FlowEngine.FlowEngine.SetValueBefore | src/jalibs/javalue.c:148-187 | refused for a zero job or jobnet id, which changes nothing; otherwise one before-row is appended for the icon |
| FlowEngine.FlowEngine.RemoveValueBefore | src/jalibs/javalue.c:439-464 | the before-rows of that icon and name go, all others stay |
| FlowEngine.FlowEngine.RemoveValueAfter | src/jalibs/javalue.c:479-504 | the same for the after-table |
| ValueTables.AnyOrder | src/jalibs/javalue.c:565-570 | with one row per name the unspecified order of the select is immaterial |
| Runs.NextShape | src/jalibs/jaflow.c:134-153 | no step changes anything of an icon but status and end count, nor adds or removes one |
| TokenFlow.StepTokens | src/jalibs/jaflow.c:86-122 | every step, of this jobnet or of another, keeps the token count: end count of an icon equals its incoming flows from completed icons, and BEGIN means tokens are missing |
| TokenFlow.CompletionCounts | src/jalibs/jaflow.c:190-232 | a completion in a running regular jobnet takes no error branch and counts as exactly one more completed icon |
| TokenFlow.RunTokens | src/jalibs/jaflow.c:86-122 | the count holds in every state of every run from a loaded or reset jobnet |
| TokenFlow.StartsAfterPredecessors | src/jalibs/jaflow.c:99-113 | an icon has left BEGIN exactly when all its predecessors are completed |
| TokenFlow.CountsEndedPredecessors | src/jalibs/jaflow.c:99-113 | when no icon has failed, end count is the number of incoming flows from END icons |
| TokenFlow.NeverAlreadyStarted | src/jalibs/jaflow.c:114-122 | the branch for a successor that has already started is never reached |
| TokenFlow.StatusesAdvance | src/jalibs/jaflow.c:99-153 | between two resets of a jobnet no icon goes back a stage, and the status of an icon that is no jobnet icon never goes back; a failed jobnet icon may run again after its jobnet if its successors were not released |
| TokenFlow.NotReadyTwice | src/jalibs/jaflow.c:99-153 | an icon that was READY and left it is not READY again before the next reset |
| TokenProgress.LaunchedProgress | src/jalibs/jaflow.c:99-113 | in every state of an orderly run after the launch of an acyclic jobnet, while an icon has not ended, some icon is READY, RUN or being aborted, or has failed |
| TokenProgress.IdleMeansEnded | src/jalibs/jaflow.c:99-113 | a launched acyclic jobnet with nothing to do and no failure has every icon END |
| TokenProgress.StepsBounded | src/jalibs/jaflow.c:86-157 | between two resets a jobnet takes at most five steps that change an icon for each of its icons, and two for each revival of a failed jobnet icon, whether or not its flows form loops |
| TokenProgress.Progress | src/jalibs/jaflow.c:99-113 | the step behind it: from an uncompleted icon, flows lead back to one that has begun and is not completed |
| TokenProgress.ContinuedIconRevived | src/jobarg_server/jajobnet/jajobnetrun.c:124-160 | a run in which a continued jobnet icon, revived after its jobnet, is refused by the successor it has already released |
| TokenLimits.ResyncInRun | src/jobarg_server/jajobnet/jajobnetrun.c:124-167 | in every state of an orderly run, whatever the continue flag: a failed jobnet icon that follows its jobnet keeps the token count exactly when it has not released its successors, or is completed again and that is stopped or leaves every successor unharmed |
| TokenLimits.ResyncExact | src/jobarg_server/jajobnet/jajobnetrun.c:124-167 | the same for one step from any counted state |
| TokenLimits.RevivedIsRefused | src/jalibs/jaflow.c:86-122 | a jobnet icon set back to RUN and completed takes an error branch whenever a successor refuses, and exactly then if no two of its flows lead to one icon |
| TokenLimits.WalkRows | src/jalibs/jaflow.c:190-224 | a walk inside a regular jobnet does to each icon what the flows into that icon do on their own, refusals included |
| TokenLimits.NeverStartsItself | src/jalibs/jaflow.c:99-113 | an icon with a flow to itself stays at BEGIN in every state of an orderly run |
| TokenLimits.RelaunchExact | src/jobarg_server/jajobnet/jajobnetready.c:98-128 | a launch keeps the token count and takes no icon back exactly when the start icon has not started; otherwise the start icon can be started a second time |
| JobnetStatus.RunJobnet | src/jobarg_server/jajobnet/jajobnetrun.c:185-367 | the counting loop and its decision, in any row order and with both early exits: afterwards the jobnet is ENDERR exactly on the errors listed, END exactly when an END icon has ended (in test mode all icons), and otherwise RUNERR exactly when an icon has failed or is aborted without the continue flag and RUN when none is; it is written exactly when that or the timeout differs |
| JobnetEnds.StalledIsRunErr | src/jobarg_server/jajobnet/jajobnetrun.c:307-318 | in a run, a launched acyclic jobnet with nothing READY or RUN, no error and no END icon reached has a failed icon, and is RUNERR unless every failed icon has the continue flag |
| JobnetStatus.CountRows | src/jobarg_server/jajobnet/jajobnetrun.c:226-279 | the loop over the rows stops exactly at an icon in error or, outside test mode, a second END icon that has ended, and otherwise has counted every kind of icon |
| JobnetEnds.EndExact | src/jobarg_server/jajobnet/jajobnetrun.c:307-328 | under the token count END is given exactly when there is one start icon, one END icon has ended, and every icon is completed, not begun, or an aborted or failed one that the continue flag counts as ended |
| JobnetEnds.EndMeansCompleted | src/jobarg_server/jajobnet/jajobnetrun.c:307-328 | in an acyclic jobnet without icons of that last kind END is given exactly when one END icon has ended and all icons are completed |
| JobnetEnds.EndMeansAllEnd | src/jobarg_server/jajobnet/jajobnetrun.c:307-328 | without continue flags END is given exactly when there is one END icon and every icon is END; with a second END icon it is never given |
| JobnetEnds.EndsWhileAborting | src/jobarg_server/jajobnet/jajobnetrun.c:259-266 | a counted state in which END is given while an icon with the continue flag is being aborted |
| JobnetEnds.SyncIsSteps | src/jobarg_server/jajobnet/jajobnetrun.c:51-170 | setting a jobnet and its RUN or RUNERR icon is a change of the jobnet followed by one step of the icon, or none |
| JobnetEnds.InnerEndsFirst | src/jobarg_server/jajobnet/jajobnetrun.c:132-154 | in every state of every orderly run a jobnet icon is END only while the END icon of its jobnet has ended, and all its icons have if it is acyclic without continue flags |
| TokenFlow.OthersComplete | src/jalibs/jaflow.c:125-149 | a completion in another jobnet leaves the icons of this one alone or resets all of them |
| TestMode.ArriveWork | src/jalibs/jaflow.c:86-122 | in test mode a flow never adds work, the reset of a linked jobnet included |
| TestMode.CompleteWork | src/jalibs/jaflow.c:175-236 | completing a started icon uses work up, even when flows lead back to it |
| TestMode.RunsAreFinite | src/jalibs/jaflow.c:88-91 | with every icon in test mode any run takes at most as many icon steps as there was work at its start, and two for each revival of a failed jobnet icon, whatever loops the flows form |
| TestMode.StartsAtMostOnce | src/jalibs/jaflow.c:115-118 | an icon is started at most once, plus once for each time its jobnet is reset by a jobnet icon becoming READY (and, for a start icon that flows enter, each launch) |
| Launches.StartsByLaunches | src/jobarg_server/jajobnet/jajobnetready.c:124-128 | an icon no flow enters is started at most once for each launch, in test mode or not |
| Launches.LaunchesByStarts | src/jobarg_server/jarun/jaruniconjobnet.c:75-82 | a start icon is launched at most once for each start of the icon that encloses its jobnet |
| Launches.StartsWithOwner | src/jobarg_server/jajobnet/jajobnetready.c:98-128 | together: a start icon starts at most once for each start of the enclosing icon |
| Confluence.Swap | src/jalibs/jaflow.c:50-157 | two flows inside one jobnet commute, errors included |
| Confluence.Commute | src/jalibs/jaflow.c:190-224 | so do two walks |
| Confluence.RunningUntouched | src/jalibs/jaflow.c:114-122 | a running icon reached without an error is in test mode and keeps its row |
| Confluence.Confluent | src/jalibs/jaflow.c:86-157 | completing two running icons of one jobnet in either order gives the same icons, resets of linked jobnets included, if no order takes an error branch |
| AgentJobs.RestartIsExact | src/jobarg_agent/jajobobjectlist.c:66-79 | a restart lists exactly the rows that are not CLOSE, each once, with retries counted afresh |
| AgentJobs.ScanIsExact | src/jobarg_agent/jajobobjectlist.c:140-166 | a scan keeps the list in front, repeats no jobid, and adds exactly the BEGIN rows whose jobid was not listed |
| AgentJobs.VisitLeaves | src/jobarg_agent/jajobobjectlist.c:202-243 | a visit takes a job out exactly when it meets it in CLOSE, and touches no other row |
| AgentJobs.SweepKeepsOrder | src/jobarg_agent/jajobobjectlist.c:198-248 | a sweep leaves the original order minus exactly the jobs visited in CLOSE |
| AgentJobs.GivesUp | src/jobarg_agent/jaagent.c:717-729 | after n failed sends a job is closed exactly when n is positive and reaches the configured retries |
| JobList.Agent.constructor | src/jobarg_agent/jajobobjectlist.c:51-82 | the list built at start holds the rows of the select, in its order |
| JobList.Agent.Insert | src/jobarg_agent/jajobdb.c:431-492 | accepted exactly for a positive jobid that is absent or CLOSE; the row is then fresh and BEGIN, otherwise nothing changes |
| JobList.Agent.Begin | src/jobarg_agent/jaagent.c:251-276 | a refused job changes nothing; an accepted one ends announced, closed, deleted or, when all of that fails, unannounced, with the answer given to the server in each case; a call is what the atomic steps of a listener come to |
| JobList.Agent.AddRow | src/jobarg_agent/jajobobjectlist.c:142-163 | walking the links, a row is appended unless its jobid is listed |
| JobList.Agent.ListAdd | src/jobarg_agent/jajobobjectlist.c:128-169 | the scan equals `Added` on the linked list |
| JobList.Agent.AgentRun | src/jobarg_agent/jaagent.c:620-629 | RUN after a launch, END and failed otherwise, and the row follows |
| JobList.Agent.AgentEnd | src/jobarg_agent/jaagent.c:645-695 | nothing while the check is pending; otherwise the job is END with exactly the result the files give, or failed if its process is lost or its files unreadable, and its row the same; RUN again if the row cannot be written |
| JobList.Agent.AgentClose | src/jobarg_agent/jaagent.c:710-740 | CLOSE when sent or when the retries are used up, with the row written exactly then |
| JobList.Agent.Unlink | src/jobarg_agent/jajobobjectlist.c:233-241 | the node after `pre` leaves the list and the rest keeps its order |
| JobList.Agent.Sweep | src/jobarg_agent/jajobobjectlist.c:198-248 | the pointer loop with its repeated turns terminates and leaves list and table as `Swept` says |
| JobList.Agent.Executive | src/jobarg_agent/jajobobjectlist.c:183-250 | flag, scan and sweep in the order of the source; a round is what the atomic steps of the executive come to |
| AgentProtocol.SoundStep | src/jobarg_agent/jaagent.c:251-267 | an atomic step keeps listed jobids distinct and no row behind its node, except exactly the withdrawal of a row whose job has a live node |
| AgentProtocol.WithdrawSound | src/jobarg_agent/jaagent.c:254-267 | closing or deleting a row keeps that agreement exactly when no live node has its jobid |
| AgentProtocol.SoundRun | src/jobarg_agent/jaagent.c:620-629 | over whole runs the agreement holds in every state exactly when every withdrawal is of that kind |
| AgentProtocol.UnsafeWithdrawal | src/jobarg_agent/jaagent.c:252-259 | a concrete run: a listener that cannot create the flag closes the row of a job the executive has taken up, and the jobid is accepted again while its process is being started |
| AgentProtocol.ScanFinds | src/jobarg_agent/jajobobjectlist.c:145-152 | after a scan a BEGIN row has a live node exactly when no CLOSE node with its jobid was left in the list |
| AgentProtocol.CoveredStep | src/jobarg_agent/jajobobjectlist.c:191-196 | the exact steps that lose a wake-up: a scan that skips a jobid whose row nobody will announce again, and a listener that can neither raise the flag nor withdraw a row nobody else knows of |
| AgentProtocol.NoLostWakeup | src/jobarg_agent/jaagent.c:251-267 | over whole runs of listeners, executive, children, purges and restarts, the flag creatable or not: every BEGIN row is live, flagged, about to be scanned or about to be announced at all times exactly when no step is of that kind |
| AgentProtocol.LosesWakeup | src/jobarg_agent/jaagent.c:719-725 | a concrete run that ends idle with a BEGIN row nobody knows of |
| AgentProtocol.StartsAtMostOnce | src/jobarg_agent/jajobdb.c:451-475 | with safe withdrawals a jobid is launched at most once per accepted submission, plus once per restart between a launch and its record |
| AgentProtocol.VisitRefined | src/jobarg_agent/jajobobjectlist.c:202-243 | undisturbed, the atomic steps at one node make up its visit in the sequential sweep |
| AgentProtocol.SweepRefined | src/jobarg_agent/jajobobjectlist.c:198-248 | undisturbed, the atomic steps make up the whole sweep, so the protocol and the linked list describe one executive |
| AgentRounds.RoundRefined | src/jobarg_agent/jajobobjectlist.c:183-248 | undisturbed, finding and lowering the flag, the scan, the sweep and its end make up one round of the executive |
| AgentRounds.BeginRefined | src/jobarg_agent/jaagent.c:251-267 | undisturbed, the steps of a listener make up one call of begin, whichever of creating, closing and deleting fails |
| AgentResults.ResultsAreTold | src/jobarg_agent/jaagent.c:664-690 | over whole runs a job or row at END counts as failed exactly if that was last told: by a failed launch, a child, a lost process, unreadable files or the files read; a send or restart does not change it |
| AgentResults.SentAsTold | src/jobarg_agent/jaagent.c:710-740 | what is sent for a job is that result, and the row of a closed job keeps it |
| AgentProtocol.ListedIsRefused | src/jobarg_agent/jajobdb.c:465-475 | the jobid of a listed job that is not CLOSE is refused, and its row is at least as far as the job |
| ProcessKill.Kill | src/jalibs/jakill.c:242-389 | exactly the descendants of the job in the snapshot are killed, each once and children first; success exactly when none is refused |
| ProcessKill.KillLoop | src/jalibs/jakill.c:353-389 | the descent over the in-place table terminates with that result, with no assumption that the table is acyclic |
| ProcessKill.FindChild | src/jalibs/jakill.c:356-362 | the first entry whose parent is the given process |
| ProcessKill.LoadTable | src/jalibs/jakill.c:281-301 | the table holds the filtered listing in order |
| ProcessKill.TableProperties | src/jalibs/jakill.c:290-292 | orphans, children of init and the job itself are the only entries left out |
| ProcessKill.SnapshotIs | src/jalibs/jakill.c:270-310 | the listing of /proc is used exactly if it holds a process to record, otherwise that of ps, and failing that none |
| ProcessKill.AllDescendantsDead | src/jalibs/jakill.c:353-385 | a set that holds the job's children and is closed under children holds every descendant |
| ProcessKill.WalkIsFresh | src/jalibs/jakill.c:356-362 | the descent never meets an entry twice, because a parent is unique |
| Journal.OneLineEach | src/jobarg_agent/jajournal.c:93-96 | a statement of one line is saved as one line that starts with its time |
| Journal.HeaderRead | src/jobarg_agent/jajournal.c:175-181 | the header of a saved record is read back whatever the statement holds, if the buffer holds it |
| Journal.FramingRoundTrip | src/jobarg_agent/jajournal.c:93-96 | loading what was saved yields the same statements exactly when every one fits the buffer and none begins with white space |
| Journal.BlankStartIsLost | src/jobarg_agent/jajournal.c:175-181 | a statement that begins with white space is never read back |
| Journal.LongIsLost | src/jobarg_agent/jajournal.c:175-181 | a statement of 4096 or more characters is not read back, nor is anything after it |
| Recovery.AgentDb.Execute | src/jobarg_agent/jasqlite.c:222-263 | any statement is journalled exactly when it succeeds; one that fits the buffer and begins with a non-blank keeps the database recoverable |
| Recovery.AgentDb.LoadJournal | src/jobarg_agent/jajournal.c:151-195 | the load loop executes exactly the statements of the journal until one fails |
| Recovery.AgentDb.Restore | src/jobarg_agent/jadbmain.c:86-131 | how far a restore gets, failures of the rename, the open and the copy included, and what database that leaves, whatever was there before |
| Recovery.AgentDb.RemoveOldJobs | src/jobarg_agent/jadbmain.c:267-308 | exactly the CLOSE rows that ended before the bound are removed, in one transaction whose statements are journalled in order |
| Recovery.RecentIsPurged | src/jobarg_agent/jadbmain.c:277-288 | for a clock past the history the jobs removed are those with status 3 that ended before that many days ago |
| Recovery.AgentDb.Backup | src/jobarg_agent/jadbmain.c:223-252 | a backup that does not begin fails and changes nothing; otherwise the backup is the database if the copy was made, the journal is emptied if it can be, the answer ignores the copy, and old history is removed outside a transaction; recoverable under the condition of `Recovery.BackupExact` |
| Recovery.BackupExact | src/jobarg_agent/jadbmain.c:190-249 | a backup keeps the database recoverable exactly when it does not begin, makes the copy, which a transaction prevents, cannot empty the journal, or empties one without effect on the backup |
| Recovery.RestoreExact | src/jobarg_agent/jadbmain.c:86-131 | a restore gives the database back whenever it gets to a whole copy; when it stops before, or the copy is not whole, exactly when what it leaves is the database all the same |
| Recovery.ExecuteKeepsSound | src/jobarg_agent/jasqlite.c:238-258 | each statement keeps the invariant that replaying the journal over the backup gives the live database |
| Recovery.InterruptedBackupIsSound | src/jobarg_agent/jadbmain.c:243-249 | a backup cut off before the journal is emptied loses nothing: replay is idempotent over its own result |
| Recovery.RestartKeepsRecoverable | src/jobarg_agent/jasqlite.c:122-145 | a crash keeps the invariant exactly when no transaction was open |
| Recovery.LossesAreInvisible | src/jobarg_agent/jadbmain.c:86-131 | over any run of statements, backups, interrupted backups and losses the database is what the statements alone make it |
| SqlEscape.EscapedLength | src/jalibs/jastr.c:598-612 | the exact size of the escaped text with its terminator |
| SqlEscape.EscapeInto | src/jalibs/jastr.c:627-647 | for any positive size the buffer holds the escape of the longest prefix that fits, never half a doubled quote, and nothing after the terminator is touched |
| SqlEscape.DynEscape | src/jalibs/jastr.c:662-672 | the allocated text is the whole escape |
| SqlEscape.EscapeRoundTrip | src/jalibs/jastr.c:627-647 | SQL reads the escaped text back as the source without carriage returns |
| VariableExpansion.ReplaceVariable | src/jalibs/javalue.c:964-1153 | succeeds exactly when there are variables, the text parses, every name is bound and at most 128 long and the expansion fits; the output is then the expansion, for a text that is one variable exactly the value of the first variable of that name |
| VariableExpansion.NextToken | src/jalibs/javalue.c:1033-1106 | one turn of the loop finds the token at its position or none |
| VariableExpansion.ExpansionIsMeaning | src/jalibs/javalue.c:981-1148 | the expansion is the meaning of the text under the grammar of plain characters, `$$`, `${name}` and `$name` |
| VariableExpansion.BracedValue | src/jalibs/javalue.c:1117-1132 | `${name}` stands for the value of the first variable of that name, before any rest of the text |
| VariableExpansion.BareValue | src/jalibs/javalue.c:1117-1132 | so does `$name` before a dollar, a line end or the end of the text |
| VariableExpansion.UnknownRefused | src/jalibs/javalue.c:1106-1142 | a name over 128 characters or without a variable refuses the text |
| VariableExpansion.DollarReads | src/jalibs/javalue.c:1033-1106 | after a dollar an accepted text goes on with a dollar or with one of those two forms of a bound name |
| VariableExpansion.ReadComplete | src/jalibs/javalue.c:981-1148 | the grammar is unambiguous and the left-to-right reader finds its one reading |
| VariableExpansion.DoubledIsLiteral | src/jalibs/javalue.c:1047-1059 | doubling every dollar protects any text: it expands to itself |
| Utf8Filter.Filter | src/jalibs/javalue.c:226-258 | into a buffer that holds the result, the loop writes the filtered bytes and a terminator and changes nothing beyond |
| Utf8Filter.FilterKeeps | src/jalibs/javalue.c:226-258 | on well-formed text exactly the characters of one and three bytes remain, in order |
| Utf8Filter.FilterOnWellFormed | src/jalibs/javalue.c:226-258 | the result is well formed again and filtering it changes nothing |
| Utf8Filter.LongSequence | src/jalibs/javalue.c:226-258 | after a three-byte lead up to six continuation bytes pass, if there are at least two, and the rest are dropped |
| Utf8Filter.NeverOverruns | src/jalibs/javalue.c:226-258 | on any bytes, those written and those saved are never more than those read |
| JobPath.GetJobId | src/jalibs/jajobid.c:93-188 | the buffer filled from its end holds the printed path and its terminator, and no write leaves it |
| JobPath.GetInnerJobId | src/jalibs/jajobnet.c:84-134 | the strtok loop resolves the path down the nested jobnets, or yields 0 |
| JobPath.PrintedRun | src/jalibs/jajobid.c:118-187 | on a nesting tree the print is the longest trailing run of segments that fits, under the main jobnet id if room remains |
| JobPath.MainNameIs | src/jalibs/jajobid.c:168-176 | the main jobnet id printed is the name of that jobnet's row, cut to 32 characters |
| JobPath.PrintThenResolve | src/jalibs/jajobnet.c:99-133 | the printed path without its main jobnet id resolves to the job |
| JobPath.ResolveThenPrint | src/jalibs/jajobid.c:118-187 | printing a resolved path gives the path with single slashes |
| SelfMonitor.StatProcess.Update | src/jalibs/jaself.c:271-294 | the ticks since the last update go to the last state, modulo 65536, and to no other |
| SelfMonitor.StatProcess.Conservation | src/jalibs/jaself.c:288-291 | in any sample the states sum, modulo 65536, to the time since initialisation up to the later of the sample and the last update |
| SelfMonitor.StatProcess.Record | src/jalibs/jaself.c:329-335 | one process is sampled into its slot, the running state with the ticks since its last update, and its ring stays in order |
| SelfMonitor.Collector.Collect | src/jalibs/jaself.c:303-342 | after n collections the ring of every process, read from `first`, is the last min(n, 60) samples in order |
| SelfMonitor.RingAdvances | src/jalibs/jaself.c:318-324 | overwriting the slot after the newest value keeps a column in order |

## Left out

- Refused or failing database statements of the server: every flow step is one committed transaction; a FAIL that rolls back is not modelled.
- Row locks, transaction retries and waits: `for update`, BEGIN IMMEDIATE and the busy loops appear only as atomic steps.
- Job log, message log file and timestamps of status changes: taken as steps that succeed; of the message log only the variable it leaves behind is modelled, without its text's escape, and whether a message leaves one follows the log types of the shipped message file.
- FlowEngine.FlowEngine.Flow: the message of a stopped jobnet is stored under the icon's own jobnet, where the source passes an id it has not set.
- The table of jobnet values (src/jalibs/javalue.c:593-870): what it gives a start icon is an arbitrary list of rows; the jobnet columns of value rows.
- FlowEngine.FlowEngine.SetRunErr: the text of ICON_STATUS is not passed through the byte filter, which keeps digits and signs.
- Name comparison of the database: names are compared as character sequences, as strcmp does, whatever the collation.
- Rerun of failed icons and other status changes from the user interface; in `Runs` jobnet status changes are free steps except READY, which only a jobnet icon gives.
- JobnetStatus.RunJobnet: all icons of a jobnet have one test flag, as the loader gives them; the summary row of an outermost jobnet and the exit code copied to the jobnet icon are left out.
- JobnetEnds.InnerEndsFirst: the jobnet icon is not skipped, and one icon links the inner jobnet, as the loader builds it.
- Which server process completes which icon type: any READY or RUN icon other than an END icon may be completed by a flow walk, any flow kind may be asked for, and any icon at READY, RUN or ABORT may fail.
- TokenFlow.RunTokens: a jobnet is launched only while its start icon has not started (`TokenLimits.RelaunchExact`), its icons are completed along all their flows, and a failed jobnet icon follows its jobnet only if it has not released its successors (`TokenLimits.ResyncInRun`).
- Runs.NextShape: a jobnet icon follows its jobnet while it is RUN or RUNERR; the server writes it whatever its status, which differs only if an outer jobnet was reset while the inner one still ran.
- TestMode.RunsAreFinite: linked jobnets must be nested without a cycle, as the loader builds them.
- JobList.Agent.Sweep: agent database updates succeed; with a failing one `JobList.Agent.AgentEnd` leaves the job RUN and still reports success, so that a sweep could turn on one node for as long as the failure lasts.
- AgentProtocol.NoLostWakeup: rows are withdrawn only while no live node has their jobid; `AgentProtocol.SoundRun` says when that is so and `AgentProtocol.UnsafeWithdrawal` what happens otherwise.
- AgentProtocol.StartsAtMostOnce: a child that reports its own failure does so after the RUN row is written; the code ensures it by a pause of one second.
- Job fields other than jobid, status, result and retries; file copy jobs, which insert CLOSE rows only.
- The pause of one second after every third node of a sweep.
- The Windows variant of the kill (src/jalibs/jakill.c:49-150), process groups, and processes that appear after the snapshot.
- ProcessKill.Kill: pids are distinct and not 0 in one listing, as the operating system gives them; the parsing of /proc and of the ps output is left out.
- Journal.LongIsLost: the loader reads a statement of 4096 or more characters past its buffer, which the language leaves undefined; the model ends the load there.
- Recovery.LossesAreInvisible: statements fit the buffer and begin with a non-blank, and the copy of a full backup is made; `Journal.FramingRoundTrip` and `Recovery.BackupExact` show what happens otherwise.
- Records with a negative length, a failing journal write, a second process writing between execution and journal, and the schema changes of src/jobarg_agent/jajobdb.c:79-160.
- VariableExpansion.ReplaceVariable: a name longer than the 4096-byte work buffer is refused like any name over 128; the code copies it before it checks.
- Utf8Filter.Filter: requires a buffer that holds the filtered value and its terminator; the source has a fixed one and does not check.
- Utf8Filter.FilterKeeps: on ill-formed bytes only `Utf8Filter.LongSequence` and the bound of `Utf8Filter.NeverOverruns` are stated.
- JobPath.GetJobId: select results are the first matching row; 64-bit parsing of ids is left out.
- SelfMonitor.Collector.Collect: the process types and their number are one list; shared memory and locks are left out.
- Wildcard matching (src/jalibs/jastr.c:196-213), number ranges, formatting of dates and times.
- Host and user lookups, schedules, sockets, telegrams, archives, launch of processes, passwords and reboot handling: library and system calls.
