# Argus, verified

Argus watches services and tells people when they fail. This project models the stateful cores of the daemon in
Dafny and proves what they keep over whole runs, under every interleaving, and across encoding and decoding.
`dafny verify dfyconfig.toml` checks everything.

## What is modelled

**Status propagation** (`Aggregate`, `Monel`, `MonitorGraph`, `Propagation`, `Elements`, `UpToDate`, `Quiescence`,
`Termination`, `Outcome`, `Recurrence`, `Startup`, `RealStatuses`, `Lagging`). A monitor is a class whose methods
recompute its status from its children, mask it by an override, count its subtree and name the parents to tell. The
propagation through the whole graph is a state machine: services report, overrides come and go, and an update of an
element begins, reads its children one at a time while other updates run, and commits; the objects take its steps.
Every element is always up to date or due for an update; updates end after an exactly known number of steps, without
deadlock, in every schedule; and then every element shows what a recursive function of the services' statuses and the
overrides dictates: over every run, however reports, overrides and updates overtake each other, the last word of each
service and of each override counts, and nothing else. Real statuses are included: they are exact unless a service
below is overridden, and then they may lag in severity, but never in class. An element's further parents count only
when they list it among their children, as they never do in the code as built, where they are aliases.

**Expressions** (`ExprParse`, `ExprTree`, `ExprRun`, `ExprTokens`, `ExprTable`, with `Blanks`). Tokenizer,
shunting-yard translator with the program's own table of precedences, and stack machine. Text to answer: any layout of
any way of writing a tree with at least the brackets the precedences require runs to the value of the tree.

**Graph files** (`Bytes`, `Cbuf`, `Graphd`, `GraphFile`, `GraphRead`, `GraphWindow`, `GraphMeaning`). A file of bytes
with a header, a ring of samples and two rings of summaries, written in place and read through a buffered reader that
goes round at the end of its section and survives short reads. What is read is the last 1024 samples, or summaries,
oldest first, or those of them that a request for what is later than some time comes to.

**Resolver** (`Resolver`). The worker's table of outstanding queries, retries, time-outs and publication, as a state
machine; every method, the main loop included, takes steps of it, and the results are about whole runs.

**Scheduler** (`Dispatching`, `Cutting`, `Scheduler`, `QueueOrder`). Buckets by due time and dispatch to three bounded
queues. The main loop, the workers that empty the queues and those who send tasks straight in or give them new times
and priorities are one state machine; the methods take its steps, with others acting between any two hand-overs.

**Notifications** (`Notify`, `NotifyQueues`). Escalation, resends and acknowledgement of one notification, with the
history of what was queued; and the rounds that deliver the queues.

**Holt-Winters** (`Hwab`, `HwabLearning`). Taking in a value, in exact reals: filling gaps in place, smoothing and
normalising at the turn of a period, and the three ways of learning.

**Statistics** (`Stats`), **configuration** (`Configure`), **override marks** (`Overrides`, and `AtOnce` for calls
that go down at once, a lock at a time), **clusters** (`Darp`) and the **line protocol** (`Encode`, `Protocol`).

Functions that a method is proved against are not left to speak for themselves: what they mean is stated apart,
without them, and with the program's numbers spelt out. So it is for the statuses that groups show and count
(`Quiescence.QuietShows`, `Quiescence.QuietCounts`), the table of operators (`ExprTable.Neighbours`,
`ExprTable.InTurn`), summaries and records (`GraphMeaning`), time up and down (`Stats.RunKeeps`), learning
(`HwabLearning`), queues (`QueueOrder`), and the choices that `Resolver`, `Notify`, `Configure`, `Darp` and `Encode`
make.

## Where the code and the obvious claim part

Each of these is a property one would expect and the code does not have. Each comes with the condition under which it
holds, and only under which it holds, and most with an input or a run on which it fails.

- A worse child does not always make a worse group: one that becomes known can improve it
  (`Aggregate.BecomingKnownCanImprove`). When it does, exactly, is `UpBecomingKnown` and `VoteBecomingKnown`; when no
  child becomes known or unknown, `AggrMonotone`.
- Updates do not end on every graph. An element with a further parent that has no other child is told again itself
  (`MonitorGraph.LoneParentTellsItself`). Updates end if and only if there is no such element at or above any that an
  update is due for (`Recurrence.EndsExactlyWhen`); otherwise no run comes to rest (`Recurrence.NeverQuiet`,
  `Recurrence.SharedGoesOn`). In the code as built the branch is dead: further parents are only ever aliases
  (src/argus/alias/alias.go:91), and nobody is added to an alias's children (src/argus/monel/monel.go:225-227).
- A group's real status can stay behind for good (`RealStatuses.SeverityCanLag`). On a tree it can if and only if some
  service below the group is overridden (`Lagging.LagsExactly`).
- On a graph that is not a tree the mark of an overridden ancestor can be wrong: `Overrides.TwoParentsGoWrong` is such
  a run. With one call at a time marks stay right over every run if and only if each monitor has at most one monitor
  above it that writes its mark last on the way down (`Overrides.RightExactlyWhen`). The code builds only trees
  (`Overrides.BuiltIsTree`).
- On a tree, calls that are under way at once can leave a wrong mark: each lets go of its locks between looking at a
  monitor and writing the marks below. Once all calls are over, the marks are right in every order of steps if and only
  if no monitor that may be overridden is, or is above or below, one from which an override may be removed, with
  something below both (`AtOnce.AtOnceExactly`; `AtOnce.ClashGoesWrong` builds the run). So setting alone is safe, and
  setting and removing anywhere is safe only where nothing is below anything (`AtOnce.SettingIsSafe`).
- The resolver notes the id of the second packet of a try over that of the first, and never the field meant for it
  (src/argus/resolv/resolv.go:232-248). So a request can be published while another of its packets is still waited for
  (`Resolver.BothFamilies`), if and only if it asks for both address families (`Resolver.EarlyExactly`).
- Dispatching forgets a task's bucket before it tries to hand it over (src/argus/sched/sched.go:420). Left to itself, a
  dispatch is cut if and only if more is due than the queues have room for (`Cutting.AloneExactly`). But it is not left
  to itself. Workers may be quick enough however much is due (`Cutting.WorkersSave`), tasks that others send straight in
  may fill the queues first (`Cutting.SentFirst`), and a task that is rescheduled may lose the priority that has a queue
  to itself (`Cutting.Demoted`). Over every course of events, with given tasks that others may send, a dispatch can be cut
  if and only if what is due and sent exceeds the room when everything that is not high goes to the work queue, and
  something due can go there, or, when only what is high is due, exceeds all the room and the high queue
  (`Cutting.CutExactly`); with nothing high that is: something is due, and it and what is sent exceed the room in the
  work queue (`Cutting.NoneHighExactly`). While what is due or sent keeps its priority, exactly if they exceed the room
  and some task due is among those that overflow (`Cutting.SteadyCutExactly`); exceeding alone is not enough, even with
  new priorities (`Cutting.ExceedingIsNotEnough`). A cut orphans exactly one task, over every run there are no more
  orphans than cuts (`Dispatching.OrphansOnlyByCuts`), and receiving a task after a cut puts one in two buckets if and
  only if it is the orphan and goes to another time (`Dispatching.TwiceExactly`; `Dispatching.CutThenTwice` is such a
  run).
- A due destination queue with nothing active in it ends the whole delivery round
  (src/argus/notify/queues.go:113-115), and other queues wait (`NotifyQueues.DeadBlocks`). In some order of visits a
  round ends early if and only if some due destination holds nothing active but what is acknowledged by its first
  delivery and due elsewhere too (`NotifyQueues.EndsEarlyExactlyWhen`). A queue with nothing active stays as it is, and
  due, and ends every later round, until something is queued for it (`NotifyQueues.StaleForGood`).
- A summary of an hour, or a day, is not always of one hour, or day: the code compares the hour of the clock and the day
  of the month. It spans two if and only if two samples in a row lie in different ones that look the same
  (`Graphd.SpansExactly`). For the hours of a clock that is not changed that means whole days apart, to the hour
  (`Graphd.HourSlips`); when clocks go back, two hours in a row look the same (`Graphd.ClocksBack`).
- A request for hours, or days, since some time is answered from the wrong end of a ring that is not full yet: places are
  counted back from the ring's last one, not from the last one used (src/argus/graph/graphd/graphd.go:399-400). As long
  as there are no more than 1024 less the hours asked for, the answer is empty (`GraphWindow.NothingYet`); it is all that
  is later if and only if nothing outside those last places is (`GraphWindow.SummariesSinceExactly`). Samples are counted
  from the right end, one a minute: the answer is all that is later if and only if nothing later lies further back
  (`GraphWindow.SamplesSinceExactly`). And a little further back than a full ring reaches, the newest come twice, once
  before all others (`GraphWindow.NewestTwice`).
- A day's statistics are not always that day's. An interval without any accounting is booked to the day it began on up
  to the last midnight, or all of it if the days of the month are the same (`Stats.WhereBooked`). The last midnight is
  taken to be now less the time on the clock. That is right if and only if the interval ends on the day it began on, or
  on the next, and the clock then shows the time that has passed of that, as it does unless it was changed
  (`Stats.BookedExactly`).

And two statements of the scheduler are idle: the loop that steps a time forward until it is not past never has anything
to do (`Scheduler.NextIsNext`, `Scheduler.Schedule.ReScheduleSamePrio`), and the `break` for being stopped
(src/argus/sched/sched.go:305) leaves the `select`, never the main loop (`Scheduler.Schedule.MainLoop`).

## Model

| member | source | states |
|---|---|---|
| Aggregate.CalcAggrStatus | src/argus/monel/transition.go:287-318 | the three searches over counters answer what the specification function `Aggr` answers |
| Aggregate.DnIsMaximum | src/argus/monel/transition.go:291-297 | gravity down picks the worst child, unknown when there is none |
| Aggregate.UpIsMinimumKnown | src/argus/monel/transition.go:299-305 | gravity up picks the best known child, clear when none is known |
| Aggregate.VoteIsLowerMedian | src/argus/monel/transition.go:306-315 | every other gravity picks the lower median of the known children, clear when none is known |
| Aggregate.AggrMonotone | src/argus/monel/transition.go:287-318 | when children only get worse and none becomes known or unknown, the aggregate does not improve |
| Aggregate.DnMonotone | src/argus/monel/transition.go:291-297 | under down the children may also become known |
| Aggregate.BecomingKnownCanImprove | src/argus/monel/transition.go:299-315 | a child that becomes clear makes a group with a critical child clear, under up and under voting |
| Aggregate.UpBecomingKnown | src/argus/monel/transition.go:299-305 | under up a child that becomes known improves the aggregate exactly when it is below it |
| Aggregate.VoteBecomingKnown | src/argus/monel/transition.go:306-315 | under voting, exactly when it is below it and completes a majority of better children |
| Aggregate.ClassesDecide | src/argus/monel/transition.go:287-318 | whether the aggregate is unknown, clear or failing depends only on which children are |
| Aggregate.AggrIsChosen | src/argus/monel/transition.go:287-318 | the aggregate is the greatest of the children, the least of the known ones, or one with no fewer than half of the known at most as bad and more than half at least as bad; told by comparing children, without counters |
| Darp.CalcAggrStatus | src/argus/darp/status.go:24-79 | least or greatest severity a voting host reports, or the first by which half of them have; clear if none; own status under self |
| Darp.VotersAre | src/argus/darp/status.go:30-41 | every host votes, but under the fifth gravity only those that are up |
| Darp.ReportsAre | src/argus/darp/status.go:30-41 | a host reports the severity last heard from it, and nothing if there is none |
| Darp.HalfMeans | src/argus/darp/status.go:65-76 | half of the voters is at least as many as the others |
| Monel.M.constructor | src/argus/monel/monel.go:132-151 | a new monitor is unknown, not overridden and silent |
| Monel.M.AddChild | src/argus/monel/monel.go:414-417 | children are appended |
| Monel.M.DetermineAggrStatus | src/argus/monel/transition.go:258-285 | real and shown status are the aggregates of the children's, or the own status without children |
| Monel.M.CheckOverride | src/argus/monel/transition.go:242-254 | an override masks what is failing, and only that |
| Monel.M.DetermineStatus | src/argus/monel/transition.go:230-240 | aggregate, then mask; what is failing under an override shows the override, service or group; everything else its own status, or what its gravity chooses from what its children show; tells whether the shown status changed |
| Monel.ShownIsRight | src/argus/monel/transition.go:230-285 | what is shown, said by comparing what the children show |
| Monel.M.DetermineSummary | src/argus/monel/transition.go:320-354 | status by status: one for a childless or stopping node, the number of children as overridden for an overridden one, else the sum of what the children count of that status |
| Monel.M.SumChildren | src/argus/monel/transition.go:340-353 | the loop over children and counters adds up their counts |
| Monel.SummaryTallies | src/argus/monel/transition.go:320-354 | that sum, each counter by itself |
| Monel.M.SetAlarm | src/argus/monel/transition.go:209-226 | the siren sounds for what is shown, from warning to critical, if configured for that or for all |
| Monel.SirenMeans | src/argus/monel/transition.go:209-226 | never for what is overridden, clear or unknown |
| Monel.M.AndUpwards | src/argus/monel/transition.go:110-134 | who is told |
| Monel.M.CommonUpdate | src/argus/monel/transition.go:66-83 | counts, alarm and who is told after a change |
| Monel.M.CommonUpdateNoChange | src/argus/monel/transition.go:85-93 | the same without a change |
| Monel.M.UpdateStatus | src/argus/monel/transition.go:30-41 | a reported status is taken over and masked unless it is the same |
| Monel.M.Update | src/argus/monel/transition.go:15-28 | the parents are told exactly when the shown status changes |
| Monel.M.ReUpdate | src/argus/monel/transition.go:43-60 | everything is recomputed and the parents are told in any case |
| MonitorGraph.TargetsAreParents | src/argus/monel/transition.go:110-134 | exactly the parents are told if and only if no further parent has an only child |
| MonitorGraph.LoneParentTellsItself | src/argus/monel/transition.go:114-120 | such a parent is skipped and the element is told itself |
| Propagation.AlikeDecides | src/argus/monel/transition.go:230-318 | children that agree in shown status and in class of real status give the same shown status and class |
| Elements.Report | src/argus/monel/transition.go:15-41 | a report to the object of a service takes the objects where the state machine goes, and tells the objects of those it tells |
| Elements.Recompute | src/argus/monel/transition.go:43-134 | so does an update of an object, as an update that reads all children at once |
| Elements.SameUpward | src/argus/monel/transition.go:110-134 | an object tells the objects of those its element tells |
| UpToDate.StepKeeps | src/argus/monel/transition.go:15-134 | every step of every interleaving keeps each element up to date, or due, or being updated on readings that still hold |
| UpToDate.RunKeeps | src/argus/monel/transition.go:15-134 | so does every run |
| UpToDate.SilentReports | src/argus/monel/transition.go:15-41 | a report goes untold exactly when it repeats the status or swaps one masked failure for another |
| UpToDate.StepExclusive | src/argus/monel/transition.go:43-60 | no two updates run on one element |
| UpToDate.CommitFreshens | src/argus/monel/transition.go:43-93 | a finished update leaves its element up to date unless another one is due |
| Quiescence.QuietIsIdeal | src/argus/monel/transition.go:230-354 | with nothing pending, shown status and counts of every element equal a recursive function of services and overrides, and its real status has the right class |
| Quiescence.QuietShows | src/argus/monel/transition.go:230-318 | with nothing pending, a failing element under an override shows the override; any other service its status, and any other group what its gravity chooses from what its children show |
| Quiescence.QuietTallies | src/argus/monel/transition.go:320-354 | and each entry of its counts is the sum of its children's, unless it is childless, stops the counting or is overridden |
| Quiescence.QuietCounts | src/argus/monel/transition.go:320-354 | so that it is the number of those counting below that show that status |
| Quiescence.SummaryTotal | src/argus/monel/transition.go:320-354 | an element's counts add up to its weight: one, the number of its children, or the weights of its children |
| Quiescence.QuietTotal | src/argus/monel/transition.go:320-354 | the stored counts do so once nothing is pending |
| Termination.StepWork | src/argus/monel/transition.go:43-134 | every step of an update lowers the work left by exactly one |
| Termination.CommitsCountDown | src/argus/monel/transition.go:110-134 | each commit lowers the number of upward paths outstanding by exactly one, and nothing else does |
| Termination.LowestRuns | src/argus/monel/transition.go:258-285 | the running update on the lowest element is not kept waiting for a lock |
| Termination.SomeStep | src/argus/monel/transition.go:43-134 | no deadlock: while an update is due or running some step can be taken |
| Termination.RunLength | src/argus/monel/transition.go:43-134 | a run is over exactly when it has taken as many steps as there was work, and none is longer |
| Termination.RunExists | src/argus/monel/transition.go:43-134 | some run gets to the end |
| Termination.EveryScheduleEndsIdeal | src/argus/monel/transition.go:15-354 | whatever the schedule, after that many steps every element shows what services and overrides dictated |
| Outcome.RunSays | src/argus/monel/transition.go:15-134 | over every run, updates change nothing that services and overrides have set |
| Outcome.LastReport | src/argus/monel/transition.go:15-41 | a service's status is what it reported last |
| Outcome.LastOverride | src/argus/monel/override.go:22-97 | an override is in place exactly if it was set since it was last removed |
| Outcome.LastWordCounts | src/argus/monel/transition.go:15-354 | over every run of reports, overrides and updates, however they overtake each other: at rest every element shows what the last reports and the overrides in place dictate |
| Recurrence.EndsExactlyWhen | src/argus/monel/transition.go:110-134 | there is a limit to how long updates go on if and only if no element at or above one that an update is due for has a further parent with an only child |
| Recurrence.NeverQuiet | src/argus/monel/transition.go:110-134 | otherwise no run of updates ever comes to rest |
| Recurrence.UncleanRun | src/argus/monel/transition.go:110-134 | and there are runs of any length |
| Recurrence.CleanRun | src/argus/monel/transition.go:110-134 | if so, no run of updates is longer than the work left |
| Recurrence.SharedGoesOn | src/argus/monel/transition.go:114-120 | a service below two groups that have no other child is a case of it |
| Startup.SettleAllDone | src/argus/monel/monel.go:323-345 | a pass that takes children first settles everything it visits |
| Startup.PostOrderChildFirst | src/argus/monel/monel.go:323-345 | the recursive pass takes children first |
| Startup.StartsUpToDate | src/argus/monel/monel.go:323-345 | after configuration nothing is pending and everything is up to date, so that the run results apply from the start |
| RealStatuses.StepExact | src/argus/monel/transition.go:15-134 | every step keeps real statuses exact, due, or excused by an overridden service among the children |
| RealStatuses.RunExact | src/argus/monel/transition.go:15-134 | so does every run |
| RealStatuses.QuietIsExact | src/argus/monel/transition.go:258-285 | with nothing pending, a real status is exactly what the services dictate unless a service below is overridden |
| RealStatuses.QuietReal | src/argus/monel/transition.go:258-285 | and it is chosen by the group's gravity from its children's, unless a service among them is overridden |
| RealStatuses.StartsExact | src/argus/monel/monel.go:323-345 | it is so after configuration |
| RealStatuses.SeverityCanLag | src/argus/monel/transition.go:15-28 | a run after which nothing is pending and a group has warning although its only service is critical |
| Lagging.LagsExactly | src/argus/monel/transition.go:15-41 | on a tree, some run from configuration to rest leaves an element with another real status than the services dictate if and only if it is a group over an overridden service |
| Lagging.GroupLags | src/argus/monel/transition.go:15-41 | for every group over an overridden service there is such a run |
| Lagging.WantedWorks | src/argus/monel/transition.go:287-318 | whatever the gravities on the way up, the other services can be such that one service decides the real status of all groups above it |
| ExprParse.OpsIsGood | src/argus/expr/expr.go:28-61 | the table is one that expressions can be translated by: binary operators bind less tightly than all others, and brackets are none |
| ExprTable.OpsAre | src/argus/expr/expr.go:28-61 | exactly which operators there are, and what each takes |
| ExprTable.Precedence | src/argus/expr/expr.go:55-60 | powers before products before quotients before remainders before sums and differences |
| ExprTable.Neighbours | src/argus/expr/expr.go:151-236 | of any two binary operators in a row, the one that comes first in that order goes first, and of equals the left one |
| ExprTable.FunctionFirst | src/argus/expr/expr.go:151-236 | functions and group operators go before all of them |
| ExprTable.InTurn | src/argus/expr/expr.go:151-284 | so the answer is that of the second operator, of the first one's answer and the remaining operand, each on its side |
| ExprTable.SymbolsAreOperators | src/argus/expr/expr.go:127-143 | the characters that are tokens by themselves are the brackets and the binary operators |
| ExprTable.ObjectsBeginWithTop | src/argus/expr/expr.go:302-310 | which names are monitored objects |
| ExprParse.Parse | src/argus/expr/expr.go:151-236 | the loop over operator and output stacks computes `Translate`, and collects the objects named |
| ExprParse.TranslateFails | src/argus/expr/expr.go:165-190 | translation fails exactly when some prefix closes more brackets than it opens |
| ExprParse.TranslatePermutes | src/argus/expr/expr.go:151-236 | the program holds each token as often as the input, but for one bracket pair for each closing one |
| ExprParse.TranslateKeepsOperands | src/argus/expr/expr.go:151-236 | operands keep their order |
| ExprTree.TranslateTree | src/argus/expr/expr.go:151-236 | a tree written with at least the brackets the precedences require is translated to its postfix form |
| ExprTree.RenderKeeps | src/argus/expr/expr.go:28-61 | every tree can be so written, with the brackets that precedences and left association require |
| ExprRun.ExprStack.constructor | src/argus/expr/expr.go:247-249 | the machine starts with an empty stack |
| ExprRun.ExprStack.Push | src/argus/expr/expr.go:286-288 | push |
| ExprRun.ExprStack.Pushf | src/argus/expr/expr.go:289-291 | a number is pushed as it is shown |
| ExprRun.ExprStack.Pop | src/argus/expr/expr.go:293-300 | pop, and "" from an empty stack |
| ExprRun.ExprStack.Popf | src/argus/expr/expr.go:302-328 | pop and resolve an operand |
| ExprRun.ExprStack.Fop | src/argus/expr/expr.go:259-281 | one operator takes its operands off the stack, right one first |
| ExprRun.RunExpr | src/argus/expr/expr.go:247-284 | the machine computes `Result` |
| ExprRun.RunTree | src/argus/expr/expr.go:247-284 | running a tree's postfix form pushes the tree's value, or fails |
| ExprRun.CompileThenRun | src/argus/expr/expr.go:151-284 | compile and run is direct evaluation, and fails exactly when that does |
| ExprRun.FailsExactly | src/argus/expr/expr.go:259-281 | evaluation fails exactly when an operand of some operator does |
| ExprRun.ResolveMeans | src/argus/expr/expr.go:302-328 | an object stands for its result, a variable for its value, all else for the number it is written as; a result may name a variable |
| ExprRun.TwoNumbers | src/argus/expr/expr.go:259-281 | of two numbers the one written first is the first operand |
| ExprRun.OneNumber | src/argus/expr/expr.go:259-281 | a function takes one number |
| ExprRun.OneGroup | src/argus/expr/expr.go:259-281 | a group operator takes a name |
| ExprRun.NoNumber | src/argus/expr/expr.go:259-281 | clock and random source take nothing |
| ExprTokens.Tokenize | src/argus/expr/expr.go:99-148 | the loop that shortens the text computes `Scan` |
| ExprTokens.Word | src/argus/expr/expr.go:127-145 | a word up to a delimiter, which goes with it unless it is a blank |
| ExprTokens.BlanksAre | src/argus/expr/expr.go:127-143 | blanks are space and tabulator |
| ExprTokens.ScanLayout | src/argus/expr/expr.go:99-148 | words, quoted and braced words and operators are recovered from every layout |
| ExprTokens.TokenizeLayout | src/argus/expr/expr.go:99-148 | with spaces around the text too |
| ExprTokens.TextToAnswer | src/argus/expr/expr.go:90-284 | from text to answer |
| Cbuf.File.constructor | src/argus/graph/graphd/graphd.go:442-457 | a file is opened at its start |
| Cbuf.File.Seek | src/argus/graph/graphd/graphd.go:472-474 | the position moves |
| Cbuf.File.Truncate | src/argus/graph/graphd/graphd.go:459-464 | a file made anew is empty |
| Cbuf.File.Write | src/argus/graph/graphd/graphd.go:507-510 | writing replaces the bytes from the position on |
| Cbuf.File.Read | src/argus/graph/graphd/cbufio.go:76-79 | any number of bytes from one up to what was asked for |
| Cbuf.Ask | src/argus/graph/graphd/cbufio.go:62-74 | what is asked for is positive, within the section, and does not cross a block boundary |
| Cbuf.AskMost | src/argus/graph/graphd/cbufio.go:62-74 | it is all up to the end of the section or a block boundary |
| Cbuf.SpotIsModulo | src/argus/graph/graphd/cbufio.go:81-86 | going round the section is adding modulo its size |
| Cbuf.CbufReader.constructor | src/argus/graph/graphd/cbufio.go:24-33 | a fresh reader has nothing buffered |
| Cbuf.CbufReader.Seek | src/argus/graph/graphd/cbufio.go:90-93 | the place moves; with nothing buffered the next byte is the one there |
| Cbuf.CbufReader.Read | src/argus/graph/graphd/cbufio.go:35-88 | byte k is the section's byte at start + k modulo its size, whatever the short reads; it stops early only at a byte the file lacks |
| Cbuf.CbufReader.Refill | src/argus/graph/graphd/cbufio.go:57-86 | reading into the empty buffer keeps the place |
| Cbuf.CbufReader.Deliver | src/argus/graph/graphd/cbufio.go:40-56 | handing over buffered bytes continues the delivery |
| Graphd.PeriodsPartition | src/argus/graph/graphd/graphd.go:172-185 | every sample belongs to exactly one period, of the hour comparison and of that of days |
| Graphd.SpansExactly | src/argus/graph/graphd/graphd.go:172-181 | some period spans two hours, or days, if and only if two samples in a row have different ones that the comparison takes for the same |
| Graphd.HourSlips | src/argus/graph/graphd/graphd.go:176-181 | for the hours of a clock that is not changed, in any zone: exactly when they are whole days apart, to the hour |
| Graphd.ClocksBack | src/argus/graph/graphd/graphd.go:176-181 | when clocks go back, samples of two hours in a row share a summary |
| Graphd.SummariesGrow | src/argus/graph/graphd/graphd.go:211-262 | a sample adds a summary exactly when it closes a period |
| Graphd.RunningGrows | src/argus/graph/graphd/graphd.go:191-273 | the running sums are those of the current period's samples |
| GraphMeaning.SummaryMeans | src/argus/graph/graphd/graphd.go:191-262 | the summary of a period that is over has the time of its last sample, the worst status of its samples, the means of value, expectation and spread, and the deviation |
| GraphMeaning.SummaryBounds | src/argus/graph/graphd/graphd.go:191-204 | for a comparison that is a strict order: its bounds bound the period's values and are among them; in the first period zero counts as one, too |
| GraphMeaning.NormalMeans | src/argus/graph/graphd/graphd.go:129-131 | what is unknown or depends on something is recorded as clear, all else as it is |
| GraphMeaning.RecordLayout | src/argus/graph/graphd/graphd.go:64-71 | where in a record the parts of a sample stand |
| GraphMeaning.SummaryLayout | src/argus/graph/graphd/graphd.go:72-82 | and those of a summary |
| GraphMeaning.SectionWord | src/argus/graph/graphd/graphd.go:40-53 | and those of a section of the header |
| GraphMeaning.HeaderLayout | src/argus/graph/graphd/graphd.go:55-62 | and the sections in the header |
| GraphMeaning.HighFirst | src/argus/graph/graphd/graphd.go:159-173 | numbers go with their highest byte first |
| GraphMeaning.Places | src/argus/graph/graphd/graphd.go:30-38 | and where in the file the records of the three rings stand |
| Graphd.RingAppends | src/argus/graph/graphd/graphd.go:155-173 | writing a record in the next slot makes the ring that of the longer history, with nothing in the slots not used yet |
| Graphd.RingElsewhere | src/argus/graph/graphd/graphd.go:155-173 | a write outside a ring leaves it alone |
| GraphFile.DecHeaderEncHeader | src/argus/graph/graphd/graphd.go:476-510 | the header read is the header written |
| GraphFile.HeaderSect.Add | src/argus/graph/graphd/graphd.go:191-209 | a sample joins a section: one more, status the worse of the two, bounds widened by it, sums added to |
| GraphFile.HeaderSect.Clear | src/argus/graph/graphd/graphd.go:264-273 | a section starts over |
| GraphFile.GraphData.AddRecord | src/argus/graph/graphd/graphd.go:159-173 | the record goes to its slot, and index and count move on |
| GraphFile.GraphData.Roll | src/argus/graph/graphd/graphd.go:221-237 | a section with samples writes its summary and starts over; an empty one does nothing |
| GraphFile.GraphData.Summarize | src/argus/graph/graphd/graphd.go:172-185 | hour and day roll when they change, then take the sample |
| GraphFile.GraphData.Add | src/argus/graph/graphd/graphd.go:155-187 | the file and the header are those of the history one sample longer |
| GraphFile.AddKeeps | src/argus/graph/graphd/graphd.go:155-187 | the three rings hold exactly the last 1024 samples and summaries of the history |
| GraphFile.UnitRolled | src/argus/graph/graphd/graphd.go:211-273 | rolling and gathering keeps a section what the history dictates |
| GraphFile.Save | src/argus/graph/graphd/graphd.go:507-510 | the header is stored and the rings are left alone |
| GraphFile.Open | src/argus/graph/graphd/graphd.go:442-487 | a file with the magic bytes opens as the history it stores, any other does not |
| GraphFile.Create | src/argus/graph/graphd/graphd.go:459-505 | a new file has no samples, and an old one is emptied |
| GraphFile.AddToFile | src/argus/graph/graphd/graphd.go:121-153 | one call turns the archive of a history into the archive of the history one longer; a file that is no graph file counts as empty |
| GraphRead.TimesRoundDown | src/argus/graph/graphd/graphd.go:516-521 | stored times come back rounded down to a multiple of four |
| GraphMeaning.ExportMeans | src/argus/graph/graphd/graphd.go:345-366 | a sample comes back as it was given, but for its time |
| GraphRead.ReadSlot | src/argus/graph/graphd/graphd.go:345-354 | reading a record through the circular reader yields the latest one in its slot, and nothing from a slot not used or the end of the file |
| GraphRead.ReadOn | src/argus/graph/graphd/graphd.go:344-372 | record by record, what is in the slots from one on, going round, that is later than some time, and every so many |
| GraphRead.SeenLast | src/argus/graph/graphd/graphd.go:309-312 | from the slot of the oldest of the last so many, those are what is in the slots |
| GraphRead.SeenRound | src/argus/graph/graphd/graphd.go:331-339 | more slots than there are give the newest first, and again after all others |
| GraphRead.SeenOpen | src/argus/graph/graphd/graphd.go:324-339 | in a ring not yet full, what was written from that slot on, and nothing else |
| GraphRead.StridedAt | src/argus/graph/graphd/graphd.go:354-372 | the selection has every stride's first record |
| GraphRead.WithinWidth | src/argus/graph/graphd/graphd.go:313-317 | it has no more points than the width asked for |
| GraphMeaning.StrideIsLeast | src/argus/graph/graphd/graphd.go:313-317 | no smaller stride leaves so few |
| GraphRead.FullRead | src/argus/graph/graphd/graphd.go:307-375 | without a width everything kept is returned |
| GraphWindow.FirstSlot | src/argus/graph/graphd/graphd.go:309-312 | reading starts at the oldest kept record |
| GraphWindow.GetSamples | src/argus/graph/graphd/graphd.go:307-375 | everything kept, oldest first, or what the window since some time comes to |
| GraphWindow.GetSummy | src/argus/graph/graphd/graphd.go:384-434 | the same for a ring of summaries |
| GraphWindow.GetHourSummy | src/argus/graph/graphd/graphd.go:377-379 | of the hours that are over: worst status, mean, bounds and deviation of each |
| GraphWindow.GetDaySummy | src/argus/graph/graphd/graphd.go:380-382 | of the days that are over |
| GraphMeaning.AnswerMeans | src/argus/graph/graphd/graphd.go:384-434 | whatever a request for hours or days is answered is the summary of one of the periods, with the worst status, the means and the bounds of its samples, and later than was asked |
| GraphMeaning.BackCovers | src/argus/graph/graphd/graphd.go:319-322 | a request reaches back by as many units as begin since then, and no more |
| GraphWindow.SamplesSinceExactly | src/argus/graph/graphd/graphd.go:319-353 | without a width, a request is answered by all kept samples later than a time exactly if none of them is further back than one a minute |
| GraphWindow.SummariesSinceExactly | src/argus/graph/graphd/graphd.go:396-414 | for summaries, without a width: once the ring is full that is so, too; before, exactly if none but those in the ring's last places is later |
| GraphWindow.NothingYet | src/argus/graph/graphd/graphd.go:396-402 | before, a request for few enough of them is answered by nothing |
| GraphWindow.NewestTwice | src/argus/graph/graphd/graphd.go:319-339 | without a width, a request a little further back than a full ring reaches is answered by the newest, and then by all |
| Resolver.NothingLost | src/argus/resolv/resolv.go:232-394 | over every run, a request for some family that nobody waits for any more has had its result published |
| Resolver.FewPackets | src/argus/resolv/resolv.go:232-259 | over every run, a request sends at most six packets |
| Resolver.ThreeTries | src/argus/resolv/resolv.go:339-364 | over every run, a query is waited for more than four seconds; then its request sends a packet for each family again, until it has done so three times, and after that is published |
| Resolver.TryMeans | src/argus/resolv/resolv.go:232-248 | what one try sends and notes, for each choice of families |
| Resolver.CollectMeans | src/argus/resolv/resolv.go:319-334 | a response adds its addresses to those known, each family's in order, and the first record ever seen says how long they are good for |
| Resolver.Learn | src/argus/resolv/resolv.go:319-334 | the loop over a response's records does so |
| Resolver.RunOk | src/argus/resolv/resolv.go:148-412 | every run keeps the table in order and every request going forward only |
| Resolver.NextOk | src/argus/resolv/resolv.go:212-394 | so does every step |
| Resolver.OneFamily | src/argus/resolv/resolv.go:232-394 | over every run, a request for one family waits for at most one id, the one it notes, and for none once published |
| Resolver.EarlyExactly | src/argus/resolv/resolv.go:232-394 | a request can be published while one of its packets is still waited for if and only if it asks for both families |
| Resolver.BothFamilies | src/argus/resolv/resolv.go:232-248 | a run of two steps in which it is |
| Resolver.Workstate.constructor | src/argus/resolv/resolv.go:163-170 | nothing is outstanding |
| Resolver.Workstate.Worker | src/argus/resolv/resolv.go:148-210 | one thing after another, none left out: a name is asked for under every suffix exactly when there is room for a query, a packet taken in exactly when it answers a query, and once a second what has waited too long is dealt with |
| Resolver.Workstate.Do | src/argus/resolv/resolv.go:177-209 | one of them |
| Resolver.WorkedRuns | src/argus/resolv/resolv.go:148-210 | all of it is a run |
| Resolver.Workstate.NextQid | src/argus/resolv/resolv.go:396-412 | an id that is not 0 and not outstanding |
| Resolver.Workstate.SendQuery | src/argus/resolv/resolv.go:250-259 | the id is outstanding for the request, noted and counted |
| Resolver.Workstate.SendQueryZone | src/argus/resolv/resolv.go:232-248 | one try: a packet for each family, under ids of its own, the second noted over the first |
| Resolver.Workstate.MakeQuery | src/argus/resolv/resolv.go:212-230 | a new request makes its first try |
| Resolver.Workstate.MakeQueries | src/argus/resolv/resolv.go:212-230 | a request for each search suffix, or for the name alone, in order |
| Resolver.Workstate.Done | src/argus/resolv/resolv.go:375-394 | what is known is published, for what was said, but a minute at least and two weeks at most, less anything below a tenth of it; for about two minutes if nothing is known |
| Resolver.Workstate.ProcessResult | src/argus/resolv/resolv.go:277-337 | a response counts only for the question its id stands for; it is a step of the run, publishes when the noted id was the one answered, and lowers the measure by one |
| Resolver.Workstate.TimeOut | src/argus/resolv/resolv.go:347-364 | retry or give up, as the step says |
| Resolver.Workstate.Retry | src/argus/resolv/resolv.go:356-358 | another try |
| Resolver.Workstate.GiveUp | src/argus/resolv/resolv.go:359-363 | what is known is published |
| Resolver.Workstate.Timeouts | src/argus/resolv/resolv.go:339-373 | a run in which only queries expire; what had timed out is dealt with and what had not stays, though the loop may visit what it adds |
| Resolver.Workstate.AddMax | src/argus/resolv/resolv.go:418-426 | the window moves a forty-first of the way, and stays between one and 256 |
| Scheduler.NextIsNext | src/argus/sched/sched.go:167-170 | the next time on a task's grid is in the future, and within one period, or two when the phase is still ahead |
| Scheduler.WhenIsNext | src/argus/sched/sched.go:156-177 | with a delay or without, the next time is in the future, never at the full hour, and no more than four seconds late |
| Scheduler.RatedEither | src/argus/sched/sched.go:133-151 | whatever it took so far, some times from now on give a task that is not high either of the other priorities |
| Scheduler.SmoothedMeans | src/argus/sched/sched.go:135-139 | the first time a task takes counts as it is, a later one a quarter |
| Scheduler.RatingMeans | src/argus/sched/sched.go:141-151 | express is what is known to take less than fifty milliseconds, unless it is high |
| Scheduler.Search | src/argus/sched/sched.go:370-372 | the first bucket not before a time |
| Scheduler.Schedule.constructor | src/argus/sched/sched.go:83-114 | nothing is scheduled or queued; which tasks are high, and their periods and phases, is settled |
| Scheduler.Schedule.Add | src/argus/sched/sched.go:365-392 | buckets stay strictly sorted, the task gains exactly one entry and points at it |
| Scheduler.Schedule.Del | src/argus/sched/sched.go:394-403 | the task loses exactly the entry it points at |
| Scheduler.Schedule.ReceiveOne | src/argus/sched/sched.go:307-313 | a received task leaves the bucket it points at and goes to that of its time: a step of the state machine |
| Scheduler.Schedule.SendWork | src/argus/sched/sched.go:188-217 | the first queue with room among its own and the lower ones, or none |
| Scheduler.Schedule.ASAP | src/argus/sched/sched.go:219-227 | a task is sent straight in, or handed to the main loop with a time; a step |
| Scheduler.Schedule.At | src/argus/sched/sched.go:106-116 | a task is handed to the main loop with a time; with 0, to be removed; a step |
| Scheduler.Schedule.ReScheduleSamePrio | src/argus/sched/sched.go:156-181 | a task gets its next time and is handed to the main loop; a step |
| Scheduler.Schedule.ReSchedule | src/argus/sched/sched.go:133-154 | what a task takes is smoothed and gives it its priority, unless it is high, and it gets its next time; a step |
| Scheduler.Schedule.Work | src/argus/sched/sched.go:328-347 | a worker takes the first task of its queue; a step |
| Scheduler.Schedule.Others | src/argus/sched/sched.go:133-347 | any number of such steps |
| Scheduler.Schedule.HandOver | src/argus/sched/sched.go:419-434 | one task due is queued and leaves its bucket, or is refused and points nowhere; a step |
| Scheduler.Schedule.DrainBucket | src/argus/sched/sched.go:419-434 | a bucket is emptied unless a task is refused, with others acting before each hand-over |
| Scheduler.Schedule.Dispatch | src/argus/sched/sched.go:405-438 | a dispatch from its beginning to its end, as the state machine has it, whatever others do meanwhile |
| Scheduler.Schedule.MainLoop | src/argus/sched/sched.go:296-325 | tasks received, dispatches and turns that being stopped ends, in competition with all others, are a run of the state machine |
| Dispatching.TakenOnce | src/argus/sched/sched.go:188-217 | a task is queued exactly once, or not at all when the lowest queue is full |
| QueueOrder.TakenHome | src/argus/sched/sched.go:188-217 | it goes to the end of the first queue with room from its own down, with room for ten or a thousand, and the other queues stay as they are |
| QueueOrder.FirstInFirstOut | src/argus/sched/sched.go:188-347 | over every run workers take the tasks of a queue in the order in which they were put there, and none is lost |
| QueueOrder.StandAtTheirTimes | src/argus/sched/sched.go:133-403 | over every run a task that is scheduled, and not waiting to be received, stands at the time it was last given |
| QueueOrder.ReceivedStands | src/argus/sched/sched.go:307-313 | a task received stands at its time and no longer where it stood, or nowhere if it is to be removed |
| QueueOrder.ReadyWaits | src/argus/sched/sched.go:106-181 | who asks for a task to run says when, and the main loop will receive it |
| Dispatching.RunGood | src/argus/sched/sched.go:296-347 | over every run queues keep their bounds, and where a task points it is scheduled |
| Dispatching.OrphansOnlyByCuts | src/argus/sched/sched.go:296-438 | over every run there are no more entries that their tasks do not point at than dispatches were cut |
| Dispatching.UncutNoneTwice | src/argus/sched/sched.go:296-438 | over every run from the start, no task is in two buckets unless a dispatch was cut |
| Dispatching.CutOrphans | src/argus/sched/sched.go:419-434 | a cut leaves exactly one such entry |
| Dispatching.TwiceExactly | src/argus/sched/sched.go:307-313 | after a cut no task is in two buckets yet, and receiving a task puts one in two exactly if it is the orphan and goes to another time |
| Dispatching.CutThenTwice | src/argus/sched/sched.go:296-438 | a run of four steps in which that happens |
| Dispatching.Conserved | src/argus/sched/sched.go:405-438 | while a dispatch is under way nothing is lost or made, whatever workers take and others send; only what is due goes, each entry once, in order of time |
| Cutting.DispatchConserves | src/argus/sched/sched.go:405-438 | the same for a whole dispatch; uncut, it leaves nothing due |
| Cutting.DispatchCut | src/argus/sched/sched.go:405-438 | a dispatch that is cut has met more than the room there was, counted as in `CutExactly`, and leaves one orphan; one that is not leaves none |
| Cutting.CutNeeds | src/argus/sched/sched.go:133-227 | the same of any moment of a dispatch at which a queue refuses a task, whatever workers take and whoever gets what priority |
| Cutting.CutExactly | src/argus/sched/sched.go:133-227 | with given tasks that others may send, some course of events cuts a dispatch if and only if they and what is due exceed the room with the priorities they may yet get, some task due among those that overflow |
| Cutting.OverflowExactly | src/argus/sched/sched.go:141-217 | that count says: with some of those priorities, what is due and sent exceeds the room and some task due is among those that overflow |
| Cutting.NoneHighExactly | src/argus/sched/sched.go:133-227 | with nothing high: if and only if something is due, and it and what is sent exceed the room in the work queue |
| Cutting.SteadyCutExactly | src/argus/sched/sched.go:188-227 | with what is due or sent keeping its priority: if and only if they exceed the room and some task due is among those that overflow |
| Cutting.AloneExactly | src/argus/sched/sched.go:405-438 | with no worker taking, nobody sending and what is due keeping its priority, a dispatch is cut exactly if more is due than there is room for |
| Cutting.WorkersSave | src/argus/sched/sched.go:328-347 | however much is due, and whatever has happened, some course of events with workers gets to the end |
| Cutting.SentFirst | src/argus/sched/sched.go:219-227 | one due task that fits, and one sent first: the dispatch can be cut |
| Cutting.Demoted | src/argus/sched/sched.go:141-151 | one due task with a queue to itself, and the work queue full: the dispatch can be cut if and only if the task may lose its priority |
| Cutting.ExceedingIsNotEnough | src/argus/sched/sched.go:188-217 | more than the room, but nothing can cut the dispatch: what is due has a queue of its own |
| Notify.InOrderOnceEach | src/argus/notify/queues.go:34-47 | steps are first queued in the order of the table, each once, none skipped |
| Notify.NeverEarly | src/argus/notify/queues.go:37-38 | no step is queued before its time |
| Notify.ResendsApart | src/argus/notify/queues.go:49-65 | two queueings of one step are a resend interval apart, and without resends there are not two |
| Notify.WholeRun | src/argus/notify/queues.go:23-66 | all of that over every run, that `escalated` says two steps went out, and which queues were reached |
| Notify.NothingLeftDue | src/argus/notify/queues.go:34-65 | a pass takes the next step exactly when its time has come, and leaves no taken step whose resend time has come |
| Notify.NothingAfterAck | src/argus/notify/ack.go:74-85 | nothing is queued after an acknowledgement |
| Notify.RunGood | src/argus/notify/queues.go:23-66 | over every run the fields say what the history says |
| Notify.N.constructor | src/argus/notify/new.go:15-55 | a new notification is active and has sent nothing |
| Notify.N.AddToQueue | src/argus/notify/queues.go:69-89 | every destination that can be reached gets it, in order, is marked and logged; the others are logged as failed |
| Notify.StepLinesMean | src/argus/notify/queues.go:69-89 | one line of the log for each destination, in order, saying whether it could be reached |
| Notify.DeliverableInOrder | src/argus/notify/queues.go:69-89 | those that can be reached keep their order |
| Notify.DeliverableAll | src/argus/notify/queues.go:69-89 | and are all, if all can |
| Notify.N.QueueNext | src/argus/notify/queues.go:34-47 | the first send, or the next escalation when due |
| Notify.N.Resend | src/argus/notify/queues.go:49-65 | every taken step whose resend is due |
| Notify.N.MaybeQueue | src/argus/notify/queues.go:23-66 | an active notification makes one pass, another none |
| Notify.N.Ack | src/argus/notify/ack.go:74-85 | it is inactive, and every destination is marked |
| Notify.N.MaybeAck | src/argus/notify/ack.go:23-55 | it is acknowledged exactly for the changes configured |
| Notify.AcksExactly | src/argus/notify/ack.go:23-55 | recovery, worsening and improvement, by the status it was for or for all; recovery also as the change it is; nothing without a change, and nothing above critical |
| Notify.N.MaybeAutoAck | src/argus/notify/ack.go:58-71 | and after delivery for the statuses configured |
| Notify.N.UpdateStatus | src/argus/notify/notify.go:159-169 | only an active notification learns the new status |
| Notify.N.Maintain | src/argus/notify/notify.go:304-310 | too old without an answer, or another pass |
| NotifyQueues.WholeRound | src/argus/notify/queues.go:91-140 | a whole round delivers to each destination that holds something, and has waited its time, exactly its live notifications, none more often than queued, and to no other |
| NotifyQueues.DeliveriesApart | src/argus/notify/queues.go:91-140 | over every run only rounds deliver, and two deliveries to one destination are at least its interval apart |
| NotifyQueues.LiveInOrder | src/argus/notify/queues.go:103-111 | what is active keeps its order |
| NotifyQueues.LiveAtMost | src/argus/notify/queues.go:103-111 | and is there no more often than it was queued |
| NotifyQueues.EndsEarlyExactlyWhen | src/argus/notify/queues.go:97-138 | some order of visits ends a round early if and only if some due destination holds nothing active but what is acknowledged by its first delivery and due elsewhere too |
| NotifyQueues.DeadEndsEvery | src/argus/notify/queues.go:113-115 | a due destination with nothing active ends the round in every order |
| NotifyQueues.DeadBlocks | src/argus/notify/queues.go:113-115 | it keeps a live destination from its turn |
| NotifyQueues.StaleForGood | src/argus/notify/queues.go:91-140 | whatever happens but queueing for it, a destination with nothing active stays as it is and due, and ends every later round early |
| NotifyQueues.Queues.Enqueue | src/argus/notify/queues.go:72-83 | a notification joins its destination's queue, made if need be |
| NotifyQueues.Queues.Activate | src/argus/notify/notify.go:262-269 | a new notification is active |
| NotifyQueues.Queues.Ack | src/argus/notify/ack.go:74-85 | an acknowledged one is not |
| NotifyQueues.Queues.Turn | src/argus/notify/queues.go:97-138 | one destination is skipped, or delivered what is active in it and emptied, or found dead |
| NotifyQueues.Queues.RunQueues | src/argus/notify/queues.go:91-140 | queues are delivered and emptied or left as they are; the round ends early exactly when the order of visits says so, and names the queue that ended it |
| Hwab.Idx | src/argus/service/hwab.go:472-474 | buckets are on a circle |
| Hwab.HWAB.CheckEnough | src/argus/service/hwab.go:454-461 | whether the first and the last bucket hold data |
| Hwab.HWAB.Interpolate | src/argus/service/hwab.go:366-393 | no bucket is left empty; each gap is the straight line between its ends, and its spread the sum of theirs |
| Hwab.HWAB.FillOne | src/argus/service/hwab.go:370-392 | one bucket of a gap, from what is left of it and the data to its right |
| Hwab.LineGoesOn | src/argus/service/hwab.go:375-389 | going on from a point of a line stays on the line |
| HwabLearning.LineEnds | src/argus/service/hwab.go:375-389 | a line goes from the one end to the other |
| HwabLearning.LineSteps | src/argus/service/hwab.go:375-389 | in equal steps |
| Hwab.HWAB.Smooth | src/argus/service/hwab.go:395-435 | every bucket is the weighted mean over its window |
| HwabLearning.SmoothedMeans | src/argus/service/hwab.go:395-435 | a bucket times the weights of its window is the sum of the window, a twentieth of the circle or two to each side, each bucket with data entering with the weight of its place |
| Hwab.SmoothStaysWithin | src/argus/service/hwab.go:395-435 | that stays within the range of the data in the window |
| Hwab.EmptyWindow | src/argus/service/hwab.go:414-428 | the window is empty exactly when no bucket in it holds data |
| Hwab.HWAB.Normalize | src/argus/service/hwab.go:437-452 | C sums to zero and no A + C[i] changes |
| Hwab.HWAB.TurnPeriod | src/argus/service/hwab.go:209-229 | gaps are filled, or everything starts over, after the first period; later ones begin with smoothing and centring |
| Hwab.FirstTurn | src/argus/service/hwab.go:215-222 | after the first period no bucket is left empty exactly when both ends hold data, and values stay in range |
| HwabLearning.TurnMeans | src/argus/service/hwab.go:209-229 | when a period turns, and what starts over: it is the first again, with nothing taken in |
| HwabLearning.GapMeans | src/argus/service/hwab.go:366-393 | a gap is filled on the line between its ends, with the sum of their spreads |
| Hwab.TurnedWithin | src/argus/service/hwab.go:224-227 | a later period begins with every bucket filled, A + C[i] in the range it had, and C summing to zero |
| Hwab.HWAB.constructor | src/argus/service/hwab.go:87-103 | a new series holds no data |
| Hwab.HWAB.Add | src/argus/service/hwab.go:209-243 | the turn of a period, and then learning by the period |
| Hwab.HWAB.Bootstrap1 | src/argus/service/hwab.go:246-277 | the first period: a bucket takes the mean |
| Hwab.HWAB.Bootstrap2 | src/argus/service/hwab.go:280-329 | the second: level and trend are estimated, and an empty bucket is patched |
| Hwab.HWAB.Hw | src/argus/service/hwab.go:332-363 | every later one: level, trend, season and spread move |
| HwabLearning.ByPeriod | src/argus/service/hwab.go:230-243 | which of the three is at work |
| HwabLearning.FirstLearns | src/argus/service/hwab.go:246-277 | in the first period: what is held, by how far the spread moves, and the forecast |
| HwabLearning.PatchedMeans | src/argus/service/hwab.go:288-299 | what stands in for an empty bucket |
| HwabLearning.SecondLearns | src/argus/service/hwab.go:280-329 | in the second: the level moves by a fraction of its error; level, trend and season add up to what was measured |
| HwabLearning.SecondTrend | src/argus/service/hwab.go:307-312 | the trend moves to the bucket's share of the difference, by less and less |
| HwabLearning.SecondSpread | src/argus/service/hwab.go:301-314 | the spread becomes the mean of what it was and what is seen |
| HwabLearning.LaterLearns | src/argus/service/hwab.go:332-363 | later: level, trend, season and spread each move by a fraction of an error |
| HwabLearning.AsForecast | src/argus/service/hwab.go:332-363 | what is exactly as forecast changes nothing but the level, which follows the trend |
| Hwab.RunKept | src/argus/service/hwab.go:209-452 | over every run from nothing on, values come from the data in the first period, and once that is over no bucket is ever empty again |
| Stats.RunKeeps | src/argus/monel/stats.go:67-190 | over every run, restarts included, each tier has 1 to 14 periods, elapsed is up plus down in each, and the tiers, with what they pushed out, have the same totals: up the time spent in clear or unknown, down that in any other status, and as falls how often it went from clear to failing |
| Stats.FirstStart | src/argus/monel/stats.go:67-92 | the first start is such a state, with nothing counted |
| Stats.SplitAtMidnight | src/argus/monel/stats.go:141-163 | on a new day the interval is split exactly at now less the time on the clock, in each tier whose period ended |
| Stats.WhereBooked | src/argus/monel/stats.go:141-178 | how much goes to the period in place and how much to a new one, in each tier, whatever the interval |
| Stats.BookedExactly | src/argus/monel/stats.go:141-163 | the day an interval began on is booked its own part exactly if it ends on that day, or on the next and the clock shows the time that has passed of that; and what is booked otherwise |
| Stats.RolledOverSum | src/argus/monel/stats.go:180-190 | a new period loses only what it pushes out |
| Stats.RolledIs | src/argus/monel/stats.go:180-190 | it starts from nothing, before the last thirteen there were |
| Stats.ResumedIsCurrent | src/argus/monel/stats.go:192-215 | after a start the periods in place are of this day, month and year, and those that were already go on |
| Stats.PresentKeeps | src/argus/monel/stats.go:141-163 | accounting for time adds it to each tier once, as up if it was spent in clear or unknown, as down otherwise |
| Stats.ChangedKeeps | src/argus/monel/stats.go:94-112 | a change of status does so, too, and counts one fall in each tier exactly if it goes from clear to failing |
| Stats.M.constructor | src/argus/monel/stats.go:67-92 | nothing is accounted for yet |
| Stats.M.Update | src/argus/monel/stats.go:114-139 | the current period of each tier grows by the time, up if the status was clear or unknown, down otherwise, and nothing else changes |
| Stats.M.RollOver | src/argus/monel/stats.go:165-190 | new periods start |
| Stats.M.UpdateMaybeRoll | src/argus/monel/stats.go:141-163 | the method does what `Books.Present` says |
| Stats.M.Transition | src/argus/monel/stats.go:94-112 | the method does what `Books.Changed` says |
| Stats.M.Init | src/argus/monel/stats.go:67-92 | the method does what `Books.Started` says |
| Stats.M.InitMaybeRoll | src/argus/monel/stats.go:192-215 | periods on file that are over are rolled |
| Configure.WalkIsInnermost | src/argus/configure/configure.go:181-200 | the walk finds the innermost declaration around a block, and nothing if there is none |
| Configure.OnlyWhereDeclared | src/argus/configure/configure.go:172-179 | a `name!` declared in one block changes nothing for other blocks, unless that very name is asked for |
| Configure.LocalFirst | src/argus/configure/configure.go:172-179 | a block's own `name!` comes before all else, and is found from nowhere but there |
| Configure.NamesAre | src/argus/configure/configure.go:47-91 | the names a field is looked up under, in order |
| Configure.Config.constructor | src/argus/configure/configure.go:36-45 | caches are empty and nothing is used |
| Configure.Config.IGet | src/argus/configure/configure.go:170-201 | with or without a cache the answer is that of the walk, and exactly what it came to is marked |
| Configure.Config.Get | src/argus/configure/configure.go:167-169 | the same for a block asked directly |
| Configure.Config.DrainCache | src/argus/configure/configure.go:203-205 | forgetting a cache changes nothing else |
| Configure.Config.InitFromConfig | src/argus/configure/configure.go:47-91 | every field is looked up, by severity first where it has several |
| Configure.Config.Session | src/argus/configure/configure.go:47-205 | over any sequence of fillings and drainings exactly what the lookups came to is marked |
| Configure.Config.CheckTypos | src/argus/configure/configure.go:207-216 | exactly the parameters not marked are reported |
| Overrides.UnderIsChain | src/argus/monel/override.go:100-117 | being under an override is being at the end of a chain from an overridden monitor |
| Overrides.DownRights | src/argus/monel/override.go:100-117 | with one closer for each monitor, going down puts every mark below right, and spoils none |
| Overrides.MarksAreRight | src/argus/monel/override.go:22-117 | then, after any changes, a monitor is marked exactly when one above it has an override |
| Overrides.RightExactlyWhen | src/argus/monel/override.go:22-117 | marks stay right over every run if and only if each monitor has at most one that writes its mark last |
| Overrides.ClosersGoWrong | src/argus/monel/override.go:100-117 | of two that do, overriding one and then the other for a while takes a mark that is still due |
| Overrides.BuiltIsTree | src/argus/monel/monel.go:221-227 | monitors as they are made form a tree, so their marks are always right |
| Overrides.TwoParentsGoWrong | src/argus/monel/override.go:100-117 | a run on a graph with two monitors above one |
| AtOnce.StaleWrite | src/argus/monel/override.go:100-117 | a call that saw nothing before an override was set takes the marks below it |
| AtOnce.ClashGoesWrong | src/argus/monel/override.go:22-117 | setting and removing at once, one above the other, has a run that leaves a wrong mark on a tree |
| AtOnce.RunGood | src/argus/monel/override.go:22-117 | without such a pair, over every order of steps: marks are due, what is below an override is marked or will be, and nothing due is taken |
| AtOnce.AtOnceExactly | src/argus/monel/override.go:22-117 | on a tree marks are right once all calls are over, in every order of steps, if and only if there is no such pair |
| AtOnce.SettingIsSafe | src/argus/monel/override.go:22-97 | setting alone is always safe; setting and removing everywhere only where nothing is below anything |
| Overrides.Monitors.constructor | src/argus/monel/monel.go:132-151 | no overrides, no marks |
| Overrides.Monitors.SetOverride | src/argus/monel/override.go:22-43 | the override is set, the recursion has run, and with one closer each the marks stay right |
| Overrides.Monitors.DelOverride | src/argus/monel/override.go:77-97 | the override is gone, the recursion has run, and with one closer each the marks stay right |
| Overrides.Monitors.OvPropDown | src/argus/monel/override.go:100-117 | the recursion does what `Down` says |
| Encode.Encode | src/argus/argus/encode.go:110-141 | two passes fill a buffer of just the size needed with the encoding |
| Encode.EncodedLength | src/argus/argus/encode.go:113-125 | the encoding is two bytes longer for each escape |
| Encode.DecodeEncode | src/argus/argus/encode.go:27-38 | URL decoding gives back what was encoded, for every byte string |
| Encode.EncodedApart | src/argus/argus/encode.go:14-29 | no two texts have one encoding, with any of the escapers |
| Encode.Harmless | src/argus/argus/encode.go:64-107 | an encoding holds nothing that needs escaping but the marker |
| Encode.TheEscapers | src/argus/argus/encode.go:64-107 | each escaper escapes its marker and leaves hexadecimal digits alone |
| Encode.UrlKeeps | src/argus/argus/encode.go:80-94 | exactly what is not escaped in an address |
| Encode.FileKeeps | src/argus/argus/encode.go:64-78 | in the name of a file |
| Encode.PunctKeeps | src/argus/argus/encode.go:96-107 | and where punctuation is |
| Encode.UnescapePlain | src/argus/argus/encode.go:31-38 | what holds no marker decodes to itself, with spaces for plus signs |
| Encode.UnescapeMarker | src/argus/argus/encode.go:31-38 | a marker with two hexadecimal digits decodes to their value, in either case; without them nothing decodes |
| Encode.UnescapeInFront | src/argus/argus/encode.go:31-38 | decoding goes piece by piece |
| Protocol.Context.Read | src/argus/api/server.go:211-255 | the loop over lines reads what `ReadRequest` says |
| Protocol.Context.ReadArguments | src/argus/api/server.go:233-253 | the loop over header lines |
| Protocol.Context.TakeArgument | src/argus/api/server.go:244-250 | one header line |
| Protocol.OnlyRequests | src/argus/api/server.go:211-229 | nothing else is taken for a request |
| Protocol.Spelling | src/argus/api/server.go:219-228 | what a request is spelt with |
| Protocol.LineAndRest | src/argus/api/server.go:211-255 | reading a line loses nothing of the input |
| Protocol.BlankIsSpace | src/argus/api/server.go:211-255 | a blank is a whole space character in UTF-8 |
| Protocol.Send | src/argus/api/client/client.go:78-87 | the request is sent with its arguments in some order, each once |
| Protocol.RequestRoundTrip | src/argus/api/server.go:211-255 | a request is read as it was meant, in whatever order its arguments were sent |
| Protocol.PairBack | src/argus/api/server.go:278-280 | a pair's line comes back as the name and the value |
| Protocol.AnswerRoundTrip | src/argus/api/client/client.go:106-136 | the pairs the daemon sends are the pairs the client finds |
| Protocol.Response.constructor | src/argus/api/client/client.go:106-113 | the lines of an answer, up to an empty one |
| Protocol.Response.Map | src/argus/api/client/client.go:118-136 | the pairs, the same each time |
| Protocol.PairsMean | src/argus/api/client/client.go:118-136 | of a name that comes more than once the last line counts |
| Protocol.PairsOnly | src/argus/api/client/client.go:118-136 | and there are no other names |

## Left out

- Aliases, `Depends` and the map of what is down: an alias reads its target's children directly, and a change of a
  dependency is not passed on (src/argus/monel/transition.go:133).
- Monel.M.DetermineStatus: without the check of dependencies, which is made here in the code.
- Monel.M.CommonUpdate: without notifications, statistics, logs and the map of what is down; the first two are
  `Notify` and `Stats`.
- Monel.M.CommonUpdateNoChange: without statistics and the map of what is down.
- Monel.M.UpdateStatus: without reasons and results, strings that decide nothing here.
- Monel.M.Update: without reasons, logs, statistics and notifications.
- Monel.M.ReUpdate: without reasons, logs, statistics and notifications.
- Propagation: an update's goroutine tells its parents one after another; the model lets them come in any order, which
  allows more schedules than the code has.
- Lagging.LagsExactly: for trees, which are what the code builds; `RealStatuses.QuietIsExact` is for every graph.
- ExprRun.ExprStack.Fop: number formatting, arithmetic and the group operators are parameters of the machine; so is that
  `tan` computes a sine (src/argus/expr/expr.go:50).
- Graph files: floats are 32-bit patterns and operations on them parameters; hour and day are parameters of the calendar.
- GraphFile.AddToFile: asks for counters that fit 32 bits; what a sample count does when it wraps is not modelled.
- GraphWindow.GetSamples: what a request gets that goes back so far that reading starts before the ring, or goes round a
  ring that is not full, is not said; the same of `GetSummy`, `GetHourSummy` and `GetDaySummy`.
- Graphd.HourSlips: for a clock that is not changed meanwhile; `SpansExactly` is for any.
- Resolver.Workstate.Worker: the socket, the pause after a query and the order in which ready channels are chosen are
  outside; what it is told is a parameter, and a query for the empty name is passed over.
- Resolver.Workstate.NextQid: answers any free id, not the one of the shift register.
- Resolver.Workstate.SendQuery: without the socket, the packet and the choice of a server; it also notes the id, which
  the code does in the caller.
- Resolver.Workstate.Done: without the cache behind the published results.
- Resolver.Workstate.ProcessResult: without decoding the packet and smoothing the delay.
- Resolver.Workstate.TimeOut: without smoothing the delay.
- Resolver.Workstate.Timeouts: without switching to another server.
- Darp.CalcAggrStatus: the five gravities only; for any other number the code answers unknown.
- Scheduler: what workers run, and their number; the clock and the random seconds are parameters.
- Scheduler.Schedule.SendWork: a send to a worker that waits is a send to its empty queue followed by its receiving, and
  the tries of one task at up to three queues are one step.
- Scheduler.Schedule.Add: a task's pointer to its bucket is the bucket's time, which is the same since times are
  unique.
- Notify.N.constructor: the message and the escalation table are given, not made from text.
- Notify.N.Ack: without saving; the map of active notifications is in `NotifyQueues`.
- Notify.N.Maintain: one notification at a time, and old ones are not discarded.
- Notify.NeverEarly: for a resend interval that is not negative; so are `ResendsApart` and `WholeRun`.
- NotifyQueues.Queues.RunQueues: delivering to one destination is one entry of `sent`, also where the code sends one by
  one; the marks on the notifications are in `Notify`.
- Holt-Winters: rounding, and gathering values over some minutes; the weights of the window and the square root are
  parameters.
- NotifyQueues.DeliveriesApart: for an interval that is not negative.
- Hwab.RunKept: for measured spreads that are not negative and a configured `gamma` between nothing and one, which the
  code does not check.
- Statistics: the calendar is a parameter; logs and export are not modelled.
- Configure.Config.InitFromConfig: converting values to field types is not modelled; names are taken as they come.
- Overrides.MarksAreRight: one call at a time; so are `RightExactlyWhen` and `BuiltIsTree`. Calls at once are in `AtOnce`.
- AtOnce.AtOnceExactly: for trees, which are what the code builds.
- Overrides.Monitors.SetOverride: without the update that follows, expiry and the map of overrides.
- Overrides.Monitors.DelOverride: without the update that follows and the map of overrides.
- Protocol: TLS.
- Protocol.Response.constructor: without the status line of an answer and its number.
- Probes, persistence, web pages, certificates and the remaining commands.
