# Verification of the Boruta allocation engine

Boruta lends devices of a farm to its users. A user files a request with a priority, a time from which it is
valid and a deadline; a device ("worker", driven by its Dryad) goes through the states MAINTENANCE, PREPARE,
IDLE, RUN, BUSY and FAIL; a matcher binds waiting requests to idle workers and creates jobs; timers end requests
whose deadlines pass and jobs that time out. This project models that engine in Dafny and proves what its parts
promise each other and its users.

    dafny verify dfyconfig.toml

checks everything.

## How the model is built

There are two layers.

* **The engine as it is built** (`engine.dfy`, `matchers.dfy`, `times.dfy`, `timesheap.dfy`, `prioqueue.dfy`, with the
  loops of `filter.dfy`, `listings.dfy`, `sorting.dfy` and `sorters.dfy`): classes with the fields of the source, whose methods update them
  in place, in the source's order of statements and with its early returns. Requests, workers and jobs call each
  other as the source does, through the change listener too.
* **The engine as a value** (`workerprotocol.dfy`, `timers.dfy`, `queue.dfy`, `system.dfy`): one datatype
  for the whole state and one function for every operation and event. Every method of the first layer ensures that
  the state it leaves is the one which the function gives, so whatever is proved of the functions holds of the
  classes.

On the second layer a *run* is any sequence of calls, timer events and steps of background goroutines
(`System.Exec`). The theorems are about every state of every run:

* `protocolinvariant.dfy`, `protocoltheorems.dfy`: the worker list against its goroutines. A goroutine receives a
  state, looks at its channel, takes an action (address, connection, key, installation, storing), looks again, and
  commits under the mutex; all these are separate steps, and between them anything may happen: other calls,
  failure, deregistration, a new registration of the same worker, steps of other goroutines. Network answers
  and drawn keys are arbitrary.
* `invariants.dfy`, `preservation.dfy`: the invariants that tie requests, queue, jobs, workers and timers together,
  and that every operation keeps them.
* `matching.dfy`, `scheduling.dfy`: which worker and which request the matcher chooses, that it comes to an end,
  and what it leaves behind.
* `expiry.dfy`: what a fire of each of the timers does.
* `runs.dfy`, `lifecycle.dfy`: the theorems about whole runs.
* `workeroutcomes.dfy`, `outcomes.dfy`: what each call, event and step of a goroutine answers and does, with all states,
  bounds, addresses and refusals written out, so that the functions of the second layer can be read against them.
* `allocation.dfy`, `operations.dfy`: over whole runs, where jobs and addresses come from, that nothing due is left to
  itself, and what a goroutine has done before it sets a state.
* `pagecontents.dfy`: which items are on a page and in which order, by the name of the item that a caller passes.
* `histories.dfy`, `wakeups.dfy`, `latestore.dfy`, `nameless.dfy`: runs that lead to states which one would not wish for, and what
  avoids them.
* `sorting.dfy`, `sorters.dfy`, `listings.dfy`, `walks.dfy`: orders of listing, pages, and walks through the pages.
* `calls.dfy`, `attempts.dfy`: what the components rely on when they call one another.

A panic of the source (removing a request that is not queued, pushing with a wrong priority, a job whose request
is not known, a send on a closed channel, the dereference of a missing key) is a flag of the state, and that
it is never raised is part of the invariant. Errors of the source are values of `Boruta.Error`.

## What was found

* **An update can lose a wake-up.** If a request has been ready and its deadline then passes, an update that moves
  the deadline into the future makes the request ready again, but puts nothing into the heap that wakes the matcher;
  the request waits until something else does. `WakeUps.AWakeUpIsLost` gives a run, and
  `WakeUps.UpdateIsSafeUnlessReviving` states, over all runs, exactly which updates do this; without them no wake-up
  is ever lost (`Runs.NoLostWakeUp`).
* **A stored key may be stale.** A Dryad holds one key, whichever goroutine installs it, and the list stores one under
  a UUID, whichever goroutine asks for it; neither looks whether the worker has been registered anew.
  `LateStores.StoredKeyMayBeStale` gives a run in which the goroutine of an earlier registration stores its key last,
  `LateStores.InstalledKeyMayBeReplaced` runs in which it installs its key last, with or without an answer, or only
  gets as far as removing the other one; an idle worker is left with a key that its Dryad does not accept.
  `Runs.StepKeepsKeys` says exactly which steps of the engine make keys differ; no call and no fire does. In a run
  without such a step, and always for a worker never deregistered, the stored key is that on the Dryad
  (`Runs.StoredKeyIsInstalled`) and so is the key in the access data (`Runs.AccessIsGranted`).
* **A worker with an empty UUID looks like no cursor** (workers/workers.go:322-327, workers/workers.go:368). Without a
  cursor it is listed even if it does not match, and a forward page starts at it, wherever it stands, so that workers
  before it are not shown; a page that ends on it is followed by one that starts at it. `Listings.PageIsPromised` says
  exactly when a page is right, `Walks.ForwardWalkIsComplete` and `Walks.BackwardWalkIsComplete` when a walk through
  all pages is; `Nameless.FirstWorkerIsSkipped` gives a run after which a forward page leaves out the first of two
  workers. Such a worker can also be taken for a request whose requirements it does not meet;
  `Matching.NamelessWorkersEvadeRequirements` states that nothing else can.
* **The time of validity may come after the deadline.** For a new request it is not compared with the default
  deadline, and for an update only if it is given anew: `Preservation.NewRequestTimeRange` and
  `Preservation.UpdateTimeRange` state exactly when it is in order.
* **In descending order a worker is less than itself** (`Sorters.WorkerLessOnItself`). Between different workers the
  comparison is a strict total order, so listings are not affected.
* **An update to the priority that a request already has** moves it to the end of its list, if another field changes:
  `Lifecycle.UpdateMoves` states exactly when an update moves a request, `Lifecycle.SamePriorityMayMove` gives a run.
* **Giving a worker back for want of a tunnel blocks the matcher.** It makes the listener insert into the heap of
  validity, whose mutex is held by the processing of the fire that has called the matcher (requests/times.go:89,
  requests/times.go:105-107, requests/times.go:117): the goroutine waits for itself, with the mutexes of workers and
  requests held. Locks are not part of the model, in which the matcher goes on; `Scheduling.MatcherLocksTwice` says
  exactly when this point is reached, and with tunnels at hand it never is (`Scheduling.TunnelsAvoidLockingTwice`).

## Model

| member | source | states |
|---|---|---|
| ProtocolInvariant.RoutineKeeps | workers/workers.go:528-685 | every step of a background goroutine, whatever the network answers, keeps: the last message on a worker's channel, or else its goroutine, is at the worker's state; idle and running workers have a key and nothing queued or running that would change it; channels of listed workers are open |
| ProtocolInvariant.CommitKeeps | workers/workers.go:534-548 | the critical section that ends an operation keeps the same |
| ProtocolInvariant.ActKeeps | workers/workers.go:552-585 | the network actions and the storing of the key keep it, also for a goroutine of an earlier registration |
| ProtocolInvariant.RegisterKeeps | workers/workers.go:156-193 | registration, first or repeated, keeps it |
| ProtocolInvariant.DeregisterKeeps | workers/workers.go:266-279 | deregistration keeps it: the closed channel is no worker's channel any more |
| ProtocolInvariant.CallsKeep | workers/workers.go:199-263 | failure, change of state, change of groups, giving back and taking keep it |
| ProtocolInvariant.OpenIsCurrent | workers/workers.go:180-191 | an open channel is the one of the current registration of its worker, and is at that worker's state |
| ProtocolTheorems.NoStaleOverwrite | workers/workers.go:528-549 | a goroutine changes at most the state of its own current registration, with nothing newer on the channel, and only PREPARE to IDLE or FAIL, BUSY to MAINTENANCE or FAIL |
| ProtocolTheorems.StaleGoroutineIsHarmless | workers/workers.go:266-279 | a goroutine of a deregistered worker changes no worker's state and tells the listener nothing, even if the worker has come back |
| ProtocolTheorems.KeysAgreeUnlessSpoiled | workers/workers.go:552-585 | a step of a goroutine makes the stored key of a worker and the key on its Dryad differ if and only if it is one of an earlier registration that stores another key while the worker is idle or running or its own goroutine has stored already, or that installs another key, or removes the one there is, while the worker is idle or running or its own goroutine has installed already |
| ProtocolTheorems.CallsKeepKeys | workers/workers.go:199-263 | failure, change of state, change of groups, giving back and taking make no worker's key and its Dryad's differ |
| ProtocolTheorems.RegisterKeepsKeys | workers/workers.go:156-193 | nor does registration, first or repeated |
| ProtocolTheorems.DeregisterKeepsKeys | workers/workers.go:266-279 | nor does deregistration |
| ProtocolTheorems.GoroutineSettles | workers/workers.go:668-688 | each step of a goroutine shortens what is left for it to do and leaves the other registrations alone: every background operation ends |
| ProtocolTheorems.SettledWorkerIsDecided | workers/workers.go:668-688 | when its goroutine rests a worker is neither PREPARE nor BUSY |
| ProtocolTheorems.RoutinesAreAnnounced | workers/workers.go:503-523 | the listener hears of every worker that becomes idle by a goroutine, and no worker stops running by one |
| ProtocolTheorems.RegisterIsAnnounced | workers/workers.go:156-179 | a repeated registration that breaks a running worker tells the listener so |
| LateStores.StoredKeyMayBeStale | workers/workers.go:416-427 | a run after which an idle worker's stored key is not the one on its Dryad, since an earlier goroutine has stored last |
| LateStores.InstalledKeyMayBeReplaced | dryad/rusalka.go:64-84 | runs after which it is not, since an earlier goroutine has installed last, whether it got an answer or not, or has only removed the key |
| Timers.DrainIsExact | requests/times.go:98-102 | processing a fire pops exactly the entries before its time, with their multiplicities |
| Timers.DrainIsInOrder | requests/times.go:98-102 | they are popped by time, then by request |
| Timers.InsertKeepsArmed | requests/times.go:116-128 | after an insertion a non-empty heap still has its timer set for its earliest time, or a fire to be received |
| RequestQueue.RemoveFirstIsExact | requests/queue.go:74-84 | removing takes out one request and no other |
| RequestQueue.RemoveFirstAscends | requests/queue.go:74-84 | removing keeps the order of the others |
| RequestQueue.LengthsUpdate | requests/queue.go:74-107 | changing one list changes the count of all by the difference of its lengths |
| RequestQueue.LengthsIsFlat | requests/queue.go:37-49 | the count is the number of requests in serving order |
| Invariants.LeaveKeepsQueue | requests/queue.go:74-92 | a request that stops waiting is found in the list of its priority, so removal never panics, and the queue stays exactly the waiting requests |
| Invariants.EnterKeepsQueue | requests/queue.go:96-107 | a request that starts waiting is queued exactly once |
| Invariants.StartKeepsJobs | matcher/jobs.go:69-105 | a new job and its request name each other, and no other request names the worker |
| Invariants.EndKeepsJobs | matcher/jobs.go:127-142 | ending a job leaves jobs and requests in progress one to one |
| Preservation.FailKeeps | requests/requests.go:540-563 | a running worker that breaks has a job, whose request is in progress and becomes FAILED; nothing else changes and the invariants hold |
| Preservation.NewRequestKeeps | requests/requests.go:85-133 | a new request keeps the invariants: the next ID, the right list, entries in both heaps |
| Preservation.EndIs | requests/requests.go:139-148 | ending a request in progress finds its job and its running worker, and sends exactly that worker to PREPARE |
| Preservation.CloseRequestKeeps | requests/requests.go:155-172 | cancelling or closing keeps the invariants |
| Preservation.UpdateKeeps | requests/requests.go:185-256 | updates keep the invariants |
| Preservation.NewRequestTimeRange | requests/requests.go:99-119 | an accepted new request is valid before its deadline if and only if the deadline was given or the default one is not before the time of validity |
| Preservation.NewRequestMayNeverBeValid | requests/requests.go:103-114 | a time of validity later than the default deadline is accepted |
| Preservation.UpdateTimeRange | requests/requests.go:218-255 | after an accepted update a request is valid before its deadline if and only if the update changed something and gave a time of validity, or the one there was is not after the deadline there is then, whatever held before |
| Preservation.ProlongKeeps | requests/requests.go:387-406 | prolonging keeps the invariants: the new timeout is in its heap |
| Matching.BestIsFound | workers/workers.go:446-471 | a worker is found if and only if one is idle and listed with a score below the greatest 32-bit integer, and it is the only best one; what the score and the order of workers are is said by the next two |
| Outcomes.ChosenIsLeast | workers/workers.go:446-471 | the worker taken is idle and has a requested group, if any is requested, and each requested capability with its value, or has an empty UUID; of all such workers it has the fewest capabilities and groups together, below 0x7FFFFFFF, and of those with as few the first UUID |
| Outcomes.NoneIsChosen | workers/workers.go:446-471 | no worker is taken if and only if every such worker has capabilities and groups in a number of 0x7FFFFFFF or more |
| Matching.BestSatisfiesRequirements | workers/workers.go:446-471 | a taken worker with a UUID was idle and satisfies groups and capabilities |
| Matching.NamelessWorkersEvadeRequirements | workers/workers.go:364-373 | every taken worker satisfies the requirements, whatever they are, if and only if no idle worker has an empty UUID |
| Matching.MatchIs | matcher/validmatcher.go:99-123 | an attempt fails for want of a worker or of a tunnel only; starting a request after its job was created cannot fail; after a failure workers, jobs and requests are as before |
| Matching.TakeAndReturn | workers/workers.go:482-497 | taking an idle worker and giving it back without preparation restores all workers and tells the listener of the idle one |
| Scheduling.PassIsGreedy | matcher/validmatcher.go:63-94 | a pass serves the first request in queue order that is ready, has an idle matching worker and gets a tunnel, on the best worker; a pass that serves none has nothing left to serve or, having given a worker back, has woken the matcher again. In the source a pass that gives a worker back does not return |
| Scheduling.OnePassLeavesNothing | matcher/validmatcher.go:63-94 | with tunnels at hand, a pass without a match changes nothing and no ready request has an idle matching worker |
| Scheduling.ServedIsRemoved | matcher/validmatcher.go:52-59 | a pass that matches makes the queue shorter by one, so repetition ends |
| Scheduling.MatchAllIsMaximal | matcher/validmatcher.go:52-59 | when the matcher stops, the invariants hold, requests have only been started, and no ready request could be served by an idle worker unless a worker was given back and the matcher will run again; with tunnels, none at all. In the source it does not return once it has given a worker back |
| Scheduling.PassLocksTwice | matcher/validmatcher.go:107-121 | a pass calls back into the timer that called it if and only if it comes to a ready request with an idle matching worker and no tunnel before it comes to one with a tunnel |
| Scheduling.MatcherLocksTwice | requests/times.go:88-128 | the matcher does so if and only if one of its passes does |
| Scheduling.TunnelsAvoidLockingTwice | requests/times.go:88-128 | with tunnels at hand it never does |
| Expiry.TimeoutAllIs | matcher/deadlinematcher.go:50-54 | of the named requests exactly those that wait and are past their deadlines are timed out |
| Expiry.CloseAllIs | matcher/timeoutmatcher.go:46-50 | of the named requests exactly those in progress and past their timeouts are ended; no worker becomes idle by it |
| Expiry.FireDeadlineIs | requests/times.go:88-113 | a fire times out a request if and only if it waits, is past its deadline and an entry of it was popped; then no request waits with a deadline before the fire; stale entries change nothing |
| Expiry.FireTimeoutIs | requests/times.go:88-113 | the same for jobs and their timeouts |
| Expiry.FireValidIs | requests/times.go:88-113 | after a fire of the timer of validity the invariants hold and nothing that could be served is left without another fire to come; in the source the fire is not ended if a worker is given back |
| Runs.StepKeeps | requests/requests.go:32-73 | every call, event and goroutine step keeps all invariants |
| Runs.NoDoubleAllocation | matcher/jobs.go:69-142 | in every state of every run: a worker is running if and only if it has a job, if and only if a request in progress names it; job and request name each other; no two requests share a worker; no panic has happened; access data is given exactly for requests in progress |
| Runs.QueueIsExact | requests/queue.go:37-119 | in every state the queue holds exactly the waiting requests, each once, in the list of its priority; IDs are 1, 2, ... without gap or reuse |
| Runs.LatestStateWins | workers/workers.go:503-549 | in every state a listed worker has an open channel of its own, whose last message or goroutine is at its state; PREPARE and BUSY workers have a step to come; idle and running ones have a key, which is the one on the Dryad unless the worker was deregistered before |
| Runs.TimersAreArmed | requests/times.go:88-128 | in every state each non-empty heap has its timer set for exactly its earliest time, or a fire to be received |
| Runs.ExpiryIsScheduled | requests/requests.go:387-406 | in every state a waiting request has an entry at its current deadline and one in progress at its current timeout, and a fire comes no later |
| Runs.StepKeepsKeys | workers/workers.go:552-585 | if stored keys, those on the Dryads and those handed out agree, they do so after a step of the engine if and only if it is not a store or an installation by a goroutine of an earlier registration that spoils a key |
| Runs.KeysAgreeInRuns | workers/workers.go:552-585 | in every run without such a step they agree |
| Runs.StoredKeyIsInstalled | workers/workers.go:430-438 | in every state an idle or running worker has a key, which is the one on its Dryad if no step of the run has spoiled one or the worker was never deregistered |
| Runs.AccessIsGranted | requests/requests.go:366-382 | in every state the access data of a request hold the key on the Dryad of its worker, under the same condition |
| Runs.NoLostWakeUp | requests/requests.go:535-537 | in every run without a reviving update, if a ready request could be served by an idle worker then the timer that wakes the matcher has fired or is due |
| WakeUps.UpdateIsSafeUnlessReviving | requests/requests.go:185-256 | an update can lose no wake-up, whatever run has led to it, if and only if it does not move a passed deadline of a waiting, already valid request into the future without giving a time of validity; for every request that can be filed |
| WakeUps.AWakeUpIsLost | requests/requests.go:229-255 | a run, with no such update before its last step, after which a ready request and an idle worker wait for each other and nothing is to wake the matcher |
| WakeUps.RevivedIsStranded | requests/requests.go:229-255 | any such update of the only waiting request, with all wake-ups spent, leaves it so |
| Lifecycle.StepEvolves | requests/requests.go:139-172 | each step lets requests go only from WAIT to CANCEL, TIMEOUT or INPROGRESS and from INPROGRESS to DONE or FAILED; finished ones never change; IDs, groups and capabilities stay |
| Lifecycle.LifeOfRequests | requests/requests.go:461-563 | so it is between any two consecutive states of any run, and no request disappears |
| Lifecycle.FirstInFirstOut | requests/queue.go:96-116 | in every state, within a priority the requests that no update has moved stand in the order of their creation |
| Lifecycle.UpdateMoves | requests/requests.go:205-256 | an update moves its request if and only if it is accepted, changes something, gives a priority, and the request is not the last one of that priority already |
| Lifecycle.SamePriorityMayMove | requests/requests.go:218-246 | a run in which an update to the priority it has puts the first request behind the second |
| Lexicographic.FirstDifferenceDecides | workers/sorter.go:72-84 | a string is less if and only if it has the lesser character at the first difference, or is a proper prefix |
| Lexicographic.StringTrichotomy | workers/sorter.go:72-84 | of two strings exactly one is less, or they are equal |
| Lexicographic.StringTransitive | workers/sorter.go:72-84 | the order of strings is transitive |
| Filter.Contains | filter/filter.go:61-88 | the searches in the fields of a filter find exactly their elements |
| Filter.IsCapsMatching | filter/filter.go:152-168 | the loop answers whether the worker has every required capability with the required value |
| Filter.IsGroupsMatching | filter/filter.go:172-182 | the loop answers whether the worker is in one of the groups, if there are any |
| Filter.MatchWorker | filter/filter.go:191-207 | both conditions hold |
| Filter.MatchRequest | filter/filter.go:98-117 | every field of the filter that is enabled names the request's value |
| Filter.SortedStringsIsSorting | workers/workers.go:258-259 | the groups of a worker are stored in ascending order, none added and none lost |
| TimesHeaps.StepUp | requests/timesheap.go:64-66 | a step of sifting up moves the only possible fault of the heap order to the parent |
| TimesHeaps.StepDown | requests/timesheap.go:58-60 | a step of sifting down moves it to the lesser child |
| TimesHeaps.RootIsMin | requests/timesheap.go:48-54 | the first element of an ordered heap is its least entry |
| TimesHeaps.TimesHeap.Min | requests/timesheap.go:48-54 | gives the least entry |
| TimesHeaps.TimesHeap.Push | requests/timesheapcontainer.go:46-63 | adds the entry, keeps the others and the order |
| TimesHeaps.TimesHeap.Pop | requests/timesheapcontainer.go:46-77 | takes out the least entry, keeps the others and the order |
| RequestTimes.LeftIs | requests/times.go:98-102 | what the popping loop leaves is everything but what it pops |
| RequestTimes.RequestTimes.Insert | requests/times.go:116-128 | adds the entry and sets the timer anew if nothing earlier waits |
| RequestTimes.RequestTimes.Pop | requests/times.go:92-102 | returns the requests of the popped entries in order and leaves the others |
| RequestTimes.RequestTimes.Rest | requests/times.go:109-112 | sets the timer for the earliest entry, if any |
| PrioQueues.PrioQueue.Remove | requests/queue.go:74-92 | takes the request out of the list of its priority and keeps the count |
| PrioQueues.PrioQueue.Push | requests/queue.go:96-107 | adds the request at the end of its list and keeps the count |
| PrioQueues.PrioQueue.SetRequestPriority | requests/queue.go:111-116 | moves the request to the end of its new list |
| PrioQueues.PrioQueue.InitIterator | requests/queue.go:122-153 | what the iterator has to return is all lists from the highest priority on, first in first out |
| PrioQueues.PrioQueue.Next | requests/queue.go:129-152 | returns the first of what remains and leaves the rest; says that there is none if and only if nothing remains |
| PrioQueues.PrioQueue.ReleaseIterator | requests/queue.go:156-159 | ends the iteration and gives the queue free |
| Sorting.ListingIsUnique | requests/requests.go:323-325 | a set has one sorted listing |
| Sorting.Sort | requests/requests.go:323-325 | that listing is computed |
| Sorting.CursorDoesNotMatter | requests/requests.go:314-320 | adding the cursor to the list, whether it matches or not, does not change what is beyond it, and changes the length by one exactly if it does not match |
| Sorting.FirstPageIsFromStart | workers/workers.go:322-331 | a page that starts where the search for the cursor ends is the first page if and only if the search finds nothing or the first element |
| Sorting.Cut | workers/workers.go:314-348 | the index arithmetic never leaves the list and gives the items nearest to the cursor beyond it, the number of matching items, and how many matching items remain; without a cursor, forward, the page starts where the search for the cursor ends |
| Sorting.EffectiveLimit | requests/requests.go:297-299 | the limit in force is between 1 and the greatest one: the given one if that is, and else the greatest |
| Sorting.NextPage | requests/requests.go:342-355 | from any cursor, matching or not: while items remain a page is not empty and the next one starts where it ends |
| Sorting.WalkSeesAll | requests/requests.go:275-280 | following pages from any cursor, matching or not, in either direction ends and shows all that is beyond it, in order and once |
| Sorting.WalkIsListing | requests/requests.go:275-280 | without a cursor that is the whole sorted list |
| PageContents.RequestSorterIsFound | requests/sorter.go:38-58 | exactly six names, in small or capital letters, and missing sort information are accepted |
| PageContents.RequestsAreSorted | requests/sorter.go:72-130 | the items of a page of requests ascend, or descend, by ID, priority, deadline, time of validity or written state, as the caller's text names it, and by ID where that is the same |
| PageContents.RequestPageIs | requests/requests.go:282-361 | for every filter, name in any case, direction, cursor and limit: the page holds exactly the requests asked for that are nearest beyond the cursor in that order, as many as the limit allows, and tells how many there are and how many remain |
| PageContents.WorkerSorterIsFound | workers/sorter.go:37-58 | exactly four names, in small or capital letters, and missing sort information are accepted |
| PageContents.WorkerPageIs | workers/workers.go:290-349 | the same for workers, by UUID, written state or first differing group, ties broken by UUID; a forward page without a cursor is the worker with an empty UUID, if there is one, and the page beyond it |
| Sorters.RequestLessIsTotal | requests/sorter.go:72-130 | of two requests with different IDs exactly one is less, and the descending order is the reverse |
| Sorters.RequestLessIsTransitive | requests/sorter.go:72-130 | the comparison of requests is transitive for every item |
| Sorters.RequestsAreOrdered | requests/sorter.go:72-130 | every sorter orders requests strictly and totally |
| Sorters.CompareGroups | workers/sorter.go:94-128 | the scan through two lists of groups decides by the first difference, then by length, then by UUID |
| Sorters.WorkerLessIsTotal | workers/sorter.go:72-128 | of two workers with different UUIDs exactly one is less, and the descending order is the reverse |
| Sorters.WorkerLessOnItself | workers/sorter.go:72-128 | compared with itself a worker is less if and only if the order is descending |
| Sorters.WorkersAreOrdered | workers/sorter.go:72-128 | every sorter orders workers strictly and totally |
| Sorters.DescendingRequests | requests/sorter.go:38-130 | the descending list of requests is the ascending one reversed |
| Sorters.DescendingWorkers | workers/sorter.go:37-128 | the descending list of workers is the ascending one reversed |
| WorkerOutcomes.FirstRegistration | workers/workers.go:181-192 | a first registration stores exactly the given capabilities, Dryad address and SSH address; the worker is in MAINTENANCE, without groups and key, with a goroutine of its own; no other worker changes |
| WorkerOutcomes.RepeatedRegistration | workers/workers.go:161-180 | a repeated one stores the new ones and keeps groups and key; the worker goes BUSY if a port or the capabilities differ, else from FAIL to PREPARE, else stays as it is; its goroutine is told of a change; no other worker changes |
| WorkerOutcomes.RegistrationWithoutUuid | workers/workers.go:124-129 | refused with a missing UUID if and only if the capabilities hold none; then nothing changes |
| WorkerOutcomes.SetFailOutcome | workers/workers.go:199-211 | for each state of the worker whether the failure is stored, and whether a run breaks |
| WorkerOutcomes.SetStateOutcome | workers/workers.go:217-247 | for each requested state and each state of the worker: the refusal, the silent acceptance, or the new state and who is told |
| WorkerOutcomes.SetGroupsOutcome | workers/workers.go:250-263 | the worker's groups are a sorted permutation of the given ones, nothing else changes, and the listener hears of it if the worker is idle |
| WorkerOutcomes.DeregisterOutcome | workers/workers.go:266-279 | in MAINTENANCE or FAIL the worker leaves the list and its channel is closed; otherwise refused |
| WorkerOutcomes.PrepareWorkerOutcome | workers/workers.go:482-497 | only a running worker is given back: to PREPARE, or to IDLE with a call of the listener |
| WorkerOutcomes.ReceiveOutcome | workers/workers.go:668-688 | a waiting goroutine takes the first message and starts a preparation for PREPARE, a maintenance for BUSY and nothing for others; it ends on an empty closed channel |
| WorkerOutcomes.CheckOutcome | workers/workers.go:647-659 | a look at the channel takes up its last message, or goes on: to the end after six actions of a preparation, three of a maintenance, or a failure |
| WorkerOutcomes.PreparationStep | workers/workers.go:553-585 | what each of the six actions changes, and when it counts as failed |
| WorkerOutcomes.MaintenanceStep | workers/workers.go:615-638 | the same for the three actions of a maintenance, the third of which is the order to the Dryad |
| WorkerOutcomes.CommitOutcome | workers/workers.go:528-610 | with nothing pending the worker gets FAIL if the last action failed, and otherwise IDLE after a preparation and MAINTENANCE after a maintenance; with something pending the last message is taken up |
| Operations.ActionWasTaken | workers/workers.go:528-638 | in every run, a goroutine that is beyond an action of an operation has taken it with success, and has not been interrupted since |
| Operations.MaintenanceWasOrdered | workers/workers.go:587-638 | in every run, a worker that a goroutine brings to MAINTENANCE has had its Dryad's order answered with success by that goroutine, in that operation |
| Operations.PreparationWasAnswered | workers/workers.go:528-585 | in every run, one that it brings to IDLE has had the installation of a key answered with success in the same way |
| Operations.UndisturbedMaintenance | workers/workers.go:587-638 | a maintenance that nothing disturbs ends in MAINTENANCE, and changes nothing else |
| Operations.UndisturbedPreparation | workers/workers.go:528-585 | a preparation that nothing disturbs ends in IDLE with the drawn key on the Dryad and in the list, and changes nothing else |
| Outcomes.NewRequestAnswer | requests/requests.go:85-114 | a new request is accepted if and only if its priority is 1 to 16 and its deadline, if given, is neither past nor before the time of validity; which refusal comes first |
| Outcomes.NewRequestOutcome | requests/requests.go:94-133 | an accepted request waits under the next ID with the given values and the defaults, is last in its list, and has one more entry in each of both heaps; nothing else changes |
| Outcomes.CloseRequestOutcome | requests/requests.go:155-172 | an unknown request is not found; a waiting one is cancelled and leaves its list; one in progress is DONE, its job gone and exactly its worker in PREPARE; any other is refused; nothing else changes |
| Outcomes.TimeoutOutcome | requests/requests.go:461-474 | a waiting request at or past its deadline gets TIMEOUT and leaves its list; any other is refused |
| Outcomes.CloseOutcome | requests/requests.go:479-502 | a request in progress at or past its timeout is DONE, its job gone and exactly its worker in PREPARE; any other is refused |
| Outcomes.FailureOutcome | requests/requests.go:540-563 | the request of a broken worker's job is FAILED and the job is gone; nothing else changes |
| Outcomes.ListenerOutcome | workers/workers.go:511-520 | the whole effect of a change of the worker list on the engine: nothing, a wake-up at the current time, or the failure of the request of the job |
| Outcomes.UpdateAnswer | requests/requests.go:185-243 | exactly when an update is accepted and which refusal comes first |
| Outcomes.UpdateOutcome | requests/requests.go:205-256 | what is given replaces what there was, a given priority moves the request to the end of the list of it, and which entries are added to the heaps; nothing else changes |
| Outcomes.ProlongOutcome | requests/requests.go:387-406 | the timeout of a request in progress becomes one hour from now, in the request and in the heap; others are refused |
| Outcomes.AcquireOutcome | requests/requests.go:366-382 | access data are given exactly for requests in progress: the job of the worker that the request names, which serves this request |
| Outcomes.RunOutcome | requests/requests.go:506-532 | a waiting request is in progress on the worker for one hour and out of its list; others are refused |
| Outcomes.CreateOutcome | matcher/jobs.go:69-105 | the job has the request, the worker's SSH address and its stored key; which refusal comes first |
| Outcomes.FinishOutcome | matcher/jobs.go:127-142 | the job is gone; the worker goes to PREPARE if asked, and otherwise stays |
| Outcomes.AttemptOutcome | matcher/validmatcher.go:99-123 | the whole effect of an attempt: nothing, or the job with address, key and timeout, the request in progress and out of its list and the worker RUN, or all workers as before and a wake-up at the current time |
| Allocation.WorkersAreAsRegistered | workers/workers.go:156-193 | in every state of every run a listed worker has the capabilities and both addresses of its last registration |
| Allocation.JobsAreAllocated | matcher/validmatcher.go:63-123 | in every run each job was given in one fire of the timer of validity, at the start of which its worker was idle, had what the request asks for or an empty UUID, and had the address and key of the job, and the request waited; and the request was valid and before its deadline at a moment of the fire |
| Allocation.AccessIsAsRegistered | requests/requests.go:366-382 | in every run the address in the access data of a request is an SSH address that the worker of the request has registered |
| Allocation.FireServesAll | matcher/validmatcher.go:52-123 | with tunnels at hand, after a fire no waiting, valid request before its deadline is left to an idle worker that has what it asks for |
| Allocation.MeetingIsFired | requests/requests.go:535-537 | in every run without a reviving update, while there is such a request and such a worker, the timer of validity is due or has fired |
| Engine.WorkerList.Inform | workers/workers.go:511-520 | the listener is told of an idle worker and of a broken run |
| Engine.WorkerList.SetStateRaw | workers/workers.go:503-523 | message, listener, state: the new state of the whole engine |
| Engine.WorkerList.PrepareWorker | workers/workers.go:482-497 | a running worker, and no other, goes to PREPARE or straight to IDLE |
| Engine.WorkerList.Register | workers/workers.go:156-193 | new, repeated and changed registrations, with their errors: does to the whole engine what `WorkerOutcomes` says of them |
| Engine.WorkerList.SetFail | workers/workers.go:199-211 | failure, ignored during maintenance |
| Engine.WorkerList.SetState | workers/workers.go:217-247 | the changes of state an administrator may order, with their errors |
| Engine.WorkerList.SetGroups | workers/workers.go:250-263 | sorted groups, and a wake-up if the worker is idle |
| Engine.WorkerList.Deregister | workers/workers.go:266-279 | only in MAINTENANCE or FAIL; closes the channel |
| Engine.WorkerList.ListMatching | workers/workers.go:355-379 | the sorted list of exactly the workers that match or are named, and are idle if asked |
| Engine.WorkerList.ListWorkers | workers/workers.go:290-349 | unknown cursor, wrong sort item, or the page that the source cuts |
| Listings.PageIsPromised | workers/workers.go:322-349 | that page consists of the matching workers nearest to the cursor if and only if there is a cursor, or no worker has an empty UUID, or the one that has matches and, for a forward page, is first in the list |
| Nameless.FirstWorkerIsSkipped | workers/workers.go:322-337 | a run in which two workers register, after which a forward page without a cursor leaves out the first of them |
| Listings.NamelessIsShownAgain | workers/workers.go:322-337 | the page that follows one ending on a worker with an empty UUID starts at that worker |
| Walks.WorkerWalkSeesAll | workers/workers.go:290-349 | if every worker has a UUID, following pages of workers from any cursor in either direction ends and shows exactly the matching workers beyond it, in order and once |
| Walks.NamedWalkSeesAll | workers/workers.go:290-349 | so it does from a worker with a UUID if those beyond it have UUIDs |
| Walks.ForwardWalkIsComplete | workers/workers.go:322-337 | forward from no cursor, the pages of workers together are exactly the matching workers in order if and only if no worker has an empty UUID, or the one that has matches and comes first, and pages hold more than one or there is no other |
| Walks.BackwardWalkIsComplete | workers/workers.go:322-349 | backward from no cursor, they are if and only if no worker has an empty UUID, or the one that has matches and is first or at a distance from the end that is no multiple of the limit, or it does not match and is not on the first page |
| Engine.WorkerList.TakeBestMatchingWorker | workers/workers.go:446-471 | sets the best candidate running, which is the one of `Outcomes.ChosenIsLeast`, and nothing else; fails if and only if there is none |
| Listings.LeastScore | workers/workers.go:448-468 | the scan keeps the first worker with the fewest capabilities and groups together, if they are fewer than the greatest 32-bit integer |
| Engine.WorkerList.CheckPendingOperation | workers/workers.go:647-659 | empties the channel; reports the last message, or that it is closed |
| Engine.WorkerList.Receive | workers/workers.go:671-684 | takes one message, or ends on a closed empty channel |
| Engine.WorkerList.Check | workers/workers.go:552-585 | a look at the channel: go on, or take up the last message, or end |
| Engine.WorkerList.SetWorkerKey | workers/workers.go:416-427 | stores the key under the UUID and nothing else |
| Engine.WorkerList.Act | workers/workers.go:552-638 | one action of an operation |
| Engine.WorkerList.Commit | workers/workers.go:528-549 | the end of an operation: does to the whole engine what `WorkerOutcomes.CommitOutcome` says |
| Engine.WorkerList.BackgroundStep | workers/workers.go:668-688 | a step of the loop, wherever it is, does to the engine what the protocol says |
| Engine.JobsManager.Create | matcher/jobs.go:69-105 | existing job, unknown worker, failed tunnel, or a job with the worker's address and key |
| Engine.JobsManager.Finish | matcher/jobs.go:127-142 | deletes the job and prepares the worker if asked |
| Engine.ReqsCollection.constructor | requests/requests.go:48-73 | starts the engine in the initial state of every run |
| Engine.ReqsCollection.OnWorkerIdle | requests/requests.go:535-537 | wakes the matcher at once |
| Engine.ReqsCollection.OnWorkerFail | requests/requests.go:540-563 | fails the request of the worker's job, if there is one |
| Engine.ReqsCollection.NewRequest | requests/requests.go:85-133 | the checks in their order, the defaults, the new ID and the new state |
| Engine.ReqsCollection.EndRequest | requests/requests.go:139-148 | DONE, the job finished, the worker to be prepared |
| Engine.ReqsCollection.CloseRequest | requests/requests.go:155-172 | cancels, ends or refuses, as `Outcomes.CloseRequestOutcome` says |
| Engine.ReqsCollection.UpdateInPlace | requests/requests.go:205-256 | the checks in their order, the new values and the entries to be inserted |
| Engine.ReqsCollection.UpdateRequest | requests/requests.go:185-202 | the whole update |
| Engine.ReqsCollection.ProlongAccess | requests/requests.go:387-406 | one more hour for a request in progress |
| Engine.ReqsCollection.AcquireWorker | requests/requests.go:366-382 | unknown request, none in progress, or the job of a request in progress, which there always is |
| Engine.ReqsCollection.Timeout | requests/requests.go:461-474 | times out a waiting request whose deadline has come |
| Engine.ReqsCollection.Close | requests/requests.go:479-502 | ends a request in progress whose timeout has come |
| Engine.ReqsCollection.Run | requests/requests.go:506-532 | starts a waiting request on the worker, out of the queue and with a timeout |
| Engine.ReqsCollection.Select | requests/requests.go:314-321 | exactly the requests that match or are named |
| Engine.ReqsCollection.ListRequests | requests/requests.go:282-361 | wrong sort item, unknown cursor, or the promised page, whose contents are stated by `PageContents.RequestPageIs` |
| Walks.RequestWalkSeesAll | requests/requests.go:282-361 | following pages of requests by ID, from any request or none, in either direction ends and shows exactly the matching requests beyond it, in order and once |
| Walks.RequestWalkIsComplete | requests/requests.go:282-361 | from none, that is the whole sorted list |
| Engine.ReqsCollection.InitIteration | requests/requests.go:410-419 | refused during an iteration; otherwise the whole queue is to be visited |
| Engine.ReqsCollection.TerminateIteration | requests/requests.go:424-430 | ends an iteration, if there is one |
| Engine.ReqsCollection.Next | requests/requests.go:435-440 | the next request of the iteration |
| Engine.ReqsCollection.VerifyIfReady | requests/requests.go:444-447 | waiting, before its deadline and valid |
| Matchers.ValidMatcher.MatchWorkers | matcher/validmatcher.go:99-123 | take, create, run, and give back on failure |
| Matchers.ValidMatcher.IterateRequests | matcher/validmatcher.go:63-94 | a pass over the queue in its order, until a match |
| Matchers.ValidMatcher.Notify | matcher/validmatcher.go:52-59 | passes until one does not match; the timer that has called is called in turn if and only if a pass gives a worker back, and unless that happens the source comes to the end likewise |
| Matchers.DeadlineMatcher.Notify | matcher/deadlinematcher.go:50-54 | tries to time out each request in turn |
| Matchers.TimeoutMatcher.Notify | matcher/timeoutmatcher.go:46-50 | tries to close each request in turn |
| Matchers.ProcessValid | requests/times.go:88-113 | pops, matches, sets the timer: the invariants hold afterwards, unless a worker is given back, after which the source does not go on |
| Matchers.ProcessDeadline | requests/times.go:88-113 | pops, times out, sets the timer |
| Matchers.ProcessTimeout | requests/times.go:88-113 | pops, closes, sets the timer |

## Left out

- Locks and deadlocks: a step is an operation between two points at which no mutex is held, so calls of the listener belong to the step that makes them; the opposite orders in which workers and requests are locked are not judged.
- A whole pass of the matcher is one step, and so is a fire of a timer: calls that arrive meanwhile come before or after it. The clock may advance between passes but stands still within one.
- Engine.ReqsCollection.NewRequest: the queue and the two heaps are filled in one step, although the source leaves its critical section between them.
- Engine.ReqsCollection.UpdateRequest: likewise, request, queue and heaps are changed in one step.
- Matchers.ProcessValid: goes on after a worker has been given back, where the source waits for a mutex that it holds itself; when that happens is stated by `Scheduling.MatcherLocksTwice`.
- Matchers.ValidMatcher.Notify: the same.
- Expiry.FireValidIs: the same.
- Scheduling.PassIsGreedy: the same.
- Scheduling.MatchAllIsMaximal: the same.
- WakeUps.UpdateIsSafeUnlessReviving: the clock starts at 1, and the request is one that is filed then; at that very instant nothing can have been forgotten yet.
- Channel capacity (32): the channel is not bounded, so that every run of the bounded one is among those considered; that a sender may have to wait is not modelled.
- Strings are sequences of Unicode characters and compared by them, which for valid UTF-8 is the source's order of bytes; others are not modelled.
- Engine.JobsManager.Create: a job records the worker's address instead of the tunnel's that leads to it, since tunnels are not modelled.
- Engine.WorkerList.Register: addresses are resolved, with a port; the errors for those that are not are left out. Only a change of ports, not of the IP address, is noticed, as in the source.
- Runs.StoredKeyIsInstalled: a UUID stands for one Dryad, at whatever address it is called; the Dryad prepares itself in one step, not later than the answer, and never loses its key otherwise. Preparations that overlap on a Dryad, or go on there after the caller has given up, are not modelled.
- Runs.AccessIsGranted: the same.
- Allocation.AccessIsAsRegistered: the address is the one to which the tunnel leads, since tunnels are not modelled; it may be that of an earlier registration, if the worker has registered anew while its job ran.
- Contents of keys, tunnels and remote calls: a key is a number that a step of a goroutine draws; tunnels and calls succeed or fail as the step says.
- PrioQueues.PrioQueue.Next: specified as long as the priority, a byte, has not grown to 255, which calls repeated after the end could make it do.
- Widths of integers: IDs do not wrap around at 64 bits, nor does the length of the queue; 32-bit limits of scores are modelled.
- Sorting.Sort: the library's sorting is represented by an insertion sort; what matters is that the sorted list of a set is unique.
- The library's heap is written out, over a sequence that is a field; it is not the library's own code.
- The default deadline, one month ahead, is a parameter, since calendars are not modelled; time zones and monotonic readings are not either.
- The runtime's timer is represented by the time it is set for and by at most one fire not yet received; a fire carries the time at which it was sent.
- Sorters.RequestLessIsTotal: names of sort items are folded to lower case for ASCII letters only.
- A worker list without a change listener, and a collection without matchers: the engine is always complete.
- Requests and workers are stored in maps as values; that the source's maps hold references, which may be shared, is not modelled.
- Finish, the stopping of timer goroutines, and the lists' text formats: they would only add easy members.
- HTTP server and client, RPC stubs, tunnels, Dryad's own code and configuration.
