# Exeggutor, modelled and verified

Exeggutor schedules applications on a Mesos cluster. Submitted applications wait in a
priority queue until an offer fits; launched tasks are tracked in a store, health-checked
on a timer, and kept within the minimum and maximum of their SLA.

| file | what it models |
|---|---|
| `HeapSpec.dfy` | the operations of Go's `container/heap` as functions on keys, and what they achieve for every strict weak order |
| `IndexedHeap.dfy` | the slice of elements that know their own position, changed in place |
| `TaskQueue.dfy`, `TaskQueueRuns.dfy` | the task queue and its histories |
| `HealthQueue.dfy` | the timed queue of health checks |
| `HealthPipeline.dfy`, `HealthRuns.dfy`, `HealthResults.dfy` | the health checker's loops and calls as a concurrent protocol over shared memory, its runs, and what becomes of results |
| `HealthChecker.dfy` | the health checker's register and queue on real objects, refining the protocol |
| `FormatBits.dfy`, `Utf8.dfy`, `JsonString.dfy` | the JSON printers for numbers and strings |
| `Builders.dfy`, `Messages.dfy` | fitting offers, reserving ports, building task messages |
| `TaskStore.dfy`, `Sla.dfy` | the store of deployments and the SLA monitor |
| `Deployments.dfy`, `DeploymentRuns.dfy` | the deployment state machine and its runs |
| `ServiceOrder.dfy`, `DeploymentScenarios.dfy` | which application an offer goes to, and runs in which promises fail |
| `OverlappingCalls.dfy`, `OverlappingMinimum.dfy`, `OverlappingChecks.dfy` | the same calls access by access, interleaved: what of the SLA and of the health checks survives |
| `TaskManager.dfy` | the task manager's methods, refining the state machine |
| `Converters.dfy` | applications to manifests and back |
| `Protocol.dfy` | the records exchanged |

Three layers recur. Methods that change state in place are proved equal to functions on
values; the functions are proved correct by lemmas; lemmas about runs lift that to every
history. Random choices, clocks, the answer of the guard in `FulfillOffer`, whether a check
is enabled, and the result of a health check are inputs and hence arbitrary.

The task manager, the SLA monitor and the stores hold no lock. `Deployments` and
`DeploymentRuns` assume that calls of the task manager do not overlap; the `Overlapping`
modules drop that assumption and split every call into its accesses to the task store and
the queue. A single access (one lookup, one write, one traversal that counts, one operation
of a queue, which does hold a lock) is one step.

## Where the code and its promises differ

- `FulfillOffer` says it serves the biggest and oldest application that fits. It serves the
  first in array order; that is a best one for every offer exactly when each pair in the wrong
  order stands behind an application that needs no more than the two (`ServesBestIff`), and a
  run of three submissions breaks it (`PassesOverBigger`).
- `FulfillOffer` asks the SLA guard about no application, and the monitor's answer to that is
  no: with the monitor itself nothing is ever launched (`MonitorNeverLaunches`). The guard is
  therefore an input of the other results.
- `fitsInOffer` accepts a range with exactly as many ports as declared, `GetPorts` needs one
  more: building then panics (`FitsButPanicsIff`, `EqualRangePanics`).
- Deciding to queue an instance and queueing it are two accesses: the maximum is kept exactly
  when no two decisions wait to be carried out at the same time (`KeepsMaximumIff`,
  `TwoSubmissionsExceed`), and is exceeded by less than the number that do
  (`RunExceedsByOverlap`).
- The counts of started and of queued instances are two accesses: a minimum of two or more is
  kept exactly when status updates of the application do not overlap (`KeepsMinimumIff`,
  `TwoFailuresUndershoot`), and is missed by no more than the updates that an outdated count
  has misled (`RunMissesByMisled`).
- Checks follow their tasks exactly when calls on one task do not overlap (`KeepsChecksIff`):
  otherwise a check can be registered for a task that is forgotten or unhealthy
  (`ForgottenIsChecked`, `UnhealthyIsChecked`).
- A registration that overtakes an unregistration of the same task loses its check
  (`OvertakenCheckIsLost`); without that registered checks are never lost
  (`RegisteredInOnePlace`, `RegisteredInOnePlaceIff`).
- Unregistering a check does not end it while it is in flight (`UnregisterCleansIff`,
  `CheckOutlivesTask`); once it is gone it is silent (`GoneStaysSilent`).
- The staging and starting callbacks drop the record of the task they announce; that, and
  nothing else, ends the tracking of a task, and a later running callback is then an error
  (`StaysStoredIff`, `ForgottenStaysForgotten`, `StagingLosesTask`).
- A health check stays registered for a task that has stopped exactly when its application
  was deleted from the application store before (`StepKeepsChecksIff`, `CheckOutlivesApp`).

## Model

| member | source | states |
|---|---|---|
| HeapSpec.UpRestores | tasks/queue/task_queue.go:119-124 | sifting a new key up restores heap order for every strict weak order, when only the edge above it is broken and its children respect its parent |
| HeapSpec.DownRestores | tasks/queue/task_queue.go:127-132 | sifting down restores heap order at and below a slot whose own edges may be broken, for any suffix of the array |
| HeapSpec.DownUpRestores | tasks/queue/task_queue.go:143 | sifting down and then up at the slot of a removed key repairs every edge around it, whichever way the moved key has to go |
| HeapSpec.InitCorrect | tasks/queue/task_queue.go:56-60 | heapifying any slice gives a heap with the same content |
| HeapSpec.PushCorrect | tasks/queue/task_queue.go:122 | pushing keeps heap order and adds exactly the pushed key |
| HeapSpec.PopCorrect | tasks/queue/task_queue.go:130 | popping keeps heap order, takes exactly the front key, and nothing left is less than it |
| HeapSpec.RemoveCorrect | tasks/queue/task_queue.go:143 | removing any slot keeps heap order and takes exactly the key of that slot |
| HeapSpec.RootIsLeast | health/queue.go:84-97 | no key of a heap is less than the front one |
| HeapSpec.DrainSorts | tasks/queue/task_queue.go:127-132 | repeated popping yields the whole content, in order |
| IndexedHeap.PriorityQueue.Swap | tasks/queue/task_queue.go:181-185 | exchanges two elements in place and rewrites both stored positions, so every element still knows its slot |
| IndexedHeap.PriorityQueue.Up | tasks/queue/task_queue.go:119-124 | the in-place loop moves keys exactly as the specification of sifting up, keeps the elements and their stored positions |
| IndexedHeap.PriorityQueue.Down | tasks/queue/task_queue.go:127-132 | the in-place loop moves keys exactly as the specification of sifting down and leaves the slots beyond its bound alone |
| IndexedHeap.PriorityQueue.Init | tasks/queue/task_queue.go:56-60 | the in-place heapify computes the specified one and keeps elements and positions |
| IndexedHeap.PriorityQueue.Push | tasks/queue/task_queue.go:188-194 | appends, records the position and sifts up: one element more, keys as specified |
| IndexedHeap.PriorityQueue.Pop | tasks/queue/task_queue.go:197-205 | returns the former front object with position -1; one element less, keys as specified |
| IndexedHeap.PriorityQueue.Remove | tasks/queue/task_queue.go:143 | returns the former object of the slot with position -1; one element less, keys as specified |
| TaskQueue.TaskLessIsStrictWeakOrder | tasks/queue/task_queue.go:158-178 | cpu descending, then memory descending, then time ascending is a strict weak order |
| TaskQueue.TaskQueue.constructor | tasks/queue/task_queue.go:56-60 | wrapping a slice of positioned items in any order heapifies it and keeps its content |
| TaskQueue.TaskQueue.Enqueue | tasks/queue/task_queue.go:119-124 | stamps the item with the time, adds exactly it, keeps heap order and stored positions |
| TaskQueue.TaskQueue.Dequeue | tasks/queue/task_queue.go:127-132 | takes the front item and resets its position and stamp; no item left has priority over it |
| TaskQueue.TaskQueue.DequeueFirst | tasks/queue/task_queue.go:135-148 | nothing and no change exactly when nothing matches; otherwise removes exactly the first match in array order through its stored position and restores heap order |
| TaskQueue.TaskQueue.CountAppsForID | tasks/queue/task_queue.go:84-96 | counts the queued items of one application id |
| TaskQueue.TaskQueue.CountsForApps | tasks/queue/task_queue.go:101-116 | the one-pass counts agree with the single counts for every id, and an id is absent exactly when its count is 0 |
| TaskQueue.CountPermuted | tasks/queue/task_queue.go:84-96 | the count of an id depends on the content of the queue only, not on heap positions |
| TaskQueueRuns.RunKeeps | tasks/queue/task_queue.go:119-148 | every history of Enqueue, Dequeue and DequeueFirst keeps heap order, and what is queued plus what was handed out is what was there plus what was enqueued |
| TaskQueueRuns.DequeueServesBest | tasks/queue/task_queue.go:127-132 | in a heap Dequeue hands out one queued item, and nothing queued has more cpu, then more memory, then an earlier time |
| TaskQueueRuns.DequeueFirstServes | tasks/queue/task_queue.go:135-148 | DequeueFirst hands out the first match in array order, and nothing exactly when nothing matches |
| TaskQueueRuns.DrainIsDequeues | tasks/queue/task_queue.go:127-132 | draining is what a history of as many Dequeues as there are items hands out |
| TaskQueueRuns.DrainAfterRun | tasks/queue/task_queue.go:127-178 | after any history from an empty queue, draining hands out exactly what is left by cpu, then memory, then time queued, with the stamps held in the queue |
| TaskQueueRuns.NoMatchAbove | tasks/queue/task_queue.go:135-148 | the match DequeueFirst takes has no matching heap ancestor |
| HealthQueue.ExpiresBeforeIsStrictWeakOrder | health/queue.go:25-31 | comparing expiry times is a strict weak order |
| HealthQueue.AfterPopCorrect | health/queue.go:84-97 | the front expires first; a due front leaves, an undue one goes back and the content is the same, in heap order either way |
| HealthQueue.HealthCheckQueue.Push | health/queue.go:78-82 | adds exactly the check and keeps heap order and stored positions |
| HealthQueue.HealthCheckQueue.Pop | health/queue.go:84-97 | returns a check only if it is due and none left expires earlier; otherwise the content is unchanged, all checks expire later than now and the returned time is the least expiry, or a second from now for the empty queue |
| HealthQueue.HealthCheckQueue.Remove | health/queue.go:99-108 | removes the first check of the id in array order, nothing else, and keeps heap order |
| HealthQueue.HealthCheckQueue.Contains | health/queue.go:110-117 | true exactly when a queued check has the id |
| HealthPipeline.PushedCorrect | health/checker.go:180-181 | queueing a check adds exactly it and orders the queue by the expiries in memory |
| HealthRuns.PassesOn | health/checker.go:57-86 | moves between channels and loops keep every check the same number of times and touch neither queue, register nor expiries |
| HealthRuns.StepKeeps | health/checker.go:57-90 | every step of the protocol, whatever calls overlap, keeps each check in at most one place and the queue in order; only a lookup that finds no check adds one and only removing from the queue drops one |
| HealthRuns.RunKeepsInv | health/checker.go:50-187 | in every reachable state each check is in at most one place and the queue is in order of the expiries in memory |
| HealthRuns.RunConserves | health/checker.go:152-187 | over every run each check created is in the pipeline exactly once until it is removed; none is lost or duplicated |
| HealthRuns.RegisteredInOnePlaceIff | health/checker.go:235-267 | in every reachable state a registered check is in exactly one place if and only if no unregistering call took it out of the queue |
| HealthRuns.RegisteredInOnePlace | health/checker.go:235-267 | in every run in which no registration writes to the register while an unregistration of the same task is half done, every registered check is in exactly one place |
| HealthRuns.OvertakenCheckIsLost | health/checker.go:246-266 | a run in which a registration overtakes an unregistration: the check ends up registered and in no place |
| HealthRuns.RewrittenOutsideHeap | health/checker.go:175-187 | ExpiresAt is rewritten only by the dispatch loop and only for a check outside the heap |
| HealthRuns.ServesEarliestDue | health/checker.go:152-172 | in every reachable state the dequeue loop takes a due check of least expiry, and waits only when no check is due |
| HealthRuns.UnregisterCleansIff | health/checker.go:263-267 | the second half of an unregistration leaves no trace of the task if and only if nothing of it is in flight, half registered included, and it is not queued twice |
| HealthRuns.GoneStaysSilent | health/checker.go:175-187 | over every run from a reachable state in which nothing of a task is left, no failure of it is delivered until it is registered again |
| HealthRuns.CheckOutlivesTask | health/checker.go:175-187 | a run in which an unregistered check stays in the pipeline |
| HealthResults.FailuresAreDelivered | health/checker.go:57-187 | over every run the failures delivered, the one being delivered and those of results on their way are, in this order, exactly the checks that finished unhealthy, in the order they finished |
| HealthResults.FailuresAreCounted | health/checker.go:175-187 | for every task the unhealthy results of its checks are as many as its failures delivered or on their way |
| HealthResults.ExpiresWhenDue | health/checker.go:175-253 | over every run ExpiresAt of a check is its registration plus the ramp-up in milliseconds, and after that the next time named by the result of it that was dispatched last |
| HealthResults.ChecksStartInOrder | health/checker.go:57-78 | over every run checks are started once each in the order in which they were taken from the queue |
| HealthResults.RegisteredAsWritten | health/checker.go:246-264 | over every run a task is registered exactly with the check last written for it, unless it was unregistered since; calls for other tasks change nothing |
| HealthResults.RunKeepsOneEach | health/checker.go:152-187 | in every reachable state the dequeue loop, the pool's forwarding and the dispatch loop hold at most one item each |
| HealthChecker.HealthChecker.Register | health/checker.go:235-261 | on the real objects, registering performs the three protocol steps of a call that nothing overlaps, or nothing when the check is disabled |
| HealthChecker.HealthChecker.Unregister | health/checker.go:263-267 | on the real objects, unregistering performs the two protocol steps |
| HealthChecker.HealthChecker.Dequeue | health/checker.go:152-172 | one round of the dequeue loop performs the pop step and hands out an object outside the heap |
| HealthChecker.HealthChecker.Dispatch | health/checker.go:175-187 | one round of the dispatch loop rewrites the expiry, queues the object and reports a failure as the three protocol steps do |
| FormatBits.FormatBits | agora/api/model/app_component_ffjson.go:224-298 | prints the sign and the numeral of the word or its negation, for every 64-bit word, base 2 to 36 and sign, without leaving the 65-byte buffer |
| FormatBits.PrintDecimal | agora/api/model/app_component_ffjson.go:250-265 | the two-digit table branch prints the low digits of the same numeral |
| FormatBits.PrintShifted | agora/api/model/app_component_ffjson.go:267-276 | the shift-and-mask branch prints the low digits of the same numeral |
| FormatBits.PrintDivided | agora/api/model/app_component_ffjson.go:277-285 | the division branch prints the low digits of the same numeral |
| FormatBits.MaskAndShift | agora/api/model/app_component_ffjson.go:267-276 | bitwise and with base-1 is the remainder and the logical shift is the quotient, for every base with a shift width |
| FormatBits.NumeralIsCanonical | agora/api/model/app_component_ffjson.go:287-296 | the numeral has digits below the base, no superfluous leading zero, and denotes the number |
| FormatBits.NumeralCharacterized | agora/api/model/app_component_ffjson.go:224-298 | a string is the numeral of a number if and only if it is canonical and denotes it |
| FormatBits.SignedRoundTrip | agora/api/model/app_component_ffjson.go:95 | every signed 64-bit number printed as the callers print it reads back as itself, and has a sign exactly when negative |
| FormatBits.UnsignedRoundTrip | agora/api/model/app_component_ffjson.go:224-298 | every unsigned 64-bit word printed without a sign is canonical and reads back as itself |
| FormatBits.NegatedRoundTrip | agora/api/model/app_component_ffjson.go:241-248 | every word printed as negative reads as the word less 2 to the 64, and 0 as 0 |
| Utf8.DecodeSound | agora/api/model/app_component_ffjson.go:195 | what the rune decoder accepts is the UTF-8 encoding of the code point it returns |
| Utf8.DecodeComplete | agora/api/model/app_component_ffjson.go:195 | every encoded scalar value is accepted, whatever follows it |
| Utf8.EncodeExamples | agora/api/model/app_component_ffjson.go:195 | the encoding used as reference gives the examples of RFC 3629 and the octets at the ends of every length |
| JsonString.WriteJsonString | agora/api/model/app_component_ffjson.go:161-222 | the lazily copying loop prints exactly what the rune-by-rune escaper prints, between quotes |
| JsonString.StepAscii | agora/api/model/app_component_ffjson.go:167-193 | one round at an ASCII byte either extends the pending run or flushes it and writes the escape |
| JsonString.StepRune | agora/api/model/app_component_ffjson.go:195-216 | one round at any other byte replaces an invalid byte, escapes a line separator, or extends the run by the whole rune |
| JsonString.ReadEscapedRune | agora/api/model/app_component_ffjson.go:167-216 | what is printed for a rune reads back as that rune, or as U+FFFD for an invalid byte, in front of anything readable |
| JsonString.UnescapeEscaped | agora/api/model/app_component_ffjson.go:161-222 | the inside of what is printed reads as the decoded runes, with U+FFFD for every invalid byte |
| JsonString.ReadsRepaired | agora/api/model/app_component_ffjson.go:161-222 | any bytes read back (section 7 of RFC 8259) as themselves with every invalid byte replaced by U+FFFD |
| JsonString.RoundTripIffValid | agora/api/model/app_component_ffjson.go:161-222 | a string reads back as itself if and only if it is valid UTF-8 (section 4 of RFC 3629) |
| JsonString.EscapedIsHarmless | agora/api/model/app_component_ffjson.go:168 | the printed inside has no control character and none of the bytes that are special in HTML |
| JsonString.EscapedHasNoSeparators | agora/api/model/app_component_ffjson.go:206-216 | for every input the bytes of U+2028 and U+2029 occur nowhere in what is printed |
| JsonString.AsciiPrinted | agora/api/model/app_component_ffjson.go:167-193 | what is printed for every ASCII byte: two-character escapes for quote, backslash, line feed and carriage return, four lower-case hexadecimal digits for the other special ones, the byte itself otherwise |
| JsonString.RunePrinted | agora/api/model/app_component_ffjson.go:195-216 | what is printed for every other rune: the replacement escape for an invalid byte, the escapes of the two separators, its own bytes otherwise |
| JsonString.PlainTextUnchanged | agora/api/model/app_component_ffjson.go:161-222 | text without anything to escape is printed as it is |
| Builders.MakePortRange | tasks/builders/builders.go:40-57 | for every random choice the taken range has exactly the asked number of ports and lies inside the given one |
| Builders.EveryPlaceIsPicked | tasks/builders/builders.go:40-57 | every place in the range where the ports fit is the result of some random choice |
| Builders.RandomPortPicker.GetPorts | tasks/builders/builders.go:60-92 | the nested loops take the ports the specification picks, for every random choice |
| Builders.PicksIffLargerRange | tasks/builders/builders.go:60-92 | at least one port is asked: ports are found if and only if some offered range has more than that many, and otherwise nothing is taken |
| Builders.PickedPorts | tasks/builders/builders.go:60-92 | the picked ports are distinct, consecutive, inside the first larger range, and all of the one range taken |
| Builders.PickedInsideOffer | tasks/builders/builders.go:60-92 | whatever is taken, also for no ports, lies inside an offered range |
| Builders.PickedForNothing | tasks/builders/builders.go:60-92 | asked for no port, none is reserved, and an empty range is taken exactly when the first resource has port ranges |
| Builders.RangesOffered | tasks/builders/builders.go:67-71 | the ranges looked at are those of ports resources and no others |
| Builders.FitsInOffer | tasks/default_task_manager.go:262-294 | true exactly when the totals of cpus and mem suffice and the largest range of the last ports entry has at least as many ports as declared |
| Builders.TotalsAdd | tasks/default_task_manager.go:268-273 | totals add up over all entries of a name, wherever they stand |
| Builders.LastPortsDecide | tasks/default_task_manager.go:274-283 | the last ports entry alone decides the number of ports compared, and without one it is 0 |
| Messages.MesosMessageBuilder.BuildResources | tasks/builders/builders.go:106-125 | asks for the cpus, the memory and the taken ranges |
| Messages.MesosMessageBuilder.BuildTaskEnvironment | tasks/builders/builders.go:129-151 | the declared variables in order, then for the i-th port its own number and the i-th reserved port |
| Messages.MesosMessageBuilder.BuildContainerInfo | tasks/builders/builders.go:155-185 | port mappings for all declared ports, and for containers the image and one publish option per port with the i-th reserved port |
| Messages.MesosMessageBuilder.BuildTaskInfo | tasks/builders/builders.go:202-219 | the whole message for an application on the picked ports: ids, resources, command, declared and port variables, image and options; none exactly when the source panics |
| Messages.BuildPanicsIffPortsMissing | tasks/builders/builders.go:138-147 | fewer ports are reserved than declared, which makes building panic, exactly when ports are declared and no offered range is larger than their number |
| Messages.BuiltWithinOffer | tasks/default_task_manager.go:262-294 | a task built for a fitting offer asks for no more cpus and memory than the offer's totals and for port ranges inside offered ones |
| Messages.ContainerPortsAligned | tasks/builders/builders.go:129-199 | for containers the i-th mapping and publish option carry the i-th reserved port, and the i-th announced variable reads as that number; public ports are pairwise distinct and lengths match |
| Messages.OptionPublishes | tasks/builders/builders.go:172 | a publish option splits at its only colon into the number of the reserved port and that of the declared one |
| Messages.PlainPortsKept | tasks/builders/builders.go:157-167 | without a container every port is mapped to itself, and both variables are announced all the same |
| Messages.MaxPortsLenIsOffered | tasks/default_task_manager.go:268-284 | the length fitsInOffer compares with is the size of an offered range, or 0 |
| Messages.FitsButPanicsIff | tasks/default_task_manager.go:288-293 | an application fits and yet cannot be built if and only if the compared length equals its number of ports and no offered range is larger |
| Messages.EqualRangePanics | tasks/default_task_manager.go:290 | an offer with exactly as many ports as declared fits and makes building panic |
| TaskStore.CountAfterSave | store/tasks/task_store.go:75-105 | saving a deployment under its task id changes the count of any application and set of states by what is replaced and what is saved |
| TaskStore.CountAfterDelete | store/tasks/task_store.go:108-110 | deleting lowers the count by the deleted record only |
| TaskStore.DefaultTaskStore.Filter | store/tasks/task_store.go:137-148 | lists exactly the matching deployments, each once, in some order |
| TaskStore.DefaultTaskStore.RunningApps | store/tasks/task_store.go:193-197 | lists exactly the started deployments of an application |
| TaskStore.DefaultTaskStore.RunningAppsCount | store/tasks/task_store.go:200-206 | the number of started deployments of an application |
| Sla.SimpleSLAMonitor.NeedsMore | health/sla/sla.go:177-188 | active, with an SLA, and fewer started and queued instances than its minimum |
| Sla.SimpleSLAMonitor.CanDeployMore | health/sla/sla.go:195-205 | some active application, without SLA or with fewer started and queued instances than its maximum; no for no application |
| Sla.SimpleSLAMonitor.ChangeFor | health/sla/sla.go:108-161 | a change for one application exactly when its total lies outside minimum and maximum, by the number that leads to the nearer of them, or the tasks to stop when it is disabled |
| Sla.SimpleSLAMonitor.ChangeDeployCounts | health/sla/sla.go:106-163 | one change for every stored application that deviates and for no other, whatever the order of the store |
| Sla.SimpleSLAMonitor.CountUp | health/sla/sla.go:119-124 | counts the deployments that are started, deploying or unhealthy |
| Sla.SimpleSLAMonitor.ToKill | health/sla/sla.go:148-153 | lists exactly the leftover tasks of a disabled application |
| Sla.DisabledStopsAllUp | health/sla/sla.go:92-104 | the two status predicates agree: for a disabled application exactly the started, deploying and unhealthy tasks are to be stopped |
| Sla.ScaleUpIsAllowed | health/sla/sla.go:134-138 | a request to scale up implies that the application needs more instances and, with min <= max, may deploy more |
| Sla.DeviatesIffOutside | health/sla/sla.go:134-145 | an active application with an SLA needs a change exactly when its total is below the minimum or above the maximum |
| Sla.ChangeIsNearest | health/sla/sla.go:134-145 | a change leads from the total into the SLA and no change of fewer instances does; when minimum and maximum contradict each other it goes to the minimum first |
| Deployments.ScheduleCounts | tasks/default_task_manager.go:192-204 | scheduling queues one instance of the application exactly when the SLA allows it and changes nothing else |
| Deployments.RemoveCounts | tasks/default_task_manager.go:311 | dequeuing for an offer takes one instance of the dequeued application |
| DeploymentRuns.FulfillCounts | tasks/default_task_manager.go:300-340 | fulfilling an offer changes nothing, or moves one queued instance to a new deploying record under a fresh id |
| DeploymentRuns.UpdateCounts | tasks/default_task_manager.go:342-377 | a status update replaces one record, changes counts accordingly and queues one replacement exactly when it is needed and allowed |
| DeploymentRuns.StepKeepsWellFormed | tasks/default_task_manager.go:184-204 | every step keeps heap order of the queue and the keys of both stores |
| DeploymentRuns.StepMoves | tasks/default_task_manager.go:342-352 | every status event, a failed health check being UNHEALTHY, stores exactly its status in the record of its task, and changes nothing when there is none |
| DeploymentRuns.HealthFailureStaysUp | tasks/default_task_manager.go:109-118 | a failed health check of a started, deploying or unhealthy task leaves the number of instances that count as up unchanged |
| DeploymentRuns.StepKillsIff | tasks/default_task_manager.go:109-118 | exactly the stored tasks whose health check fails are asked to be killed |
| DeploymentRuns.StepChecksIff | tasks/default_task_manager.go:360-389 | after a step a task is checked exactly if the step started it with something to check, or it was checked and the step neither forgot it nor took it out of STARTED while its application is stored |
| DeploymentRuns.SubmitQueues | tasks/default_task_manager.go:192-204 | a submission queues the application with its time exactly when the SLA allows it, and does nothing else |
| DeploymentRuns.MoveQueues | tasks/default_task_manager.go:354-363 | a status event queues at most the stored application of its task, with the time of the event |
| DeploymentRuns.LaunchTakesFirstFit | tasks/default_task_manager.go:300-322 | an offer changes nothing or takes exactly the first fitting item out of the queue |
| DeploymentRuns.StepPanicsIff | tasks/default_task_manager.go:300-325 | a step panics exactly when an allowed offer goes to a fitting application whose declared ports cannot all be reserved |
| DeploymentRuns.LaunchedRecord | tasks/default_task_manager.go:324-334 | the record of a launched task carries its task id, application, host name and one mapping per port, offered ports for containers and the declared ones otherwise |
| DeploymentRuns.StepKeepsMinimum | tasks/default_task_manager.go:342-389 | only forgetting a started or deploying task takes an active application further below its minimum, and by one at most |
| DeploymentRuns.RunKeepsMinimum | tasks/default_task_manager.go:184-389 | over every run of calls that do not overlap, with a fixed definition and min <= max, the shortfall of started, deploying and queued instances grows by no more than the tasks forgotten |
| DeploymentRuns.StepKeepsMaximum | tasks/default_task_manager.go:192-204 | no enqueue of a call that nothing overlaps takes started and queued instances above the maximum; only a task that becomes started can exceed it, by one |
| DeploymentRuns.RunKeepsMaximum | tasks/default_task_manager.go:192-377 | over every run of calls that do not overlap the excess over the maximum grows by no more than the number of tasks that became started |
| DeploymentRuns.StepConserves | tasks/default_task_manager.go:300-340 | queued instances after a step are those before plus accepted ones minus launched ones, per application |
| DeploymentRuns.StepLaunches | tasks/default_task_manager.go:324-339 | a launch stores exactly one new deploying record of the launched application, and no other step adds a record |
| DeploymentRuns.RunConserves | tasks/default_task_manager.go:192-340 | over every run accepted schedulings are still queued or were launched, per application |
| DeploymentRuns.StepKeepsChecksIff | tasks/default_task_manager.go:360-375 | registered checks keep belonging to started tasks in a step if and only if it does not take a checked task out of STARTED while its application is not stored |
| DeploymentRuns.RunKeepsChecks | tasks/default_task_manager.go:342-389 | in every run that deletes no application a registered check implies a stored started task |
| DeploymentRuns.MonitorNeverLaunches | tasks/default_task_manager.go:304-322 | with the monitor's own answer for no application, no run launches anything, whatever is queued or offered |
| DeploymentRuns.StoredIffTracked | tasks/default_task_manager.go:324-389 | over every run a task is stored if and only if it was there or launched and has not been forgotten since, whatever statuses were reported |
| DeploymentRuns.StaysStoredIff | tasks/default_task_manager.go:379-440 | without a new launch a stored task is still stored at the end of a run if and only if no staging or starting callback forgot it |
| DeploymentRuns.ForgottenStaysForgotten | tasks/default_task_manager.go:429-440 | a task dropped by the staging and starting callbacks is neither stored nor checked again by any later status, until it is launched anew |
| ServiceOrder.ServesBestIff | tasks/default_task_manager.go:296-311 | the first application in array order that fits is a best one for every offer if and only if each pair in the wrong order stands behind an application that needs no more cpus, memory and ports than the larger need of the two |
| ServiceOrder.FirstFitIsUnshielded | tasks/queue/task_queue.go:135-148 | the application an offer goes to stands behind none that would fit whenever it and another fitting one fit |
| DeploymentScenarios.PassesOverBigger | tasks/default_task_manager.go:296-339 | a run from the empty system in which an offer goes to the smallest of three submitted applications although a bigger one fits |
| DeploymentScenarios.StagingLosesTask | tasks/default_task_manager.go:421-440 | a run from the empty system: a task is launched, reported staging and then running, and ends up neither stored nor checked |
| DeploymentScenarios.CheckOutlivesApp | tasks/default_task_manager.go:354-375 | a run from the empty system: an application is deleted while its task runs, the task fails, and its health check stays registered |
| OverlappingCalls.SubmitsAlone | tasks/default_task_manager.go:192-204 | a submission whose accesses nothing overlaps performs the atomic scheduling step |
| OverlappingCalls.UpdatesAlone | tasks/default_task_manager.go:342-365 | a status update whose accesses nothing overlaps performs the atomic status step on store and queue |
| OverlappingCalls.FulfillsAlone | tasks/default_task_manager.go:311-334 | an offer whose accesses nothing overlaps performs the atomic offer step |
| OverlappingCalls.ForgetsAlone | tasks/default_task_manager.go:379-389 | forgetting a task drops its record as the atomic step does |
| OverlappingCalls.RunConserves | tasks/default_task_manager.go:192-340 | over every interleaving of calls, what was enqueued is queued, held by a call, or recorded as launched, per application |
| OverlappingCalls.RunExceedsByOverlap | tasks/default_task_manager.go:192-377 | over every interleaving in which at most k calls stand between decision and enqueue, started and queued instances exceed the maximum by less than k plus the tasks that became started |
| OverlappingCalls.KeepsMaximumIff | tasks/default_task_manager.go:192-204 | over all interleavings in which no task starts and at most k calls at a time stand between decision and enqueue, the maximum is kept if and only if k <= 1, or the application is inactive, or the maximum allows no instance |
| OverlappingCalls.TwoSubmissionsExceed | tasks/default_task_manager.go:194-203 | for every active application and positive maximum, a run of two overlapping submissions that starts one below the maximum, or from the empty system if it is one, and ends above it |
| OverlappingMinimum.RunKeepsMinimum | tasks/default_task_manager.go:184-389 | over every interleaving of submissions, offers and at most one status update of the application at a time, the instances missing to the minimum are at most those missing at the start, those forgotten, and the one the update in progress owes |
| OverlappingMinimum.RunMissesByMisled | tasks/default_task_manager.go:342-365 | over every interleaving with any number of overlapping status updates, the instances missing to the minimum are at most those missing at the start, those forgotten, those that updates in progress owe, and one for each update that gave up on a number of started tasks no longer reached |
| OverlappingMinimum.KeepsMinimumIff | tasks/default_task_manager.go:342-365 | for an active application with min <= max: over all interleavings that forget no task, finish all calls and run at most k of its status updates at a time, never more is missing at the end than at the start if and only if k <= 1 or the minimum is at most one |
| OverlappingMinimum.RunStaysWatched | tasks/default_task_manager.go:342-365 | with a minimum of one, whatever overlaps, some update in progress will notice whenever nothing is planned any more |
| OverlappingMinimum.StepKeepsSound | tasks/default_task_manager.go:324-353 | every access of every call keeps the stored records and the records calls have read coherent |
| OverlappingMinimum.TwoFailuresUndershoot | tasks/default_task_manager.go:106-118 | for every minimum of at least two, a run from a state with two started tasks in which the driver's report of a failure overlaps a failed health check and the minimum, met before, is missed by one |
| OverlappingChecks.UpdatesAlone | tasks/default_task_manager.go:342-375 | a status update whose accesses nothing overlaps performs the atomic status step on store and checks |
| OverlappingChecks.RunKeepsCheck | tasks/default_task_manager.go:342-389 | over every interleaving in which calls on one task do not overlap each other, its check belongs to a stored started task whenever no call works on it, and calls in progress know its record |
| OverlappingChecks.KeepsChecksIff | tasks/default_task_manager.go:342-389 | over all interleavings of launches, status updates and forgotten tasks with at most k calls on a task at a time, every registered check belongs to a stored started task when all calls have ended if and only if k <= 1 |
| OverlappingChecks.ForgottenIsChecked | tasks/default_task_manager.go:365-389 | a run from the empty system: a report that a task runs overlaps one that it is starting, and a check is registered for a task that is not stored |
| OverlappingChecks.UnhealthyIsChecked | tasks/default_task_manager.go:106-118 | a run from the empty system: a repeated report that a task runs overlaps its failed health check, and the check stays registered for an unhealthy task |
| TaskManager.DefaultTaskManager.SaveApp | tasks/default_task_manager.go:177-180 | stores the application under its id |
| TaskManager.DefaultTaskManager.SubmitApp | tasks/default_task_manager.go:184-190 | performs the scheduling step with a new queue item |
| TaskManager.DefaultTaskManager.ScheduleAppForDeployment | tasks/default_task_manager.go:192-204 | queues a new item exactly when the SLA allows it |
| TaskManager.DefaultTaskManager.FulfillOffer | tasks/default_task_manager.go:300-340 | performs the offer step and returns the message built for the first fitting application, or nothing; says exactly when the source panics and what it has dequeued then |
| TaskManager.DefaultTaskManager.LaunchOn | tasks/default_task_manager.go:324-339 | builds the message and stores a deploying record with the same ports; stores nothing exactly when building panics |
| TaskManager.DefaultTaskManager.UpdateStatus | tasks/default_task_manager.go:342-377 | performs the status step; an unknown task is an error and changes nothing |
| TaskManager.DefaultTaskManager.Callback | tasks/default_task_manager.go:392-440 | each callback of the driver performs the status step of the state it reports, or forgets the task for staging and starting |
| TaskManager.DefaultTaskManager.FollowUp | tasks/default_task_manager.go:360-375 | queues a needed replacement and registers or unregisters the check |
| TaskManager.DefaultTaskManager.ForgetTask | tasks/default_task_manager.go:379-389 | drops the record and the check of the task |
| TaskManager.DefaultTaskManager.HealthFailed | tasks/default_task_manager.go:109-118 | performs the health failure step: a stored task is stored as UNHEALTHY and asked to be killed, anything else is left alone |
| Protocol.UpperCase | tasks/builders/builders.go:141 | upper case maps the 26 letters, leaves everything else alone, and is undone by lower case |
| Converters.ApplicationsConverter.EnvList | agora/api/model/converters.go:86-92 | one entry for every variable, in some order |
| Converters.ApplicationsConverter.PortList | agora/api/model/converters.go:94-100 | one entry for every port, converted to 32 bits, in some order |
| Converters.ApplicationsConverter.ToAppManifest | agora/api/model/converters.go:82-159 | one manifest for every component, whatever the order of the map |
| Converters.ApplicationsConverter.FromAppManifest | agora/api/model/converters.go:25-79 | the one-component application a manifest stands for; later list entries overwrite earlier ones |
| Converters.EnvMapOf | agora/api/model/converters.go:26-29 | rebuilding a map from any listing of it gives the map |
| Converters.PortsMapOf | agora/api/model/converters.go:31-34 | rebuilding the ports gives them as they are after 32-bit conversion |
| Converters.LastEntryWins | agora/api/model/converters.go:26-29 | a list of variables is read as the map of its keys, each with its last value |
| Converters.LastPortWins | agora/api/model/converters.go:31-34 | a list of ports is read as the map of its keys, each with its last value |
| Converters.NamesRead | agora/api/model/converters.go:109-132 | names of modes and component types are read in any case, unknown ones as the first value |
| Converters.TruncatesTowardsZero | agora/api/model/converters.go:65-66 | cpus and memory lose their fraction, towards zero |
| Converters.IntegersWrap | agora/api/model/converters.go:65-67 | narrowing an integer takes away a multiple of the modulus |
| Converters.ManifestIdentity | agora/api/model/converters.go:130-154 | a manifest is identified by application, component and version, and fetched from the docker index under the same three |
| Converters.SLAStored | agora/api/model/converters.go:102-127 | the SLA of a manifest holds the ramp-up, interval, timeout, path, scheme and instance counts of the component, each under its own name |
| Converters.ManifestRead | agora/api/model/converters.go:60-78 | what is read from any manifest: its name, version, command, distribution URL, state, disk space and instance counts |
| Converters.ModeRoundTrip | agora/api/model/converters.go:109-112 | a health check mode survives if and only if it is one of the upper-case names |
| Converters.ComponentTypeRoundTrip | agora/api/model/converters.go:132 | a component type survives if and only if it is one of the lower-case names |
| Converters.ManifestRoundTripIff | agora/api/model/converters.go:25-159 | a component survives the round trip through any of its manifests, but for disk space and distribution URL, if and only if ports and instance counts fit 32 bits and mode and type are spelled as printed |
| Converters.AppRoundTrip | agora/api/model/converters.go:25-159 | a whole application with keys equal to component names survives, whatever the order of conversion |

## Left out

- TaskQueue.TaskQueue.constructor: requires a slice whose items hold their positions; the source heapifies any slice, but then `DequeueFirst` relies on positions nobody has set. In the program the slice is empty.
- TaskManager.DefaultTaskManager.SubmitApp: submits one application; the source takes a list, but passes the address of its loop variable, so several list elements share one object. The only caller submits one.
- IndexedHeap.PriorityQueue.Push: requires an element that is not queued; an element has one position, so the source has no meaning for one queued twice. `TaskQueue.TaskQueue.Enqueue` is only called with a new object.
- TaskQueue.TaskQueue.Enqueue: requires an item that is not queued, for the same reason.
- HealthQueue.HealthCheckQueue.Push: requires a check that is not queued; `HealthRuns.RunKeepsInv` shows that the health checker never pushes another one.
- TaskManager.DefaultTaskManager.FulfillOffer: takes the guard's answer as an input; saving always succeeds; offers hold port ranges as `GetPorts` requires them.
- Messages.MesosMessageBuilder.BuildTaskInfo: requires port ranges as `GetPorts` requires them; the guard that notices missing ports stands for the index panic of the source.
- TaskManager.DefaultTaskManager.UpdateStatus: reads and writes of the two stores always succeed; the task store is the one in memory that the program creates, where a missing key reads as an error.
- HealthChecker.HealthChecker.Register: whether a check is enabled is an input, because the source looks for a port by the scheme of a configuration it has not read yet; updating the settings of a known check is not modelled.
- DeploymentRuns.RunKeepsMinimum: assumes that calls do not overlap; `OverlappingMinimum` does not. Steps that panic end a run and are not part of it.
- DeploymentRuns.RunKeepsMaximum: assumes that calls do not overlap; `OverlappingCalls.RunExceedsByOverlap` does not.
- DeploymentRuns.RunKeepsChecks: assumes that calls do not overlap; `OverlappingChecks.KeepsChecksIff` does not.
- OverlappingMinimum.RunKeepsMinimum: allows one status update of the application at a time; `OverlappingMinimum.RunMissesByMisled` allows any number.
- OverlappingChecks: launching is one access, and registering a check is one access to the register; its accesses are those of `HealthPipeline`.
- TaskManager.DefaultTaskManager: a method is one uninterrupted call.
- Builders.RandomPortPicker.GetPorts: requires ranges that are not empty and hold 32-bit port numbers, and no range starting at port 0 when no port is asked, for which the source counts to the largest 64-bit number.
- HealthPipeline: channels are unbounded and a disabled step changes nothing; the pool's list of pending items, its unused wait for a slot, and closing are not modelled. The register is a map without a lock; one lookup, write or deletion is one step.
- Counters of instances are unbounded; the source counts in 32 bits.
- cpus and memory are real numbers; rounding of floating point is not modelled.
- Upper and lower case conversion covers ASCII letters.
- Mesos driver, ZooKeeper, HTTP handlers, protobuf encoding, the LMDB store, log and shutdown ordering: plumbing over foreign libraries.
- The finders over task and application store and `FilterToTaskIds`: filters that would add only easy members.
- The health checks themselves: a check returns an arbitrary result and next time.
