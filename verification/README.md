# A verified model of the GoAkt runtime core

GoAkt runs actors and grains on a small pool of workers. This project models the parts of it
that are hardest to get right by reading, and proves what they keep. `dafny verify
dfyconfig.toml` checks everything.

| files | what they model |
|---|---|
| `Basics.dfy`, `Counting.dfy` | optional values, sequences without repetition, totals over a sequence |
| `Kernel*.dfy` | the scheduling kernel as a step machine: producers in `receive`, the lock-free grain mailbox, the Idle/Scheduled/Processing states, the ready rings with stealing and parking, worker turns with yield and reclaim. Every atomic load, store, swap, CAS and lock section is one step; any number of producers, workers and grains interleave |
| `ReadyQueue.dfy` | the rings themselves as arrays with head, tail and size, refined to plain sequences |
| `Forest.dfy`, `TreeViews.dfy`, `TreeWalk.dfy`, `TreePrune.dfy`, `TreeFacts.dfy`, `ActorTree.dfy` | the actor tree: two indexes, child edges, the watch relation, subtree deletion |
| `RestartSnapshot.dfy` | the snapshot of a subtree taken before a restart |
| `RequestCompletion.dfy`, `RequestTracking.dfy`, `RequestAccounting.dfy`, `RequestFates.dfy` | asynchronous requests: completion under all interleavings, the request map as an object, and its counters and the fate of every request under all interleavings |
| `Passivation.dfy`, `PassivationManager.dfy`, `Slack.dfy`, `SlackHistory.dfy` | the deadline heap, the registry around it, and how stale a deadline can get |
| `RemoteWatch.dfy` | the remote watch registry and its reverse index |
| `OrSet.dfy`, `Crdts.dfy` | replicated data types |
| `Replicator.dfy`, `ReplicatorHistory.dfy`, `AntiEntropy.dfy` | the replicator's handlers, deletion and quorums; what a run of messages leaves of a key; repair by digests |
| `Lattices.dfy`, `Convergence.dfy`, `Reaching.dfy`, `Replication.dfy` | several replicas with everything they ever send, convergence of all runs, what a delivery brings about, and the instances for the grow-only counter and the OR-set |

## How to read it

The kernel's main results are in `KernelTheorems.dfy` (safety), `KernelDelivery.dfy` (what is
delivered is what was sent), `KernelTurns.dfy` (the budget of a turn), `KernelRings.dfy` (the
ready rings and the context pool over whole runs) and `KernelProgress.dfy` (how long it can go on
without new receives). `Next` in `Kernel.dfy` is the step
relation; a run starts in `Init` and takes enabled steps in any order. The invariant has four
parts, each with its own file: tokens, mailbox lists, length and reclaim, parking. History
fields (accepted, handled, who owns a node) are written by steps and never read by them.

The tree keeps its nodes in a store under references, so that a name that leads to another
node and a parent that is remembered after its death are visible. `Ok` is the consistency of
the whole tree, `NoCycle` says that child edges have no circle.

## Where the code does not meet what one would expect

Each of these has a proof of the failing case and a proof of a condition under which the code
is right. The condition is exact where the text says "exactly"; the bound on passivation is
one way.

- Re-attaching a node can close a circle of child edges, after which `deleteNode` and
  `descendants` would not end (`ReattachInCircle`). `attachNodeLocked` keeps the tree acyclic
  exactly if the parent is not below the child, and consistent exactly if no other node lists it.
- PIDs are compared ignoring case, index keys are not. A restart snapshot has the tree's edges
  exactly if no living node strays because of that (`SnapshotExact`). It does happen: an id
  carries the parent's name and the own one, so an actor `AB` under an actor `Ab` under an
  actor `ab` has the id of its parent up to case (`CaseClash`).
- A continuation installed before an actor cancels its requests never runs, although the
  request counts as completed (`CancelledInSilence`, `RunsExactlyOnce`).
- The counters of in-flight requests can go wrong for good. If ids are fresh and a state is
  deregistered only by whoever completed it, each is right at rest exactly if nothing was
  tracked and no goroutine held a place when the last cancellation stored its 0
  (`RightAtRest`). A cancellation beside a completion leaves both at -1 with nothing tracked,
  after which a blocking request does not block (`CountersBelowZero`, `BlockingUnseen`). The
  error paths of `request` deregister without completing; beside a cancellation both delete and
  both decrement (`DroppedTwice`).
- Registering or resuming an entry while its trigger is under way puts it in the heap twice
  (`TriggerFinish`, `RegisterDuringTrigger`, `DoubledByResume`). A switch to message counting
  then leaves one place in the heap, where no touch reaches it (`PickedAfterRegister`,
  `PickedAfterResume`; `PickedAfterSwitch` for a switch in flight), and a pause leaves a paused
  entry without an index there, which `nextEntry` removes with index -1 (`LostAfterRegister`,
  `LostAfterResume`). Without such calls neither happens (`TriggerIsLate`, `NeverLost`).
- An actor that is active right now can be picked for passivation: between storing the activity
  time and touching the heap (`PickedWhileMarking`), while another goroutine has won the touch
  interval and not touched yet (`PickedWhileTouching`), and after a late store of an older time
  (`PickedAfterStaleStore`). `TriggerIsLate` bounds the time since the last activity whose
  `markActivity` has returned, unless such a touch is under way, up to how late a store came.
- A deleted key can come back. A coordinated read stores what a peer answers without looking at
  the tombstone, so that value and tombstone are both there (`ReadBringsBack`), and after its
  tombstone has expired a late delta revives the key (`PruneBringsBack`). A key stays buried
  exactly if no read of it is answered and its tombstone is not pruned (`BuriedForGood`), stays
  without a value exactly if no read of it is answered and nothing with a value for it arrives
  while its tombstone is pruned (`StaysGone`), and never has both exactly if no read of it is
  answered while the tombstone is there (`NeverBoth`).
- Anti-entropy does not make replicas converge. A version counts what one replica has stored, and
  digests compare such counts of two replicas: after one update of their own each, two replicas
  that lost each other's delta never repair it (`OneUpdateEach`). Once both have asked, they agree
  exactly if one lacked the key or the one with the higher version already had all that the other
  says (`RoundsRepair`). `architecture/CRDTs.md`, line 388, promises convergence.
- The delta of an OR-set add claims the adding node's whole clock, so that deltas lose earlier
  adds of that node (`AddDeltaFaithful`, `RemoveDeltaFaithful`, `DeltasLoseAnAdd`). The
  comment on `Delta` in `crdt/or_set.go` says that its clock keeps a peer from taking unseen
  dots for removed ones; it does so for other nodes only.
- The merge of OR-maps is not associative (`MapMergeAssociates`, `MapMergeOrderMatters`), a
  last-writer-wins write with an older timestamp is kept locally and lost elsewhere
  (`SetDeltaFaithful`), and a grow-only counter stops replicating when its slot wraps around
  (`IncrementDeltaFaithful`).
- `targetCount` gives 0 for the data-center levels, whose documentation
  (`crdt/consistency.go`, lines 33 to 42) promises more; the model follows the code.

## Assumptions

- Go's atomics are sequentially consistent; a lock section is one step.
- Runs of the kernel end before `close()`. The size probe of a sibling ring may answer
  anything, and so may that of the shared ring and `isActive`; messages sent from inside a handler are calls of `receive`
  by further producers.
- Convergence is proved for keys that nobody deleted, for a merge that is, as far as one looks at
  values, a join with the initial value as bottom, and for updates that make their value say
  more (`Inflates`). Deltas may say anything: one that says less or more than its update has an
  effect of its own. Both conditions are proved of the OR-set for every Add and Remove, and of
  the grow-only counter short of wrap-around; where an update can be replicated by its delta
  alone is a theorem of each type.
- In `AntiEntropy.dfy` a round between two replicas ends before the next one begins, nothing else
  happens to the key meanwhile, and every value can be encoded.
- `addRootNode` is called on a new or reset tree. `deleteNode` and `descendants` need `NoCycle`.
- In `Slack.dfy` the clock never goes back. Any number of goroutines mark activity and may store
  their times in any order; how far a store fell behind is a history variable of the run. The
  clock, the activity time, random numbers and the outcome of a passivation attempt are
  parameters.
- `KernelProgress.dfy` needs a positive budget of messages a turn, which `WithThroughputBudget`
  guarantees (`actor/option.go`, lines 400 to 406).
- The text of a remote address determines its host.

## Model

| member | source | states |
|---|---|---|
| `KernelTheorems.SingleOwnership` | actor/grain_pid.go:283-357 | in every reachable state a grain is Idle exactly if no token for it exists in a ring or a hand and no worker is in its turn, otherwise there is exactly one of these; at most one worker is inside a turn |
| `KernelTheorems.TransitionsFindTheirState` | actor/dispatch_state.go:67-93 | TakeForProcessing never fails, neither on a token nor in the reclaim; YieldToScheduled and reset only overwrite Processing |
| `KernelTheorems.DeliveredInOrder` | actor/grain_mailbox.go:76-151 | the messages in tail-swap order are the handled ones, then the one in hand, then the held ones: delivery is a prefix, nothing lost or doubled; `KernelDelivery.AcceptedAreSent` says which messages these are |
| `KernelTheorems.HistoryOnlyGrows` | actor/grain_mailbox.go:76-151 | along every run accepted and handled sequences only grow at their end |
| `KernelTheorems.NilMeansEmpty` | actor/grain_mailbox.go:76-91 | at the tail load of Dequeue, head equals tail exactly if every accepted message has been handled |
| `KernelTheorems.RecyclingIsSafe` | actor/grain_mailbox.go:92-107 | a sentinel that goes back to the pool is not there yet, is in no mailbox list, is no head and no tail, and is used by no producer and by no other worker |
| `KernelTheorems.LengthAccounting` | actor/grain_mailbox.go:124-151 | bounded: held <= len <= capacity; unbounded with no dequeue in progress: len is held minus the producers that have not counted yet; len 0 with messages held means a producer has still to schedule |
| `KernelTheorems.NoMessageStranded` | actor/ready_queue.go:133-262 | in every reachable state with no receive in progress and every worker an unsignalled waiter, all rings are empty, every grain is Idle and every accepted message has been handled |
| `KernelTheorems.RingConservation` | actor/ready_queue.go:133-232 | over every run and for every grain: tokens pushed = tokens taken + tokens still in a ring |
| `KernelTheorems.NoDeadlock` | actor/ready_queue.go:161-262 | unless everything is at rest some thread can take a step that changes the state |
| `KernelTheorems.SpinHasLinker` | actor/grain_mailbox.go:85-91 | a Dequeue that spins for a link waits for a producer that is still in receive |
| `KernelDelivery.CarriesItsMessage` | actor/grain_context.go:541-560 | in every run a producer in receive works for its latest call: its grain is that call's grain, and until the tail swap its context holds that call's message, whatever other threads do to contexts and pool |
| `KernelDelivery.AcceptedAreSent` | actor/grain_pid.go:283-296 | in every run the accepted messages of a grain are the messages of the calls on it that reached the tail swap, in swap order: each call once, and the calls of one producer in the order it made them |
| `KernelDelivery.GivesUpIfTurnedAway` | actor/grain_mailbox.go:123-151 | before its swap a call ends exactly where it finds the grain inactive, or its mailbox bounded and its length at the capacity |
| `KernelDelivery.EveryCallHasAFate` | actor/grain_pid.go:283-296 | at every point of every run a call is one of three: before its swap with its producer, accepted exactly if it is among those that reached the swap, refused exactly if its producer was turned away while working for it |
| `KernelDelivery.SentAreHandled` | actor/grain_pid.go:283-357 | in every quiescent state of every run a grain has handled the messages of exactly those calls on it that were not turned away, each once and in swap order |
| `KernelTurns.TurnIsBounded` | actor/grain_pid.go:309-327 | counted in the steps of a run: from the step in which a worker takes a grain it makes at most `throughput` dequeue attempts, over all reclaims, and handles at most one message in each |
| `KernelTurns.BudgetIsAttempts` | actor/grain_pid.go:314-326 | what is left of the budget is the throughput less the attempts made, also after a reclaim |
| `KernelTurns.BudgetDecides` | actor/grain_pid.go:315-326 | before each attempt the worker goes on exactly if it has made fewer than `throughput`; after the last one the grain is Scheduled and the worker about to requeue it |
| `KernelTurns.TurnEnds` | actor/grain_pid.go:309-357 | a turn ends with a requeue only after `throughput` attempts, and otherwise only because it found length 0 or the grain scheduled by somebody else after it had set it Idle |
| `KernelRings.GlobalFifo` | actor/ready_queue.go:133-141 | in every run what threads put into the shared ring is what workers took from it and then what is there, in that order |
| `KernelRings.LocalFifo` | actor/ready_queue.go:285-367 | the same for every worker's ring, whether its owner or a thief takes from it, and with what a thief keeps counted as put into the thief's ring |
| `KernelRings.RingsAreBounded` | actor/ready_queue.go:285-300 | in every run no worker's ring holds more than 256 grains |
| `KernelRings.StealTakesHalf` | actor/ready_queue.go:335-367 | a steal from a ring of k takes (k + 1) / 2 grains, one to begin with and the others into the thief's ring, or as many as fit there |
| `KernelRings.SpillsOnlyIfFull` | actor/ready_queue.go:147-152 | a worker that yields puts its grain at the end of its own ring, and goes to the shared ring exactly if its own holds 256 |
| `KernelRings.ParksAfterAsking` | actor/ready_queue.go:204-228 | a worker about to park has looked at the ring of every other worker since its last look at its own |
| `KernelRings.PoolHoldsRecycled` | actor/grain_context.go:41-62 | in every run the pool is the contexts that were recycled while there was room and not reused since; at most 512, each without message and without link |
| `KernelProgress.WorkersSettle` | actor/worker.go:41-56 | from any state of any run with no receive in progress, however the workers are scheduled, they take at most as many steps as the effort of that state: a linear bound in held messages, ring entries and workers |
| `KernelProgress.SpentIsQuiescent` | actor/ready_queue.go:161-262 | a run without new receives that has taken that many steps is at rest |
| `KernelProgress.ComesToRest` | actor/grain_pid.go:309-357 | every run with no receive in progress extends to one at rest within the effort |
| `KernelProgress.WorkSpends` | actor/grain_pid.go:309-357 | with no receive in progress every single step of a worker lowers the effort, be it search, steal, park, turn, yield, spill or reclaim; how many attempts a turn makes is `KernelTurns.TurnIsBounded` |
| `KernelProgress.TailMeansZero` | actor/grain_mailbox.go:76-91 | with no receive in progress a Dequeue that finds the tail at its head leaves a length of 0, so that the reclaim check does not loop |
| `KernelProgress.ProducersFinish` | actor/grain_mailbox.go:124-151 | in every run, whatever the workers do, producers take at most as many steps as their budget until the next receive, the CAS loop of the bounded mailbox included |
| `KernelProgress.ProduceLowersBudget` | actor/grain_mailbox.go:124-151 | every step of a producer lowers the budget; a CAS can fail only after a change of the length, and those are numbered |
| `KernelTheorems.RunHolds` | actor/grain_pid.go:283-357 | the whole invariant holds at every point of every run, for any number of producers, workers and grains |
| `KernelTheorems.StepHolds` | actor/grain_pid.go:283-357 | every enabled step keeps the whole invariant |
| `KernelTokens.WorkKeepsTokens` | actor/grain_pid.go:309-357 | a worker step keeps the count of tokens and owners per grain in step with its state |
| `KernelTokens.ProduceKeepsTokens` | actor/grain_pid.go:283-296 | a producer step does the same |
| `KernelTokens.ApplyRings` | actor/ready_queue.go:133-232 | what a step adds to and takes from the rings, for spills, steals and pops alike |
| `KernelTokens.StealConserves` | actor/ready_queue.go:335-367 | a steal moves tokens between rings and loses none but the one it returns |
| `KernelTokens.TokensFitHands` | actor/dispatch_state.go:67-93 | a worker holding a token finds its grain Scheduled, one in a turn finds it Processing |
| `KernelMailbox.SwapKeepsMail` | actor/grain_mailbox.go:124-151 | swapping the tail before the link is written keeps the list, its owners and the history consistent |
| `KernelMailbox.LinkKeepsMail` | actor/grain_mailbox.go:140-151 | the late link write goes to the node its producer swapped out and completes the chain |
| `KernelMailbox.AdvanceKeepsMail` | actor/grain_mailbox.go:92-101 | moving the head takes the first message of the list into the worker's hand |
| `KernelMailbox.FinishKeepsMail` | actor/grain_pid.go:333-340 | a handled message extends the handled prefix |
| `KernelMailbox.PrivateNodeKeepsMail` | actor/grain_context.go:45-62 | changing a node that is in no mailbox disturbs nothing |
| `KernelMailboxSteps.OneWorkerPerTurn` | actor/grain_pid.go:309-327 | two workers in a turn of one grain are the same worker |
| `KernelMailboxSteps.ProduceKeepsMail` | actor/grain_pid.go:283-296 | every producer step keeps the mailbox invariant |
| `KernelMailboxSteps.WorkKeepsMail` | actor/grain_pid.go:309-340 | every worker step keeps the mailbox invariant |
| `KernelMailboxSteps.ReceiveKeepsMail` | actor/grain_context.go:45-52 | taking a context from the pool, or allocating one, keeps the mailbox invariant |
| `KernelCounts.StepKeepsLen` | actor/grain_mailbox.go:124-151 | every step keeps the length equation per grain |
| `KernelCounts.StepKeepsReclaim` | actor/grain_pid.go:347-357 | an Idle grain with messages held always has a producer before its TrySchedule or a worker inside finishOrReclaim |
| `KernelParking.StepKeepsParking` | actor/ready_queue.go:243-262 | a non-empty global ring has a worker awake or signalled, a parked worker's own ring is empty, and the parked count is exact |
| `KernelParking.PushWakes` | actor/ready_queue.go:133-141 | after a push and its signal not every worker is asleep, and the parked count is unchanged |
| `Kernel.RotationStaysOff` | actor/ready_queue.go:215-232 | the steal rotation's modulo is one wrap-around |
| `ReadyQueue.RotationCovers` | actor/ready_queue.go:215-232 | every other worker's ring has an offset in the rotation |
| `ReadyQueue.WrapOnce` | actor/ready_queue.go:288-415 | one modulo step is one wrap-around |
| `ReadyQueue.LocalQueue.PushBack` | actor/ready_queue.go:288-300 | appends to the bounded ring as to a sequence, or refuses exactly when it is full |
| `ReadyQueue.LocalQueue.PopFront` | actor/ready_queue.go:306-322 | removes the first element of the sequence, nil exactly if it is empty |
| `ReadyQueue.LocalQueue.StealHalf` | actor/ready_queue.go:335-367 | old victim = returned item + moved + rest; the thief gains the moved part at its end, in order, and the move stops when it is full |
| `ReadyQueue.LocalQueue.Transfer` | actor/ready_queue.go:345-362 | the part of a steal under both locks, before the size mirrors are written |
| `ReadyQueue.LocalQueue.MoveTo` | actor/ready_queue.go:351-362 | the transfer loop moves as many items as wanted or as fit, in order |
| `ReadyQueue.GlobalQueue.Push` | actor/ready_queue.go:378-385 | appends, growing the ring when it is full |
| `ReadyQueue.GlobalQueue.Pop` | actor/ready_queue.go:389-398 | removes the first element, nil exactly if empty |
| `ReadyQueue.GlobalQueue.Grow` | actor/ready_queue.go:403-415 | doubles the buffer, from 0 to the initial capacity, and keeps contents and order |
| `ReadyQueue.ReadyRings.constructor` | actor/ready_queue.go:118-128 | every ring starts empty and is its own object |
| `ReadyQueue.ReadyRings.Push` | actor/ready_queue.go:133-141 | the shared sequence gains the item at its end, local sequences stay |
| `ReadyQueue.ReadyRings.PushLocal` | actor/ready_queue.go:147-152 | the worker's own sequence gains the item, or the shared one exactly when the own ring is full |
| `ReadyQueue.ReadyRings.PopGlobal` | actor/ready_queue.go:190-203 | removes the first shared item, nothing else changes |
| `ReadyQueue.ReadyRings.PopOwn` | actor/ready_queue.go:161-168 | removes the first item of the worker's own sequence |
| `ReadyQueue.ReadyRings.StealFrom` | actor/ready_queue.go:215-232 | a steal between two of the rings, on the family of sequences |
| `ReadyQueue.ReadyRings.TrySteal` | actor/ready_queue.go:215-232 | nil only if every other ring is empty, and then nothing changes; otherwise the first non-empty ring of the rotation is halved |
| `ReadyQueue.ReadyRings.TakeNow` | actor/ready_queue.go:161-184 | own ring, then shared ring, then a steal: the result and every ring in each of the three cases; nil exactly if all rings are empty |
| `ActorTree.Tree.constructor` | actor/pid_tree.go:83-89 | a new tree is consistent and empty |
| `ActorTree.Tree.Reset` | actor/pid_tree.go:563-572 | an emptied tree is as good as new |
| `ActorTree.Tree.AddRootNode` | actor/pid_tree.go:95-124 | error cases in order; on success exactly one unconnected node is entered under its id and name |
| `ActorTree.Tree.AddNode` | actor/pid_tree.go:131-187 | error cases in order; on success one new node with its PID and parent, one child edge and one watch and nothing else, consistency and freedom from cycles kept |
| `ActorTree.Tree.AddUnder` | actor/pid_tree.go:160-187 | the insertion itself |
| `ActorTree.Tree.AttachNode` | actor/pid_tree.go:193-223 | error cases; the tree stays consistent exactly if no other node lists the child, and free of cycles exactly if the parent is not below the child |
| `ActorTree.Tree.AddOrAttachNode` | actor/pid_tree.go:228-246 | no-op for nil and NoSender; fails exactly if the parent is unknown; adds an unknown pid with one edge and one watch; attaches a known one, after which the tree is consistent exactly if no other node lists it and free of cycles exactly if the parent is not below it |
| `ActorTree.Tree.AddWatcher` | actor/pid_tree.go:289-323 | adds exactly one watch, on both sides, or does nothing; child edges, ids and names unchanged |
| `ActorTree.Tree.RemoveWatcher` | actor/pid_tree.go:252-271 | ends exactly one watch, on both sides, and changes nothing else |
| `ActorTree.Tree.RemoveDescendant` | actor/pid_tree.go:277-283 | removes one child edge and changes nothing else |
| `ActorTree.Tree.DeleteNode` | actor/pid_tree.go:331-409 | removes exactly the nodes reachable through descendants, once each; every other node only loses its edges to them; names of removed nodes go unless shadowed by another node; the counter drops by their number; a dead node keeps its id and has no PID, parent or watches left |
| `ActorTree.Tree.RemoveAll` | actor/pid_tree.go:366-408 | the second loop of a deletion, last collected node first |
| `ActorTree.Tree.RemoveNode` | actor/pid_tree.go:373-407 | removing one node leaves the view without it and without every edge to it, whether its parent is alive, dead or absent |
| `ActorTree.Tree.Release` | actor/pid_tree.go:373-390 | ends every watch of a node in both directions |
| `ActorTree.Tree.DropFromParent` | actor/pid_tree.go:392-396 | the parent reached by reference loses the child, registered or not, and no other node changes |
| `ActorTree.Tree.Leave` | actor/pid_tree.go:398-407 | the id index loses the node, the name index only if the name still leads to it |
| `ActorTree.Tree.Descendants` | actor/pid_tree.go:516-558 | exactly the subtree without the node itself, each PID once; nil exactly for nil, NoSender and unknown |
| `ActorTree.Tree.ParentOf` | actor/pid_tree.go:601-625 | a returned parent is registered and is the recorded one; none exactly if the recorded parent is gone or absent |
| `TreeFacts.AddTells` | actor/pid_tree.go:139-187 | a new node under a parent: one id, one pair of parent and child and one pair of watcher and watchee are new, and the node has its PID and its parent |
| `TreeFacts.LinkTells` | actor/pid_tree.go:193-223 | a link adds exactly one child pair and one watch pair and records the parent at the child |
| `TreeFacts.WatchTells` | actor/pid_tree.go:289-323 | a watch adds exactly one pair |
| `TreeFacts.UnwatchTells` | actor/pid_tree.go:252-271 | the end of a watch takes exactly one pair away |
| `TreeFacts.UnlistTells` | actor/pid_tree.go:277-283 | removeDescendant takes exactly one child pair away |
| `TreeFacts.PruneTells` | actor/pid_tree.go:331-409 | a deletion takes exactly the ids gone and the pairs with an end among them; every other node keeps PID and parent |
| `TreeFacts.WatchesFromBothEnds` | actor/pid_tree.go:31-45 | in a consistent tree the watches by watchers are those by watchees |
| `ActorTree.CollectSubtree` | actor/pid_tree.go:353-364 | the first loop of a deletion meets the subtree, each node once |
| `ActorTree.Values` | actor/pid_tree.go:547-553 | the PIDs of the collected nodes, all live |
| `ActorTree.ReattachInCircle` | actor/pid_tree.go:193-223 | from every consistent tree with a parent and its only child, four ordinary calls produce a cycle although the child is re-attached under the id of the parent it remembers |
| `ActorTree.LetGo` | actor/pid_tree.go:277-283 | after removeDescendant nobody lists the child, which still remembers its parent |
| `ActorTree.Remove` | actor/pid_tree.go:331-409 | after deleteNode of the childless parent the child remembers a dead node of the same id |
| `ActorTree.ComeBack` | actor/pid_tree.go:131-187 | after addNode the parent is below its child, which still remembers a dead node of its id |
| `TreeWalk.Walk` | actor/pid_tree.go:349-364 | the explicit-stack walk ends and meets exactly what is reachable from its roots, without repetition |
| `TreeWalk.WalkStep` | actor/pid_tree.go:353-364 | the children of a node taken from the stack have not been met before |
| `TreeWalk.FromOne` | actor/pid_tree.go:331-364 | in an acyclic tree a walk from one node finds its subtree |
| `TreeWalk.FromChildren` | actor/pid_tree.go:516-558 | a walk from the children finds the subtree without the node |
| `TreePrune.PrunedChildren` | actor/pid_tree.go:331-409 | without any set of nodes the child edges stay consistent and acyclic |
| `TreePrune.PrunedWatches` | actor/pid_tree.go:373-390 | without any set of nodes watchers and watchees stay inverse |
| `TreePrune.PrunedMore` | actor/pid_tree.go:366-408 | removing one node after the others is removing them together |
| `TreePrune.DroppedAll` | actor/pid_tree.go:373-396 | cleaning watchers, watchees and parent removes every edge to the node, because the edges are symmetric |
| `TreePrune.LeaveBase` | actor/pid_tree.go:398-407 | both indexes stay exact when a node leaves |
| `TreeViews.LinkEdges` | actor/pid_tree.go:193-223 | a child edge and a watch keep the view consistent exactly if no other node lists the child |
| `TreeViews.LinkGraph` | actor/pid_tree.go:193-223 | a link adds one child edge, which closes a cycle exactly if the parent is below the child |
| `TreeViews.WatchKeeps` | actor/pid_tree.go:289-323 | a watch entered at both ends keeps the relation symmetric, also for a self-watch |
| `TreeViews.UnwatchAll` | actor/pid_tree.go:252-271 | ending a watch keeps the relation symmetric and the child edges as they are |
| `TreeViews.UnlistKeeps` | actor/pid_tree.go:277-283 | dropping a child edge keeps consistency and freedom from cycles |
| `TreeViews.AdmitBase` | actor/pid_tree.go:160-186 | both indexes stay exact when a node is entered, also when its name shadows another node's |
| `TreeViews.GraphShape` | actor/pid_tree.go:31-45 | consistent child edges form a closed graph in which no node has two parents |
| `Forest.EdgeAcyclic` | actor/pid_tree.go:193-223 | an edge closes a cycle exactly if its source is below its target |
| `Forest.NoReturn` | actor/pid_tree.go:331-364 | no node of an acyclic graph is below one of its own children |
| `RestartSnapshot.BuildRestartSubtree` | actor/pid.go:3351-3383 | on a quiescent tree: restart nodes for exactly the living descendants, and where each of them is listed |
| `RestartSnapshot.FiledKeeps` | actor/pid.go:3367-3381 | one more node is appended to its parent's list, to the root's if the parent's id equals the root's up to case |
| `RestartSnapshot.LiveNodes` | actor/pid.go:3358-3363 | one node for each descendant that is running or suspended |
| `RestartSnapshot.AskParent` | actor/pid_tree.go:601-625 | a child's parent is the node that lists it; there is no answer for the NoSender's id |
| `RestartSnapshot.SnapshotExact` | actor/pid.go:3351-3383 | every list holds exactly the living children of its node if and only if no living node strays: none below the snapshot carries the NoSender's id up to case, and none has a parent other than the root with the root's id up to case |
| `RestartSnapshot.CaseClash` | actor/pid.go:3371-3376 | in the tree of the actors ab, Ab, AB and x, each the child of the one before and with the ids that addresses give them, the snapshot for Ab lacks the tree's edges |
| `RestartSnapshot.Misfiled` | actor/pid.go:3351-3383 | in every line of four actors whose third has the second's id up to case, a restart of the second files the fourth under the root |
| `RestartSnapshot.LeafStrays` | actor/pid.go:3371-3376 | in any tree a living grandchild whose parent has the root's id up to case is filed under the root and spoils the snapshot |
| `RestartSnapshot.SameUpToCase` | internal/address/address.go:242-277 | two addresses that carry parent and own name and are equal up to case |
| `RestartSnapshot.SnapshotReach` | actor/pid.go:3351-3383 | in an exact snapshot a node is reached from the root exactly if it and all its ancestors below the root are alive |
| `RestartSnapshot.ListedOnce` | actor/pid.go:3367-3381 | in an exact snapshot no node is listed under two parents |
| `RequestCompletion.RunKeepsInv` | actor/reentrancy.go:236-271 | over all interleavings, runs owed plus runs made is one exactly if a continuation is due |
| `RequestCompletion.FirstWins` | actor/reentrancy.go:236-271 | the first outcome and the first continuation never change |
| `RequestCompletion.RunsAtMostOnce` | actor/reentrancy.go:236-271 | the continuation runs at most once, it is the first one installed, and it gets the first outcome |
| `RequestCompletion.RunsExactlyOnce` | actor/pid.go:2050-2071 | once all goroutines rest, a completed request has run its continuation exactly if the completion went through completeRequest or came before the continuation; `RequestCompletion.RunsAsMoved` says it from the moves alone |
| `RequestCompletion.FirstInstallsFirstCompletes` | actor/reentrancy.go:236-271 | in every run, once a goroutine that started with Then has left its lock section, the continuation is that of the first such goroutine; once one has completed, outcome and route are those of the first |
| `RequestCompletion.RunsAsMoved` | actor/reentrancy.go:236-271 | at rest, from who moved first: no run without both a Then and a completion, none if the Then came before an actor-wide cancellation, otherwise one run of the first continuation with the first outcome, whatever the route |
| `RequestCompletion.ComesToRest` | actor/reentrancy.go:236-271 | every move uses up one of at most three moves per goroutine, so that every run comes to rest |
| `RequestCompletion.CancelledInSilence` | actor/pid.go:2144-2168 | a continuation installed before the actor cancels its requests never runs |
| `RequestTracking.RequestState.Complete` | actor/reentrancy.go:259-271 | the first result stays; only the first caller gets the continuation |
| `RequestTracking.Reentrancy.Register` | actor/pid.go:1984-2018 | refused exactly for nil and at a positive limit; counters and map agree afterwards exactly if the id was new |
| `RequestTracking.Reentrancy.Deregister` | actor/pid.go:2024-2045 | stops tracking; stashed messages are released exactly when the last blocking request leaves |
| `RequestTracking.Reentrancy.CompleteRequest` | actor/pid.go:2050-2071 | unknown ids are dropped; a tracked one is completed with the value, leaves the map, and its continuation is the one to run |
| `RequestTracking.Reentrancy.CancelEach` | actor/pid.go:2149-2164 | the loop completes every tracked request with the reason and has brought both counters to 0 on its own |
| `RequestTracking.Reentrancy.CancelInFlight` | actor/pid.go:2144-2168 | nothing is tracked afterwards |
| `RequestTracking.Reentrancy.Reset` | actor/reentrancy.go:354-361 | nothing is tracked afterwards |
| `RequestTracking.SetCounts` | actor/pid.go:1996-2016 | a new id adds one to the map and to the blocking requests it belongs to; a tracked id adds nothing to the map |
| `RequestTracking.DropCounts` | actor/pid.go:2029-2038 | removing a request takes exactly its own share from both counts |
| `RequestAccounting.CountersOff` | actor/pid.go:1984-2167 | in every interleaving of registrations, completions, deregistrations and cancellations each counter is the requests in the map and on their way in or out, less the slips of the run |
| `RequestAccounting.DriftStep` | actor/pid.go:2024-2045 | only a second delete, a second write under one id, or a store of 0 over another value moves the in-flight counter away from what it counts |
| `RequestAccounting.BlockingDriftStep` | actor/pid.go:2024-2045 | the same for the blocking counter |
| `RequestAccounting.CounterBounded` | actor/pid.go:1994-2007 | under the CAS loop the in-flight counter never passes a positive limit |
| `RequestAccounting.LimitUpToSlips` | actor/pid.go:1994-2007 | requests in the map and on their way are at most the limit plus the slips |
| `RequestAccounting.RightAtRest` | actor/pid.go:2144-2168 | in runs with fresh ids where a state is deregistered only by whoever completed it: once all goroutines rest, the in-flight counter is right if and only if, when the last cancellation stored its 0, nothing was tracked and no goroutine stood between reservation and map write or between map delete and decrement; the same for the blocking counter and its store |
| `RequestAccounting.OnlyZeroSlips` | actor/pid.go:2050-2071 | in such runs a request enters the map once and leaves it once, by its first completer: no map write and no map delete slips |
| `RequestAccounting.OrderHolds` | actor/reentrancy.go:259-271 | at every point of such a run an id is with one registering goroutine, or in the map, or spent, and a tracked request has exactly one goroutine that takes it out once it is completed, none before |
| `RequestAccounting.OrderlyCounts` | actor/pid.go:2144-2168 | at every point of such a run each counter is what is outstanding less what was outstanding at its last store of 0 |
| `RequestAccounting.LimitUpToLeftOver` | actor/pid.go:1994-2007 | in such a run the limit is exceeded at most by what the last store of 0 forgot |
| `RequestAccounting.OrderlyIsClean` | actor/pid.go:2144-2168 | such a run whose cancellations store 0 over nothing outstanding has no slips at all |
| `RequestAccounting.CleanRunCounts` | actor/pid.go:1984-2045 | without slips the limit holds in every interleaving, and at rest both counters are the sizes of the map |
| `RequestAccounting.ReleasedByTheLast` | actor/pid.go:2035-2041 | without slips the stash is released by the last blocking request and by no other |
| `RequestAccounting.CountersBelowZero` | actor/pid.go:2056-2065 | for every limit a run in which a completion beside a cancellation leaves both counters at -1 with nothing tracked |
| `RequestAccounting.BlockingUnseen` | actor/pid.go:1906-1910 | after it a blocking request is in flight with a blocking counter of 0, so that nothing is stashed |
| `RequestAccounting.DroppedTwice` | actor/pid.go:1677-1686 | for every limit a run in which the error path of a request, which deregisters without completing, and a cancellation both delete and both decrement, so that the counters rest at -1 |
| `RequestFates.EveryRequestSettles` | actor/pid.go:1984-2071 | in every orderly run, once all goroutines rest, a registered request is exactly one of three: refused, tracked and open, or completed and gone from the map |
| `RequestFates.RefusedAtLimit` | actor/pid.go:1994-2001 | a registration is refused exactly if it loads a count at a positive limit |
| `RequestFates.SomewhereInRun` | actor/pid.go:1984-2071 | at every point of such a run a registered request is in exactly one place: on its way in, tracked, refused, or completed and gone |
| `RequestFates.CancelledAreCompleted` | actor/pid.go:2144-2164 | when a cancellation has gone through the keys it listed, every request that was tracked at the listing is completed, by it or by another goroutine |
| `RequestFates.CancelledAreGone` | actor/pid.go:2144-2168 | and once all goroutines rest none of these requests is in the map |
| `RequestFates.FoundAreCompleted` | actor/pid.go:2050-2071 | a goroutine that finds a tracked request completes it in its next step, and once all rest it is gone |
| `Passivation.RootIsLeast` | actor/passivation_manager.go:559-586 | the root of the heap has the least deadline |
| `Passivation.UpStep` | actor/passivation_manager.go:563-571 | one exchange with the parent moves the only broken edge up |
| `Passivation.DownStep` | actor/passivation_manager.go:563-571 | one exchange with the smaller child moves the broken edges down |
| `Passivation.ReplaceKeepsRest` | actor/passivation_manager.go:258-279 | a changed deadline breaks only the edges at its place |
| `Passivation.DeadlineQueue.Swap` | actor/passivation_manager.go:567-571 | exchanges two places; right indexes stay right |
| `Passivation.DeadlineQueue.Up` | actor/passivation_manager.go:559-586 | sifting up restores the heap and keeps the entries |
| `Passivation.DeadlineQueue.Down` | actor/passivation_manager.go:559-586 | sifting down restores the heap unless the entry belongs higher, and keeps the entries |
| `Passivation.DeadlineQueue.Push` | actor/passivation_manager.go:573-577 | adds the entry; heap order and indexes hold if it was not queued already |
| `Passivation.DeadlineQueue.Pop` | actor/passivation_manager.go:579-586 | takes out the root, its index is -1, the rest stays a heap with right indexes |
| `Passivation.DeadlineQueue.Remove` | actor/passivation_manager.go:145-148 | takes out the entry at any place, with the same guarantees |
| `Passivation.DeadlineQueue.Fix` | actor/passivation_manager.go:276-278 | restores the heap after one deadline changed |
| `Passivation.DeadlineQueue.Refresh` | actor/passivation_manager.go:276-278 | a new deadline for a queued entry, same entries, order restored |
| `Passivation.DeadlineQueue.RootFirst` | actor/passivation_manager.go:330-347 | no queued entry is due before the root |
| `PassivationManager.Manager.Register` | actor/passivation_manager.go:129-177 | registry, entry and heap after a registration, for each strategy; heap and registry still agree exactly unless a time-based registration hits the entry in flight; a time-based registration sets the timeout that every later deadline of the entry is computed from, any other leaves timeout and deadline alone |
| `PassivationManager.Manager.Unregister` | actor/passivation_manager.go:180-199 | the registration and its place in the heap are gone, nothing else |
| `PassivationManager.Manager.Pause` | actor/passivation_manager.go:202-221 | the entry is paused and out of the heap |
| `PassivationManager.Manager.Resume` | actor/passivation_manager.go:225-255 | a paused time-based entry is back with a fresh deadline; heap and registry still agree exactly unless it is the entry in flight |
| `PassivationManager.Manager.Touch` | actor/passivation_manager.go:258-279 | moves the deadline of a queued entry, leaves everything else alone |
| `PassivationManager.Manager.NextEntry` | actor/passivation_manager.go:330-347 | the unpaused entry with the least deadline; drops only paused ones, none if heap and registry agree |
| `PassivationManager.Manager.TriggerPop` | actor/passivation_manager.go:349-372 | pops the expected root exactly if its deadline has come; no queued entry is due before it |
| `PassivationManager.Manager.TriggerFinish` | actor/passivation_manager.go:374-396 | heap and registry agree afterwards if and only if nobody queued the entry in flight again or made it message-counted |
| `PassivationManager.Manager.Requeue` | actor/passivation_manager.go:393-395 | pushing back is sound exactly for a time-based entry that is not queued |
| `PassivationManager.RegisterDuringTrigger` | actor/passivation_manager.go:129-177 | whenever an entry in flight is registered again before its trigger settles, it ends up in the heap twice |
| `PassivationManager.QueuedTwice` | actor/passivation_manager.go:567-577 | an entry in two places has a wrong index in one of them |
| `Slack.RunKeepsInv` | actor/pid.go:2171-2185 | in every run that never registers or resumes an entry in flight: the heap holds the entry at most once, and with no touch under way its deadline is late enough for every touch, every returned mark and every mark that lost the interval |
| `Slack.FreshDeadline` | actor/passivation_manager.go:417-423 | a refreshed deadline is, up to the skew of overlapping stores, a whole timeout after the last touch and late enough for every mark, returned or under way |
| `Slack.TriggerIsLate` | actor/passivation_manager.go:349-372 | in such a run a trigger never picks an actor whose last activity that had settled when last no touch was under way is less than timeout - 100ms - skew ago; with no touch under way that is the last settled activity, with no mark under way the last activity |
| `Slack.DeadlineSlack` | actor/pid.go:2171-2185 | with no mark under way every queued deadline is later than the last activity + timeout - 100ms - skew |
| `SlackHistory.ToldFromActions` | actor/pid.go:2171-2185 | clock, timeout, greatest time stored and skew of a run are functions of its actions: the timeout is that of the last time-based registration, the skew the most that a store fell behind |
| `SlackHistory.InOrderNoSkew` | actor/pid.go:2171-2185 | there is no skew exactly if no store falls behind an earlier one |
| `SlackHistory.ReturnedSettle` | actor/pid.go:2171-2185 | a marker works on what it stored last, and when it is back at rest that time has settled |
| `SlackHistory.PickedLate` | actor/passivation_manager.go:349-372 | told from the actions: a trigger picks an actor more than timeout - 100ms - skew after every activity whose mark had returned at some point where no touch was under way |
| `SlackHistory.NeverTooLate` | actor/passivation_manager.go:417-423 | a queued deadline is never more than a timeout from now |
| `SlackHistory.IdleIsDue` | actor/passivation_manager.go:330-372 | an actor in the heap that is left alone after an activity can be picked a timeout later |
| `Slack.PickedWhileMarking` | actor/pid.go:2171-2185 | between storing the time and touching the heap an actor active this very instant is picked |
| `Slack.PickedWhileTouching` | actor/pid.go:2171-2185 | for every timeout from 100ms on, a run in which a mark that found the interval taken has returned and the actor is picked at that very instant, before the winner touches the heap |
| `Slack.PickedAfterStaleStore` | actor/pid.go:2171-2185 | a run in which a late store of an older time takes the deadline back: the skew in the bound is needed |
| `Slack.PickedAfterSwitch` | actor/passivation_manager.go:374-396 | an entry switched to message counting while in flight is picked although it was active this very instant |
| `Slack.PickedAfterRegister` | actor/passivation_manager.go:129-177 | a run in which an entry registered anew in flight is later picked although it was active this very instant |
| `Slack.PickedAfterResume` | actor/passivation_manager.go:225-255 | the same for an entry paused and resumed in flight |
| `Slack.DoubledByResume` | actor/passivation_manager.go:225-255 | a run in which an entry paused and resumed in flight is in the heap twice |
| `Slack.NeverLost` | actor/passivation_manager.go:330-347 | in a run that never registers or resumes an entry in flight the heap holds no paused entry without an index |
| `Slack.LostAfterRegister` | actor/passivation_manager.go:330-347 | a run after which nextEntry would remove a paused entry with index -1, after a registration in flight |
| `Slack.LostAfterResume` | actor/passivation_manager.go:330-347 | the same after a resumption in flight |
| `RemoteWatch.Side.Add` | actor/remote_watch_registry.go:107-146 | the relation gains exactly one pair, both views agree, no inner map is empty |
| `RemoteWatch.Side.Remove` | actor/remote_watch_registry.go:150-179 | the relation loses exactly one pair, emptied inner maps are gone |
| `RemoteWatch.Side.For` | actor/remote_watch_registry.go:183-201 | the addresses of one actor, each once |
| `RemoteWatch.Side.DropPid` | actor/remote_watch_registry.go:303-323 | exactly one actor's pairs are gone from both views |
| `RemoteWatch.Side.DropHost` | actor/remote_watch_registry.go:353-377 | exactly one host's pairs are gone and returned, each once |
| `RemoteWatch.Registry.DropPid` | actor/remote_watch_registry.go:303-346 | in both directions exactly one actor's pairs are gone |
| `RemoteWatch.Registry.DropHost` | actor/remote_watch_registry.go:353-396 | in both directions exactly one host's pairs are gone and returned |
| `RemoteWatch.AddPid` | actor/remote_watch_registry.go:119-127 | one pair more, whether or not the actor was known |
| `RemoteWatch.RemovePid` | actor/remote_watch_registry.go:161-166 | one pair less, and no empty inner map is left |
| `RemoteWatch.AddHost` | actor/remote_watch_registry.go:129-145 | the reverse index gains exactly one triple |
| `RemoteWatch.RemoveHost` | actor/remote_watch_registry.go:168-178 | the reverse index loses exactly one triple, and no empty inner map is left |
| `Convergence.ReplicasConverge` | actor/replicator.go:378-415 | in every run of any number of replicas, two that have the effects of the same updates and deltas of a key nobody deleted hold equal contents, whether the effects came as deltas, in batches, inside the full states of others or by coordinated reads, in any order, with losses and repetitions, and whatever the deltas say |
| `Convergence.ValueIsJoin` | actor/replicator.go:554-581 | in every run a replica's value of a key nobody deleted is the join of the effects it has: its updates' own, and those of the deltas, states and answers it has absorbed |
| `Convergence.StateCatchesUp` | actor/replicator.go:662-696 | one full state brings all effects of a key that its sender has |
| `Convergence.StepKeeps` | actor/replicator.go:378-709 | every update with its published delta, delivery, batch, full state, deletion, coordinated read and expiry keeps that |
| `Convergence.PacketKeeps` | actor/replicator.go:554-696 | absorbing any packet joins exactly the effects it carries |
| `Convergence.ReadKeeps` | actor/replicator.go:932-978 | a coordinated read joins exactly the effects that its answers carry |
| `Convergence.PublishedOk` | actor/replicator.go:396-406 | a published delta stands for the effect of its update, or for one of its own where it does not say all that changed |
| `Reaching.UpdateStays` | actor/replicator.go:378-415 | in every run the effect of an update is in its replica's value from then on, unless somebody deletes the key |
| `Reaching.UpdatePublishes` | actor/replicator.go:404-409 | an update puts exactly its delta on the wire |
| `Reaching.DeliveredStays` | actor/replicator.go:554-696 | in every run what a replica takes in from a delta, a full state or a foreign batch is in its value from then on, unless somebody deletes the key; told from the values, not from what is recorded as known |
| `Reaching.AnswerStays` | actor/replicator.go:932-978 | the same for what a peer answers to a coordinated read |
| `Reaching.ErasePublishes` | actor/replicator.go:476-518 | a deletion removes the key at its replica and sends a tombstone that names it |
| `Reaching.GraveReaches` | actor/replicator.go:521-541 | a tombstone removes the key at every other replica that it reaches, also inside a foreign batch |
| `Lattices.JoinOfBoth` | actor/replicator.go:554-581 | the join of two joins is the join of both sets of effects |
| `Lattices.JoinIsUnique` | actor/replicator.go:554-581 | a join depends on the set of effects only |
| `Replicator.ReplicatorActor.HandleUpdate` | actor/replicator.go:378-415 | rejected for a tombstoned key; otherwise the key has the updated value, one more version and, if it was new, the update's type, and exactly the delta of this update is published; what versions and types come to is `ReplicatorHistory.RunTells` |
| `Replicator.ReplicatorActor.HandleDelta` | actor/replicator.go:554-581 | own deltas and tombstoned keys are ignored, others merged or stored |
| `Replicator.ReplicatorActor.HandleFullState` | actor/replicator.go:662-696 | every entry of a full state is merged like a delta |
| `Replicator.ReplicatorActor.HandleIncomingBatch` | actor/replicator.go:1302-1320 | deltas, then tombstones, in the order of the batch |
| `Replicator.ReplicatorActor.HandleGet` | actor/replicator.go:418-432 | the answer is the local value with all peers' answers merged in, and is stored |
| `Replicator.ReplicatorActor.HandlePrune` | actor/replicator.go:700-709 | exactly the expired tombstones are gone |
| `Replicator.ReplicatorActor.BuildDigest` | actor/replicator.go:721-742 | the digest lists exactly the keys with a value, each with its version |
| `Replicator.ReplicatorActor.HandleDigest` | actor/replicator.go:623-657 | the answer holds exactly the keys that the digest lacks or lists with a lower version, each once, with value and type |
| `ReplicatorHistory.RunTells` | actor/replicator.go:378-748 | after every run from an empty store, told from the messages alone: a key's version is the number of updates, foreign deltas, full-state entries and entries of foreign batches for it since it was last entombed that came while it had no tombstone, and it is listed exactly if positive; its type is that of the message that last gave it a value when it had none; it has a value, and a tombstone by whom, exactly as the messages say |
| `ReplicatorHistory.MessageTells` | actor/replicator.go:378-748 | the same for one message in any store |
| `ReplicatorHistory.FullStateOffers` | actor/replicator.go:662-696 | a full state raises the version by its entries for the key, and the first of them gives a new key its type |
| `ReplicatorHistory.TombstonesTell` | actor/replicator.go:521-541 | of the tombstones in a batch the last one from another node names the author |
| `AntiEntropy.RoundOnKey` | actor/replicator.go:623-696 | what a round of digest and full state does to a key of the asking replica: the other's value comes in exactly if it is missing or its version is higher, and the version goes up by one |
| `AntiEntropy.RoundsRepair` | architecture/CRDTs.md:386-402 | in every run of rounds between two replicas in which both have asked, they agree on an undeleted key exactly if one of them lacked it or the one with the higher version already had all that the other says; with equal versions, exactly if they agreed before |
| `AntiEntropy.OneUpdateEach` | architecture/CRDTs.md:386-402 | two replicas that each made one update of a key keep their two values through any number of rounds, whatever the updates are |
| `AntiEntropy.NobodyLearns` | actor/replicator.go:638-653 | where neither side is behind, no round changes the key on either side |
| `AntiEntropy.LearnsInRun` | actor/replicator.go:638-653 | the side that is behind has the join of both values once it has asked, and the other side keeps its own |
| `Replicator.BuriedForGood` | actor/replicator.go:418-541 | a deleted key keeps its tombstone and stays without value and version at every point of a run of messages if and only if no read of it is answered by a peer and its tombstone is not pruned |
| `Replicator.StaysGone` | actor/replicator.go:378-709 | a key without a value stays so at every point of a run if and only if no read of it is answered and no update, foreign delta, full state or foreign batch for it arrives while it has no tombstone |
| `Replicator.ReadBringsBack` | actor/replicator.go:418-432 | from every store: a delete, then a read that a peer answers, and the answer is stored beside the tombstone |
| `Replicator.PruneBringsBack` | actor/replicator.go:700-709 | from every store: a delete, the expiry of its tombstone, then a foreign delta, and the key is back |
| `Replicator.RunEntombs` | actor/replicator.go:476-541 | whether a key has a tombstone follows from the deletes, tombstones and prunes received alone |
| `Replicator.MessageEffect` | actor/replicator.go:333-374 | what each message does to the tombstone, the value and the version of each key |
| `Replicator.NeverBoth` | actor/replicator.go:418-432 | a key has at no point of a run both a value and a tombstone if and only if no read of it is answered while it has a tombstone |
| `Replicator.NoVersionBesideIt` | actor/replicator.go:476-541 | in every run a key with a tombstone has no version |
| `CounterReplication.CounterLaws` | crdt/gcounter.go:88-101 | the grow-only counter satisfies the laws convergence needs |
| `CounterReplication.IncrementsAreFaithful` | crdt/gcounter.go:52-57 | an increment is faithfully replicated exactly if the 64-bit slot does not wrap around |
| `OrSetReplication.SetsConverge` | crdt/or_set.go:130-178 | in every run, with every delta published, two replicas with the effects of the same updates and deltas hold the same live dots and the same clock |
| `OrSetReplication.SetLaws` | crdt/or_set.go:130-178 | the merge of OR-sets is a join of what the sets say |
| `OrSetReplication.MergeSaysBoth` | crdt/or_set.go:130-178 | a merged set says the join of what both say about every dot and every clock entry |
| `OrSetReplication.ViewsAsSame` | crdt/or_set.go:130-178 | two well-formed sets say the same exactly if they have the same live dots and clock |
| `OrSetReplication.AddInflates` | crdt/or_set.go:70-85 | an Add makes its set say more, and its delta is well-formed |
| `OrSetReplication.RemoveInflates` | crdt/or_set.go:87-96 | a Remove makes its set say more, and its delta is well-formed |
| `OrSetReplication.AddDeltaIsFaithful` | crdt/or_set.go:187-221 | an Add can be replicated by its delta alone exactly if the set holds no live dot of the adding node |
| `OrSetReplication.RemoveDeltaIsFaithful` | crdt/or_set.go:187-221 | a Remove can be replicated by its delta alone exactly if it removes something and no other element has a live dot as old as a removed one of the same node |
| `OrSetReplication.AddIsStep` | actor/replicator.go:378-415 | at every point of every run an Add is a step of the run, whatever its delta says |
| `OrSetReplication.RemoveIsStep` | actor/replicator.go:378-415 | and so is a Remove |
| `GCounters.MergeCommutes` | crdt/gcounter.go:88-101 | merge is commutative |
| `GCounters.MergeAssociates` | crdt/gcounter.go:88-101 | merge is associative |
| `GCounters.IncrementDeltaFaithful` | crdt/gcounter.go:107-119 | merging the delta gives the incremented counter exactly if the slot does not wrap around |
| `GCounters.IncrementSlots` | crdt/gcounter.go:52-58 | an increment adds to its own slot modulo 2^64 and to no other |
| `LwwRegisters.MergeCommutes` | crdt/lww_register.go:78-93 | merge commutes exactly if equal timestamp and node imply equal value |
| `LwwRegisters.MergeAssociative` | crdt/lww_register.go:78-93 | merge is associative for all registers |
| `LwwRegisters.MergeIsLatest` | crdt/lww_register.go:78-93 | the merge is one of the two writes, and neither is later than it |
| `LwwRegisters.SetDeltaFaithful` | crdt/lww_register.go:50-57 | peers end up with what the writer sees exactly if the write is later than what it overwrites, or the same write |
| `OrSet.KeepSpec` | crdt/or_set.go:130-178 | a dot survives a merge exactly if the other side has it too or has not seen it |
| `OrSet.EverySetIsSound` | crdt/or_set.go:60-221 | New, Add, Remove, ResetDelta, Merge and Delta keep every set well-formed |
| `OrSet.MergeHas` | crdt/or_set.go:130-178 | the live dots of a merged set |
| `OrSet.MergeIsMaximum` | crdt/or_set.go:130-178 | a merge keeps the greater knowledge about every dot |
| `OrSet.MergeCommutative` | crdt/or_set.go:130-178 | merge is commutative on well-formed sets |
| `OrSet.MergeAssociative` | crdt/or_set.go:130-178 | merge is associative on well-formed sets |
| `OrSet.MergeIdempotent` | crdt/or_set.go:130-178 | merging a set with itself changes nothing |
| `OrSet.Members` | crdt/or_set.go:70-102 | after an add the element is a member, after a remove it is not, and no other membership changes |
| `OrSet.AddWins` | crdt/or_set.go:130-178 | an add that the other replica has not seen survives its removal of the element |
| `OrSet.SeenIsRemoved` | crdt/or_set.go:130-178 | a removal by a replica that has seen all adds takes the element out of the merge, and no other |
| `OrSet.EmptyIsIdentity` | crdt/or_set.go:60-66 | the empty set is the identity of merge |
| `OrSet.FullStateIsFaithful` | crdt/or_set.go:70-96 | merging a whole updated state into the old one gives the updated one, for Add and Remove |
| `OrSet.AddDelta` | crdt/or_set.go:187-221 | what the delta of an Add holds and which clock it claims |
| `OrSet.AddDeltaFaithful` | crdt/or_set.go:187-221 | sending only the delta of an Add is faithful exactly if the set holds no live dot of the adding node |
| `OrSet.RemoveDeltaFaithful` | crdt/or_set.go:187-221 | sending only the delta of a Remove is faithful exactly if no other element has a live dot as old as a removed one of the same node |
| `OrSet.DeltasLoseAnAdd` | crdt/or_set.go:187-221 | two adds by one node, replicated by deltas, lose the first at the peer and then at its origin |
| `OrMaps.MapMergeCommutes` | crdt/or_map.go:119-145 | map merge is commutative |
| `OrMaps.MapMergeAssociates` | crdt/or_map.go:119-145 | map merge is associative exactly if no value of a surviving key is lost with a merge that drops the key |
| `OrMaps.MapMergeOrderMatters` | crdt/or_map.go:119-145 | three concrete replicas whose merge order decides the value |
| `Quorum.SelectPeers` | actor/replicator.go:1021-1036 | the asked number of peers, none more often than it is there, and which ones the draws decide: the i-th place is exchanged with the one draws[i] further |
| `Quorum.EveryChoiceIsDrawn` | actor/replicator.go:1029-1035 | every choice of different peers in every order comes from some draws |
| `Quorum.ChoiceTellsDraws` | actor/replicator.go:1029-1035 | and from no others, so that even draws give an even choice |
| `Quorum.MajorityIsLeast` | actor/replicator.go:1004-1012 | a majority is the least number of peers that is more than half of them, capped by how many there are |
| `Quorum.PickedAreDistinct` | actor/replicator.go:1021-1036 | picked from distinct peers means distinct members |
| `Quorum.MajoritiesIntersect` | actor/replicator.go:1004-1036 | for one membership of at least two nodes any two Majority contact sets share a member |

## Left out

- The int32 mirrors of ring sizes as counters: the probes of the shared ring and of siblings may answer anything, that of a worker's own ring may miss that a thief has emptied it.
- `close()` of the ready queue and what workers do after it.
- The two-mailbox variant of the protocol in `actor/pid.go`, and `Restart` with its unconditional state reset, across which the token invariant is not claimed.
- Nodes of the actor tree are values in a store under references, not heap objects; the nil maps a deletion leaves behind are empty maps, so that a write to them by a re-used root node does not fail as it would in Go.
- Unicode case folding of ids: letters A to Z only.
- `siblings`, `children`, `watchers`, `watchees`, `nodes` and the lookups of the actor tree: they read one map.
- RestartSnapshot.BuildRestartSubtree: asks for all parents before it files the nodes, and its restart nodes are lists by id, because the tree is quiescent meanwhile and ids are unique.
- Message-count passivation: its pending and enqueued flags and the trigger channel.
- Slack.TriggerIsLate: is one way, and excludes runs that register or resume an entry in flight; the failing run of each exception is in the same module, and the bound from the other side is SlackHistory.NeverTooLate.
- AntiEntropy.RoundsRepair: is about keys that neither replica has deleted; a tombstone keeps full states out.
- RequestTracking.Reentrancy.Register: is one atomic step of the object; its CAS loop, the blocking count and the map write are separate steps in RequestAccounting.
- RequestAccounting does not force a caller to register a request before it completes or deregisters it, so that its results hold for more runs than the code has; failing runs follow the code's order.
- Request timeouts and the delivery of cancellations through the mailbox: they are further completers in the completion machine.
- Go's `container/heap` is modelled by its documented sift operations, which are not part of the repository.
- Compaction of stored values, the choice of the peer to ask in anti-entropy, rounds that overlap, and the wire formats of the replicator. When a tombstone expires and what the peers answer to a read are parameters. A restart from a snapshot is a new run from a store without tombstones.
- The OR-set's clock counters are unbounded; its `Compact` is not modelled.
- PN-counter, flag, multi-value register: they add no harder law than the types here.
- Grain activation across the cluster, remoting, discovery, the data-center controller, supervision, stashing, events, metrics and configuration.
