# Porto: the container locks, the CPU jail allocator and the container tree

Porto is a container manager. This project models the parts of it in which a wrong step would be
hard to see: two locks shared by all request threads, the allocator that hands out CPUs to
`jail` containers, and the computations that walk the container tree. Everything a part does to the
kernel is reduced to the value it writes.

**The action lock** (`ActionLock`, `ActionLockProtocol`, `ActionLockSafety`, `ActionLockTheorems`,
`ActionLockStarvation`, `ActionLockWitness`). `LockAction`, `UnlockAction`, `DowngradeActionLock` and
`UpgradeActionLock` form one shared/exclusive lock over an unbounded tree of containers. The class
`ActionLock.Container` has the source's fields and its loops over `Parent`; each method is one critical
section under the containers mutex and is proved to do to the snapshot of all containers what a function
says. Those functions are the steps of a state machine of any number of threads, in which containers are
created and destroyed, sleepers wake for no reason, and `notify_all` wakes everybody. An inductive
invariant is kept by every step, and the theorems hold in every reachable state. The environment is
assumed to behave as the request code does: a thread holds at most one action lock, waits while holding
only inside an upgrade, upgrades only after a downgrade, and destroys containers bottom up, while it has the
exclusive lock at or above them or in the critical section in which it gives that lock back (a failed restore).
Containers may be created below any live container, whoever holds locks there.

**The state lock** (`StateLock`) is the second lock, packed into one integer. The class has the source's
methods, the state machine runs them.

**CPU jails** (`JailCounters`, `JailPicker`, `CpuJail`, `NodeRequest`, `JailBalance`, `JailWitness`). Four linked counters,
the greedy picker, `Allocate` with restore and rollback, `Release`, the water-filling of wanted use per
NUMA node, and the search for overloaded CPUs. Bitmaps are sets, `std::push_heap`/`std::pop_heap` are their
contract: any element that no other one precedes may come out. The topology is that of `BuildCpuTopology`'s
result: every index below `HostCpus.Size()` has a node, online or not.

**CPU limits** (`CpuBounds`, `CpuQuota`, `CpuPlan`, `CpuSteady`, `TreeGrowth`, `CpuLimit`, `CpuLimitWitness`).
`CpuLimitBound` down the tree, and the writes that bring it to the kernel. The class `CpuLimit.CpuLimits` starts
with the root container and lets containers be created, started, stopped and limited in any order; every operation
keeps the tree steady. A container that was never applied has `CpuLimitCur` 0, as in the source, and a stopped one
may have any.

**The tree** (`ContainerTree`, `Subtree`, `CpusetTree`, `MemGuarantee`, `StateCounters`, `OomKills`,
`ContainerNames`, `CgroupNames`). Trees are values where the source only reads the links, and what the
source writes (cpuset contents, bounds, counters) is a field that methods update.
The kernel is a table that refuses a write that breaks its rule; the theorems say when it refuses, if ever.

`Sums` is finite summation, `ContainerPaths` addresses a container by the ids on its way from the root,
`Options` is the optional value.

Integers are unbounded unless a module says otherwise.

## Results at a glance

* Write-origin holders of the action lock form an antichain in every reachable state; an exclusive lock that
  was never downgraded owns its subtree. An *upgraded* lock owns it exactly when `SubtreeRead` was zero,
  and a reachable state shows that it may not be.
* `SubtreeRead` is the sum of the absolute values of `ActionLocked` over the strict descendants; the assertions of the lock never fire.
* No wake-up is lost and nobody is stuck: whenever a thread waits, a holder is running or an awake waiter
  can go on.
* The comment in the source promises that no reader overtakes a waiting writer. It is so for a sleeping writer, and
  for any writer exactly as long as a flag stands at or above its container or a lock in write mode is there. The
  flag goes exactly when a writer gets the lock, which clears the flag of all: a reachable state shows a woken
  writer being overtaken.
* The counters of the jail allocator are exactly determined by the live allocations through any sequence of
  allocations, restores, releases and failures; a failed allocation leaves every counter as it was.
* An accepted jail always gets its CPUs where every index it may choose is online; with an offline index on its
  node it can fail, and the two-call sequence that does succeeds exactly when there is no such index. With such an
  index a fresh allocation never shares a CPU, and fails when too few are unused.
* The wanted use of the nodes has the least possible maximum, and among such distributions asks for the
  fewest moves.
* `FindUnbalancedJailCpus` does not compute a minimum: the spread it reports is real, and it notices a spread
  exactly when the less used CPU is unused or the last of its node.
* A change of a CPU limit reaches the kernel in an order it accepts, although propagation stops early, with one
  exception: a limit on a running container to which no bound was ever applied is refused exactly when a container
  below already has a larger one, because `CpuLimitCur` is still 0 and the container is written before those below. The limit is then taken back
  and everything is as before. Starting a container is never refused.

## Model

| member | source | states |
|---|---|---|
| `ActionLock.Container.IsBusy` | src/container.cpp:247-255 | the early-stopping loop over the ancestors decides exactly whether the container or any strict ancestor refuses the lock |
| `ActionLock.Container.TryLockAction` | src/container.cpp:242-259 | one pass of the wait loop: its outcome and the new fields of all containers, as functions of the old ones |
| `ActionLock.Container.CountLock` | src/container.cpp:260-264 | the container's count moves by one and its flag is cleared, every strict ancestor counts one more reader, nothing else changes |
| `ActionLock.Container.MoveSubtreeRead` | src/container.cpp:263-275 | the loop up the parents changes `SubtreeRead` of exactly the strict ancestors |
| `ActionLock.Container.UnlockAction` | src/container.cpp:268-282 | the inverse on the ancestors; the sign of the count decides what is given back |
| `ActionLock.Container.DowngradeActionLock` | src/container.cpp:291-299 | -1 becomes 1 and nothing else changes |
| `ActionLock.Container.MarkPending` | src/container.cpp:256-257 | the flag left by a blocked writer, and likewise by an upgrade before it waits |
| `ActionLock.Container.TryUpgrade` | src/container.cpp:310-316 | one pass of the upgrade's wait loop, which looks at this container only |
| `ActionLockSafety.StepKeepsInv` | src/container.cpp:238-317 | every step of every thread keeps the tree, counting, exclusion, flag and wake-up invariants |
| `ActionLockSafety.ReachableInv` | src/container.cpp:238-317 | the invariants hold in every reachable state |
| `ActionLockTheorems.Exclusion` | src/container.cpp:225-317 | over all runs: write-origin holders are pairwise unrelated, an exclusive lock that was not downgraded has no other holder at or below it, a writer is alone on its container |
| `ActionLockTheorems.AssertionsHold` | src/container.cpp:272-293 | the assertions in unlock and downgrade hold for every caller that has the lock |
| `ActionLockTheorems.SharedAdmission` | src/container.cpp:248-255 | a reader is let in exactly when no writer holds at or above and no flag is set at or above; who holds below does not matter |
| `ActionLockTheorems.ExclusiveAdmission` | src/container.cpp:250-255 | a writer is let in exactly when nobody holds at, above or below and no flag is set above |
| `ActionLockTheorems.SumCountsHolders` | src/container.cpp:225-233 | over any set of containers the sum of the absolute counts is the number of holders there |
| `ActionLockTheorems.CountersAgree` | src/container.cpp:226-232 | `SubtreeRead` is the sum of the absolute values of `ActionLocked` over the strict descendants, and `ActionLocked` is at least -1 |
| `ActionLockTheorems.NoLostWakeup` | src/container.cpp:258-311 | a step leaves a sleeper behind whose condition it made true exactly when it destroys the container the sleeper wants to lock, and then an exclusive holder has still to unlock |
| `ActionLockTheorems.DeadlockFree` | src/container.cpp:238-317 | when no holder is running, the condition of some waiting thread is true |
| `ActionLockTheorems.NeverStuck` | src/container.cpp:238-317 | in every reachable state with a waiting thread a holder runs or an awake waiter can go on |
| `ActionLockTheorems.WriterAdmitsNobody` | src/container.cpp:247-255 | while a lock stays in write mode no step adds a holder at or below it |
| `ActionLockTheorems.UpgradeOwnsSubtree` | src/container.cpp:301-317 | after an upgrade nobody else holds the container, and nobody holds below exactly if `SubtreeRead` was zero |
| `ActionLockTheorems.UpgradeCountdown` | src/container.cpp:308-317 | while a thread upgrades, the count falls by exactly the unlocks at its container, and it can go on exactly after all others there have unlocked |
| `ActionLockWitness.UpgradedOverReader` | src/container.cpp:310-316 | a reachable state with an upgraded lock and a reader below it |
| `ActionLockStarvation.StepShutsOut` | src/container.cpp:234-260 | every step keeps: where a writer sleeps there is the flag or a lock in write mode |
| `ActionLockStarvation.NoReaderPastSleepingWriter` | src/container.cpp:256-258 | while a writer sleeps no reader is let in at its container or below |
| `ActionLockStarvation.ReadersShutOutIff` | src/container.cpp:234-235 | no reader is let in at or below a live container exactly when a flag stands at or above it or a lock in write mode is there |
| `ActionLockStarvation.MarkGoesWith` | src/container.cpp:256-316 | a flag that stands goes exactly with a writer that gets the lock of that container, by locking or upgrading |
| `ActionLockStarvation.MarkProtects` | src/container.cpp:234-260 | through any run in which no writer gets the lock of a flagged container the flag stands and no reader comes in at or below |
| `ActionLockStarvation.ReaderOvertakes` | src/container.cpp:234-260 | the comment's promise fails for a woken writer: a reachable state in which it waits and a reader is let in |
| `StateLock.StateLock.TryLockStateRead` | src/container.cpp:323-326 | one pass of the reader's wait loop: one reader more is encoded exactly if no writer is |
| `StateLock.StateLock.TryLockStateWrite` | src/container.cpp:333-336 | the writer is encoded over the same readers; refused, draining or admitted by who was there |
| `StateLock.StateLock.TryFinishWrite` | src/container.cpp:336-338 | with a writer encoded, it is let in exactly if no reader is left |
| `StateLock.StateLock.DowngradeStateLock` | src/container.cpp:341-347 | the code of a lone writer becomes that of one reader and no writer |
| `StateLock.StateLock.UnlockState` | src/container.cpp:349-357 | one reader less is encoded, or no writer when no reader was left; everybody is woken exactly when a writer was encoded over at most one reader |
| `StateLock.StepKeepsCode` | src/container.cpp:319-357 | the integer goes on encoding the readers and the one writer |
| `StateLock.StepKeepsWake` | src/container.cpp:346-356 | no step leaves a sleeper behind whose condition it made true |
| `StateLock.EncodesHolders` | src/container.cpp:319-357 | in every reachable state the integer encodes the readers and the one writer, an active writer has no readers, and 0 is exactly nobody |
| `StateLock.WriterIsAlone` | src/container.cpp:329-339 | beside an active writer nobody reads or has arrived; two writers never both arrived |
| `StateLock.ArrivalClosesTheDoor` | src/container.cpp:333-337 | once a writer arrived nobody is let in or arrives until it downgrades or unlocks |
| `StateLock.NeverStuck` | src/container.cpp:319-357 | a waiting thread has a holder or an awake waiter that can go on |
| `StateLock.DrainCountdown` | src/container.cpp:335-337 | a writer that arrived over r readers is let in after exactly r of their unlocks |
| `JailCounters.MatchesUnique` | src/cpuset.cpp:210-226 | the live allocations determine all four counters |
| `JailCounters.MoveMatches` | src/cpuset.cpp:220-224 | one CPU more or less in the counters is that CPU more or less in one allocation |
| `JailCounters.MayTakeAway` | src/cpuset.cpp:220 | the assertion before a decrement holds: what an allocation has is counted |
| `CpuJail.JailSpec.UpdateJailCpuState` | src/cpuset.cpp:210-226 | from counters that count `curr` to counters that count `next` |
| `JailPicker.FindBest` | src/cpuset.cpp:233-247 | the scan finds the best CPU of all indices |
| `CpuJail.JailSpec.NextJailCpu` | src/cpuset.cpp:228-259 | the best CPU is refused if it is not online or there is none, and else counted and added |
| `JailPicker.BestIsLeast` | src/cpuset.cpp:233-247 | the best CPU is eligible, no eligible CPU scores less, and none before it scores the same |
| `JailPicker.PicksFill` | src/cpuset.cpp:303-310 | the loop of single picks, stopping at a failed one, is the recursive definition of a fresh allocation |
| `JailPicker.FillChooses` | src/cpuset.cpp:303-310 | what a fresh allocation takes, how much, and what it does to the use of every CPU |
| `JailPicker.FillTakesLeastUsed` | src/cpuset.cpp:228-259 | no eligible CPU left out was used less than one taken |
| `JailPicker.FillKeepsEven` | src/cpuset.cpp:228-259 | a fresh allocation, bound to a node or not, keeps the spread inside every node at one or less |
| `JailPicker.AcceptedSucceeds` | src/cpuset.cpp:394-405 | with every candidate index online an accepted jail gets exactly its size, on its node, whatever is in use |
| `JailPicker.BothSucceedIffOnline` | src/cpuset.cpp:249-250 | everything available on a node, or anywhere, to one jail, then one CPU to another, both accepted: both succeed exactly if every candidate index is online |
| `JailPicker.OfflineUnused` | src/cpuset.cpp:210-226 | while jails have online CPUs only, an index that is not online is never in use |
| `JailPicker.OfflineNeverShares` | src/cpuset.cpp:249-250 | with an unused candidate index that is not online, a fresh allocation takes unused CPUs only |
| `JailPicker.OfflineFailsWhenShort` | src/cpuset.cpp:249-250 | and fails whenever fewer unused CPUs are left than it wants, whatever could be shared |
| `CpuJail.JailSpec.constructor` | src/cpuset.cpp:272-276 | a new jail has nothing and changes no counter |
| `CpuJail.JailSpec.Restore` | src/cpuset.cpp:286-293 | a satisfying set replaces whatever the jail had, in the counters too |
| `CpuJail.JailSpec.AllocateFresh` | src/cpuset.cpp:301-310 | all picks or none: after a failed pick the counters count nothing for this jail |
| `CpuJail.JailSpec.Allocate` | src/cpuset.cpp:282-318 | restored, kept or fresh; on success exactly `Size` CPUs, on the node if bound, on failure nothing changed at all; counters and allocations agree after each call |
| `CpuJail.JailSpec.Release` | src/cpuset.cpp:320-330 | the jail has nothing and counters and allocations agree |
| `NodeRequest.GetNodeRequest` | src/cpuset.cpp:650-678 | adds the unbound requests in total, lowers no node, a raised node is at most one above any other, and a node left behind was used no more |
| `NodeRequest.LeastLevel` | src/cpuset.cpp:649-678 | no other distribution keeps all nodes at or below a smaller maximum |
| `NodeRequest.FewestMoves` | src/cpuset.cpp:649-678 | of all level distributions this one leaves the least use beyond what is wanted |
| `NodeRequest.NothingMisplaced` | src/cpuset.cpp:688-706 | if no online node is above its wanted use, every one is exactly at it |
| `JailBalance.CeilDivIsLeast` | src/cpuset.cpp:680-682 | the least number per CPU that makes up for the excess |
| `JailBalance.ScanNode` | src/cpuset.cpp:709-725 | the most used CPUs, all of them and no other, and what the scan takes for the least use |
| `JailBalance.SeenMinIs` | src/cpuset.cpp:723-724 | that is zero if some CPU is unused and else the use of the last one |
| `JailBalance.OverloadInside` | src/cpuset.cpp:708-731 | exactly the most used CPUs, when at least two above that; nothing on a node without CPUs, where the difference wraps |
| `JailBalance.FindUnbalancedJailCpus` | src/cpuset.cpp:685-735 | the pairs reported are exactly those of some online node, whole nodes above their wanted use included, and no CPU twice |
| `JailBalance.ReportIsReal` | src/cpuset.cpp:726-731 | another CPU of the node has at least that much less |
| `JailBalance.FoundIff` | src/cpuset.cpp:708-731 | an uneven node is noticed exactly when a CPU is two above an unused one or two above the last one |
| `JailWitness.Restored` | src/cpuset.cpp:286-293 | three restores lead the allocator to jails with uses 1, 3 and 3 |
| `JailWitness.MissedSpread` | src/cpuset.cpp:709-731 | with those jails, their counters and their wanted use nothing is reported |
| `JailBalance.QuietMeansWanted` | src/cpuset.cpp:685-706 | if nothing is reported every online node is used exactly as wanted |
| `JailBalance.EvenIsQuiet` | src/cpuset.cpp:708-731 | nothing is reported for an even node within its wanted use |
| `CpusetTree.Cpuset.Widen` | src/cpuset.cpp:530-536 | the union is written, and only when something is missing |
| `CpusetTree.Cpuset.ApplyCgSubtreeCpus` | src/cpuset.cpp:538-566 | no write is refused under "a child's cpus are among its parent's", the cgroup ends at the target and everything below inside it |
| `MemGuarantee.GetTotalMemGuarantee` | src/container.cpp:1319-1338 | the loop over the children computes the recursive total |
| `MemGuarantee.NoChoiceAbove` | src/container.cpp:1319-1338 | no set of unrelated containers with live paths has a larger sum of guarantees |
| `MemGuarantee.TotalIsMaximum` | src/container.cpp:1319-1338 | and one such set has exactly that sum: the total is the maximum |
| `Subtree.List` | src/container.cpp:1181-1190 | the loop that inserts into the list it iterates over backwards ends with the recursive post-order |
| `Subtree.ListedOnce` | src/container.cpp:1181-1190 | every member once and nobody else |
| `Subtree.AfterDescendants` | src/container.cpp:1181-1190 | every container after all containers below it |
| `Subtree.MinLimitIsMinimum` | src/container.cpp:1368-1373 | the reference: the smallest limit that is set |
| `Subtree.ConsistentIsRight` | src/container.cpp:1366-1375 | bounds chosen from the parent's are the smallest limit set on the way from the start |
| `Subtree.DirtyLimits.PropagateDirtyMemLimit` | src/container.cpp:1385-1394 | the reversed list serves parents first, so every bound is right at the end |
| `CpuBounds.RightIsSmallest` | src/container.cpp:1668-1676 | a right bound is the smallest limit set on the path |
| `CpuBounds.BoundsCut` | src/container.cpp:1669-1673 | with a smaller bound above, every bound below is cut off there |
| `CpuBounds.RightGraft` | src/container.cpp:1670-1675 | bounds restored below one container are right in the whole tree |
| `CpuLimit.CpuLimits.PropogateCpuLimit` | src/container.cpp:1668-1676 | the early stop is exact: bounds are right below, and only bounds below changed |
| `CpuQuota.FallingObeysRule` | src/container.cpp:1679-1681 | a reach that falls on the way down implies that no limited container is above its nearest limited ancestor |
| `CpuQuota.RuleBelow` | src/container.cpp:1679-1681 | under the kernel's rule nobody below a limited container has a larger limit |
| `CpuQuota.WriteFits` | src/container.cpp:1682-1701 | a write between the children's reach and the parent's is accepted |
| `CpuLimit.CpuLimits.SetCpuLimit` | src/container.cpp:1650-1666 | skipped without a cpu cgroup, refused exactly when it would break the rule; a refused quota is taken off and tried once more |
| `CpuLimit.CpuLimits.ApplyCpuLimit` | src/container.cpp:1678-1705 | refused exactly when its first write is, and then nothing changed; else every write is accepted and the subtree ends with the bounds applied |
| `CpuSteady.StoredPlan` | src/container.cpp:1682-1702 | after any other change of a limit the code's order of writes, though it follows `CpuLimitCur`, is one the kernel accepts |
| `CpuSteady.StoredDoomed` | src/container.cpp:1682-1687 | a limit on such a container with a larger one below breaks the rule |
| `CpuLimit.CpuLimits.ChangeLimit` | src/container.cpp:3736-3758 | from a steady tree to a steady tree; refused exactly when no bound was ever applied to the running container (`CpuLimitCur` is 0) and somebody below has a larger limit, and then limits, bounds and kernel are as before |
| `CpuLimit.CpuLimits.Store` | src/property.cpp:3908-3917 | the limit is stored and bounds are right below, nothing else changes |
| `CpuLimitWitness.KernelHasEight` | src/container.cpp:1682-1687 | with a running container that never had a limit above a running one limited to 8, the kernel has no quota on the upper one and 8 on the lower, and a limit of 4 on the upper one is to be refused |
| `CpuLimitWitness.LimitRefused` | src/container.cpp:1682-1687 | creating, starting and limiting two containers leads there, and the limit of 4 is refused |
| `CpuLimit.CpuLimits.Create` | src/container.cpp:488-520 | a new container keeps the tree steady |
| `CpuLimit.CpuLimits.Start` | src/container.cpp:2660-2668 | a container that starts is never refused, whatever was set while it was stopped, and the tree is steady |
| `CpuLimit.CpuLimits.Stop` | src/container.cpp:3285-3293 | a subtree that stops keeps the tree steady |
| `CpuSteady.SteadyBounds` | src/container.cpp:1668-1676 | in a steady tree every bound is the smallest limit set on the path from the root container |
| `CpuSteady.SteadyObeysRule` | src/container.cpp:1679-1681 | and the kernel's rule holds |
| `StateCounters.AddAlong` | src/container.cpp:1095-1101 | the loop up the parents changes the counters of exactly the strict ancestors |
| `StateCounters.NumberChange` | src/container.cpp:1091-1101 | what a change of one state does to the number of descendants in a state |
| `StateCounters.IdleChainMembers` | src/container.cpp:1109-1113 | those told above are exactly the meta ancestors with nothing running below, each once, nearest first |
| `StateCounters.Containers.Register` | src/container.cpp:500-501 | a new container keeps both counters a recount |
| `StateCounters.Containers.SetState` | src/container.cpp:1083-1128 | both counters go on being a recount over the strict descendants; told are the container and exactly the meta ancestors left with nothing running |
| `OomKills.StepCounter` | src/container.cpp:4198-4208 | no step of any thread lowers a counter, and an offered value is reached or still being tried |
| `OomKills.StepTotal` | src/container.cpp:4262-4274 | every total is behind the growth below it by exactly what threads have still to add |
| `OomKills.Conserved` | src/container.cpp:4198-4275 | when all are done the counter is the maximum of its start and all offers, and each total has grown by the growth in its subtree |
| `OomKills.DeltasAddUp` | src/container.cpp:4198-4208 | the deltas returned in a run sum to what the counter grew by |
| `ContainerNames.ValidName` | src/container.cpp:109-154 | accepted exactly the root and the names within the length whose characters are allowed and whose components are good |
| `ContainerNames.ParentIsGood` | src/container.cpp:156-161 | the parent of an accepted name is accepted |
| `ContainerNames.CreatedName` | src/container.cpp:400-402 | the first names taken apart at creation make up the name again, and hold no slash or percent sign |
| `CgroupNames.BuildPath` | src/cgroup.cpp:2734-2742 | the path built upwards is the one defined downwards, for the nearest enabled container at or above |
| `CgroupNames.GetContainerCgroup` | src/cgroup.cpp:2714-2748 | the cgroup in each kind of hierarchy |
| `CgroupNames.CgroupLeadsBack` | src/cgroup.cpp:2734-2747 | read as `FindTaskContainer` reads a path, the path names the nearest enabled container at or above, and is never a reserved one |
| `CgroupNames.FreezerLeadsBack` | src/container.cpp:210-222 | a task found in the freezer or unified cgroup of a container is looked up under the container's name, or under that of a job's parent |
| `CgroupNames.SystemdLeadsBack` | src/cgroup.cpp:2726-2729 | the name flattened for systemd reads back as the name |
| `CgroupNames.PathIsUnique` | src/cgroup.cpp:2734-2747 | the path gives away every name on the way and what is enabled |
| `CgroupNames.SharedIff` | src/cgroup.cpp:2734-2747 | two containers share a cgroup exactly when their nearest enabled containers are the same |
| `CgroupNames.DirectoryAbove` | src/cgroup.cpp:2734-2747 | the directory above is the cgroup of the nearest enabled proper ancestor, or the hierarchy root |
| `CgroupNames.Find` | src/container.cpp:163-189 | strict: that name; else the registered container with the longest name it starts with |

## Left out

- Kernel and file system: reading and writing knobs, mounts, netlink, processes, signals. A knob is the value written to it; the cpu and cpuset knobs are refused by rule only, no other error is modelled.
- Other clients of the locks (`client.cpp`, `rpc.cpp`): they appear as the environment assumptions above. A restore whose first lock attempt fails and that unregisters without ever having had the lock is not among them.
- The state lock and the action lock share one condition variable. Each is modelled alone; a wake-up by the other lock is the step that wakes a sleeper for no reason.
- CpuLimit.CpuLimits.SetCpuLimit: the real-time limit, the period, the scaling of the quota and errors other than a refusal are not modelled; the writes are those of the first cgroup version (`SetQuotaAndPeriodV1`).
- CpuLimit.CpuLimits.ChangeLimit: the period keeps its default, the text form of the old value reads back as the value, and dead containers, which refuse the property, are not told apart from running ones. The other way to set a limit is not modelled: `Load` from a specification (src/container.cpp:3794) without `restoreOnError` keeps a limit that the kernel refused, and the tree is then not steady.
- CpuLimit.CpuLimits.Start: failures of the other steps of a start; `CpuLimit.CpuLimits.Stop` is one step for the whole subtree. Containers are not destroyed.
- `PropogateCpuGuarantee`/`ApplyCpuGuarantee`: the recursion down the tree is that of the limit, but `ApplyCpuGuarantee` returns before any write when the bound is already `CpuGuaranteeCur` (src/container.cpp:1622), and no stop resets that field, so the new cgroup of a restarted container gets no guarantee. The bound also starts as the parent's (490), although a container of the first level has the cpu controller (520) and enabling controllers later (4178) does not propagate.
- `ApplySubtreeCpus` over containers with different specifications: a child's target need not lie inside its parent's, so the kernel's answer decides.
- CpuJail.JailSpec.Restore: the set restored lies among the online CPUs of the topology; a set read back from the kernel after the topology was built could hold another one.
- CpuJail.JailSpec.Allocate: `target` is empty on entry as at its one call, `current` lies among the online CPUs, and the source's score with a use of `UINT_MAX` cannot be chosen while the model's can.
- Unsigned wrap-around of counters and sums, except in the intra-node difference, where it is reached.
- `FindUnbalancedJailContainer` and the rebalancing that follows, the other CPU set policies (`inherit`, `set`, `node`).
- JailBalance.FindUnbalancedJailCpus: also returns the wanted use per node, which the source keeps local, so that the contract can name it.
- Floating-point quotas and weights, logging, metrics, timing, `LastActionPid` and `LastStatePid`.
- `GetTotalMemGuarantee` and `Subtree` run under the containers mutex; the tree does not change under them.
- StateCounters.Containers.SetState: respawn scheduling, the labels reported with a change and the state lock around it are not modelled.
- A reset of `OomKills` while deltas are collected.
- Cgroup paths are compared as text; no directory is resolved.
