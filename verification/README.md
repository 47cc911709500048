# Verified model of the Kubernetes descheduler

The descheduler decides which pods to evict so that a cluster can rebalance. This project
models the parts of it that carry real algorithms or shared state, and proves what they
guarantee over every input, every interleaving and every whole run. Check it with
`dafny verify dfyconfig.toml`.

- **Topology-spread balancing** (`SpreadSizes`, `SpreadTheorems`, `SpreadDomains`,
  `SpreadBalance`). The two-pointer loop of `balanceDomains` is a function on domain sizes and
  a method on the pods, proved to agree, and to end exactly where a plain loop ends that moves
  one pod at a time while that is called for. The loop conserves pods and never widens the spread.
  When the pods divide evenly and MaxSkew is 1 it ends exactly even, in the fewest moves
  possible. The promise that it ends within MaxSkew is false in general; it holds for all sizes
  exactly with at most two domains, or with three and MaxSkew 1.
- **Dry-run sandbox** (`Sandbox`). The handlers, the eviction reactor and the restore loop are
  a class; around it a protocol interleaves real pod events, delayed in-order deliveries,
  simulated evictions and restores. Over any number of cycles the fake store converges to the
  real one.
- **Evictor and eviction-request cache** (`Evictions`, `EvictionLimits`). The counters are the
  cardinalities of the request map. Evictions, and evictions plus assumed requests, stay
  within the limits over every interleaving.
- **Node utilization** (`Utilization`, `UtilizationTheorems`, `Thresholds`, `Deviation`). A run
  over all source nodes overshoots the destination headroom by at most one pod, its running
  usage is what recomputing gives, and it stops only for a reason.
- **RemoveDuplicates** (`Duplicates`, `TargetNodes`, `NodeMatching`, `NodeSelectors`,
  `Tolerations`, `Sorting`). The shortcut in `getTargetNodes` is exact, and with the target nodes
  it computes every owner's pods end evenly spread and every evicted pod has room on one of them.
- **Inter-pod anti-affinity** (`AntiAffinity`). The pass deletes while it walks, yet leaves a pod
  in conflict only for a reason and evicts only pods in conflict.
- **QoS class and smoothed metrics** (`Qos`, `Metrics`).

Where the code and its documentation disagree the model follows the code:

- The comment at topologyspreadconstraint.go:288-307 reads as if balancing always ended within
  MaxSkew; see `SpreadTheorems.SkewGuaranteedExactly`.
- The comment at topologyspreadconstraint.go:419-422 says low priority goes first; the
  comparator and the popping from the back take the highest priority first
  (`SpreadBalance.BackOfDomainGoesFirst`, a run in `SpreadBalance.TwoPriorities`). The comment
  holds exactly where priorities do not differ; see `SpreadBalance.LowPriorityFirstExactly`.
- The comment on `Sum` at normalizer.go:112-114 says a key missing from one map is ignored; the
  code keeps every key of the first map; see `Deviation.Sum`.

## Model

| member | source | states |
|---|---|---|
| `SpreadSizes.MoveBounds` | pkg/framework/plugins/removepodsviolatingtopologyspreadconstraint/topologyspreadconstraint.go:337-351 | pods move exactly when the donor is above and the receiver below the average and they are more than MaxSkew apart; the last pod moved was still called for and no further is; at most half the difference moves, and the donor stays at or above the floor and the receiver at or below the ceiling of the average |
| `SpreadSizes.MovesWhileNeeded` | pkg/framework/plugins/removepodsviolatingtopologyspreadconstraint/topologyspreadconstraint.go:337-347 | the minimum of the three ceilings counts exactly the single moves still called for at their turn |
| `SpreadSizes.OneMove` | pkg/framework/plugins/removepodsviolatingtopologyspreadconstraint/topologyspreadconstraint.go:322-386 | one pass either changes no size, or moves pods between two domains, conserving the total, not crossing, staying within floor and ceiling of the average, and strictly lowering the sum of squares |
| `SpreadSizes.RunInvariants` | pkg/framework/plugins/removepodsviolatingtopologyspreadconstraint/topologyspreadconstraint.go:322-386 | over a whole run the total and the number of domains are kept, the squares strictly drop if anything moved, and no size leaves the initial range |
| `SpreadSizes.SpreadNeverGrows` | pkg/framework/plugins/removepodsviolatingtopologyspreadconstraint/topologyspreadconstraint.go:308-387 | for every MaxSkew the final spread never exceeds the initial one and the total is kept |
| `SpreadSizes.BalancedIsLeftAlone` | pkg/framework/plugins/removepodsviolatingtopologyspreadconstraint/topologyspreadconstraint.go:322-386 | on sizes within MaxSkew the loop moves nothing, so the early exit changes no result |
| `SpreadSizes.DonorWithinSkewStops` | pkg/framework/plugins/removepodsviolatingtopologyspreadconstraint/topologyspreadconstraint.go:322-333 | once the donor is within the skew of everything to its left nothing moves any more |
| `SpreadTheorems.ClosingKept` | pkg/framework/plugins/removepodsviolatingtopologyspreadconstraint/topologyspreadconstraint.go:322-386 | the invariant behind exact balance, and moved pods plus remaining excess stay constant |
| `SpreadTheorems.ExactBalance` | pkg/framework/plugins/removepodsviolatingtopologyspreadconstraint/topologyspreadconstraint.go:308-387 | pods a multiple of the domains, MaxSkew 1: every domain ends at the average and the number moved is the total excess |
| `SpreadTheorems.FewestMoves` | pkg/framework/plugins/removepodsviolatingtopologyspreadconstraint/topologyspreadconstraint.go:308-387 | no list of single-pod moves that reaches skew 1 is shorter, and all end at the same sizes |
| `SpreadTheorems.FewestMovesAttained` | pkg/framework/plugins/removepodsviolatingtopologyspreadconstraint/topologyspreadconstraint.go:308-387 | the loop's moves are such a list, of exactly that length |
| `SpreadTheorems.RunMovesOneByOne` | pkg/framework/plugins/removepodsviolatingtopologyspreadconstraint/topologyspreadconstraint.go:322-386 | for every size and skew the run is a list of legal single-pod moves, as long as its move count, each of them at its moment from a domain above the average to one below it that is more than MaxSkew smaller |
| `SpreadTheorems.RunIsOneAtATime` | pkg/framework/plugins/removepodsviolatingtopologyspreadconstraint/topologyspreadconstraint.go:322-386 | for every size and skew the loop ends exactly where the plain loop ends that moves one pod at a time while a move is called for |
| `SpreadTheorems.PassFinishesPair` | pkg/framework/plugins/removepodsviolatingtopologyspreadconstraint/topologyspreadconstraint.go:322-386 | after a pass the two domains are within MaxSkew, or the donor is not above the average, or the receiver not below it |
| `SpreadTheorems.TwoDomainsMoveLeast` | pkg/framework/plugins/removepodsviolatingtopologyspreadconstraint/topologyspreadconstraint.go:308-387 | for two domains and every MaxSkew no list of single-pod moves ends within it in fewer moves |
| `SpreadTheorems.TwoDomains` | pkg/framework/plugins/removepodsviolatingtopologyspreadconstraint/topologyspreadconstraint.go:288-387 | two domains always end within MaxSkew |
| `SpreadTheorems.ThreeDomains` | pkg/framework/plugins/removepodsviolatingtopologyspreadconstraint/topologyspreadconstraint.go:288-387 | three domains with MaxSkew 1 always end within it |
| `SpreadTheorems.TwoHighFails` | pkg/framework/plugins/removepodsviolatingtopologyspreadconstraint/topologyspreadconstraint.go:288-387 | a family of sizes, for five or more domains or four with MaxSkew above 1, that ends outside MaxSkew |
| `SpreadTheorems.ThreeFails` | pkg/framework/plugins/removepodsviolatingtopologyspreadconstraint/topologyspreadconstraint.go:288-387 | for every MaxSkew above 1 three domains that end outside it |
| `SpreadTheorems.FourFails` | pkg/framework/plugins/removepodsviolatingtopologyspreadconstraint/topologyspreadconstraint.go:288-387 | sizes 0, 1, 3, 3 with MaxSkew 1 end outside it |
| `SpreadTheorems.SkewGuaranteedExactly` | pkg/framework/plugins/removepodsviolatingtopologyspreadconstraint/topologyspreadconstraint.go:288-387 | all sizes of n domains end within MaxSkew if and only if n is at most 2, or n is 3 and MaxSkew is 1 |
| `SpreadDomains.TopologyIsBalanced` | pkg/framework/plugins/removepodsviolatingtopologyspreadconstraint/topologyspreadconstraint.go:271-286 | true exactly when every pair of domains is within MaxSkew, in any iteration order, with 32-bit starting bounds |
| `SpreadDomains.TakeSplits` | pkg/framework/plugins/removepodsviolatingtopologyspreadconstraint/topologyspreadconstraint.go:353-372 | taking from the back of the domain sorted by fit loses and invents no pod, keeps the order, and takes a pod that fits nowhere only after all that fit |
| `SpreadDomains.MoveFrom` | pkg/framework/plugins/removepodsviolatingtopologyspreadconstraint/topologyspreadconstraint.go:353-385 | the pods moved are the last ones in order of fit, change the sizes as the transfer says, shrink only the donor, and keep every pod in the domains, none moved twice |
| `SpreadDomains.Pass` | pkg/framework/plugins/removepodsviolatingtopologyspreadconstraint/topologyspreadconstraint.go:322-386 | one pass on pods is one pass on sizes |
| `SpreadDomains.BalanceDomains` | pkg/framework/plugins/removepodsviolatingtopologyspreadconstraint/topologyspreadconstraint.go:308-387 | terminates, refines the loop on sizes, moves no pod twice and out of each domain exactly its last pods in order of fit, as many as its size falls by, only from domains above the average, and marks exactly the moved pods that pass the fit test |
| `SpreadBalance.CountDomains` | pkg/framework/plugins/removepodsviolatingtopologyspreadconstraint/topologyspreadconstraint.go:183-222 | the counting loop builds the domains and their pod total |
| `SpreadBalance.TopologiesHold` | pkg/framework/plugins/removepodsviolatingtopologyspreadconstraint/topologyspreadconstraint.go:183-222 | a domain exists exactly when an included node has it or a pod is counted in it that is not terminating, selected and on a known node of that domain, and holds exactly its own pods, in order |
| `SpreadBalance.CountedIsSum` | pkg/framework/plugins/removepodsviolatingtopologyspreadconstraint/topologyspreadconstraint.go:196-222 | the pod total the average is taken of is the sum of the domain sizes |
| `SpreadBalance.SortDomains` | pkg/framework/plugins/removepodsviolatingtopologyspreadconstraint/topologyspreadconstraint.go:415-453 | every domain once, by ascending size, whatever the map order |
| `SpreadBalance.ListedOnceHasOneHome` | pkg/framework/plugins/removepodsviolatingtopologyspreadconstraint/topologyspreadconstraint.go:196-222 | pods listed once lie in one domain, once |
| `SpreadBalance.DomainsReady` | pkg/framework/plugins/removepodsviolatingtopologyspreadconstraint/topologyspreadconstraint.go:183-222 | the listed domains are disjoint, ascending, sum to the pods counted and hold exactly those |
| `SpreadBalance.BalanceConstraint` | pkg/framework/plugins/removepodsviolatingtopologyspreadconstraint/topologyspreadconstraint.go:182-228 | counting, early exit, sorting and loop together: the domains are the counted ones by ascending size, each holding exactly the pods that are not terminating, selected and on a node of it; with or without the early exit they end as the loop leaves them; only counted pods are moved, the last in order of fit of domains above the average, as many out of each as its size falls by; marked are exactly those moved that fit, or all of them without the fit test; if the sort meets the comparator a pod leaves before one of its class with lower priority |
| `SpreadBalance.CountedPodsEndEven` | pkg/framework/plugins/removepodsviolatingtopologyspreadconstraint/topologyspreadconstraint.go:182-228 | when the counted pods divide evenly and MaxSkew is 1 every domain ends at the average and loses exactly its pods from that position on, in order of fit |
| `SpreadBalance.CountedPodsMoveLeast` | pkg/framework/plugins/removepodsviolatingtopologyspreadconstraint/topologyspreadconstraint.go:182-228 | no list of single-pod moves between the counted domains reaches that skew in fewer moves |
| `SpreadBalance.TwoCountedDomainsMoveLeast` | pkg/framework/plugins/removepodsviolatingtopologyspreadconstraint/topologyspreadconstraint.go:182-228 | with two counted domains, for every MaxSkew, no list of single-pod moves ends within it in fewer moves |
| `SpreadBalance.BackOfDomainGoesFirst` | pkg/framework/plugins/removepodsviolatingtopologyspreadconstraint/topologyspreadconstraint.go:353-476 | for a domain in comparator order, popped after the sort by fit: a pod taken fits if a kept one does, and among pods with the same fit verdict the kept ones are not evictable, have a selector, or have no higher priority |
| `SpreadBalance.SortExists` | pkg/framework/plugins/removepodsviolatingtopologyspreadconstraint/topologyspreadconstraint.go:423-443 | the comparator is transitive, and some sort of every domain meets it |
| `SpreadBalance.LowFirstAtCut` | pkg/framework/plugins/removepodsviolatingtopologyspreadconstraint/topologyspreadconstraint.go:419-443 | at a given cut, no taken pod of a class has a higher priority than a kept one if and only if none differs from one |
| `SpreadBalance.LowPriorityFirstExactly` | pkg/framework/plugins/removepodsviolatingtopologyspreadconstraint/topologyspreadconstraint.go:419-443 | low priority goes first wherever a domain is cut if and only if no two pods of one class in it differ in priority |
| `SpreadBalance.HigherPriorityIsEvicted` | pkg/framework/plugins/removepodsviolatingtopologyspreadconstraint/topologyspreadconstraint.go:308-443 | a whole constraint with two pods of one class in one of two domains evicts exactly the one of higher priority, for every sort that meets the comparator |
| `SpreadBalance.TwoPriorities` | pkg/framework/plugins/removepodsviolatingtopologyspreadconstraint/topologyspreadconstraint.go:308-443 | one such run: of replicas with priorities 0 and 1000 the one with 1000 is evicted |
| `Sandbox.KubeClientSandbox.constructor` | pkg/descheduler/kubeclientsandbox.go:109-136 | a new sandbox has an empty fake store and cache |
| `Sandbox.KubeClientSandbox.OnAdd` | pkg/descheduler/kubeclientsandbox.go:149-160 | an add stores a new pod and ignores one that exists |
| `Sandbox.KubeClientSandbox.OnUpdate` | pkg/descheduler/kubeclientsandbox.go:161-175 | an update replaces a pod that exists and ignores others |
| `Sandbox.KubeClientSandbox.OnDelete` | pkg/descheduler/kubeclientsandbox.go:176-195 | a delete removes the pod's key |
| `Sandbox.KubeClientSandbox.React` | pkg/descheduler/kubeclientsandbox.go:416-445 | an eviction remembers the pod's UID and removes it; it fails exactly for a pod the fake store lacks |
| `Sandbox.KubeClientSandbox.RestoreEvictedPods` | pkg/descheduler/kubeclientsandbox.go:340-364 | whatever the cache order, exactly the pods the lister still has under the evicted UID come back if missing, and nothing else changes |
| `Sandbox.KubeClientSandbox.Reset` | pkg/descheduler/kubeclientsandbox.go:212-214 | the cache is emptied |
| `Sandbox.StepKeeps` | pkg/descheduler/kubeclientsandbox.go:138-445 | every step of the protocol keeps the invariant on every key |
| `Sandbox.ReplayFollowsHistory` | pkg/descheduler/kubeclientsandbox.go:149-195 | the handlers replay a legal history to its end state, also from an empty key once a delete is pending |
| `Sandbox.EveryKeyIsMirroredOrEvicted` | pkg/descheduler/kubeclientsandbox.go:138-445 | in every reachable state a key replays its pending events to the real state, or is missing with the real pod's UID in the cache and only updates pending |
| `Sandbox.MirrorConverges` | pkg/descheduler/descheduler.go:240-250 | after reset and draining the queue the fake store equals the real one, after any number of cycles |
| `Sandbox.EveryCycleConverges` | pkg/descheduler/descheduler.go:240-250 | after any number of cycles, resetting and draining makes the fake store equal to the real one |
| `Sandbox.EvictedSinceReset` | pkg/descheduler/kubeclientsandbox.go:212-214 | every entry of the cache stems from an eviction of its key since the last reset |
| `Sandbox.EvictionTakesEffect` | pkg/descheduler/kubeclientsandbox.go:416-445 | a simulated eviction removes the pod and remembers its UID, and whatever events are handed over the pod is back only after a restore or once created anew |
| `Sandbox.RestoreStepsMatchLoop` | pkg/descheduler/kubeclientsandbox.go:340-364 | the protocol's restore steps with nothing between them do what the restore loop does |
| `Sandbox.DeleteInBetweenDiverges` | pkg/descheduler/kubeclientsandbox.go:341-360 | from a reachable state, a delete handed over between the lister read and the tracker add leaves the fake store different with nothing pending, while the other order does not |
| `Sandbox.UpdateInBetweenDiverges` | pkg/descheduler/kubeclientsandbox.go:341-360 | the same for an update: the version read before it is brought back |
| `Evictions.EvictionRequestsCache.constructor` | pkg/descheduler/evictions/evictions.go:75-82 | an empty cache meets the counter invariant |
| `Evictions.EvictionRequestsCache.AddPod` | pkg/descheduler/evictions/evictions.go:144-155 | adds an entry only for a new UID, with the pod's name and place; counters stay the cardinalities |
| `Evictions.EvictionRequestsCache.AssumePod` | pkg/descheduler/evictions/evictions.go:157-192 | first assume wins, an added entry is upgraded in place: the entry then has that strategy, profile and time, and no other entry changes; counters stay the cardinalities |
| `Evictions.EvictionRequestsCache.DeleteItem` | pkg/descheduler/evictions/evictions.go:195-206 | removes one entry with no underflow and no zero counter left |
| `Evictions.EvictionRequestsCache.DeletePod` | pkg/descheduler/evictions/evictions.go:208-215 | removes the pod's entry if it exists |
| `Evictions.EvictionRequestsCache.CleanCache` | pkg/descheduler/evictions/evictions.go:90-106 | removes exactly the timed-out assumed entries, in any order |
| `Evictions.CountsAfterDelete` | pkg/descheduler/evictions/evictions.go:195-206 | decrementing and dropping zeros keeps a counter map equal to the cardinalities |
| `Evictions.CountsAfterUpgrade` | pkg/descheduler/evictions/evictions.go:161-179 | upgrading an entry in place changes no count |
| `Evictions.AssumedAfterAssume` | pkg/descheduler/evictions/evictions.go:157-192 | assuming a request adds at most one assumed entry, at the place of the entry it upgrades |
| `Evictions.AssumedEntryIsFixed` | pkg/descheduler/evictions/evictions.go:144-215 | over any operations an entry keeps its pod and place until removed, and once assumed also strategy, profile and timestamp |
| `Evictions.AssumeRecords` | pkg/descheduler/evictions/evictions.go:157-192 | an entry assumed, new or upgraded, records strategy, profile and time and keeps the place it was first entered with |
| `Evictions.AssumedLifetime` | pkg/descheduler/evictions/evictions.go:90-192 | whatever happens for other pods, an assumed entry survives every cleaning up to its timeout unchanged and is gone after the first one past it |
| `Evictions.AddedEntryNeverTimesOut` | pkg/descheduler/evictions/evictions.go:90-155 | an entry only added stays through every cleaning until it is assumed or deleted |
| `EvictionLimits.PodEvictor.ResetCounters` | pkg/descheduler/evictions/evictions.go:449-455 | all eviction counters are zero |
| `EvictionLimits.PodEvictor.CheckLimits` | pkg/descheduler/evictions/evictions.go:526-569 | the first limit exceeded by evictions plus outstanding requests, in the order total, node, namespace |
| `EvictionLimits.PodEvictor.EvictPod` | pkg/descheduler/evictions/evictions.go:503-673 | for each of the nine outcomes exactly when it arises, in terms of the limits, the counters, the requests, the pod and the answer; counted exactly on success, cached exactly when continuing in the background, with what is recorded |
| `EvictionLimits.PodEvictor.Request` | pkg/descheduler/evictions/evictions.go:617-673 | what becomes of each answer of the API server, and that only a background answer enters the pod in the cache |
| `EvictionLimits.OutcomesByCase` | pkg/descheduler/evictions/evictions.go:503-673 | when each outcome arises, and only then |
| `EvictionLimits.ChargeCounts` | pkg/descheduler/evictions/evictions.go:590-594 | one eviction counts once in its node, namespace and the total, and nowhere else |
| `EvictionLimits.EvictionsStayWithinLimits` | pkg/descheduler/evictions/evictions.go:449-614 | over every interleaving evictions since the last reset stay within every limit, and the total is the sum over namespaces |
| `EvictionLimits.AssumedStaysWithinLimits` | pkg/descheduler/evictions/evictions.go:449-673 | over every interleaving evictions plus assumed requests stay within the total limit, and, pods not changing place, within every node's and namespace's; evictions plus all outstanding requests exceed a limit by at most the requests only added there |
| `EvictionLimits.OutstandingStaysWithinLimits` | pkg/descheduler/evictions/evictions.go:449-673 | when entries arise only for the pod in flight, evictions plus outstanding requests stay within every limit across resets |
| `EvictionLimits.EvictPodIsARun` | pkg/descheduler/evictions/evictions.go:503-673 | an undisturbed call of the evictor is a run of the protocol |
| `EvictionLimits.ForeignEntryExceedsLimit` | pkg/descheduler/evictions/evictions.go:304-406 | an entry the informer makes for another pod takes the sum over the limit |
| `EvictionLimits.AcceptAfterEntryExceedsLimit` | pkg/descheduler/evictions/evictions.go:304-406 | so does an outright eviction of a pod the informer has just added |
| `Utilization.NodeUtilization` | pkg/descheduler/node/node.go:316-347 | the usage of a pod list, resource by resource, with the pod count for pods |
| `Utilization.LoadAddsUp` | pkg/descheduler/node/node.go:316-347 | a pod counts as one pod and for what it requests, and pods add up |
| `Utilization.AssessAvailable` | pkg/framework/plugins/nodeutilization/nodeutilization.go:703-755 | an error exactly when some node lacks a resource, otherwise the summed headroom |
| `Utilization.HeadroomIsDifference` | pkg/framework/plugins/nodeutilization/nodeutilization.go:703-755 | the headroom is what the nodes may hold together less what they use together |
| `Utilization.EvictionRun.Subtract` | pkg/framework/plugins/nodeutilization/nodeutilization.go:361-375 | both ledgers drop by what the pod counts for, in every resource |
| `Utilization.EvictionRun.Continues` | pkg/framework/plugins/nodeutilization/lownodeutilization.go:302-313 | true exactly when every destination total less the removals is positive and, for LowNodeUtilization, some resource of the node less the removals is above its target |
| `Utilization.EvictionRun.TryPod` | pkg/framework/plugins/nodeutilization/nodeutilization.go:274-353 | one pod of the loop: taken exactly when eligible and evicted, and when to go on, leave the node or end the run |
| `Utilization.EvictionRun.EvictPods` | pkg/framework/plugins/nodeutilization/nodeutilization.go:250-356 | asks exactly for the eligible pods among those reached, in order up to the first refusal, takes exactly those evicted, tries none once the plugin's own limit is reached, and stops only for the stop condition or a limit met there |
| `Utilization.EvictionRun.EvictFromSourceNodes` | pkg/framework/plugins/nodeutilization/nodeutilization.go:166-245 | the trace of the whole run: on each source node in order the work of one node, every call and removal accounted for; the run ends early exactly when the last pod tried met the total limit |
| `Utilization.TraceSettles` | pkg/framework/plugins/nodeutilization/nodeutilization.go:166-245 | every node the run came to, total limit or not, lost exactly the pods that could go among those reached, and kept the others because none was left, some destination total is at or below 0, no resource is above its target (LowNodeUtilization), the plugin's own limit is reached, or the last pod tried met a limit |
| `Utilization.TraceSpares` | pkg/framework/plugins/nodeutilization/nodeutilization.go:166-245 | a node the run did not come to lost nothing |
| `Utilization.CallsRespectLimits` | pkg/framework/plugins/nodeutilization/nodeutilization.go:166-356 | after a call that met the total limit none follows, and after one that met the node limit none on that node |
| `Utilization.StopIsFinal` | pkg/framework/plugins/nodeutilization/lownodeutilization.go:302-313 | the stop condition, once it holds for a node, holds for good |
| `UtilizationTheorems.OvershootIsAtMostOnePod` | pkg/framework/plugins/nodeutilization/nodeutilization.go:166-356 | every call is for an eligible pod and happens with every total positive and, for LowNodeUtilization, some resource of the node above its target, counted from the removals before it; the load without the last pod is below the headroom, and an exhausted total ends all evictions |
| `UtilizationTheorems.UsageIsRecomputed` | pkg/framework/plugins/nodeutilization/usageclients.go:100-133 | a node's running usage equals the usage summed from scratch over its pods not evicted |
| `UtilizationTheorems.LedgersAgree` | pkg/framework/plugins/nodeutilization/nodeutilization.go:361-375 | the drop in the destination totals is the summed drop over the source nodes, for every resource |
| `UtilizationTheorems.Run` | pkg/framework/plugins/nodeutilization/nodeutilization.go:166-356 | a whole run has all of these properties together: every call called for and accounted for, limits respected, usage as recomputed, overshoot of at most one pod, and every node settled or spared |
| `Thresholds.PercentAndFractionAgree` | pkg/framework/plugins/nodeutilization/nodeutilization.go:577-698 | the percentage test and the truncated absolute test agree if and only if the capacity is positive or nothing is used |
| `Thresholds.OverutilizedIsAboveTarget` | pkg/framework/plugins/nodeutilization/nodeutilization.go:409-428 | every overutilized node passes the absolute test the eviction loop starts with |
| `Thresholds.UnderutilizedHeadroom` | pkg/framework/plugins/nodeutilization/nodeutilization.go:636-755 | an underutilized node adds non-negative headroom in a thresholded resource if and only if it has some of it or uses none |
| `Thresholds.NoThresholdIsFull` | pkg/framework/plugins/nodeutilization/nodeutilization.go:633-676 | a resource without a threshold is capped at the capacity, as with 100 percent |
| `Deviation.Average` | pkg/framework/plugins/nodeutilization/normalizer/normalizer.go:127-142 | each resource is averaged over exactly the nodes that report it |
| `Deviation.Negate` | pkg/framework/plugins/nodeutilization/normalizer/normalizer.go:94-100 | every value and its negation cancel |
| `Deviation.Sum` | pkg/framework/plugins/nodeutilization/normalizer/normalizer.go:115-121 | keys of the first map, the second added where it has them |
| `Deviation.Clamp` | pkg/framework/plugins/nodeutilization/normalizer/normalizer.go:72-81 | each value moved to the nearest one in range; the maximum wins over a larger minimum |
| `Deviation.ClampedIsNearest` | pkg/framework/plugins/nodeutilization/normalizer/normalizer.go:72-81 | the clamped value lies in range and no value in range is nearer |
| `Deviation.AssessRelative` | pkg/framework/plugins/nodeutilization/nodeutilization.go:491-535 | the thresholds cover exactly the reported resources and are the average less and plus the spans, clamped, so lower is at most upper and both lie in [0,100] |
| `Deviation.SomeNodeReachesAverage` | pkg/framework/plugins/nodeutilization/normalizer/normalizer.go:127-142 | some node reports at least the average |
| `Deviation.SomeNodeIsNotUnder` | pkg/framework/plugins/nodeutilization/nodeutilization.go:432-535 | a resource in use with a positive low span leaves some node not underutilized |
| `Deviation.Classify` | pkg/framework/plugins/nodeutilization/classifier/classifier.go:45-67 | each value goes to the first classifier that takes it and to no other |
| `Deviation.OrderOfTestsIsIrrelevant` | pkg/framework/plugins/nodeutilization/classifier/classifier.go:45-67 | when no value passes both tests, swapping them gives the same two groups |
| `Deviation.TwoTests` | pkg/framework/plugins/nodeutilization/lownodeutilization.go:198-219 | underutilized are exactly the schedulable nodes with every resource at or below its lower threshold, overutilized those with some resource above its upper one, every node with its own usage, and none is both |
| `Deviation.NeitherIsBetween` | pkg/framework/plugins/nodeutilization/nodeutilization.go:420-442 | a schedulable node is in neither group exactly when every resource is at or below its upper threshold and some resource above its lower one |
| `Deviation.ClassifyRelative` | pkg/framework/plugins/nodeutilization/lownodeutilization.go:172-219 | deviation mode from end to end: thresholds at the clamped average less and plus the spans, the two groups by every resource below and some resource above, disjoint and with their own usage, and not the whole cluster underutilized |
| `Duplicates.KeysIdentifyOwner` | pkg/framework/plugins/removeduplicates/removeduplicates.go:132-165 | equal key lists mean the same owner and images |
| `Duplicates.ScanNode` | pkg/framework/plugins/removeduplicates/removeduplicates.go:131-194 | on one node each owner's pods but the first are its duplicates, and all are counted |
| `Duplicates.FindDuplicates` | pkg/framework/plugins/removeduplicates/removeduplicates.go:111-194 | the duplicates of every owner by node, and how often each owner occurs |
| `Duplicates.EvictSurplus` | pkg/framework/plugins/removeduplicates/removeduplicates.go:212-230 | on one node the first upperAvg - 1 duplicates stay and the others are tried in order up to the first limit; gone are exactly those tried whose eviction succeeded |
| `Duplicates.TakenMeans` | pkg/framework/plugins/removeduplicates/removeduplicates.go:216-229 | only pods whose eviction succeeds are taken, and all of them if no limit is met |
| `Duplicates.TakenUpTo` | pkg/framework/plugins/removeduplicates/removeduplicates.go:216-229 | pods are tried in order up to the first that meets a limit, and those gone are exactly the successes before it |
| `Duplicates.EvictOwner` | pkg/framework/plugins/removeduplicates/removeduplicates.go:197-232 | nothing with fewer than two target nodes, otherwise the surplus of every node in any order, cut off exactly at the node that meets the total limit |
| `Duplicates.KeptOnNode` | pkg/framework/plugins/removeduplicates/removeduplicates.go:206-216 | evicting the surplus leaves exactly min(count, upperAvg), and at least one |
| `Duplicates.RoomForEveryEvictedPod` | pkg/framework/plugins/removeduplicates/removeduplicates.go:206-232 | the room below upperAvg on the target nodes is at least the surplus of all nodes |
| `Duplicates.HandledIsEven` | pkg/framework/plugins/removeduplicates/removeduplicates.go:197-232 | for one owner: on each node visited exactly its pods from position upperAvg on are tried in order up to the first limit, none before that position is gone, and all of them if every eviction succeeds; no node goes below min(count, upperAvg) or loses its last pod, and every evicted pod has room |
| `Duplicates.UntouchedIsEven` | pkg/framework/plugins/removeduplicates/removeduplicates.go:197-232 | an owner the run did not come to keeps its pods, within the same bounds |
| `Duplicates.Balance` | pkg/framework/plugins/removeduplicates/removeduplicates.go:103-234 | the same for every owner, from the pods on the nodes to the evictions, with the target nodes computed from the owner's duplicates; the run is cut off exactly at a node whose surplus met the total limit, owners not come to are left alone, and without a cut none with duplicates is forgotten |
| `Duplicates.EvenOverFeasibleNodes` | pkg/framework/plugins/removeduplicates/removeduplicates.go:103-291 | an owner whose duplicates have admitted selectors loses nothing if they have fewer than two target nodes, and otherwise ends evenly spread over exactly the nodes checking every duplicate gives |
| `Sorting.CanonicalIsSet` | pkg/utils/predicates.go:98-164 | for any total order, sorted and deduplicated lists are equal exactly when they have the same elements |
| `Sorting.Unique` | pkg/utils/predicates.go:81-95 | the loop that drops neighbouring repeats |
| `Tolerations.CoreOrders` | pkg/utils/predicates.go:216-234 | the comparator of tolerations is a strict total order on (key, value, effect, operator) |
| `Tolerations.UniqueTolerations` | pkg/utils/predicates.go:235-246 | the loop drops neighbouring repeats of a tuple |
| `Tolerations.TolerationsEqual` | pkg/utils/predicates.go:249-262 | for any sort meeting the comparator, true exactly when both lists have the same tuples |
| `Tolerations.TolerateTaint` | pkg/utils/predicates.go:180-188 | true exactly when some tuple tolerates the taint |
| `Tolerations.TolerateTaintsWithFilter` | pkg/utils/predicates.go:194-206 | the verdict for any taint list and filter depends on the set of tuples alone |
| `Tolerations.ToleratesByOperator` | vendor/k8s.io/api/core/v1/toleration.go:52-113 | a toleration speaks only of its own effect and key; Exists tolerates every value, Equal its own, and of Lt and Gt exactly one a taint with another number |
| `NodeSelectors.UniqueSortRequirements` | pkg/utils/predicates.go:99-164 | the loops compute the canonical requirement list |
| `NodeSelectors.UniqueSortTerms` | pkg/utils/predicates.go:69-96 | the loop computes the canonical term list |
| `NodeSelectors.NodeSelectorsEqual` | pkg/utils/predicates.go:166-177 | true exactly when both are absent or both have the same canonical form |
| `NodeSelectors.RepeatedTermIsDropped` | pkg/utils/predicates.go:69-96 | a term repeated next to itself makes no difference to the comparison |
| `NodeSelectors.TermOrderCounts` | pkg/utils/predicates.go:69-96 | swapping two different terms makes selectors compare different |
| `NodeSelectors.RequirementOrders` | pkg/utils/predicates.go:124-151 | the comparator of requirements is a total order on requirements |
| `NodeSelectors.RequirementsCompareAsSets` | pkg/utils/predicates.go:99-164 | canonical requirement lists are equal exactly when they hold the same set of canonical requirements |
| `NodeMatching.CanonKeepsParsing` | vendor/k8s.io/component-helpers/scheduling/corev1/nodeaffinity/nodeaffinity.go:214-257 | canonical form keeps whether an expression parses if and only if it does not make one number of several copies, and never changes what a parsed expression matches |
| `NodeMatching.CanonKeepsField` | vendor/k8s.io/component-helpers/scheduling/corev1/nodeaffinity/nodeaffinity.go:260-301 | the same for a field: parsing is kept if and only if it does not make one value of several copies |
| `NodeMatching.ParsesByOperator` | vendor/k8s.io/apimachinery/pkg/labels/selector.go:185-224 | which expressions parse, operator by operator |
| `NodeMatching.OperatorsCompare` | vendor/k8s.io/apimachinery/pkg/labels/selector.go:247-298 | NotIn is the opposite of In, DoesNotExist of Exists; In asks for one of the values, Gt and Lt compare numbers |
| `NodeMatching.FieldsCompare` | vendor/k8s.io/component-helpers/scheduling/corev1/nodeaffinity/nodeaffinity.go:260-301 | a field compares the node's name, or the empty string for any other field, and NotIn is the opposite of In |
| `NodeMatching.SmallTerms` | vendor/k8s.io/component-helpers/scheduling/corev1/nodeaffinity/nodeaffinity.go:152-211 | an empty term matches nothing, a term of one requirement matches as it does, and a node without a name is not asked about fields |
| `NodeMatching.RequirementsAllCount` | vendor/k8s.io/component-helpers/scheduling/corev1/nodeaffinity/nodeaffinity.go:190-211 | a term asks for all of its requirements, and is in error if any part is |
| `NodeMatching.TermsAreAlternatives` | vendor/k8s.io/component-helpers/scheduling/corev1/nodeaffinity/nodeaffinity.go:84-107 | any term of a selector will do, and only if none matches and none is in error it does not match |
| `NodeMatching.FeasibleMeans` | pkg/framework/plugins/removeduplicates/removeduplicates.go:265-277 | a node is feasible exactly when every taint that keeps pods off is tolerated, its labels have what the node selector asks for, and no readable affinity rules it out |
| `NodeMatching.CanonKeepsTermVerdict` | vendor/k8s.io/component-helpers/scheduling/corev1/nodeaffinity/nodeaffinity.go:170-211 | canonical form keeps a term's verdict on every node, unless it makes one number or field value of several copies |
| `NodeMatching.CanonKeepsSelectorVerdict` | vendor/k8s.io/component-helpers/scheduling/corev1/nodeaffinity/nodeaffinity.go:84-107 | canonical form keeps a selector's verdict on every node, errors included |
| `NodeMatching.AlikeMeansSameVerdict` | pkg/framework/plugins/removeduplicates/removeduplicates.go:243-277 | pods that compare equal get the same verdict on every node |
| `TargetNodes.DistinctPods` | pkg/framework/plugins/removeduplicates/removeduplicates.go:243-261 | every pod compares equal to a chosen one and no two chosen pods compare equal, in any order |
| `TargetNodes.KindsSuffice` | pkg/framework/plugins/removeduplicates/removeduplicates.go:237-284 | the chosen pods give the same target nodes as all pods |
| `TargetNodes.GetTargetNodes` | pkg/framework/plugins/removeduplicates/removeduplicates.go:236-291 | the nodes of one pod of each kind; for admitted pods the same node set as checking every pod |
| `TargetNodes.ShortcutIsExact` | pkg/framework/plugins/removeduplicates/removeduplicates.go:236-291 | for admitted pods every choice of one pod of each kind gives the node set of checking every pod |
| `TargetNodes.TargetsPodByPod` | pkg/framework/plugins/removeduplicates/removeduplicates.go:263-284 | a pod that could run on two nodes or more makes these targets, any other none, and the targets of several pods are those of each together |
| `TargetNodes.RepeatedNumberMisleads` | pkg/framework/plugins/removeduplicates/removeduplicates.go:243-277 | without that the shortcut can mislead: two copies of a number compare equal to one but only the latter parses, and on two nodes the chosen pod gives other target nodes than both |
| `AntiAffinity.ConflictIsMonotone` | pkg/utils/predicates.go:298-339 | fewer pods present, fewer conflicts |
| `AntiAffinity.CheckConflict` | pkg/utils/predicates.go:298-339 | true exactly when some term before any unreadable selector forbids a present pod: of another name, in the term's namespaces or the pod's own, matched by its selector, on the same node or one with the same value for the topology key |
| `AntiAffinity.ViolatesIfForbidden` | pkg/utils/predicates.go:298-378 | the nested test of one assigned pod is what the term forbids |
| `AntiAffinity.RemoveFromNamespace` | pkg/framework/plugins/removepodsviolatinginterpodantiaffinity/pod_antiaffinity.go:131-144 | exactly the evicted pod leaves its namespace list |
| `AntiAffinity.DescheduleNode` | pkg/framework/plugins/removepodsviolatinginterpodantiaffinity/pod_antiaffinity.go:97-126 | despite deletion while walking every pod is visited once unless the walk is cut off, by a pod in conflict and allowed whose eviction met a limit; each visited pod is settled, each pod gone was in conflict |
| `AntiAffinity.Deschedule` | pkg/framework/plugins/removepodsviolatinginterpodantiaffinity/pod_antiaffinity.go:82-129 | every pod visited that still conflicts was refused by a filter or failed; a pod is unvisited only behind one of its node that met a limit, or after the node where the total limit was met; every pod gone conflicted with a pod then present |
| `Qos.GetPodQOS` | pkg/utils/qos.go:22-89 | for all pods: when the sums make it BestEffort, Guaranteed or neither, and a preset class is kept |
| `Qos.SumsDecideContainerwise` | pkg/utils/qos.go:69-86 | if no container exceeds its limits, equal sums mean equal requests and limits in every container |
| `Qos.SumsCanHideMismatch` | pkg/utils/qos.go:69-86 | otherwise the sums can match where no container does |
| `Qos.ClassifyPod` | pkg/utils/qos.go:22-89 | Guaranteed exactly when there is a container and every one, init included, has positive cpu and memory limits equal to its requests |
| `Metrics.OneReading` | pkg/descheduler/metricscollector/metricscollector.go:77-79 | the average is a tenth of nine times the previous value and once the reading, to the nearest unit; it lies between the two, its error never grows, and strictly shrinks above 5; it stands still exactly from 4 below to 5 above |
| `Metrics.SettlesWithinFive` | pkg/descheduler/metricscollector/metricscollector.go:69-79 | under a constant reading it rests within 5 units after at most as many steps as the first error, at a known value |
| `Metrics.ErrorShrinksByTenths` | pkg/descheduler/metricscollector/metricscollector.go:69-79 | under a constant reading the part of the error above 5 shrinks to nine tenths or less with every step |
| `Metrics.MetricsCollector.Collect` | pkg/descheduler/metricscollector/metricscollector.go:120-154 | a failed reading keeps the value, a new node starts at its reading, the others move by one step, unlisted nodes stay |

## Left out

- SpreadSizes.MoveBounds: averages and ceilings are exact rationals; 64-bit float rounding is not modelled.
- SpreadDomains.BalanceDomains: the fit test (`NodeFit`, `filterNodesBelowIdealAvg`) is a fixed predicate on pods.
- SpreadDomains.TopologyIsBalanced: sizes are assumed to fit 32 bits, where the running bounds start.
- SpreadBalance.BalanceConstraint: MaxSkew is at least 1, as the API requires; the sort within a domain is any permutation, and the order of priorities is stated for sorts that meet the comparator (`SortExists`), because the comparator says true both ways for pods that are not evictable, outside the contract of the library sort.
- Merging the constraints of one namespace and the final eviction loop over marked pods of the topology-spread plugin.
- Sandbox.MirrorConverges: no event of a pod is handed over between the lister read and the tracker add of its restore (`DeleteInBetweenDiverges` and `UpdateInBetweenDiverges` show why; events of other pods and changes of the real store may come there), UIDs are not reused, an update keeps its UID.
- Sandbox.KubeClientSandbox.React: the tracker's read and delete of a simulated eviction are one step; a delete and re-add of the same key handed over between them, which would remove a pod whose UID is not remembered, is not modelled.
- Sandbox.KubeClientSandbox.RestoreEvictedPods: the lister stands still during the loop, and the waits for the fake informer and tombstones are not modelled.
- Evictions.EvictionRequestsCache.CleanCache: one reading of the clock for the pass, whole seconds, no negative ages; the timeout callback is left out.
- EvictionLimits.EvictionsStayWithinLimits: the informer handlers appear only through the cache operations they call; annotations, metrics, events and tracing are left out.
- Utilization.EvictionRun.EvictPods: the answer to an eviction is a function of the pod (each is tried at most once), and the branch for usage clients that cannot measure pods is left out.
- UtilizationTheorems.UsageIsRecomputed: request-based usage only; the metrics-server and Prometheus clients are external data.
- Thresholds.PercentAndFractionAgree: percentages are exact rationals, quantities integers in the base unit.
- `Normalize`, `Replicate` and `Round` of the normalizer, and the early returns of LowNodeUtilization and HighNodeUtilization: easy members only.
- Duplicates.Balance: pods have at most one owner reference and at least one container; the owner holds the image list, so collisions of joined strings are not modelled; a node whose pods cannot be listed counts as a node without pods; int32 counters do not wrap.
- TargetNodes.GetTargetNodes: equal to checking every pod only if no selector repeats a number of Gt or Lt or a field's value, as API validation ensures (`NodeMatching.SingleValuedIsPlain`); nil and empty slices are the same, and reordering a pod's own value lists in place is not captured.
- NodeSelectors.UniqueSortRequirements: the sort is insertion sort; the comparator determines its result.
- AntiAffinity.Deschedule: label selectors are an abstract match predicate, and pods are unique by namespace and name.
- Metrics.OneReading: the weights are exactly 9/10 and 1/10, and readings are non-negative.
- Informers, leader election, policy decoding, defaults and validation, and the plugins that are a filter and a loop (PodLifeTime, RemoveFailedPods, TooManyRestarts, node taints, node affinity, DefaultEvictor).
