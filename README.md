# GPU scheduler for vSphere Tanzu clusters — a Dafny model

The GPU scheduler is a reconciliation loop. It runs over the Tanzu Kubernetes
clusters (TKCs) it is configured with, and each pass over one cluster does two
things:

* **Demand and provisioning.** It finds the Pending pods that the Kubernetes
  scheduler rejected for lack of `nvidia.com/gpu`. It sums their GPU counts
  per GPU product. For each product it appends that many fresh one-replica,
  GPU-tainted node pools to the cluster's topology (`patch_tkc`). It then
  marks the pods `gpu-scheduled=True` so that they are not provisioned for
  twice.
* **Supply and reclamation.** It scrapes the NVIDIA DCGM exporters, which say
  which nodes' GPUs are in use. It then runs a countdown kept in the node
  annotation `node-destroy-countdown`:
  * an occupied or unannotated GPU node is set to 30;
  * a vacant one counts down by one;
  * a node whose count would reach 0 has its node pool removed from the
    topology instead.

The model covers two versions of the script:

* the later one, `gpu-scheduler/scheduler.py`: its reconciliation core, the
  pass its `while True` loop runs for each cluster;
* the early one kept under `supervisor-service/gpu-scheduler/scheduler.py`.
  It has the same two queries, with a stricter message pattern and looser
  error handling.

## Structure

Modules follow the script's functions:

* `Common` holds `Option`, `Result` and `Error`. The Python exceptions the
  model covers are `Err`s: `KeyError`, `IndexError`, `TypeError`, and
  `AttributeError` for `.group` on a failed match. Nothing in the loop catches
  exceptions, so an `Err` ends the script. The exceptions the model does not
  raise are listed under "Left out": a failing `int()` conversion, and
  `KeyError`s on fields taken to be present.
* `Text` and `Messages` write out by hand the regular expressions that match
  scheduling messages. `Metrics` does the same for the DCGM exporter's line
  pattern, including the backtracking of its lazy groups.
* `Pods` and `DemandQuery` model `query_gpu_demand`. `Pods.Reduce` is
  `functools.reduce` over Python values, each a container mapping or an
  `int`; both versions' GPU counts are reductions with their own step.
  `Aggregation` models `compute_GPU_node_demand`.
* `Provisioning` models `generate_nodePool_template` and the pool filter of
  `destroy_node`.
* `Supply` models `query_gcdm` and `get_GPU_node_info`.
* `Lifecycle` models the decision of `node_destroy_countdown` and its effect
  over many passes.
* `Reconciler` has the class `Cluster`. Its fields are:
  * the pods;
  * the topology's node pools;
  * the nodes with their taints and countdown annotation;
  * the random suffixes still to be drawn.

  Its methods are the script's state-changing steps, each proved against the
  functions above. `ReconcilePass` is one iteration of the `while True` loop
  for one cluster. It also returns the pools it appended to the topology;
  the script returns nothing and only logs each patched topology.
* `Supervisor` models the early version and relates it to the later one.

Python dicts keep insertion order. The aggregated demand is therefore a
`Tally`: the products in first-seen order beside the per-product totals. The
pass provisions products in that order.

## Model

| member | source | states |
|---|---|---|
| Messages.EarlyPatternImpliesLater | supervisor-service/gpu-scheduler/scheduler.py:66 | every message the early pattern (`... available: [0-9]+ Insufficient ...`) accepts, the later pattern (`... available:.*?[0-9]+ Insufficient ...`, gpu-scheduler/scheduler.py:64) accepts too |
| Messages.ShapedMessageMatchesLater | gpu-scheduler/scheduler.py:64 | any `0/<n> nodes are available:<reason><m> Insufficient nvidia.com/gpu...` with digit strings `n`, `m` and a newline-free reason matches the later pattern |
| Messages.ShapedMessageMatchesEarly | supervisor-service/gpu-scheduler/scheduler.py:66 | any `0/<n> nodes are available: <m> Insufficient nvidia.com/gpu...` matches the early pattern |
| Messages.TaintFirstMessageMatches | gpu-scheduler/scheduler.py:312-313 | the recorded message that lists the taint reason before the GPU shortage matches the later pattern |
| Messages.TaintFirstMessageSeparates | gpu-scheduler/scheduler.py:312-313 | the recorded message with the taint reason first is accepted by the later pattern and rejected by the early one (supervisor-service/gpu-scheduler/scheduler.py:66), which looks for the count right after `available: ` |
| Messages.ShortageFirstMessageMatches | supervisor-service/gpu-scheduler/scheduler.py:104-105 | the recorded message that lists the GPU shortage first matches both patterns |
| Pods.MatchCountZero | gpu-scheduler/scheduler.py:61-64 | a pod yields no entry exactly when none of its conditions passes the condition test; both versions count with it, each passing its own test (later: an Unschedulable PodScheduled condition whose message matches the later pattern; early, supervisor-service/gpu-scheduler/scheduler.py:64-66: the early pattern) |
| DemandQuery.Expressions | gpu-scheduler/scheduler.py:72-73 | the flattened match expressions are exactly those of some node-selector term |
| DemandQuery.AffinityProduct | gpu-scheduler/scheduler.py:72-75 | raises `IndexError` iff some expression on the product key has no values; no product iff no expression has that key; otherwise the first value of the last expression on that key |
| Pods.ReduceErrorPersists | gpu-scheduler/scheduler.py:77 | once a step of `functools.reduce` raises, no later step runs and the reduction raises that exception |
| DemandQuery.GetGpuCount | gpu-scheduler/scheduler.py:41-51 | raises `TypeError` iff an argument is an `int` (subscripting it is not caught); otherwise the sum of the two limits, a missing one counting 0 |
| DemandQuery.LaterReduction | gpu-scheduler/scheduler.py:76-77 | the reduction over two containers is the sum of their limits, a missing one counting 0; from a third container on the step gets the running `int` and the reduction raises `TypeError` |
| DemandQuery.GpuCount | gpu-scheduler/scheduler.py:76-79 | two containers: the sum of their limits, a missing limit counting 0; three or more: `TypeError`; one container: its limit, which must exist; none: `IndexError` |
| DemandQuery.PodDemandMeaning | gpu-scheduler/scheduler.py:57-80 | a pod raises iff it is Pending without annotations, or selected with an entry that raises; it contributes iff it is selected (Pending, not `gpu-scheduled`, with conditions, one of them matching) and its entry builds; it contributes one copy of that entry per matching condition |
| DemandQuery.Acknowledge | gpu-scheduler/scheduler.py:136-140 | the marked pod carries `gpu-scheduled`, set to `True` when it was not there before; its annotation keys are the old ones plus `gpu-scheduled`, every old annotation keeps its value, and nothing else of the pod changes |
| DemandQuery.AcknowledgedPodYieldsNothing | gpu-scheduler/scheduler.py:58-60 | a pod marked `gpu-scheduled` never counts as demand again |
| DemandQuery.DemandErrorPersists | gpu-scheduler/scheduler.py:57 | once a pod raises, the whole query raises with that error, whatever follows |
| DemandQuery.DemandNamesContributors | gpu-scheduler/scheduler.py:65-80 | every pod that contributes entries is named, by namespace and name, in the query's result |
| DemandQuery.NoContributorsNoDemand | gpu-scheduler/scheduler.py:56-81 | if no pod contributes, the demand is empty |
| DemandQuery.AcknowledgingDemandClearsIt | gpu-scheduler/scheduler.py:277-279 | after every pod named by the demand is marked, the next query finds no demand |
| Aggregation.ProductsMembership | gpu-scheduler/scheduler.py:87-91 | a product is a key of the aggregation iff some entry names it |
| Aggregation.FirstSeen | gpu-scheduler/scheduler.py:86-91 | the dict's keys in insertion order: exactly the named products, each once |
| Aggregation.TalliedMeaning | gpu-scheduler/scheduler.py:87-91 | updating the dict entry by entry yields, for each product, the sum of its counts, with the products in first-seen order |
| Aggregation.ComputeGpuNodeDemand | gpu-scheduler/scheduler.py:83-92 | returns `None` for no demand, `KeyError('GPU_product')` if an entry names no product, and otherwise the dict of per-product totals |
| Aggregation.AggregationIgnoresOrder | gpu-scheduler/scheduler.py:83-92 | permuting the demand entries changes neither the outcome kind nor the totals |
| Aggregation.NodeDemandMeaning | gpu-scheduler/scheduler.py:83-92 | a computed tally has exactly the named products as keys, each with its summed count, and lists each key once in its order |
| Provisioning.CandidateIsGenerated | gpu-scheduler/scheduler.py:97 | each candidate is `gpu-scheduler-<vmClass>-` followed by five lower-case letters or digits |
| Provisioning.GenerateTemplate | gpu-scheduler/scheduler.py:94-110 | draws until the name is not excluded; the pool has that name, one replica, the VM class, the `nvidia.com/gpu=gpu-scheduler:NoSchedule` taint and two 70Gi volumes; if it finds nothing, every draw collided |
| Provisioning.RemovePool | gpu-scheduler/scheduler.py:200 | keeps exactly the pools whose name differs from the resolved pool name |
| Provisioning.RemovePoolConcat | gpu-scheduler/scheduler.py:200 | the filter keeps order: it distributes over concatenation |
| Provisioning.RemoveAbsentPool | gpu-scheduler/scheduler.py:200 | removing a name no pool has changes nothing |
| Provisioning.RemoveProvisionedPool | gpu-scheduler/scheduler.py:200 | destroying the node of a pool the scheduler appended under a fresh name removes exactly that pool and keeps every other pool in order |
| Metrics.GroupsSkipRun | gpu-scheduler/scheduler.py:154 | a lazy group never stops inside a run of characters that are neither quotes nor newlines |
| Metrics.GroupsSkipValue | gpu-scheduler/scheduler.py:154 | a lazy group never stops inside a value that has no quote and no newline |
| Metrics.GroupsOfValues | gpu-scheduler/scheduler.py:154-155 | when clean values each followed by their delimiter come first, the groups are exactly those values |
| Metrics.MatchRendered | gpu-scheduler/scheduler.py:153-155 | a line the exporter writes from clean label values matches, and gives back those values |
| Metrics.ParseRenderedLine | gpu-scheduler/scheduler.py:153-167 | a rendered sample is a metric line and parses back to the same sample |
| Metrics.Scrape | gpu-scheduler/scheduler.py:152-167 | raises `AttributeError` exactly when some `DCGM_FI_DEV_SM_CLOCK` line does not fit the pattern; otherwise gives one sample per such line |
| Metrics.ScrapeRenderedLines | gpu-scheduler/scheduler.py:152-167 | lines rendered from clean samples scrape back to those samples, in order |
| Supply.ScrapeAll | gpu-scheduler/scheduler.py:147-170 | raises iff some exporter's output raises |
| Supply.ScrapeAllCount | gpu-scheduler/scheduler.py:147-170 | a successful scrape yields one sample per metric line over all exporters |
| Supply.QueryGcdm | gpu-scheduler/scheduler.py:142-170 | the nested loop over exporters and lines computes the scrape |
| Supply.VacantNodes | gpu-scheduler/scheduler.py:178-181 | a node is listed as vacant iff some sample on it has an empty `pod` label |
| Supply.OccupiedNodes | gpu-scheduler/scheduler.py:178-179 | a node is listed as occupied iff some sample on it has a non-empty `pod` label |
| Supply.SupplyPartition | gpu-scheduler/scheduler.py:172-182 | every sample's node lands in exactly one of the two lists |
| Supply.GetGpuNodeInfo | gpu-scheduler/scheduler.py:172-182 | the loop computes the vacant and occupied lists in sample order |
| Lifecycle.ProvisionedNodesAreDedicated | gpu-scheduler/scheduler.py:219 | a node of a pool the scheduler generated passes the GPU-dedication test |
| Lifecycle.Decide | gpu-scheduler/scheduler.py:218-240 | skips iff the node has no `nvidia.com/gpu` taint; destroys iff dedicated, vacant and annotated 1; resets to 30 when occupied or unannotated; else decrements; never writes 0 |
| Lifecycle.EvolveConcat | gpu-scheduler/scheduler.py:242-300 | passes compose: later passes continue from the annotation earlier ones left |
| Lifecycle.CountdownRunsOut | gpu-scheduler/scheduler.py:228-237 | a vacant node annotated `c >= 1` is destroyed in its `c`-th pass and not before |
| Lifecycle.NonPositiveCountdownNeverFires | gpu-scheduler/scheduler.py:233-236 | a vacant node annotated 0 or below is never destroyed; its count only goes further down |
| Lifecycle.UnannotatedNodeLifetime | gpu-scheduler/scheduler.py:214-237 | a new vacant GPU node is annotated 30 and destroyed in its 31st pass |
| Lifecycle.GraceAfterUse | gpu-scheduler/scheduler.py:228-237 | after a pass in use, a node survives 29 vacant passes and is destroyed in the 30th |
| Lifecycle.Tick | gpu-scheduler/scheduler.py:211-240 | one call keeps every node and its taints, changes no other node, and only removes pools |
| Lifecycle.Ticks | gpu-scheduler/scheduler.py:299-300 | calls over a node list keep every node and its taints, leave unlisted nodes alone, and only remove pools |
| Lifecycle.OccupiedReset | gpu-scheduler/scheduler.py:300 | every occupied dedicated node ends the occupied sweep at 30 |
| Lifecycle.SweepOutcome | gpu-scheduler/scheduler.py:299-300 | a pass's sweep keeps every node, only removes pools, and leaves each occupied dedicated node at 30 |
| Reconciler.FindProduct | gpu-scheduler/scheduler.py:68-75 | the nested loops over affinity terms compute the product lookup, including its `KeyError` and `IndexError` |
| Reconciler.PodEntry | gpu-scheduler/scheduler.py:65-79 | builds the entry of a matching condition, or the lookup's raise |
| Reconciler.PodEntries | gpu-scheduler/scheduler.py:58-80 | the condition loop of one pod computes the pod's contribution |
| Reconciler.FreshSnoc | gpu-scheduler/scheduler.py:119-121 | a pool whose name is new to the topology keeps the added pools' names distinct and fresh |
| Reconciler.FreshConcat | gpu-scheduler/scheduler.py:269-276 | a block of pools fresh over the topology as it stands keeps everything appended since the pass began distinct and fresh |
| Reconciler.LaidPoolsProvisioned | gpu-scheduler/scheduler.py:268-276 | every pool laid out for a tally is a generated GPU pool of a mapped product |
| Reconciler.Cluster.QueryGpuDemand | gpu-scheduler/scheduler.py:40-81 | the pod loop computes the demand or the first raise |
| Reconciler.Cluster.PatchTkc | gpu-scheduler/scheduler.py:112-134 | appends `count` fresh GPU pools of the product's VM class, with distinct names not already in the topology; raises `KeyError` iff the count is positive and the product is unmapped; the topology is unchanged on error |
| Reconciler.Cluster.AnnotatePods | gpu-scheduler/scheduler.py:136-140 | marks exactly the pods the entries name and leaves every other pod as it was; after marking the demand just computed, the demand is empty |
| Reconciler.Cluster.DestroyNode | gpu-scheduler/scheduler.py:184-209 | drops exactly the pools named like the node's pool, in order |
| Reconciler.Cluster.NodeDestroyCountdown | gpu-scheduler/scheduler.py:211-240 | a missing node raises `TypeError` and changes nothing; otherwise the action is `Decide`'s and the new state is one `Tick` |
| Reconciler.Cluster.Countdowns | gpu-scheduler/scheduler.py:299-300 | succeeds iff every listed node exists, and otherwise raises `TypeError`; keeps the nodes and only removes pools; on success the new state is `Ticks` over the list; on a raise it is `Ticks` over the nodes ahead of the first missing one |
| Reconciler.Cluster.Provision | gpu-scheduler/scheduler.py:268-276 | the topology only grows at its end, by fresh, distinctly named GPU pools; on success the appended pools are, product by product in first-seen order, as many pools of the product's VM class as its total; on a raise, the products before the failing one got all their pools, and the failing one needs pools and is unmapped (`KeyError`) or, mapped, ran out of draws; some product being unmapped with a positive total makes it raise |
| Reconciler.Cluster.ScheduleDemand | gpu-scheduler/scheduler.py:263-281 | a failing demand query, a failing aggregation and an empty demand change nothing; a raise while provisioning leaves the pods unmarked and the topology with the pools of the products before the failing one; on success the appended pools are those of each aggregated product in order, exactly the pods the demand names are marked, and no demand is left |
| Reconciler.Cluster.MonitorSupply | gpu-scheduler/scheduler.py:287-300 | succeeds iff the scrape parses and every listed node exists; a failing scrape raises `AttributeError` and changes nothing, a missing node raises `TypeError`; on success the swept lists are the scrape's vacant and occupied nodes, and the new state is `Sweep` over them; after a missing node the new state is the countdown stopped at the first missing node, in the vacant list or, after the whole vacant list, in the occupied one |
| Reconciler.Cluster.ReconcilePass | gpu-scheduler/scheduler.py:251-300 | one pass: a failing demand query or aggregation changes nothing; a raise is either a provisioning raise, with pods and nodes untouched and the pools appended so far, or a supply raise after the pods were marked and the demand's pools appended, the state then being unchanged beyond that for a failing scrape and the stopped sweep for a missing node; on success exactly the named pods are marked, no demand is left, the appended pools are those of each aggregated product, the reported lists are the scrape's, and the new nodes and pools are `Sweep` from the topology with those pools appended; nodes are kept, occupied dedicated nodes are at 30, and every pool is old or a generated GPU pool |
| Supervisor.SumLimits | supervisor-service/gpu-scheduler/scheduler.py:72 | the lambda gives the sum of the two limits iff both arguments are mappings with a limit; an `int` first argument raises `TypeError`, a first mapping without a limit `KeyError` |
| Supervisor.EarlyReduction | supervisor-service/gpu-scheduler/scheduler.py:71-72 | two containers give the sum of their limits iff both have one; a missing one among the first two raises `KeyError`; with those two present, a third container raises `TypeError` |
| Supervisor.GpuCount | supervisor-service/gpu-scheduler/scheduler.py:71-74 | one or two containers all carrying a limit give its value or their sum; a missing limit raises `KeyError`; three or more raise `TypeError` once the first two have limits; none raises `IndexError` |
| Supervisor.PodDemand | supervisor-service/gpu-scheduler/scheduler.py:62-75 | a Pending pod raises iff it has no conditions or a matching condition whose entry raises; otherwise one copy of the entry per matching condition |
| Supervisor.DemandErrorPersists | supervisor-service/gpu-scheduler/scheduler.py:61 | the first raising pod decides the query's outcome |
| Supervisor.PodEntry | supervisor-service/gpu-scheduler/scheduler.py:67-74 | builds the entry of a matching condition, or the lookup's raise |
| Supervisor.PodEntries | supervisor-service/gpu-scheduler/scheduler.py:62-75 | the condition loop computes the pod's contribution |
| Supervisor.QueryGpuDemand | supervisor-service/gpu-scheduler/scheduler.py:55-76 | the pod loop computes the demand or the first raise |
| Supervisor.QueryGcdm | supervisor-service/gpu-scheduler/scheduler.py:30-53 | the line loop computes the same scrape as the later version |
| Supervisor.EarlyMatchIsLaterMatch | supervisor-service/gpu-scheduler/scheduler.py:65-66 | every condition the early version matches, the later version matches too |
| Supervisor.EarlyMatchCountBound | supervisor-service/gpu-scheduler/scheduler.py:64-66 | the early version never counts more matching conditions than the later one |
| Supervisor.EarlyEntryIsLaterEntry | supervisor-service/gpu-scheduler/scheduler.py:67-74 | where the early version builds an entry, the later version builds the same one |
| Supervisor.EarlyDemandWithinLater | supervisor-service/gpu-scheduler/scheduler.py:55-76 | on an unacknowledged pod, whatever the early version contributes the later one contributes too, with at least as many copies of the same entry |

## Left out

- Shelling out to `kubectl`, `curl` and the exporter port-forward, with YAML parsing, file writes, `time.sleep`, `os.killpg` and `log`: these are I/O. Their results are parameters:
  - the pod and node records and the topology are the fields of `Cluster`;
  - the exporters' output is a sequence of line lists;
  - the exporter-to-node and node-to-pool lookups are the functions `nodeOf` and `poolOf`.
- `read_config`, `get_tkc_secret` and the loop over configured clusters: these are configuration and credential I/O. `ReconcilePass` is one cluster's pass. The infinite `while True` and its 30-second sleep are not modelled.
- The early version's module-level script: it only runs both queries for the first cluster and writes `kubectl get node` output to a file.
- `random.choice` is modelled as a finite list of drawn suffixes. If every draw collides, the model reports `Exhausted`, where the source would keep drawing.
- Label values and GPU limits are integers. A failing `int(...)` conversion is not modelled.
- `KeyError`s on fields every pod and node record carries are not modelled: `status`, `metadata`, `spec`, `containers` and a condition's `type`, `status`, `reason` and `message`. The same goes for a node's `metadata.annotations`, taken to be present.
- Simplified `KeyError` keys:
  - Any missing step of the node-affinity path raises `KeyError('affinity')`.
  - A missing step of a container's `resources.limits` path raises `KeyError('nvidia.com/gpu')`.
  - A match expression without `values` raises `KeyError('values')` at gpu-scheduler/scheduler.py:75. The model reads the missing list as empty, which raises `IndexError`.
  - A node-selector term without `matchExpressions` raises `KeyError('matchExpressions')` at gpu-scheduler/scheduler.py:73. The model reads it as a term with no expressions, which raises nothing.
  - In the early version, a pod without a `nodeSelector` raises `KeyError('nvidia.com/gpu.product')`, not `KeyError('nodeSelector')`.

## Source behaviour worth knowing

The model keeps these behaviours of the code:

  - The countdown ceiling is the constant 30 written in `node_destroy_countdown`.
  - A countdown annotation of 0 or less is not clamped. Such a node is never destroyed (`Lifecycle.NonPositiveCountdownNeverFires`).
  - Malformed records are not skipped; they raise and end the script:
    - a metrics line that does not fit the pattern;
    - a pod with no product, which raises `KeyError('GPU_product')` at aggregation;
    - an unmapped product;
    - a missing affinity path.
  - The pool a destroyed node resolves to is removed without checking that exactly one pool carries that name.
