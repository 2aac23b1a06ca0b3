/** The pod records both scheduler versions read from `kubectl get pods -A -o yaml`,
    reduced to the fields they look at.  A YAML key that may be missing, and
    whose absence changes what the script does, is an `Option`. */
module Pods {
  import opened Common

  const PendingPhase := "Pending"
  /** The extended resource every GPU container limit is expressed in. */
  const GpuResource := "nvidia.com/gpu"
  /** The node label naming the GPU product a pod asks for. */
  const ProductLabel := "nvidia.com/gpu.product"
  /** The pod annotation marking a pod whose demand has been acted on. */
  const ScheduledAnnotation := "gpu-scheduled"

  /** One entry of `status.conditions`. */
  datatype Condition = Condition(kind: string, status: string, reason: string, message: string)

  /** A container; `gpuLimit` is `resources.limits["nvidia.com/gpu"]`, `None`
      when any key on that path is missing. */
  datatype Container = Container(gpuLimit: Option<int>)

  /** One `matchExpressions` entry of a required node-affinity term. */
  datatype MatchExpression = MatchExpression(key: string, values: seq<string>)

  /** A pod.  `annotations` is `None` when `metadata.annotations` is absent,
      `conditions` when `status.conditions` is absent, and `selectorTerms`
      when the path `spec.affinity.nodeAffinity.requiredDuringScheduling...
      .nodeSelectorTerms` is absent; an absent `nodeSelector` is the empty map. */
  datatype Pod = Pod(
    namespace: string,
    name: string,
    phase: string,
    annotations: Option<map<string, string>>,
    conditions: Option<seq<Condition>>,
    nodeSelector: map<string, string>,
    selectorTerms: Option<seq<seq<MatchExpression>>>,
    containers: seq<Container>)

  /** One unmet GPU request; `product` is `None` when the pod names no product. */
  datatype DemandItem = DemandItem(namespace: string, name: string, product: Option<string>, count: int)

  /** The condition fields both versions test before looking at the message. */
  predicate Unschedulable(c: Condition) {
    c.kind == "PodScheduled" && c.status == "False" && c.reason == "Unschedulable"
  }

  /** A container's GPU limit, a container without one counting 0 (the later
      `get_gpu_count` catches the `KeyError` of such a container). */
  function LimitOrZero(c: Container): int {
    if c.gpuLimit.Some? then c.gpuLimit.value else 0
  }

  /** How many of the conditions `matches` accepts: the scheduler adds one
      entry per accepted condition. */
  function MatchCount(matches: Condition -> bool, cs: seq<Condition>): (n: nat)
    ensures n <= |cs|
  {
    if |cs| == 0 then 0
    else MatchCount(matches, cs[..|cs| - 1]) + (if matches(cs[|cs| - 1]) then 1 else 0)
  }

  /** No entry is produced exactly when no condition is accepted. */
  lemma {:induction false} MatchCountZero(matches: Condition -> bool, cs: seq<Condition>)
    ensures MatchCount(matches, cs) == 0 <==> forall i | 0 <= i < |cs| :: !matches(cs[i])
  {
    if |cs| > 0 {
      var init := cs[..|cs| - 1];
      MatchCountZero(matches, init);
      assert forall i | 0 <= i < |init| :: init[i] == cs[i];
    }
  }

  lemma MatchCountSnoc(matches: Condition -> bool, cs: seq<Condition>, j: nat)
    requires j < |cs|
    ensures MatchCount(matches, cs[..j + 1]) == MatchCount(matches, cs[..j]) + (if matches(cs[j]) then 1 else 0)
  {
    assert cs[..j + 1][..j] == cs[..j];
  }

  lemma MatchCountPositive(matches: Condition -> bool, cs: seq<Condition>, j: nat)
    requires j < |cs| && matches(cs[j])
    ensures MatchCount(matches, cs) > 0
  {
    MatchCountZero(matches, cs);
  }

  /** A value `functools.reduce` hands to its step: one of the pod's
      containers (a YAML mapping) or the `int` an earlier step returned. */
  datatype PyValue = Mapping(container: Container) | Int(n: int)

  /** The containers as the values the reduction starts from. */
  function Mappings(cs: seq<Container>): (r: seq<PyValue>)
    ensures |r| == |cs| && forall i | 0 <= i < |cs| :: r[i] == Mapping(cs[i])
  {
    seq(|cs|, i requires 0 <= i < |cs| => Mapping(cs[i]))
  }

  /** `v['resources']['limits']['nvidia.com/gpu']`: subscripting an `int`
      raises `TypeError`; on a mapping the limit is `None` when a key on the
      path is missing, the `KeyError` each step treats in its own way. */
  function LimitOf(v: PyValue): (r: Result<Option<int>>)
    ensures r.Err? <==> v.Int?
    ensures r.Err? ==> r.error == TypeError
    ensures r.Ok? ==> r.value == v.container.gpuLimit
  {
    match v
    case Int(_) => Err(TypeError)
    case Mapping(c) => Ok(c.gpuLimit)
  }

  /** `int(v)` of a reduction's result: only a number converts. */
  function AsInt(v: PyValue): (r: Result<int>)
    ensures r.Ok? <==> v.Int?
    ensures r.Ok? ==> r.value == v.n
  {
    match v
    case Int(n) => Ok(n)
    case Mapping(_) => Err(TypeError)
  }

  /** `functools.reduce(step, values)` with no initial value: the first value
      is the accumulator, each later value is combined into it by `step`, and
      the first step that raises ends the reduction with its exception. */
  function Reduce(step: (PyValue, PyValue) -> Result<PyValue>, values: seq<PyValue>): Result<PyValue>
    requires |values| > 0
  {
    if |values| == 1 then Ok(values[0])
    else
      match Reduce(step, values[..|values| - 1])
      case Err(e) => Err(e)
      case Ok(acc) => step(acc, values[|values| - 1])
  }

  /** Over two values the reduction is a single step. */
  lemma ReducePair(step: (PyValue, PyValue) -> Result<PyValue>, values: seq<PyValue>)
    requires |values| == 2
    ensures Reduce(step, values) == step(values[0], values[1])
  {
    assert Reduce(step, values[..1]) == Ok(values[0]);
  }

  /** An exception raised by the first `k` values is the reduction's result:
      no later step runs. */
  lemma {:induction false} ReduceErrorPersists(step: (PyValue, PyValue) -> Result<PyValue>, values: seq<PyValue>, k: nat)
    requires 0 < k <= |values|
    requires Reduce(step, values[..k]).Err?
    ensures Reduce(step, values) == Reduce(step, values[..k])
  {
    if k < |values| {
      var init := values[..|values| - 1];
      assert init[..k] == values[..k];
      ReduceErrorPersists(step, init, k);
    } else {
      assert values[..k] == values;
    }
  }
}
