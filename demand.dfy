/** Demand selection and extraction of the later scheduler
    (`query_gpu_demand` in gpu-scheduler/scheduler.py): which pods count as
    unmet GPU demand, and what product and GPU count each one asks for. */
module DemandQuery {
  import opened Common
  import opened Pods
  import Messages

  /** A condition reporting that the pod could not be placed for lack of GPUs. */
  predicate Matches(c: Condition) {
    Unschedulable(c) && Messages.ReportsInsufficientGpu(c.message)
  }

  /** The four clauses of the selection test, all of which must hold. */
  predicate Selected(p: Pod) {
    && p.phase == PendingPhase
    && p.annotations.Some? && ScheduledAnnotation !in p.annotations.value
    && p.conditions.Some?
    && exists i | 0 <= i < |p.conditions.value| :: Matches(p.conditions.value[i])
  }

  /** The affinity match expressions in the order the source's nested loops visit them. */
  function Expressions(terms: seq<seq<MatchExpression>>): (r: seq<MatchExpression>)
    ensures forall e :: e in r <==> exists t | 0 <= t < |terms| :: e in terms[t]
  {
    if |terms| == 0 then []
    else Expressions(terms[..|terms| - 1]) + terms[|terms| - 1]
  }

  /** The product named by the match expressions: each expression keyed by the
      product label overwrites the previous one with its first value, and one
      with no values raises `IndexError`. */
  function AffinityProduct(exprs: seq<MatchExpression>): (r: Result<Option<string>>)
    ensures r.Err? <==> exists i | 0 <= i < |exprs| :: exprs[i].key == ProductLabel && exprs[i].values == []
    ensures r.Err? ==> r.error == IndexError
    ensures r == Ok(None) <==> forall i | 0 <= i < |exprs| :: exprs[i].key != ProductLabel
    ensures r.Ok? && r.value.Some? ==>
      exists i | 0 <= i < |exprs| ::
        && exprs[i].key == ProductLabel && exprs[i].values != [] && r.value.value == exprs[i].values[0]
        && forall j | i < j < |exprs| :: exprs[j].key != ProductLabel
  {
    if |exprs| == 0 then Ok(None)
    else
      var earlier := AffinityProduct(exprs[..|exprs| - 1]);
      var last := exprs[|exprs| - 1];
      if earlier.Err? then earlier
      else if last.key != ProductLabel then earlier
      else if last.values == [] then Err(IndexError)
      else Ok(Some(last.values[0]))
  }

  /** The GPU product of a pod: the node selector wins, otherwise the required
      node affinity, whose absence raises `KeyError`. */
  function Product(p: Pod): (r: Result<Option<string>>)
    ensures ProductLabel in p.nodeSelector ==> r == Ok(Some(p.nodeSelector[ProductLabel]))
    ensures ProductLabel !in p.nodeSelector && p.selectorTerms.None? ==> r == Err(KeyError("affinity"))
  {
    if ProductLabel in p.nodeSelector then Ok(Some(p.nodeSelector[ProductLabel]))
    else if p.selectorTerms.None? then Err(KeyError("affinity"))
    else AffinityProduct(Expressions(p.selectorTerms.value))
  }

  /** `get_gpu_count(a, b)`: each argument's limit is added to 0 inside its
      own `try`, whose `except KeyError` makes a missing limit count 0; the
      `TypeError` of subscripting an `int` is not caught. */
  function GetGpuCount(a: PyValue, b: PyValue): (r: Result<PyValue>)
    ensures r.Err? <==> a.Int? || b.Int?
    ensures r.Err? ==> r.error == TypeError
    ensures r.Ok? ==> r.value == Int(LimitOrZero(a.container) + LimitOrZero(b.container))
  {
    match LimitOf(a)
    case Err(e) => Err(e)
    case Ok(la) =>
      match LimitOf(b)
      case Err(e) => Err(e)
      case Ok(lb) =>
        Ok(Int((if la.Some? then la.value else 0) + (if lb.Some? then lb.value else 0)))
  }

  /** The reduction over a pod's containers: two containers give the sum of
      their limits, a missing one counting 0; from the third container on the
      step subscripts the running `int` and the reduction raises `TypeError`. */
  lemma LaterReduction(cs: seq<Container>)
    requires |cs| >= 2
    ensures Reduce(GetGpuCount, Mappings(cs)) ==
      if |cs| == 2 then Ok(Int(LimitOrZero(cs[0]) + LimitOrZero(cs[1]))) else Err(TypeError)
  {
    var xs := Mappings(cs);
    ReducePair(GetGpuCount, xs[..2]);
    if |cs| > 2 {
      assert xs[..3][..2] == xs[..2];
      assert Reduce(GetGpuCount, xs[..3]) == Err(TypeError);
      ReduceErrorPersists(GetGpuCount, xs, 3);
    } else {
      assert xs[..2] == xs;
    }
  }

  /** The GPU count of a pod.  Two or more containers go through
      `functools.reduce(get_gpu_count, containers)`; a single container's
      limit is taken as is, and must exist. */
  function GpuCount(p: Pod): (r: Result<int>)
    ensures |p.containers| == 2 ==> r == Ok(LimitOrZero(p.containers[0]) + LimitOrZero(p.containers[1]))
    ensures |p.containers| > 2 ==> r == Err(TypeError)
    ensures |p.containers| == 1 ==> (r.Ok? <==> p.containers[0].gpuLimit.Some?)
    ensures r.Ok? && |p.containers| == 1 ==> r.value == p.containers[0].gpuLimit.value
    ensures |p.containers| == 0 ==> r == Err(IndexError)
  {
    if |p.containers| >= 2 then
      LaterReduction(p.containers);
      match Reduce(GetGpuCount, Mappings(p.containers))
      case Err(e) => Err(e)
      case Ok(total) => AsInt(total)
    else if |p.containers| == 0 then Err(IndexError)
    else if p.containers[0].gpuLimit.None? then Err(KeyError(GpuResource))
    else Ok(p.containers[0].gpuLimit.value)
  }

  /** The entry built for a selected pod: product first, then count. */
  function Entry(p: Pod): Result<DemandItem> {
    match Product(p)
    case Err(e) => Err(e)
    case Ok(product) =>
      match GpuCount(p)
      case Err(e) => Err(e)
      case Ok(count) => Ok(DemandItem(p.namespace, p.name, product, count))
  }

  /** A Pending pod without `metadata.annotations` makes the annotation test raise. */
  predicate LacksAnnotations(p: Pod) {
    p.phase == PendingPhase && p.annotations.None?
  }

  /** The entries one pod contributes: one copy of its entry per matching
      condition when it is selected, none otherwise. */
  function PodDemand(p: Pod): Result<seq<DemandItem>> {
    if p.phase != PendingPhase then Ok([])
    else if p.annotations.None? then Err(KeyError("annotations"))
    else if ScheduledAnnotation in p.annotations.value || p.conditions.None? then Ok([])
    else
      var n := MatchCount(Matches, p.conditions.value);
      if n == 0 then Ok([])
      else
        match Entry(p)
        case Err(e) => Err(e)
        case Ok(item) => Ok(seq(n, _ => item))
  }

  lemma AffinityStep(exprs: seq<MatchExpression>, e: MatchExpression)
    ensures AffinityProduct(exprs + [e]) ==
      if AffinityProduct(exprs).Err? || e.key != ProductLabel then AffinityProduct(exprs)
      else if e.values == [] then Err(IndexError)
      else Ok(Some(e.values[0]))
  {
    assert (exprs + [e])[..|exprs|] == exprs;
  }

  lemma CopiesSnoc(x: DemandItem, n: nat)
    ensures seq(n + 1, _ => x) == seq(n, _ => x) + [x]
  {
  }

  /** A pod past the phase, annotation and conditions tests. */
  predicate Candidate(p: Pod) {
    && p.phase == PendingPhase
    && p.annotations.Some? && ScheduledAnnotation !in p.annotations.value
    && p.conditions.Some?
  }

  lemma CandidateError(p: Pod)
    requires Candidate(p) && MatchCount(Matches, p.conditions.value) > 0 && Entry(p).Err?
    ensures PodDemand(p) == Err(Entry(p).error)
  {
  }

  lemma CandidateEntries(p: Pod, found: seq<DemandItem>)
    requires Candidate(p)
    requires Entry(p).Ok? ==> found == seq(MatchCount(Matches, p.conditions.value), _ => Entry(p).value)
    requires Entry(p).Err? ==> MatchCount(Matches, p.conditions.value) == 0 && found == []
    ensures PodDemand(p) == Ok(found)
  {
  }

  /** A pod raises exactly when it is Pending without annotations, or
      selected with an entry that raises; it contributes exactly when it is
      selected and its entry builds, one copy per matching condition. */
  lemma PodDemandMeaning(p: Pod)
    ensures PodDemand(p).Err? <==> LacksAnnotations(p) || (Selected(p) && Entry(p).Err?)
    ensures PodDemand(p).Ok? && PodDemand(p).value != [] <==> Selected(p) && Entry(p).Ok?
    ensures PodDemand(p).Ok? && Selected(p) ==> |PodDemand(p).value| == MatchCount(Matches, p.conditions.value)
    ensures PodDemand(p).Ok? ==> forall k | 0 <= k < |PodDemand(p).value| :: Entry(p) == Ok(PodDemand(p).value[k])
  {
    if p.conditions.Some? {
      MatchCountZero(Matches, p.conditions.value);
    }
  }

  /** The demand of a pod list: the pods' entries in pod order; the first pod
      that raises aborts the whole query. */
  function Demand(pods: seq<Pod>): Result<seq<DemandItem>> {
    if |pods| == 0 then Ok([])
    else
      match Demand(pods[..|pods| - 1])
      case Err(e) => Err(e)
      case Ok(earlier) =>
        match PodDemand(pods[|pods| - 1])
        case Err(e) => Err(e)
        case Ok(items) => Ok(earlier + items)
  }

  /** Marking a pod `gpu-scheduled=True` (kubectl refuses to overwrite an
      existing value without `--overwrite`, so a marked pod stays as it is). */
  function Acknowledge(p: Pod): (q: Pod)
    ensures q.annotations.Some? && ScheduledAnnotation in q.annotations.value
    ensures q.(annotations := p.annotations) == p
    ensures q.annotations.value.Keys ==
      (if p.annotations.Some? then p.annotations.value.Keys else {}) + {ScheduledAnnotation}
    ensures p.annotations.Some? ==>
      forall k | k in p.annotations.value :: q.annotations.value[k] == p.annotations.value[k]
    ensures p.annotations.None? || ScheduledAnnotation !in p.annotations.value ==>
      q.annotations.value[ScheduledAnnotation] == "True"
  {
    if p.annotations.Some? && ScheduledAnnotation in p.annotations.value then p
    else
      var current := if p.annotations.Some? then p.annotations.value else map[];
      p.(annotations := Some(current[ScheduledAnnotation := "True"]))
  }

  /** An acknowledged pod never counts as demand again, whatever else changes. */
  lemma AcknowledgedPodYieldsNothing(p: Pod)
    ensures PodDemand(Acknowledge(p)) == Ok([])
  {
  }

  /** Whether some entry names the pod (the source annotates by namespace and name). */
  predicate Named(p: Pod, items: seq<DemandItem>) {
    exists k | 0 <= k < |items| :: items[k].namespace == p.namespace && items[k].name == p.name
  }

  /** Naming is decided entry by entry. */
  lemma NamedSnoc(p: Pod, items: seq<DemandItem>, item: DemandItem)
    ensures Named(p, items + [item]) <==> Named(p, items) || (item.namespace == p.namespace && item.name == p.name)
  {
    if Named(p, items) {
      var m :| 0 <= m < |items| && items[m].namespace == p.namespace && items[m].name == p.name;
      assert (items + [item])[m] == items[m];
    }
    if item.namespace == p.namespace && item.name == p.name {
      assert (items + [item])[|items|] == item;
    }
    if Named(p, items + [item]) {
      var m :| 0 <= m < |items| + 1 && (items + [item])[m].namespace == p.namespace && (items + [item])[m].name == p.name;
      if m < |items| {
        assert items[m] == (items + [item])[m];
      }
    }
  }

  lemma {:induction false} DemandOfAppend(pods: seq<Pod>, p: Pod)
    ensures Demand(pods + [p]) ==
      match Demand(pods)
      case Err(e) => Err(e)
      case Ok(earlier) =>
        match PodDemand(p)
        case Err(e) => Err(e)
        case Ok(items) => Ok(earlier + items)
  {
    assert (pods + [p])[..|pods|] == pods;
  }

  /** The first pod that raises decides the outcome of the whole query. */
  lemma {:induction false} DemandErrorPersists(pods: seq<Pod>, k: nat)
    requires k <= |pods| && Demand(pods[..k]).Err?
    ensures Demand(pods) == Demand(pods[..k])
  {
    if k < |pods| {
      var init := pods[..|pods| - 1];
      assert init[..k] == pods[..k];
      DemandErrorPersists(init, k);
    } else {
      assert pods[..k] == pods;
    }
  }

  /** Every pod that contributes entries is named by the demand it belongs to. */
  lemma {:induction false} DemandNamesContributors(pods: seq<Pod>, i: nat)
    requires i < |pods| && Demand(pods).Ok?
    ensures PodDemand(pods[i]).Ok?
    ensures PodDemand(pods[i]).value != [] ==> Named(pods[i], Demand(pods).value)
  {
    var init := pods[..|pods| - 1];
    var earlier := Demand(init).value;
    if i < |pods| - 1 {
      DemandNamesContributors(init, i);
      assert init[i] == pods[i];
      if PodDemand(pods[i]).value != [] {
        var k :| 0 <= k < |earlier| && earlier[k].namespace == pods[i].namespace && earlier[k].name == pods[i].name;
        assert Demand(pods).value[k] == earlier[k];
      }
    } else {
      var items := PodDemand(pods[i]).value;
      if items != [] {
        assert Demand(pods).value[|earlier|] == items[0];
      }
    }
  }

  /** A pod list in which no pod contributes anything has empty demand. */
  lemma {:induction false} NoContributorsNoDemand(pods: seq<Pod>)
    requires forall i | 0 <= i < |pods| :: PodDemand(pods[i]) == Ok([])
    ensures Demand(pods) == Ok([])
  {
    if |pods| > 0 {
      var init := pods[..|pods| - 1];
      assert forall i | 0 <= i < |init| :: init[i] == pods[i];
      NoContributorsNoDemand(init);
      assert PodDemand(pods[|pods| - 1]) == Ok([]);
      assert Demand(init) == Ok([]);
      var none: seq<DemandItem> := [];
      assert Demand(pods) == Ok(none + none);
      assert none + none == none;
    }
  }

  /** After every pod named by the demand has been acknowledged, the next
      query finds no demand at all: each request triggers provisioning once. */
  lemma {:induction false} AcknowledgingDemandClearsIt(pods: seq<Pod>, acked: seq<Pod>)
    requires Demand(pods).Ok?
    requires |acked| == |pods|
    requires forall i | 0 <= i < |pods| ::
      acked[i] == if Named(pods[i], Demand(pods).value) then Acknowledge(pods[i]) else pods[i]
    ensures Demand(acked) == Ok([])
  {
    forall i | 0 <= i < |acked|
      ensures PodDemand(acked[i]) == Ok([])
    {
      DemandNamesContributors(pods, i);
      if Named(pods[i], Demand(pods).value) {
        AcknowledgedPodYieldsNothing(pods[i]);
      }
    }
    NoContributorsNoDemand(acked);
  }
}
