/** The early scheduler kept under supervisor-service: the same two queries
    with looser error handling and a stricter message pattern.  Its pod
    selection has no acknowledgement check, reads `status.conditions` without
    testing for it, and takes the product only from the node selector; its
    count reduction adds the limits without defaults. */
module Supervisor {
  import opened Common
  import opened Pods
  import Messages
  import opened Metrics
  import DemandQuery

  /** A condition the early pattern accepts: the GPU shortage listed first. */
  predicate Matches(c: Condition) {
    Unschedulable(c) && Messages.ReportsInsufficientGpuFirst(c.message)
  }

  /** The product, read from the node selector only. */
  function Product(p: Pod): (r: Result<string>)
    ensures r.Ok? <==> ProductLabel in p.nodeSelector
    ensures r.Ok? ==> r.value == p.nodeSelector[ProductLabel]
    ensures r.Err? ==> r.error == KeyError(ProductLabel)
  {
    if ProductLabel in p.nodeSelector then Ok(p.nodeSelector[ProductLabel]) else Err(KeyError(ProductLabel))
  }

  /** The step of the early reduction, `lambda a, b: int(a[...]) + int(b[...])`:
      `a` is subscripted first, and a missing limit on either side raises
      `KeyError`, which nothing catches. */
  function SumLimits(a: PyValue, b: PyValue): (r: Result<PyValue>)
    ensures r.Ok? <==> a.Mapping? && a.container.gpuLimit.Some? && b.Mapping? && b.container.gpuLimit.Some?
    ensures r.Ok? ==> r.value == Int(a.container.gpuLimit.value + b.container.gpuLimit.value)
    ensures a.Int? ==> r == Err(TypeError)
    ensures a.Mapping? && a.container.gpuLimit.None? ==> r == Err(KeyError(GpuResource))
  {
    match LimitOf(a)
    case Err(e) => Err(e)
    case Ok(la) =>
      if la.None? then Err(KeyError(GpuResource))
      else
        match LimitOf(b)
        case Err(e) => Err(e)
        case Ok(lb) =>
          if lb.None? then Err(KeyError(GpuResource)) else Ok(Int(la.value + lb.value))
  }

  /** The early reduction over a pod's containers: the first two limits must
      both exist and are added; a third container reaches the lambda with the
      running `int` as `a`, which raises `TypeError`. */
  lemma EarlyReduction(cs: seq<Container>)
    requires |cs| >= 2
    ensures var r := Reduce(SumLimits, Mappings(cs));
      && (r.Ok? <==> |cs| == 2 && cs[0].gpuLimit.Some? && cs[1].gpuLimit.Some?)
      && (r.Ok? ==> r.value == Int(cs[0].gpuLimit.value + cs[1].gpuLimit.value))
      && (r == Err(TypeError) <==> |cs| > 2 && cs[0].gpuLimit.Some? && cs[1].gpuLimit.Some?)
      && (r.Err? && r.error != TypeError ==> r.error == KeyError(GpuResource))
  {
    var xs := Mappings(cs);
    ReducePair(SumLimits, xs[..2]);
    if |cs| == 2 {
      assert xs[..2] == xs;
    } else if Reduce(SumLimits, xs[..2]).Err? {
      ReduceErrorPersists(SumLimits, xs, 2);
    } else {
      assert xs[..3][..2] == xs[..2];
      assert Reduce(SumLimits, xs[..3]) == Err(TypeError);
      ReduceErrorPersists(SumLimits, xs, 3);
    }
  }

  /** The count: `functools.reduce` of the lambda above over two or more
      containers; a single container's limit is taken as is. */
  function GpuCount(p: Pod): (r: Result<int>)
    ensures r.Ok? <==>
      || (|p.containers| == 1 && p.containers[0].gpuLimit.Some?)
      || (|p.containers| == 2 && p.containers[0].gpuLimit.Some? && p.containers[1].gpuLimit.Some?)
    ensures r.Ok? && |p.containers| == 1 ==> r.value == p.containers[0].gpuLimit.value
    ensures r.Ok? && |p.containers| == 2 ==>
      r.value == p.containers[0].gpuLimit.value + p.containers[1].gpuLimit.value
    ensures |p.containers| == 0 ==> r == Err(IndexError)
    ensures |p.containers| > 2 ==>
      (r == Err(TypeError) <==> p.containers[0].gpuLimit.Some? && p.containers[1].gpuLimit.Some?)
    ensures r.Err? && r.error != IndexError && r.error != TypeError ==> r.error == KeyError(GpuResource)
  {
    if |p.containers| >= 2 then
      EarlyReduction(p.containers);
      match Reduce(SumLimits, Mappings(p.containers))
      case Err(e) => Err(e)
      case Ok(total) => AsInt(total)
    else if |p.containers| == 0 then Err(IndexError)
    else if p.containers[0].gpuLimit.None? then Err(KeyError(GpuResource))
    else Ok(p.containers[0].gpuLimit.value)
  }

  /** The entry of a matching condition: product first, then count. */
  function Entry(p: Pod): Result<DemandItem> {
    match Product(p)
    case Err(e) => Err(e)
    case Ok(product) =>
      match GpuCount(p)
      case Err(e) => Err(e)
      case Ok(count) => Ok(DemandItem(p.namespace, p.name, Some(product), count))
  }

  /** One copy of the entry per matching condition of a Pending pod; a
      Pending pod without `conditions` raises. */
  function PodDemand(p: Pod): (r: Result<seq<DemandItem>>)
    ensures r.Err? <==>
      p.phase == PendingPhase && (p.conditions.None? || (MatchCount(Matches, p.conditions.value) > 0 && Entry(p).Err?))
    ensures r.Ok? && p.phase == PendingPhase ==> |r.value| == MatchCount(Matches, p.conditions.value)
    ensures r.Ok? ==> forall k | 0 <= k < |r.value| :: Entry(p) == Ok(r.value[k])
  {
    if p.phase != PendingPhase then Ok([])
    else if p.conditions.None? then Err(KeyError("conditions"))
    else
      var n := MatchCount(Matches, p.conditions.value);
      if n == 0 then Ok([])
      else
        match Entry(p)
        case Err(e) => Err(e)
        case Ok(item) => Ok(seq(n, _ => item))
  }

  /** The demand of a pod list, in pod order; the first raise aborts. */
  function Demand(pods: seq<Pod>): Result<seq<DemandItem>> {
    if |pods| == 0 then Ok([])
    else
      match Demand(pods[..|pods| - 1])
      case Err(e) => Err(e)
      case Ok(earlier) =>
        match PodDemand(pods[|pods| - 1])
        case Err(e) => Err(e)
        case Ok(items) => Ok(earlier + items)
  }

  lemma {:induction false} DemandErrorPersists(pods: seq<Pod>, k: nat)
    requires k <= |pods| && Demand(pods[..k]).Err?
    ensures Demand(pods) == Demand(pods[..k])
  {
    if k < |pods| {
      var init := pods[..|pods| - 1];
      assert init[..k] == pods[..k];
      DemandErrorPersists(init, k);
    } else {
      assert pods[..k] == pods;
    }
  }

  /** The entry built for a matching condition, field by field. */
  method PodEntry(p: Pod) returns (r: Result<DemandItem>)
    ensures r == Entry(p)
  {
    var product := Product(p);
    if product.Err? {
      return Err(product.error);
    }
    var count := GpuCount(p);
    if count.Err? {
      return Err(count.error);
    }
    return Ok(DemandItem(p.namespace, p.name, Some(product.value), count.value));
  }

  /** The condition loop for one pod. */
  method PodEntries(p: Pod) returns (r: Result<seq<DemandItem>>)
    ensures r == PodDemand(p)
  {
    if p.phase != PendingPhase {
      return Ok([]);
    }
    if p.conditions.None? {
      return Err(KeyError("conditions"));
    }
    var cs := p.conditions.value;
    var found: seq<DemandItem> := [];
    for j := 0 to |cs|
      invariant Entry(p).Ok? ==> found == seq(MatchCount(Matches, cs[..j]), _ => Entry(p).value)
      invariant Entry(p).Err? ==> MatchCount(Matches, cs[..j]) == 0 && found == []
    {
      MatchCountSnoc(Matches, cs, j);
      if Matches(cs[j]) {
        MatchCountPositive(Matches, cs, j);
        var entry := PodEntry(p);
        if entry.Err? {
          return Err(entry.error);
        }
        DemandQuery.CopiesSnoc(entry.value, MatchCount(Matches, cs[..j]));
        found := found + [entry.value];
      }
    }
    assert cs[..|cs|] == cs;
    return Ok(found);
  }

  /** `query_gpu_demand` of the early version. */
  method QueryGpuDemand(pods: seq<Pod>) returns (r: Result<seq<DemandItem>>)
    ensures r == Demand(pods)
  {
    var demand: seq<DemandItem> := [];
    for i := 0 to |pods|
      invariant Demand(pods[..i]) == Ok(demand)
    {
      var entries := PodEntries(pods[i]);
      PrefixSnoc(pods, i);
      assert (pods[..i] + [pods[i]])[..i] == pods[..i];
      if entries.Err? {
        DemandErrorPersists(pods, i + 1);
        return Err(entries.error);
      }
      demand := demand + entries.value;
    }
    assert pods[..|pods|] == pods;
    return Ok(demand);
  }

  /** `query_gcdm` of the early version, over the lines of its one script's
      output: the same parse, and the same raise on a prefixed line that does
      not fit the pattern. */
  method QueryGcdm(lines: seq<string>) returns (r: Result<seq<Sample>>)
    ensures r == Scrape(lines)
  {
    var info: seq<Sample> := [];
    for j := 0 to |lines|
      invariant Scrape(lines[..j]) == Ok(info)
    {
      var line := lines[j];
      ScrapeSnoc(lines[..j], line);
      PrefixSnoc(lines, j);
      if IsMetricLine(line) {
        var parsed := ParseLine(line);
        if parsed.None? {
          assert IsMetricLine(lines[j]) && ParseLine(lines[j]).None?;
          return Err(AttributeError);
        }
        info := info + [parsed.value];
      }
    }
    assert lines[..|lines|] == lines;
    return Ok(info);
  }

  /** Every condition the early version matches, the later one matches too. */
  lemma EarlyMatchIsLaterMatch(c: Condition)
    ensures Matches(c) ==> DemandQuery.Matches(c)
  {
    Messages.EarlyPatternImpliesLater(c.message);
  }

  lemma {:induction false} EarlyMatchCountBound(cs: seq<Condition>)
    ensures MatchCount(Matches, cs) <= MatchCount(DemandQuery.Matches, cs)
  {
    if |cs| > 0 {
      EarlyMatchCountBound(cs[..|cs| - 1]);
      EarlyMatchIsLaterMatch(cs[|cs| - 1]);
    }
  }

  /** Where the early version builds an entry, the later version builds the
      same one: its node-selector product and its stricter count agree. */
  lemma EarlyEntryIsLaterEntry(p: Pod)
    requires Entry(p).Ok?
    ensures DemandQuery.Entry(p) == Entry(p)
  {
  }

  /** On a pod carrying annotations but no acknowledgement, whatever the
      early version contributes the later one contributes as well, with at
      least as many copies of the same entry. */
  lemma EarlyDemandWithinLater(p: Pod)
    requires p.annotations.Some? && ScheduledAnnotation !in p.annotations.value
    requires PodDemand(p).Ok? && PodDemand(p).value != []
    ensures DemandQuery.PodDemand(p).Ok?
    ensures |PodDemand(p).value| <= |DemandQuery.PodDemand(p).value|
    ensures forall k | 0 <= k < |DemandQuery.PodDemand(p).value| :: DemandQuery.PodDemand(p).value[k] == PodDemand(p).value[0]
  {
    var early := PodDemand(p).value;
    assert Entry(p) == Ok(early[0]);
    assert p.phase == PendingPhase && p.conditions.Some?;
    var cs := p.conditions.value;
    MatchCountZero(Matches, cs);
    EarlyMatchCountBound(cs);
    EarlyEntryIsLaterEntry(p);
    assert DemandQuery.Selected(p) by {
      var i :| 0 <= i < |cs| && Matches(cs[i]);
      EarlyMatchIsLaterMatch(cs[i]);
    }
    assert !DemandQuery.LacksAnnotations(p);
    assert DemandQuery.Entry(p) == Ok(early[0]);
  }
}
