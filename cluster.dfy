/** The reconciliation pass of the later scheduler over one Tanzu Kubernetes
    cluster (the body of its `while True` loop), with the cluster state the
    pass reads and patches held as the fields of `Cluster`. */
module Reconciler {
  import opened Common
  import opened Pods
  import opened DemandQuery
  import opened Aggregation
  import opened Provisioning
  import opened Supply
  import opened Lifecycle

  lemma ExpressionsSnoc(terms: seq<seq<MatchExpression>>, t: nat)
    requires t < |terms|
    ensures Expressions(terms[..t + 1]) == Expressions(terms[..t]) + terms[t]
    ensures Expressions(terms[..t]) + terms[t][..0] == Expressions(terms[..t])
  {
    assert terms[..t + 1][..t] == terms[..t];
  }

  /** One expression of the inner loop, read as one step of `AffinityProduct`. */
  lemma AffinityLoopStep(done: seq<MatchExpression>, exprs: seq<MatchExpression>, k: nat, product: Option<string>)
    requires k < |exprs| && AffinityProduct(done + exprs[..k]) == Ok(product)
    ensures AffinityProduct(done + exprs[..k + 1]) ==
      if exprs[k].key != ProductLabel then Ok(product)
      else if exprs[k].values == [] then Err(IndexError)
      else Ok(Some(exprs[k].values[0]))
  {
    AffinityStep(done + exprs[..k], exprs[k]);
    PrefixSnoc(exprs, k);
    assert done + exprs[..k + 1] == done + exprs[..k] + [exprs[k]];
  }

  /** The product lookup of `query_gpu_demand`: the node selector, else the
      nested loops over the required node-affinity terms. */
  method FindProduct(p: Pod) returns (r: Result<Option<string>>)
    ensures r == Product(p)
  {
    if ProductLabel in p.nodeSelector {
      return Ok(Some(p.nodeSelector[ProductLabel]));
    }
    if p.selectorTerms.None? {
      return Err(KeyError("affinity"));
    }
    var terms := p.selectorTerms.value;
    var product: Option<string> := None;
    for t := 0 to |terms|
      invariant AffinityProduct(Expressions(terms[..t])) == Ok(product)
    {
      var exprs := terms[t];
      ExpressionsSnoc(terms, t);
      for k := 0 to |exprs|
        invariant AffinityProduct(Expressions(terms[..t]) + exprs[..k]) == Ok(product)
      {
        var e := exprs[k];
        AffinityLoopStep(Expressions(terms[..t]), exprs, k, product);
        if e.key == ProductLabel {
          if e.values == [] {
            assert e in Expressions(terms) by {
              assert e in terms[t];
            }
            return Err(IndexError);
          }
          product := Some(e.values[0]);
        }
      }
      assert exprs[..|exprs|] == exprs;
    }
    assert terms[..|terms|] == terms;
    return Ok(product);
  }

  /** The entry of a matching condition: namespace and name, then the product,
      then the count, each lookup raising in turn. */
  method PodEntry(p: Pod) returns (r: Result<DemandItem>)
    ensures r == Entry(p)
  {
    var product := FindProduct(p);
    if product.Err? {
      return Err(product.error);
    }
    var count := GpuCount(p);
    if count.Err? {
      return Err(count.error);
    }
    return Ok(DemandItem(p.namespace, p.name, product.value, count.value));
  }

  /** What one pod contributes in the loop of `query_gpu_demand`: for each
      matching condition of a selected pod, an entry whose product and count
      are looked up again. */
  method PodEntries(p: Pod) returns (r: Result<seq<DemandItem>>)
    ensures r == PodDemand(p)
  {
    if p.phase != PendingPhase {
      return Ok([]);
    }
    if p.annotations.None? {
      return Err(KeyError("annotations"));
    }
    if ScheduledAnnotation in p.annotations.value || p.conditions.None? {
      return Ok([]);
    }
    var cs := p.conditions.value;
    var found: seq<DemandItem> := [];
    for j := 0 to |cs|
      invariant Entry(p).Ok? ==> found == seq(MatchCount(Matches, cs[..j]), _ => Entry(p).value)
      invariant Entry(p).Err? ==> MatchCount(Matches, cs[..j]) == 0 && found == []
    {
      MatchCountSnoc(Matches, cs, j);
      if Matches(cs[j]) {
        MatchCountPositive(Matches, cs, j);
        var entry := PodEntry(p);
        if entry.Err? {
          CandidateError(p);
          return Err(entry.error);
        }
        CopiesSnoc(entry.value, MatchCount(Matches, cs[..j]));
        found := found + [entry.value];
      }
    }
    assert cs[..|cs|] == cs;
    CandidateEntries(p, found);
    return Ok(found);
  }

  /** A pool that one of the pass's provisioning calls could have created. */
  predicate ProvisionedPool(pool: NodePool) {
    exists product | product in ProductClass :: IsGpuPool(pool, ProductClass[product])
  }

  /** No two pools share a name. */
  predicate DistinctNames(pools: seq<NodePool>) {
    forall i, j | 0 <= i < j < |pools| :: pools[i].name != pools[j].name
  }

  /** The pools of `added` have distinct names, none of them taken in `base`. */
  predicate FreshOver(base: seq<NodePool>, added: seq<NodePool>) {
    DistinctNames(added) && forall j | 0 <= j < |added| :: added[j].name !in Names(base)
  }

  lemma FreshSnoc(base: seq<NodePool>, added: seq<NodePool>, pool: NodePool)
    requires FreshOver(base, added) && pool.name !in Names(base + added)
    ensures FreshOver(base, added + [pool])
  {
    var all := base + added;
    forall j | 0 <= j < |base| ensures base[j].name != pool.name {
      assert Names(all)[j] == base[j].name;
    }
    forall j | 0 <= j < |added| ensures added[j].name != pool.name {
      assert Names(all)[|base| + j] == added[j].name;
    }
  }

  /** Appending a block that is fresh over everything before it keeps the
      appended pools fresh. */
  lemma FreshConcat(base: seq<NodePool>, added: seq<NodePool>, block: seq<NodePool>)
    requires FreshOver(base, added) && FreshOver(base + added, block)
    ensures FreshOver(base, added + block)
  {
    var all := base + added;
    forall j | 0 <= j < |block|
      ensures block[j].name !in Names(base)
      ensures forall i | 0 <= i < |added| :: added[i].name != block[j].name
    {
      forall i | 0 <= i < |base| ensures base[i].name != block[j].name {
        assert Names(all)[i] == base[i].name;
      }
      forall i | 0 <= i < |added| ensures added[i].name != block[j].name {
        assert Names(all)[|base| + i] == added[i].name;
      }
    }
  }

  /** How many pools `patch_tkc` appends for a product of the tally: its
      total, or none when the total is not positive (`range` is then empty). */
  function PoolCount(totals: map<string, int>, q: string): nat {
    if q in totals && totals[q] > 0 then totals[q] else 0
  }

  /** Every pool of `pools` is a GPU pool of `vmClass`. */
  predicate GpuPools(pools: seq<NodePool>, vmClass: string)
    decreases |pools|
  {
    |pools| == 0 || (GpuPools(pools[..|pools| - 1], vmClass) && IsGpuPool(pools[|pools| - 1], vmClass))
  }

  lemma {:induction false} GpuPoolsMeaning(pools: seq<NodePool>, vmClass: string)
    ensures GpuPools(pools, vmClass) <==> forall i | 0 <= i < |pools| :: IsGpuPool(pools[i], vmClass)
    decreases |pools|
  {
    if |pools| > 0 {
      var init := pools[..|pools| - 1];
      GpuPoolsMeaning(init, vmClass);
      assert forall i | 0 <= i < |init| :: init[i] == pools[i];
    }
  }

  /** `added` holds, product by product in the order of `order`, as many GPU
      pools of the product's VM class as the product's total. */
  predicate Laid(added: seq<NodePool>, order: seq<string>, totals: map<string, int>)
    decreases |order|
  {
    if |order| == 0 then added == []
    else
      var q := order[|order| - 1];
      var n := PoolCount(totals, q);
      && n <= |added|
      && Laid(added[..|added| - n], order[..|order| - 1], totals)
      && (n > 0 ==> q in ProductClass && GpuPools(added[|added| - n..], ProductClass[q]))
  }

  lemma LaidSnoc(added: seq<NodePool>, block: seq<NodePool>, order: seq<string>, totals: map<string, int>, k: nat)
    requires k < |order| && Laid(added, order[..k], totals)
    requires |block| == PoolCount(totals, order[k])
    requires |block| > 0 ==> order[k] in ProductClass && GpuPools(block, ProductClass[order[k]])
    ensures Laid(added + block, order[..k + 1], totals)
  {
    assert order[..k + 1][..k] == order[..k];
    assert (added + block)[..|added|] == added;
    assert (added + block)[|added|..] == block;
  }

  /** Every pool laid out for a tally is a GPU pool of a known product. */
  lemma {:induction false} LaidPoolsProvisioned(added: seq<NodePool>, order: seq<string>, totals: map<string, int>)
    requires Laid(added, order, totals)
    ensures forall i | 0 <= i < |added| :: ProvisionedPool(added[i])
    decreases |order|
  {
    if |order| > 0 {
      var q := order[|order| - 1];
      var front := added[..|added| - PoolCount(totals, q)];
      LaidPoolsProvisioned(front, order[..|order| - 1], totals);
      var n := PoolCount(totals, q);
      if n > 0 {
        GpuPoolsMeaning(added[|added| - n..], ProductClass[q]);
      }
      forall i | 0 <= i < |added| ensures ProvisionedPool(added[i]) {
        if i < |front| {
          assert added[i] == front[i];
        } else {
          assert added[i] == added[|added| - n..][i - (|added| - n)];
        }
      }
    }
  }

  /** Appending provisioned pools adds nothing else to the topology. */
  lemma AppendedProvisioned(base: seq<NodePool>, added: seq<NodePool>)
    requires forall i | 0 <= i < |added| :: ProvisionedPool(added[i])
    ensures forall p | p in base + added :: p in base || ProvisionedPool(p)
  {
    forall p | p in base + added && p !in base ensures ProvisionedPool(p) {
      var i :| 0 <= i < |base + added| && (base + added)[i] == p;
      assert added[i - |base|] == p;
    }
  }

  /** The product at `k` needs pools but has no VM class: its `patch_tkc` raises `KeyError`. */
  predicate Unmapped(t: Tally, k: nat)
    requires k < |t.order|
  {
    t.order[k] !in ProductClass && PoolCount(t.totals, t.order[k]) > 0
  }

  /** Provisioning stopped with `e` at some product: every product before it
      had its VM class and got its pools, in `added`, and that product needed
      pools and either had no VM class or, having one, ran out of suffix draws. */
  predicate ProvisionStopped(added: seq<NodePool>, t: Tally, e: Error, entropy: seq<string>) {
    exists k | 0 <= k < |t.order| ::
      && Laid(added, t.order[..k], t.totals)
      && (forall j | 0 <= j < k :: !Unmapped(t, j))
      && (|| (Unmapped(t, k) && e == KeyError(t.order[k]))
          || (&& e == Exhausted && entropy == []
              && t.order[k] in ProductClass && PoolCount(t.totals, t.order[k]) > 0))
  }

  lemma StoppedAt(added: seq<NodePool>, t: Tally, e: Error, entropy: seq<string>, k: nat)
    requires k < |t.order| && Laid(added, t.order[..k], t.totals)
    requires forall j | 0 <= j < k :: !Unmapped(t, j)
    requires || (Unmapped(t, k) && e == KeyError(t.order[k]))
             || (&& e == Exhausted && entropy == []
                 && t.order[k] in ProductClass && PoolCount(t.totals, t.order[k]) > 0)
    ensures ProvisionStopped(added, t, e, entropy)
  {
  }

  /** The pools a pass appends for the demand `items`: none when there is no
      demand, otherwise the pools of each aggregated product, in order. */
  predicate ProvisionedFor(items: seq<DemandItem>, added: seq<NodePool>) {
    if items == [] then added == []
    else
      && NodeDemand(items).Ok? && NodeDemand(items).value.Some?
      && Laid(added, NodeDemand(items).value.value.order, NodeDemand(items).value.value.totals)
  }

  /** The pass's provisioning for `items` stopped with `e`, having appended `added`. */
  predicate ProvisioningFailed(items: seq<DemandItem>, added: seq<NodePool>, e: Error, entropy: seq<string>) {
    NodeDemand(items).Ok? && NodeDemand(items).value.Some? && ProvisionStopped(added, NodeDemand(items).value.value, e, entropy)
  }

  /** `after` is `before` with every pod an entry names acknowledged. */
  predicate Acknowledged(before: seq<Pod>, after: seq<Pod>, items: seq<DemandItem>) {
    && |after| == |before|
    && forall i | 0 <= i < |before| ::
         after[i] == if Named(before[i], items) then Acknowledge(before[i]) else before[i]
  }

  /** Every listed node is one `kubectl get` finds. */
  predicate Listed(names: seq<string>, nodes: map<string, Node>) {
    forall i | 0 <= i < |names| :: names[i] in nodes
  }

  /** The exceptions the supply half of a pass can end with: `AttributeError`
      when an exporter's page does not parse, `TypeError` when a listed node
      is missing. */
  predicate SupplyFailed(outputs: seq<seq<string>>, nodeOf: string -> string, nodes: map<string, Node>, e: Error) {
    if ScrapeAll(outputs).Err? then e == AttributeError
    else
      && e == TypeError
      && !(Listed(VacantNodes(ScrapeAll(outputs).value, nodeOf), nodes)
           && Listed(OccupiedNodes(ScrapeAll(outputs).value, nodeOf), nodes))
  }

  /** The countdown over `names` stopped at the first node missing from
      `before`: the nodes ahead of it were ticked, in order, and that is all. */
  predicate CountdownStopped(before: Fleet, after: Fleet, names: seq<string>, vacant: bool, poolOf: string -> string) {
    exists k | 0 <= k < |names| ::
      && names[k] !in before.nodes
      && (forall i | 0 <= i < k :: names[i] in before.nodes)
      && after == Ticks(before, names[..k], vacant, poolOf)
  }

  lemma CountdownStoppedAt(before: Fleet, after: Fleet, names: seq<string>, vacant: bool, poolOf: string -> string, k: nat)
    requires k < |names| && names[k] !in before.nodes
    requires forall i | 0 <= i < k :: names[i] in before.nodes
    requires after == Ticks(before, names[..k], vacant, poolOf)
    ensures CountdownStopped(before, after, names, vacant, poolOf)
  {
  }

  /** The sweep over `vacant` and then `occupied` stopped at a missing node:
      either in the vacant list, or after the whole vacant list, in the
      occupied one. */
  predicate SweepStopped(before: Fleet, after: Fleet, vacant: seq<string>, occupied: seq<string>, poolOf: string -> string) {
    || CountdownStopped(before, after, vacant, true, poolOf)
    || (&& Listed(vacant, before.nodes)
        && CountdownStopped(Ticks(before, vacant, true, poolOf), after, occupied, false, poolOf))
  }

  /** What a pass reports back: the demand it acted on and the two node
      lists it swept. */
  datatype PassReport = PassReport(demand: seq<DemandItem>, vacant: seq<string>, occupied: seq<string>)

  /** The pods of the cluster, the node pools of its topology, its nodes, and
      the suffixes the random name generator will draw, in order. */
  class Cluster {
    var pods: seq<Pod>
    var nodePools: seq<NodePool>
    var nodes: map<string, Node>
    var entropy: seq<string>

    ghost predicate Valid()
      reads this
    {
      forall i | 0 <= i < |entropy| :: IsSuffix(entropy[i])
    }

    constructor(pods: seq<Pod>, nodePools: seq<NodePool>, nodes: map<string, Node>, entropy: seq<string>)
      requires forall i | 0 <= i < |entropy| :: IsSuffix(entropy[i])
      ensures Valid()
      ensures this.pods == pods && this.nodePools == nodePools
      ensures this.nodes == nodes && this.entropy == entropy
    {
      this.pods := pods;
      this.nodePools := nodePools;
      this.nodes := nodes;
      this.entropy := entropy;
    }

    /** `query_gpu_demand`: the pods' entries in pod order, or the first raise. */
    method QueryGpuDemand() returns (r: Result<seq<DemandItem>>)
      ensures r == Demand(pods)
    {
      var all := pods;
      var demand: seq<DemandItem> := [];
      for i := 0 to |all|
        invariant Demand(all[..i]) == Ok(demand)
      {
        var entries := PodEntries(all[i]);
        PrefixSnoc(all, i);
        DemandOfAppend(all[..i], all[i]);
        if entries.Err? {
          DemandErrorPersists(all, i + 1);
          return Err(entries.error);
        }
        demand := demand + entries.value;
      }
      assert all[..|all|] == all;
      return Ok(demand);
    }

    /** `patch_tkc`: append `count` fresh GPU pools of the product's VM class.
        The product is looked up once per pool, so a zero count never raises;
        the topology is written back only when every pool was generated. */
    method PatchTkc(product: string, count: int) returns (r: Result<seq<NodePool>>)
      requires Valid()
      modifies this`nodePools, this`entropy
      ensures Valid()
      ensures r == Err(KeyError(product)) <==> count > 0 && product !in ProductClass
      ensures r.Err? ==> r == Err(KeyError(product)) || (r == Err(Exhausted) && entropy == [])
      ensures r == Err(Exhausted) ==> count > 0 && product in ProductClass
      ensures r.Err? ==> nodePools == old(nodePools)
      ensures r.Ok? ==> && nodePools == old(nodePools) + r.value
                        && |r.value| == (if count > 0 then count else 0)
                        && DistinctNames(r.value)
                        && forall i | 0 <= i < |r.value| ::
                             && IsGpuPool(r.value[i], ProductClass[product])
                             && r.value[i].name !in Names(old(nodePools))
      ensures exists k | 0 <= k <= |old(entropy)| :: entropy == old(entropy)[k..]
    {
      var pools := nodePools;
      var added: seq<NodePool> := [];
      ghost var drawn := 0;
      var i := 0;
      while i < count
        invariant Valid()
        invariant 0 <= i <= (if count > 0 then count else 0)
        invariant |added| == i && pools == old(nodePools) + added
        invariant i > 0 ==> product in ProductClass
        invariant FreshOver(old(nodePools), added)
        invariant forall j | 0 <= j < i :: IsGpuPool(added[j], ProductClass[product])
        invariant nodePools == old(nodePools)
        invariant 0 <= drawn <= |old(entropy)| && entropy == old(entropy)[drawn..]
      {
        if product !in ProductClass {
          return Err(KeyError(product));
        }
        var vmClass := ProductClass[product];
        var pool, used := GenerateTemplate(vmClass, Names(pools), entropy);
        entropy := entropy[used..];
        drawn := drawn + used;
        if pool.None? {
          return Err(Exhausted);
        }
        var newPool := pool.value;
        FreshSnoc(old(nodePools), added, newPool);
        pools := pools + [newPool];
        added := added + [newPool];
        i := i + 1;
      }
      nodePools := pools;
      return Ok(added);
    }

    /** Acknowledge every pod an entry names (`annotate_pod`). */
    method AnnotatePods(items: seq<DemandItem>)
      modifies this`pods
      ensures Acknowledged(old(pods), pods, items)
      ensures Demand(old(pods)) == Ok(items) ==> Demand(pods) == Ok([])
    {
      for k := 0 to |items|
        invariant |pods| == |old(pods)|
        invariant forall i | 0 <= i < |pods| ::
          pods[i] == if Named(old(pods)[i], items[..k]) then Acknowledge(old(pods)[i]) else old(pods)[i]
      {
        var item := items[k];
        var current := pods;
        pods := seq(|current|, i requires 0 <= i < |current| =>
          if current[i].namespace == item.namespace && current[i].name == item.name then Acknowledge(current[i]) else current[i]);
        PrefixSnoc(items, k);
        forall i | 0 <= i < |pods|
          ensures pods[i] == if Named(old(pods)[i], items[..k + 1]) then Acknowledge(old(pods)[i]) else old(pods)[i]
        {
          NamedSnoc(old(pods)[i], items[..k], item);
        }
      }
      assert items[..|items|] == items;
      if Demand(old(pods)) == Ok(items) {
        AcknowledgingDemandClearsIt(old(pods), pods);
      }
    }

    /** `destroy_node`: drop from the topology the pool that owns the node.
        `poolOf` stands for the lookups from node to virtual machine to the
        machine's pool label. */
    method DestroyNode(nodeName: string, poolOf: string -> string)
      modifies this`nodePools
      ensures nodePools == RemovePool(old(nodePools), poolOf(nodeName))
      ensures forall p :: p in nodePools <==> p in old(nodePools) && p.name != poolOf(nodeName)
    {
      nodePools := RemovePool(nodePools, poolOf(nodeName));
    }

    /** `node_destroy_countdown` for one node.  A node `kubectl get` does not
        find reads as `None`, which the source then subscripts. */
    method NodeDestroyCountdown(nodeName: string, vacant: bool, poolOf: string -> string) returns (r: Result<Action>)
      modifies this`nodes, this`nodePools
      ensures nodeName !in old(nodes) ==> r == Err(TypeError) && nodes == old(nodes) && nodePools == old(nodePools)
      ensures nodeName in old(nodes) ==>
        && r == Ok(Decide(GpuDedicated(old(nodes)[nodeName]), vacant, old(nodes)[nodeName].countdown))
        && Fleet(nodes, nodePools) == Tick(Fleet(old(nodes), old(nodePools)), nodeName, vacant, poolOf)
    {
      if nodeName !in nodes {
        return Err(TypeError);
      }
      var node := nodes[nodeName];
      if !GpuDedicated(node) {
        return Ok(Skip);
      }
      var next := if !vacant || node.countdown.None? then CountDown else node.countdown.value - 1;
      if next == 0 {
        DestroyNode(nodeName, poolOf);
        return Ok(Destroy);
      }
      nodes := nodes[nodeName := node.(countdown := Some(next))];
      return Ok(Annotate(next));
    }

    /** The countdown over a list of nodes, in list order; the first node
        that is missing stops the pass. */
    method Countdowns(names: seq<string>, vacant: bool, poolOf: string -> string) returns (r: Result<()>)
      modifies this`nodes, this`nodePools
      ensures r.Ok? <==> forall i | 0 <= i < |names| :: names[i] in old(nodes)
      ensures r.Err? ==> r.error == TypeError
      ensures nodes.Keys == old(nodes).Keys
      ensures forall p | p in nodePools :: p in old(nodePools)
      ensures r.Ok? ==> Fleet(nodes, nodePools) == Ticks(Fleet(old(nodes), old(nodePools)), names, vacant, poolOf)
      ensures r.Err? ==> CountdownStopped(Fleet(old(nodes), old(nodePools)), Fleet(nodes, nodePools), names, vacant, poolOf)
    {
      ghost var start := Fleet(nodes, nodePools);
      for k := 0 to |names|
        invariant forall i | 0 <= i < k :: names[i] in start.nodes
        invariant Fleet(nodes, nodePools) == Ticks(start, names[..k], vacant, poolOf)
      {
        var step := NodeDestroyCountdown(names[k], vacant, poolOf);
        if step.Err? {
          CountdownStoppedAt(start, Fleet(nodes, nodePools), names, vacant, poolOf, k);
          return Err(step.error);
        }
        TicksSnoc(start, names, k, vacant, poolOf);
      }
      assert names[..|names|] == names;
      return Ok(());
    }

    /** The provisioning loop of the pass: `patch_tkc` for each product of the
        aggregated demand, in the order the products were first seen.  `added`
        are the pools appended to the topology, whether or not a product raised. */
    method Provision(t: Tally) returns (added: seq<NodePool>, r: Result<()>)
      requires Valid()
      requires forall q | q in t.order :: q in t.totals
      modifies this`nodePools, this`entropy
      ensures Valid()
      ensures nodePools == old(nodePools) + added
      ensures FreshOver(old(nodePools), added)
      ensures forall i | 0 <= i < |added| :: ProvisionedPool(added[i])
      ensures r.Ok? ==> Laid(added, t.order, t.totals)
      ensures r.Err? ==> ProvisionStopped(added, t, r.error, entropy)
      ensures (exists k | 0 <= k < |t.order| :: Unmapped(t, k)) ==> r.Err?
    {
      added := [];
      for k := 0 to |t.order|
        invariant Valid()
        invariant nodePools == old(nodePools) + added
        invariant Laid(added, t.order[..k], t.totals)
        invariant FreshOver(old(nodePools), added)
        invariant forall j | 0 <= j < k :: !Unmapped(t, j)
      {
        var product := t.order[k];
        var block := PatchTkc(product, t.totals[product]);
        if block.Err? {
          StoppedAt(added, t, block.error, entropy, k);
          LaidPoolsProvisioned(added, t.order[..k], t.totals);
          return added, Err(block.error);
        }
        if |block.value| > 0 {
          GpuPoolsMeaning(block.value, ProductClass[product]);
        }
        LaidSnoc(added, block.value, t.order, t.totals, k);
        FreshConcat(old(nodePools), added, block.value);
        AppendAssociates(old(nodePools), added, block.value);
        added := added + block.value;
      }
      assert t.order[..|t.order|] == t.order;
      LaidPoolsProvisioned(added, t.order, t.totals);
      return added, Ok(());
    }

    /** The first half of the pass: demand, aggregation, provisioning and pod
        acknowledgement.  The demand acted on is returned, and `added` are the
        pools appended to the topology. */
    method ScheduleDemand() returns (added: seq<NodePool>, r: Result<seq<DemandItem>>)
      requires Valid()
      modifies this`pods, this`nodePools, this`entropy
      ensures Valid()
      ensures nodePools == old(nodePools) + added
      ensures FreshOver(old(nodePools), added)
      ensures forall i | 0 <= i < |added| :: ProvisionedPool(added[i])
      ensures Demand(old(pods)).Err? ==>
        r == Err(Demand(old(pods)).error) && pods == old(pods) && added == []
      ensures Demand(old(pods)).Ok? && NodeDemand(Demand(old(pods)).value).Err? ==>
        r == Err(KeyError("GPU_product")) && pods == old(pods) && added == []
      ensures Demand(old(pods)) == Ok([]) ==> r == Ok([]) && pods == old(pods) && added == []
      ensures r.Err? ==> pods == old(pods)
      ensures r.Err? && Demand(old(pods)).Ok? && NodeDemand(Demand(old(pods)).value).Ok? ==>
        ProvisioningFailed(Demand(old(pods)).value, added, r.error, entropy)
      ensures r.Ok? ==>
        && Demand(old(pods)) == Ok(r.value)
        && ProvisionedFor(r.value, added)
        && Acknowledged(old(pods), pods, r.value)
        && Demand(pods) == Ok([])
    {
      added := [];
      var demand := QueryGpuDemand();
      if demand.Err? {
        return added, Err(demand.error);
      }
      var nodeDemand := ComputeGpuNodeDemand(demand.value);
      if nodeDemand.Err? {
        return added, Err(nodeDemand.error);
      }
      if nodeDemand.value.None? {
        return added, Ok(demand.value);
      }
      var t := nodeDemand.value.value;
      NodeDemandMeaning(demand.value);
      var provisioned;
      added, provisioned := Provision(t);
      if provisioned.Err? {
        return added, Err(provisioned.error);
      }
      AnnotatePods(demand.value);
      return added, Ok(demand.value);
    }

    /** The second half of the pass: scrape the exporters, split the nodes,
        and run the countdown over the vacant nodes and then the occupied
        ones.  `outputs` are the exporters' metrics pages and `nodeOf` maps an
        exporter's `Hostname` to its node. */
    method MonitorSupply(outputs: seq<seq<string>>, nodeOf: string -> string, poolOf: string -> string)
      returns (r: Result<(seq<string>, seq<string>)>)
      modifies this`nodes, this`nodePools
      ensures r.Ok? ==>
        && ScrapeAll(outputs).Ok?
        && r.value.0 == VacantNodes(ScrapeAll(outputs).value, nodeOf)
        && r.value.1 == OccupiedNodes(ScrapeAll(outputs).value, nodeOf)
        && Listed(r.value.0, old(nodes)) && Listed(r.value.1, old(nodes))
        && Fleet(nodes, nodePools) == Sweep(Fleet(old(nodes), old(nodePools)), r.value.0, r.value.1, poolOf)
      ensures r.Err? ==> SupplyFailed(outputs, nodeOf, old(nodes), r.error)
      ensures (&& ScrapeAll(outputs).Ok?
               && Listed(VacantNodes(ScrapeAll(outputs).value, nodeOf), old(nodes))
               && Listed(OccupiedNodes(ScrapeAll(outputs).value, nodeOf), old(nodes))) ==> r.Ok?
      ensures ScrapeAll(outputs).Err? ==> r == Err(AttributeError) && nodes == old(nodes) && nodePools == old(nodePools)
      ensures ScrapeAll(outputs).Ok? && r.Err? ==>
        SweepStopped(Fleet(old(nodes), old(nodePools)), Fleet(nodes, nodePools),
                     VacantNodes(ScrapeAll(outputs).value, nodeOf), OccupiedNodes(ScrapeAll(outputs).value, nodeOf), poolOf)
      ensures nodes.Keys == old(nodes).Keys
      ensures forall p | p in nodePools :: p in old(nodePools)
    {
      var supply := QueryGcdm(outputs);
      if supply.Err? {
        return Err(supply.error);
      }
      var vacant, occupied := GetGpuNodeInfo(supply.value, nodeOf);
      var swept := Countdowns(vacant, true, poolOf);
      if swept.Err? {
        return Err(swept.error);
      }
      swept := Countdowns(occupied, false, poolOf);
      if swept.Err? {
        return Err(swept.error);
      }
      return Ok((vacant, occupied));
    }

    /** One iteration of the reconciliation loop for this cluster.  An `Err`
        is the exception that ends the script.  `added` are the pools the
        pass appended to the topology before its sweep. */
    method ReconcilePass(outputs: seq<seq<string>>, nodeOf: string -> string, poolOf: string -> string)
      returns (added: seq<NodePool>, r: Result<PassReport>)
      requires Valid()
      modifies this
      ensures Valid()
      ensures FreshOver(old(nodePools), added)
      ensures Demand(old(pods)).Err? ==>
        && r == Err(Demand(old(pods)).error) && added == []
        && pods == old(pods) && nodePools == old(nodePools) && nodes == old(nodes)
      ensures Demand(old(pods)).Ok? && NodeDemand(Demand(old(pods)).value).Err? ==>
        && r == Err(KeyError("GPU_product")) && added == []
        && pods == old(pods) && nodePools == old(nodePools) && nodes == old(nodes)
      ensures r.Err? && Demand(old(pods)).Ok? && NodeDemand(Demand(old(pods)).value).Ok? ==>
        || (&& pods == old(pods) && nodes == old(nodes) && nodePools == old(nodePools) + added
            && ProvisioningFailed(Demand(old(pods)).value, added, r.error, entropy))
        || (&& Acknowledged(old(pods), pods, Demand(old(pods)).value)
            && ProvisionedFor(Demand(old(pods)).value, added)
            && SupplyFailed(outputs, nodeOf, old(nodes), r.error)
            && (ScrapeAll(outputs).Err? ==> nodes == old(nodes) && nodePools == old(nodePools) + added)
            && (ScrapeAll(outputs).Ok? ==>
                  SweepStopped(Fleet(old(nodes), old(nodePools) + added), Fleet(nodes, nodePools),
                               VacantNodes(ScrapeAll(outputs).value, nodeOf),
                               OccupiedNodes(ScrapeAll(outputs).value, nodeOf), poolOf)))
      ensures r.Ok? ==>
        && Demand(old(pods)) == Ok(r.value.demand)
        && Acknowledged(old(pods), pods, r.value.demand)
        && Demand(pods) == Ok([])
        && ProvisionedFor(r.value.demand, added)
      ensures r.Ok? ==>
        && ScrapeAll(outputs).Ok?
        && r.value.vacant == VacantNodes(ScrapeAll(outputs).value, nodeOf)
        && r.value.occupied == OccupiedNodes(ScrapeAll(outputs).value, nodeOf)
        && Listed(r.value.vacant, old(nodes)) && Listed(r.value.occupied, old(nodes))
        && Fleet(nodes, nodePools) ==
             Sweep(Fleet(old(nodes), old(nodePools) + added), r.value.vacant, r.value.occupied, poolOf)
      ensures r.Ok? ==> nodes.Keys == old(nodes).Keys
      ensures r.Ok? ==> forall n | n in r.value.occupied && GpuDedicated(old(nodes)[n]) ::
        nodes[n].countdown == Some(CountDown)
      ensures forall p | p in nodePools :: p in old(nodePools) || ProvisionedPool(p)
    {
      var demand;
      added, demand := ScheduleDemand();
      AppendedProvisioned(old(nodePools), added);
      if demand.Err? {
        return added, Err(demand.error);
      }
      ghost var start := Fleet(nodes, nodePools);
      var split := MonitorSupply(outputs, nodeOf, poolOf);
      if split.Err? {
        return added, Err(split.error);
      }
      var (vacant, occupied) := split.value;
      SweepOutcome(start, vacant, occupied, poolOf);
      return added, Ok(PassReport(demand.value, vacant, occupied));
    }
  }
}
