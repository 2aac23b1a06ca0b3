/** The destroy countdown of GPU-dedicated nodes (`node_destroy_countdown`).
    The countdown lives in the node annotation `node-destroy-countdown`: an
    occupied node, or one without the annotation, is set to 30; a vacant one
    counts down by one per pass; a node whose new value would be 0 is
    destroyed instead of annotated.  Nodes without the GPU taint are skipped. */
module Lifecycle {
  import opened Common
  import opened Provisioning

  const CountDown := 30
  const CountdownAnnotation := "node-destroy-countdown"

  /** A node as the countdown reads it: `taints` is `None` when `spec.taints`
      is absent, `countdown` when the annotation is. */
  datatype Node = Node(taints: Option<seq<Taint>>, countdown: Option<int>)

  /** Some taint of the node has the GPU key. */
  predicate GpuDedicated(n: Node) {
    n.taints.Some? && exists i | 0 <= i < |n.taints.value| :: n.taints.value[i].key == GpuTaint.key
  }

  /** A node of a pool the scheduler provisioned carries the taint the
      countdown keys on. */
  lemma ProvisionedNodesAreDedicated(pool: NodePool, vmClass: string, countdown: Option<int>)
    requires IsGpuPool(pool, vmClass)
    ensures GpuDedicated(Node(Some(pool.taints), countdown))
  {
    assert pool.taints[0] == GpuTaint;
  }

  datatype Action = Skip | Destroy | Annotate(countdown: int)

  /** One call for one node: whether it is dedicated, whether it is vacant, and
      its current annotation decide what happens to it. */
  function Decide(dedicated: bool, vacant: bool, countdown: Option<int>): (a: Action)
    ensures a == Skip <==> !dedicated
    ensures a == Destroy <==> dedicated && vacant && countdown == Some(1)
    ensures a.Annotate? ==> a.countdown != 0
    ensures dedicated && (!vacant || countdown.None?) ==> a == Annotate(CountDown)
    ensures dedicated && vacant && countdown.Some? && countdown.value != 1 ==> a == Annotate(countdown.value - 1)
  {
    if !dedicated then Skip
    else
      var next := if !vacant || countdown.None? then CountDown else countdown.value - 1;
      if next == 0 then Destroy else Annotate(next)
  }

  /** A dedicated node after some passes: still there with its annotation, or
      destroyed in the pass with the given index. */
  datatype Fate = Alive(countdown: Option<int>) | Destroyed(pass: nat)

  /** The fate of a dedicated node over passes; `vacancy[i]` says whether it was
      vacant in pass `i`. */
  function Evolve(countdown: Option<int>, vacancy: seq<bool>): Fate {
    if |vacancy| == 0 then Alive(countdown)
    else
      match Evolve(countdown, vacancy[..|vacancy| - 1])
      case Destroyed(p) => Destroyed(p)
      case Alive(c) =>
        match Decide(true, vacancy[|vacancy| - 1], c)
        case Destroy => Destroyed(|vacancy| - 1)
        case Annotate(next) => Alive(Some(next))
        case Skip => Alive(c)
  }

  function AllVacant(n: nat): (r: seq<bool>)
    ensures |r| == n && forall i | 0 <= i < n :: r[i]
  {
    seq(n, _ => true)
  }

  /** The fate after the passes of `b`, counted from an earlier start. */
  function Later(f: Fate, offset: nat): Fate {
    match f
    case Alive(c) => Alive(c)
    case Destroyed(p) => Destroyed(p + offset)
  }

  /** Passes compose: the passes of `b` continue from the state `a` left. */
  lemma {:induction false} EvolveConcat(countdown: Option<int>, a: seq<bool>, b: seq<bool>)
    ensures Evolve(countdown, a + b) ==
      match Evolve(countdown, a)
      case Destroyed(p) => Destroyed(p)
      case Alive(c) => Later(Evolve(c, b), |a|)
  {
    if |b| == 0 {
      assert a + b == a;
    } else {
      var b' := b[..|b| - 1];
      assert (a + b)[..|a + b| - 1] == a + b';
      EvolveConcat(countdown, a, b');
    }
  }

  /** A countdown of `c >= 1` on a node that stays vacant destroys it in the
      `c`-th pass, and not before. */
  lemma {:induction false} CountdownRunsOut(c: int, n: nat)
    requires c >= 1
    ensures Evolve(Some(c), AllVacant(n)) == if n < c then Alive(Some(c - n)) else Destroyed(c - 1)
  {
    if n > 0 {
      assert AllVacant(n)[..n - 1] == AllVacant(n - 1);
      CountdownRunsOut(c, n - 1);
    }
  }

  /** A countdown of 0 or less is never destroyed: it only goes further down. */
  lemma {:induction false} NonPositiveCountdownNeverFires(c: int, n: nat)
    requires c <= 0
    ensures Evolve(Some(c), AllVacant(n)) == Alive(Some(c - n))
  {
    if n > 0 {
      assert AllVacant(n)[..n - 1] == AllVacant(n - 1);
      NonPositiveCountdownNeverFires(c, n - 1);
    }
  }

  /** A dedicated node first seen without the annotation, and vacant ever
      since, is annotated 30 and then destroyed in its 31st pass. */
  lemma {:induction false} UnannotatedNodeLifetime(n: nat)
    ensures Evolve(None, AllVacant(n)) ==
      if n == 0 then Alive(None)
      else if n <= CountDown then Alive(Some(CountDown + 1 - n))
      else Destroyed(CountDown)
  {
    if n > 0 {
      assert AllVacant(n)[..n - 1] == AllVacant(n - 1);
      UnannotatedNodeLifetime(n - 1);
    }
  }

  /** After a pass in which the node was in use, it survives 29 further vacant
      passes and is destroyed in the 30th. */
  lemma GraceAfterUse(countdown: Option<int>, history: seq<bool>, k: nat)
    requires Evolve(countdown, history).Alive?
    ensures Evolve(countdown, history + [false] + AllVacant(k)) ==
      if k < CountDown then Alive(Some(CountDown - k)) else Destroyed(|history| + CountDown)
  {
    EvolveConcat(countdown, history, [false]);
    var c := Evolve(countdown, history).countdown;
    assert Evolve(c, [false]) == Alive(Some(CountDown)) by {
      assert [false][..0] == [];
    }
    EvolveConcat(countdown, history + [false], AllVacant(k));
    CountdownRunsOut(CountDown, k);
  }

  /** The node map and the pool list the countdown reads and writes. */
  datatype Fleet = Fleet(nodes: map<string, Node>, pools: seq<NodePool>)

  /** One call of `node_destroy_countdown` on a node of the map: `poolOf` stands
      for the lookup from a node to the name of the pool that owns it. */
  function Tick(f: Fleet, name: string, vacant: bool, poolOf: string -> string): (r: Fleet)
    requires name in f.nodes
    ensures r.nodes.Keys == f.nodes.Keys
    ensures forall n | n in f.nodes :: r.nodes[n].taints == f.nodes[n].taints
    ensures forall n | n in f.nodes && n != name :: r.nodes[n] == f.nodes[n]
    ensures forall p | p in r.pools :: p in f.pools
  {
    var node := f.nodes[name];
    match Decide(GpuDedicated(node), vacant, node.countdown)
    case Skip => f
    case Destroy => f.(pools := RemovePool(f.pools, poolOf(name)))
    case Annotate(c) => f.(nodes := f.nodes[name := node.(countdown := Some(c))])
  }

  /** The calls for a list of nodes, in list order. */
  function Ticks(f: Fleet, names: seq<string>, vacant: bool, poolOf: string -> string): (r: Fleet)
    requires forall i | 0 <= i < |names| :: names[i] in f.nodes
    ensures r.nodes.Keys == f.nodes.Keys
    ensures forall n | n in f.nodes :: r.nodes[n].taints == f.nodes[n].taints
    ensures forall n | n in f.nodes && n !in names :: r.nodes[n] == f.nodes[n]
    ensures forall p | p in r.pools :: p in f.pools
  {
    if |names| == 0 then f
    else
      var init := names[..|names| - 1];
      assert forall n :: n in names <==> n in init || n == names[|names| - 1];
      Tick(Ticks(f, init, vacant, poolOf), names[|names| - 1], vacant, poolOf)
  }

  /** The calls for one more node of the list extend the calls for those before it. */
  lemma TicksSnoc(f: Fleet, names: seq<string>, k: nat, vacant: bool, poolOf: string -> string)
    requires k < |names|
    requires forall i | 0 <= i <= k :: names[i] in f.nodes
    ensures Ticks(f, names[..k + 1], vacant, poolOf) == Tick(Ticks(f, names[..k], vacant, poolOf), names[k], vacant, poolOf)
  {
    assert names[..k + 1][..k] == names[..k];
  }

  /** One pass's sweep: the vacant nodes, then the occupied ones. */
  function Sweep(f: Fleet, vacant: seq<string>, occupied: seq<string>, poolOf: string -> string): Fleet
    requires forall i | 0 <= i < |vacant| :: vacant[i] in f.nodes
    requires forall i | 0 <= i < |occupied| :: occupied[i] in f.nodes
  {
    Ticks(Ticks(f, vacant, true, poolOf), occupied, false, poolOf)
  }

  /** Every occupied dedicated node ends the occupied sweep at 30, whatever
      came before it in the list. */
  lemma {:induction false} OccupiedReset(f: Fleet, occupied: seq<string>, poolOf: string -> string, n: string)
    requires forall i | 0 <= i < |occupied| :: occupied[i] in f.nodes
    requires n in occupied && GpuDedicated(f.nodes[n])
    ensures Ticks(f, occupied, false, poolOf).nodes[n].countdown == Some(CountDown)
  {
    var k := |occupied| - 1;
    var init := occupied[..k];
    var before := Ticks(f, init, false, poolOf);
    assert GpuDedicated(before.nodes[n]) by {
      assert before.nodes[n].taints == f.nodes[n].taints;
    }
    if occupied[k] != n {
      assert n in init by {
        var i :| 0 <= i < |occupied| && occupied[i] == n;
        assert i < k && init[i] == n;
      }
      OccupiedReset(f, init, poolOf, n);
    }
  }

  /** A pass's sweep keeps every node, never changes taints, only ever removes
      pools, and leaves each occupied dedicated node at 30. */
  lemma SweepOutcome(f: Fleet, vacant: seq<string>, occupied: seq<string>, poolOf: string -> string)
    requires forall i | 0 <= i < |vacant| :: vacant[i] in f.nodes
    requires forall i | 0 <= i < |occupied| :: occupied[i] in f.nodes
    ensures Sweep(f, vacant, occupied, poolOf).nodes.Keys == f.nodes.Keys
    ensures forall p | p in Sweep(f, vacant, occupied, poolOf).pools :: p in f.pools
    ensures forall n | n in occupied && GpuDedicated(f.nodes[n]) ::
      Sweep(f, vacant, occupied, poolOf).nodes[n].countdown == Some(CountDown)
  {
    var mid := Ticks(f, vacant, true, poolOf);
    forall n | n in occupied && GpuDedicated(f.nodes[n])
      ensures Sweep(f, vacant, occupied, poolOf).nodes[n].countdown == Some(CountDown)
    {
      assert mid.nodes[n].taints == f.nodes[n].taints;
      OccupiedReset(mid, occupied, poolOf, n);
    }
  }
}
