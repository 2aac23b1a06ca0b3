/** Node-pool provisioning and removal on the cluster topology's `nodePools`
    list: the template of a GPU pool (`generate_nodePool_template`), its name
    drawn until it is fresh, and the filter that drops a pool by name
    (`destroy_node`). */
module Provisioning {
  import opened Common
  import opened Text

  datatype Taint = Taint(key: string, value: string, effect: string)
  datatype Volume = Volume(name: string, mountPath: string, storage: string)

  /** One entry of `spec.topology.nodePools`. */
  datatype NodePool = NodePool(
    name: string,
    vmClass: string,
    replicas: int,
    storageClass: string,
    taints: seq<Taint>,
    tkr: string,
    volumes: seq<Volume>)

  /** GPU product to VM class; any other product raises `KeyError`. */
  const ProductClass: map<string, string> :=
    map["GRID-V100-4C" := "vgpu-v100-4c", "GRID-V100-8C" := "vgpu-v100-8c"]

  const NamePrefix := "gpu-scheduler-"
  /** `string.ascii_lowercase + string.digits`, the alphabet of the random suffix. */
  const SuffixAlphabet := "abcdefghijklmnopqrstuvwxyz0123456789"
  const SuffixLength := 5

  /** The taint that dedicates a node to GPU work; the lifecycle keys on it. */
  const GpuTaint := Taint("nvidia.com/gpu", "gpu-scheduler", "NoSchedule")
  const StorageClass := "k8s-storage-policy"
  const ReleaseRef := "v1.23.8---vmware.2-tkg.2-zshippable"
  const VolumeSize := "70Gi"
  const PoolVolumes := [
    Volume("containerd", "/var/lib/containerd", VolumeSize),
    Volume("kubelet", "/var/lib/kubelet", VolumeSize)]

  /** One draw of `random.choice` five times over the alphabet. */
  predicate IsSuffix(s: string) {
    |s| == SuffixLength && forall k | 0 <= k < |s| :: s[k] in SuffixAlphabet
  }

  function CandidateName(vmClass: string, suffix: string): string {
    NamePrefix + vmClass + "-" + suffix
  }

  /** The name shape of every generated pool. */
  predicate IsGeneratedName(name: string, vmClass: string) {
    && |name| == |NamePrefix| + |vmClass| + 1 + SuffixLength
    && StartsWith(name, NamePrefix + vmClass + "-")
    && IsSuffix(name[|name| - SuffixLength..])
  }

  /** What every generated pool is: one replica of the VM class, tainted
      NoSchedule for GPU work, with 70Gi for containerd and kubelet. */
  predicate IsGpuPool(pool: NodePool, vmClass: string) {
    && IsGeneratedName(pool.name, vmClass)
    && pool.vmClass == vmClass
    && pool.replicas == 1
    && pool.taints == [GpuTaint]
    && |pool.volumes| == 2
    && pool.volumes[0].mountPath == "/var/lib/containerd"
    && pool.volumes[1].mountPath == "/var/lib/kubelet"
    && forall v | v in pool.volumes :: v.storage == VolumeSize
  }

  function Template(name: string, vmClass: string): NodePool {
    NodePool(name, vmClass, 1, StorageClass, [GpuTaint], ReleaseRef, PoolVolumes)
  }

  lemma CandidateIsGenerated(vmClass: string, suffix: string)
    requires IsSuffix(suffix)
    ensures IsGeneratedName(CandidateName(vmClass, suffix), vmClass)
  {
    var name := CandidateName(vmClass, suffix);
    assert name[|name| - SuffixLength..] == suffix;
  }

  /** The retry loop of `generate_nodePool_template`.  The random source is the
      sequence `draws` of suffixes, consumed from the front; `used` says how
      many were drawn.  The source draws until the name is not excluded; here
      the draws can run out, which yields `None` only if every one collided. */
  method GenerateTemplate(vmClass: string, excluded: seq<string>, draws: seq<string>)
    returns (pool: Option<NodePool>, used: nat)
    requires forall i | 0 <= i < |draws| :: IsSuffix(draws[i])
    ensures used <= |draws|
    ensures pool.None? <==> forall j | 0 <= j < |draws| :: CandidateName(vmClass, draws[j]) in excluded
    ensures pool.None? ==> used == |draws|
    ensures pool.Some? ==>
      && 0 < used
      && pool.value == Template(CandidateName(vmClass, draws[used - 1]), vmClass)
      && pool.value.name !in excluded
      && IsGpuPool(pool.value, vmClass)
      && forall j | 0 <= j < used - 1 :: CandidateName(vmClass, draws[j]) in excluded
  {
    used := 0;
    var candidate: Option<string> := None;
    while candidate.None? || candidate.value in excluded
      invariant used <= |draws|
      invariant candidate.None? <==> used == 0
      invariant candidate.Some? ==> candidate.value == CandidateName(vmClass, draws[used - 1])
      invariant forall j | 0 <= j < used - 1 :: CandidateName(vmClass, draws[j]) in excluded
      decreases |draws| - used
    {
      if used == |draws| {
        return None, used;
      }
      candidate := Some(CandidateName(vmClass, draws[used]));
      used := used + 1;
    }
    CandidateIsGenerated(vmClass, draws[used - 1]);
    pool := Some(Template(candidate.value, vmClass));
  }

  function Names(pools: seq<NodePool>): (r: seq<string>)
    ensures |r| == |pools| && forall i | 0 <= i < |pools| :: r[i] == pools[i].name
  {
    seq(|pools|, i requires 0 <= i < |pools| => pools[i].name)
  }

  /** The comprehension of `destroy_node`: every pool not carrying `name`, in order. */
  function RemovePool(pools: seq<NodePool>, name: string): (r: seq<NodePool>)
    ensures forall p :: p in r <==> p in pools && p.name != name
    ensures |r| <= |pools|
  {
    if |pools| == 0 then []
    else
      var kept := RemovePool(pools[..|pools| - 1], name);
      var last := pools[|pools| - 1];
      assert forall p :: p in pools <==> p in pools[..|pools| - 1] || p == last by {
        assert pools == pools[..|pools| - 1] + [last];
      }
      if last.name == name then kept else kept + [last]
  }

  /** Removal keeps order: it distributes over concatenation. */
  lemma {:induction false} RemovePoolConcat(a: seq<NodePool>, b: seq<NodePool>, name: string)
    ensures RemovePool(a + b, name) == RemovePool(a, name) + RemovePool(b, name)
  {
    if |b| == 0 {
      assert a + b == a;
    } else {
      var b' := b[..|b| - 1];
      assert (a + b)[..|a + b| - 1] == a + b';
      RemovePoolConcat(a, b', name);
    }
  }

  /** Removing a name no pool carries changes nothing. */
  lemma {:induction false} RemoveAbsentPool(pools: seq<NodePool>, name: string)
    requires forall p | p in pools :: p.name != name
    ensures RemovePool(pools, name) == pools
  {
    if |pools| > 0 {
      var init := pools[..|pools| - 1];
      assert pools == init + [pools[|pools| - 1]];
      RemoveAbsentPool(init, name);
    }
  }

  /** Removing the name only `added[i]` carries drops exactly that pool. */
  lemma {:induction false} RemoveUniquelyNamed(added: seq<NodePool>, i: nat)
    requires i < |added|
    requires forall j | 0 <= j < |added| && j != i :: added[j].name != added[i].name
    ensures RemovePool(added, added[i].name) == added[..i] + added[i + 1..]
  {
    var name := added[i].name;
    var before, after := added[..i], added[i + 1..];
    assert added == before + [added[i]] + after;
    forall p | p in before ensures p.name != name {
      var j :| 0 <= j < |before| && before[j] == p;
      assert added[j] == p;
    }
    forall p | p in after ensures p.name != name {
      var j :| 0 <= j < |after| && after[j] == p;
      assert added[i + 1 + j] == p;
    }
    RemovePoolConcat(before + [added[i]], after, name);
    RemovePoolConcat(before, [added[i]], name);
    assert RemovePool([added[i]], name) == [] by {
      assert [added[i]][..0] == [];
    }
    RemoveAbsentPool(before, name);
    RemoveAbsentPool(after, name);
  }

  /** Destroying the node of a freshly provisioned pool removes exactly that
      pool, keeping every other pool in order, provided no other pool shares
      its name. */
  lemma RemoveProvisionedPool(pools: seq<NodePool>, added: seq<NodePool>, i: nat)
    requires i < |added|
    requires forall p | p in pools :: p.name != added[i].name
    requires forall j | 0 <= j < |added| && j != i :: added[j].name != added[i].name
    ensures RemovePool(pools + added, added[i].name) == pools + added[..i] + added[i + 1..]
  {
    RemovePoolConcat(pools, added, added[i].name);
    RemoveAbsentPool(pools, added[i].name);
    RemoveUniquelyNamed(added, i);
  }
}
