/**
  What a selection of pods guarantees about the shards of the cluster, for every cluster status,
  every segmentation of the pods, every limit and every order of the running pods.
 */
module SelectionSafety {
  import opened Prelude
  import opened Naming
  import opened ClusterState
  import opened PodSelection

  /** A cluster status together with the other inputs of its aggregation. */
  datatype Scene = Scene(cluster: ClusterStatus, overseer: string, managed: set<string>)

  /** The site and the initial shard counters are the aggregation of the scene. */
  ghost predicate Faithful(scene: Scene, site: Site, counts: map<string, int>) {
    Aggregates(scene.cluster, scene.overseer, scene.managed,
               ReplicaView(site.nodes, site.totals, counts, site.allManagedLive))
  }

  /** The pods, seen as nodes, are pairwise different. */
  ghost predicate DistinctNodes(site: Site, pods: seq<string>) {
    forall i, j :: 0 <= i < j < |pods| ==> NodeOf(site, pods[i]) != NodeOf(site, pods[j])
  }

  ghost function NodesOf(site: Site, pods: seq<string>): set<string> {
    set i | 0 <= i < |pods| :: NodeOf(site, pods[i])
  }

  /** Distinct pod names give distinct nodes under every supported addressing. */
  lemma DistinctPodsDistinctNodes(site: Site, pods: seq<string>)
    requires Distinct(pods) && !AdvertisesBlankHost(site.cloud)
    ensures DistinctNodes(site, pods)
  {
    forall i, j | 0 <= i < j < |pods| ensures NodeOf(site, pods[i]) != NodeOf(site, pods[j]) {
      SolrNodeNameInjective(site.cloud, pods[i], pods[j]);
    }
  }

  // ----- what stopping a pod costs a shard -----

  /** The replicas of shard `k` that stop serving with the pod. */
  function Load(site: Site, pod: string, k: string): int {
    var n := NodeOf(site, pod);
    if n in site.nodes && site.nodes[n].live then Get(site.nodes[n].active, k) else 0
  }

  lemma StoppedAddsLoad(site: Site, pod: string, counts: map<string, int>, k: string)
    ensures Get(Stopped(site, pod, counts), k) == Get(counts, k) + Load(site, pod, k)
  {
  }

  lemma LoadIsActiveReplicas(scene: Scene, site: Site, counts: map<string, int>, pod: string, k: string)
    requires Faithful(scene, site, counts)
    ensures var n := NodeOf(site, pod);
            Load(site, pod, k) ==
            if n in scene.cluster.liveNodes then Count(scene.cluster, AllIds(scene.cluster), ActiveOn(n, k)) else 0
  {
    var n := NodeOf(site, pod);
    assert CounterOf(site.nodes, counts, ActiveOn(n, k)) == Count(scene.cluster, AllIds(scene.cluster), ActiveOn(n, k));
    if n in scene.cluster.liveNodes {
      assert n in site.nodes;
    }
  }

  /** On each aggregated node, active and down replicas of a shard fit in those hosted. */
  lemma NodeAddsUp(scene: Scene, site: Site, counts: map<string, int>, n: string, k: string)
    requires Faithful(scene, site, counts) && n in site.nodes
    ensures var c := site.nodes[n];
            && 0 <= Get(c.active, k) && 0 <= Get(c.down, k)
            && Get(c.active, k) + Get(c.down, k) <= Get(c.total, k) <= c.replicas
  {
    var ids := AllIds(scene.cluster);
    assert CounterOf(site.nodes, counts, ActiveOn(n, k)) == Count(scene.cluster, ids, ActiveOn(n, k));
    assert CounterOf(site.nodes, counts, DownOn(n, k)) == Count(scene.cluster, ids, DownOn(n, k));
    assert CounterOf(site.nodes, counts, Hosted(n, k)) == Count(scene.cluster, ids, Hosted(n, k));
    assert CounterOf(site.nodes, counts, Hosts(n)) == Count(scene.cluster, ids, Hosts(n));
    ActivePlusDownWithinHosted(scene.cluster, ids, n, k);
  }

  /** A pod that passes the check either is the first to touch a shard or keeps it within its limit. */
  lemma SafePodKeepsLimit(
    scene: Scene, site: Site, counts0: map<string, int>, pod: string, counts: map<string, int>, k: string)
    requires Faithful(scene, site, counts0)
    requires SafeToStop(site, pod, counts) && Load(site, pod, k) > 0
    ensures Get(counts, k) <= 0 || Get(counts, k) + Load(site, pod, k) <= ShardLimit(site, k)
  {
    var n := NodeOf(site, pod);
    var c := site.nodes[n];
    NodeAddsUp(scene, site, counts0, n, k);
    assert InClusterState(c) && k in c.total;
    assert !Overloads(site, c, counts, k);
  }

  function SumBy(f: string -> int, pods: seq<string>): int {
    if pods == [] then 0 else SumBy(f, pods[..|pods| - 1]) + f(pods[|pods| - 1])
  }

  lemma {:induction false} SumByNatural(f: string -> int, pods: seq<string>)
    requires forall p :: f(p) >= 0
    ensures 0 <= SumBy(f, pods)
    ensures forall i :: 0 <= i < |pods| ==> f(pods[i]) <= SumBy(f, pods)
  {
    if pods != [] {
      var rest := pods[..|pods| - 1];
      SumByNatural(f, rest);
      forall i | 0 <= i < |pods| ensures f(pods[i]) <= SumBy(f, pods) {
        if i < |rest| {
          assert pods[i] == rest[i];
        }
      }
    }
  }

  lemma {:induction false} SumBySingle(f: string -> int, pods: seq<string>, i: nat)
    requires i < |pods| && forall j :: 0 <= j < |pods| && j != i ==> f(pods[j]) == 0
    ensures SumBy(f, pods) == f(pods[i])
  {
    var rest := pods[..|pods| - 1];
    assert forall j :: 0 <= j < |rest| ==> rest[j] == pods[j];
    if i == |pods| - 1 {
      SumByZero(f, rest);
    } else {
      SumBySingle(f, rest, i);
    }
  }

  lemma {:induction false} SumByZero(f: string -> int, pods: seq<string>)
    requires forall j :: 0 <= j < |pods| ==> f(pods[j]) == 0
    ensures SumBy(f, pods) == 0
  {
    if pods != [] {
      SumByZero(f, pods[..|pods| - 1]);
    }
  }

  function LoadOn(site: Site, k: string): string -> int {
    pod => Load(site, pod, k)
  }

  /** The replicas of shard `k` that stop serving with all the pods. */
  function TotalLoad(site: Site, pods: seq<string>, k: string): int {
    SumBy(LoadOn(site, k), pods)
  }

  lemma FaithfulLoads(scene: Scene, site: Site, counts: map<string, int>, k: string)
    requires Faithful(scene, site, counts)
    ensures forall pod :: LoadOn(site, k)(pod) >= 0
  {
    forall pod ensures LoadOn(site, k)(pod) >= 0 {
      LoadIsActiveReplicas(scene, site, counts, pod, k);
    }
  }

  lemma TotalLoadOneMore(site: Site, pods: seq<string>, pod: string, k: string)
    ensures TotalLoad(site, pods + [pod], k) == TotalLoad(site, pods, k) + Load(site, pod, k)
  {
    assert (pods + [pod])[..|pods|] == pods;
  }

  // ----- the shard guarantee -----

  /** All pods but the one at `i` leave shard `k` alone. */
  ghost predicate OnlyPodAt(site: Site, pods: seq<string>, k: string, i: nat) {
    && i < |pods|
    && forall j :: 0 <= j < |pods| && j != i ==> Load(site, pods[j], k) == 0
  }

  /**
    What a selection may do to shard `k` when `base` of its replicas were already out: nothing, or
    stay within the limit, or stop the only replicas that are out, all of them on one pod.
   */
  ghost predicate Allowed(site: Site, base: int, pods: seq<string>, k: string) {
    || TotalLoad(site, pods, k) == 0
    || base + TotalLoad(site, pods, k) <= ShardLimit(site, k)
    || (base == 0 && exists i :: OnlyPodAt(site, pods, k, i))
  }

  lemma AllowedStep(
    scene: Scene, site: Site, counts0: map<string, int>, base: int, acc: Picked, pod: string, k: string)
    requires Faithful(scene, site, counts0)
    requires base >= 0 && Get(acc.counts, k) == base + TotalLoad(site, acc.pods, k)
    requires Allowed(site, base, acc.pods, k) && SafeToStop(site, pod, acc.counts)
    ensures Allowed(site, base, acc.pods + [pod], k)
  {
    var pods, last := acc.pods + [pod], |acc.pods|;
    FaithfulLoads(scene, site, counts0, k);
    SumByNatural(LoadOn(site, k), acc.pods);
    TotalLoadOneMore(site, acc.pods, pod, k);
    assert forall j :: 0 <= j < last ==> pods[j] == acc.pods[j];
    assert LoadOn(site, k)(pod) >= 0;
    if Load(site, pod, k) > 0 {
      SafePodKeepsLimit(scene, site, counts0, pod, acc.counts, k);
      if Get(acc.counts, k) <= 0 {
        assert forall j :: 0 <= j < last ==> LoadOn(site, k)(acc.pods[j]) == 0;
        assert forall j :: 0 <= j < last ==> Load(site, acc.pods[j], k) == 0;
        assert OnlyPodAt(site, pods, k, last);
      }
    } else if base == 0 && exists i :: OnlyPodAt(site, acc.pods, k, i) {
      var i :| OnlyPodAt(site, acc.pods, k, i);
      assert OnlyPodAt(site, pods, k, i);
    }
  }

  lemma {:induction false} PickFromAllowed(
    scene: Scene, site: Site, counts0: map<string, int>, max: int, order: seq<string>, base: int, acc: Picked,
    k: string)
    requires Faithful(scene, site, counts0)
    requires base >= 0 && Get(acc.counts, k) == base + TotalLoad(site, acc.pods, k)
    requires Allowed(site, base, acc.pods, k)
    ensures var r := PickFrom(site, max, order, acc);
            && Get(r.counts, k) == base + TotalLoad(site, r.pods, k)
            && Allowed(site, base, r.pods, k)
    decreases |order|
  {
    if order != [] {
      var next := acc;
      if SafeToStop(site, order[0], acc.counts) {
        next := Picked(acc.pods + [order[0]], Stopped(site, order[0], acc.counts));
        AllowedStep(scene, site, counts0, base, acc, order[0], k);
        StoppedAddsLoad(site, order[0], acc.counts, k);
        TotalLoadOneMore(site, acc.pods, order[0], k);
      }
      PickFromAllowed(scene, site, counts0, max, order[1..], base, next, k);
    }
  }

  // ----- the counters are the truth -----

  /** Every shard counter is the number of replicas that do not serve with `stopped` stopped. */
  ghost predicate Tracks(cluster: ClusterStatus, counts: map<string, int>, stopped: set<string>) {
    forall k :: Get(counts, k) == Unavailable(cluster, stopped, k)
  }

  lemma StoppedTracks(
    scene: Scene, site: Site, counts0: map<string, int>, counts: map<string, int>, stopped: set<string>, pod: string)
    requires Faithful(scene, site, counts0)
    requires Tracks(scene.cluster, counts, stopped) && NodeOf(site, pod) !in stopped
    ensures Tracks(scene.cluster, Stopped(site, pod, counts), stopped + {NodeOf(site, pod)})
  {
    var n := NodeOf(site, pod);
    forall k ensures Get(Stopped(site, pod, counts), k) == Unavailable(scene.cluster, stopped + {n}, k) {
      StoppedAddsLoad(site, pod, counts, k);
      LoadIsActiveReplicas(scene, site, counts0, pod, k);
      StoppingOneMore(scene.cluster, stopped, n, k);
    }
  }

  lemma InitialTracks(scene: Scene, site: Site, counts: map<string, int>)
    requires Faithful(scene, site, counts)
    ensures Tracks(scene.cluster, counts, {})
  {
    forall k ensures Get(counts, k) == Unavailable(scene.cluster, {}, k) {
      assert CounterOf(site.nodes, counts, NotActive(k)) == Count(scene.cluster, AllIds(scene.cluster), NotActive(k));
      NothingStopped(scene.cluster, k);
    }
  }

  lemma NodesOfOneMore(site: Site, pods: seq<string>, pod: string)
    ensures NodesOf(site, pods + [pod]) == NodesOf(site, pods) + {NodeOf(site, pod)}
  {
    var all := pods + [pod];
    forall n | n in NodesOf(site, pods) ensures n in NodesOf(site, all) {
      var i :| 0 <= i < |pods| && n == NodeOf(site, pods[i]);
      assert all[i] == pods[i];
    }
    assert all[|pods|] == pod;
  }

  lemma {:induction false} ScheduledTracks(scene: Scene, site: Site, counts: map<string, int>, scheduled: seq<string>)
    requires Faithful(scene, site, counts) && DistinctNodes(site, scheduled)
    ensures Tracks(scene.cluster, AllStopped(site, scheduled, counts), NodesOf(site, scheduled))
  {
    if scheduled == [] {
      InitialTracks(scene, site, counts);
      assert NodesOf(site, scheduled) == {};
    } else {
      var rest, pod := scheduled[..|scheduled| - 1], scheduled[|scheduled| - 1];
      assert scheduled == rest + [pod];
      assert forall i :: 0 <= i < |rest| ==> rest[i] == scheduled[i];
      ScheduledTracks(scene, site, counts, rest);
      NodesOfOneMore(site, rest, pod);
      StoppedTracks(scene, site, counts, AllStopped(site, rest, counts), NodesOf(site, rest), pod);
    }
  }

  lemma {:induction false} PickFromTracks(
    scene: Scene, site: Site, counts0: map<string, int>, max: int, order: seq<string>, acc: Picked, base: set<string>)
    requires Faithful(scene, site, counts0)
    requires Tracks(scene.cluster, acc.counts, base + NodesOf(site, acc.pods))
    requires DistinctNodes(site, order)
    requires forall i :: 0 <= i < |order| ==> NodeOf(site, order[i]) !in base + NodesOf(site, acc.pods)
    ensures var r := PickFrom(site, max, order, acc);
            Tracks(scene.cluster, r.counts, base + NodesOf(site, r.pods))
    decreases |order|
  {
    if order != [] {
      var pod, rest := order[0], order[1..];
      assert forall i :: 0 <= i < |rest| ==> rest[i] == order[i + 1];
      if SafeToStop(site, pod, acc.counts) {
        var next := Picked(acc.pods + [pod], Stopped(site, pod, acc.counts));
        NodesOfOneMore(site, acc.pods, pod);
        StoppedTracks(scene, site, counts0, acc.counts, base + NodesOf(site, acc.pods), pod);
        assert base + NodesOf(site, next.pods) == base + NodesOf(site, acc.pods) + {NodeOf(site, pod)};
        PickFromTracks(scene, site, counts0, max, rest, next, base);
      } else {
        PickFromTracks(scene, site, counts0, max, rest, acc, base);
      }
    }
  }

  /** The scheduled and the running pods, as nodes, are all different. */
  ghost predicate Disjoint(site: Site, scheduled: seq<string>, order: seq<string>) {
    && DistinctNodes(site, scheduled)
    && DistinctNodes(site, order)
    && forall i, j :: 0 <= i < |scheduled| && 0 <= j < |order| ==> NodeOf(site, scheduled[i]) != NodeOf(site, order[j])
  }

  /**
    Exact accounting. After selection the counter of every shard equals the number of its replicas
    that do not serve once the scheduled and the selected pods are stopped. So the replicas that
    keep serving are the size of the shard minus the counter.
   */
  lemma SelectionAccounting(
    scene: Scene, site: Site, counts: map<string, int>, max: int, scheduled: seq<string>, order: seq<string>, k: string)
    requires Faithful(scene, site, counts) && Disjoint(site, scheduled, order)
    ensures var r := Pick(site, max, scheduled, order, counts);
            var stopped := NodesOf(site, scheduled) + NodesOf(site, r.pods);
            && Get(r.counts, k) == Unavailable(scene.cluster, stopped, k)
            && Available(scene.cluster, stopped, k) ==
               Count(scene.cluster, AllIds(scene.cluster), InShard(k)) - Get(r.counts, k)
  {
    var r := Pick(site, max, scheduled, order, counts);
    var acc := Picked([], AllStopped(site, scheduled, counts));
    var base := NodesOf(site, scheduled);
    ScheduledTracks(scene, site, counts, scheduled);
    assert base + NodesOf(site, acc.pods) == base;
    PickFromTracks(scene, site, counts, max, order, acc, base);
    AvailableIsTheRest(scene.cluster, base + NodesOf(site, r.pods), k);
  }

  /** The serving replicas of shard `k` on the node of a pod. */
  ghost function ServingOn(scene: Scene, site: Site, pod: string, k: string): nat {
    var n := NodeOf(site, pod);
    if n in scene.cluster.liveNodes then Count(scene.cluster, AllIds(scene.cluster), ActiveOn(n, k)) else 0
  }

  /** Every serving replica that these pods take from shard `k` is on the one at `i`. */
  ghost predicate OnlyServedBy(scene: Scene, site: Site, pods: seq<string>, k: string, i: int) {
    0 <= i < |pods| && forall j :: 0 <= j < |pods| && j != i ==> ServingOn(scene, site, pods[j], k) == 0
  }

  /**
    Stopping `more` on top of `stopped` leaves the number of unavailable replicas of shard `k`
    unchanged, or within the limit of the shard, or all the unavailable replicas of the shard were
    serving on one of these pods and on no other.
   */
  ghost predicate RespectsShard(scene: Scene, site: Site, stopped: seq<string>, more: seq<string>, k: string) {
    var before := Unavailable(scene.cluster, NodesOf(site, stopped), k);
    var after := Unavailable(scene.cluster, NodesOf(site, stopped) + NodesOf(site, more), k);
    || after == before
    || after <= ShardLimit(site, k)
    || (before == 0 && exists i :: OnlyServedBy(scene, site, more, k, i) && after == ServingOn(scene, site, more[i], k))
  }

  lemma ServingIsLoad(scene: Scene, site: Site, counts: map<string, int>, pod: string, k: string)
    requires Faithful(scene, site, counts)
    ensures ServingOn(scene, site, pod, k) == Load(site, pod, k)
  {
    hide SolrNodeName;
    LoadIsActiveReplicas(scene, site, counts, pod, k);
  }

  /** The shard guarantee: the selection respects every shard, on top of the pods scheduled already. */
  lemma SelectionRespectsShards(
    scene: Scene, site: Site, counts: map<string, int>, max: int, scheduled: seq<string>, order: seq<string>, k: string)
    requires Faithful(scene, site, counts) && Disjoint(site, scheduled, order)
    ensures RespectsShard(scene, site, scheduled, Pick(site, max, scheduled, order, counts).pods, k)
  {
    hide Faithful, Unavailable, Available, Count, NodesOf, ServingOn, Load, AllStopped, PickFrom, ShardLimit;
    hide SolrNodeName;
    var base := AllStopped(site, scheduled, counts);
    var r := Pick(site, max, scheduled, order, counts);
    ScheduledTracks(scene, site, counts, scheduled);
    SelectionAccounting(scene, site, counts, max, scheduled, order, k);
    PickFromAllowed(scene, site, counts, max, order, Get(base, k), Picked([], base), k);
    forall pod ensures ServingOn(scene, site, pod, k) == Load(site, pod, k) {
      ServingIsLoad(scene, site, counts, pod, k);
    }
    if TotalLoad(site, r.pods, k) != 0 && Get(r.counts, k) > ShardLimit(site, k) {
      var i: nat :| OnlyPodAt(site, r.pods, k, i);
      SumBySingle(LoadOn(site, k), r.pods, i);
      assert OnlyServedBy(scene, site, r.pods, k, i);
    }
  }
}
