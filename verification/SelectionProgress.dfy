/**
  The selection is maximal, takes the overseer last, is not empty in a healthy cluster, and keeps the
  promised number of pods available.
 */
module SelectionProgress {
  import opened Prelude
  import opened Naming
  import opened ClusterState
  import opened PodSelection
  import opened SelectionSafety

  // ----- greedy selection is maximal -----

  ghost predicate Below(a: map<string, int>, b: map<string, int>) {
    forall k :: Get(a, k) <= Get(b, k)
  }

  /** A refused pod stays refused while the counters grow. */
  lemma RefusedStaysRefused(site: Site, pod: string, a: map<string, int>, b: map<string, int>)
    requires Below(a, b) && !SafeToStop(site, pod, a)
    ensures !SafeToStop(site, pod, b)
  {
    var c := site.nodes[NodeOf(site, pod)];
    if c.overseer ==> OverseerMayStop(site) {
      var k :| k in c.total && Overloads(site, c, a, k);
      assert Get(a, k) <= Get(b, k);
      assert Overloads(site, c, b, k);
    }
  }

  lemma StoppedGrows(scene: Scene, site: Site, counts0: map<string, int>, pod: string, counts: map<string, int>)
    requires Faithful(scene, site, counts0)
    ensures Below(counts, Stopped(site, pod, counts))
  {
    forall k ensures Get(counts, k) <= Get(Stopped(site, pod, counts), k) {
      StoppedAddsLoad(site, pod, counts, k);
      LoadIsActiveReplicas(scene, site, counts0, pod, k);
    }
  }

  lemma {:induction false} PickFromGrows(
    scene: Scene, site: Site, counts0: map<string, int>, max: int, order: seq<string>, acc: Picked)
    requires Faithful(scene, site, counts0)
    ensures Below(acc.counts, PickFrom(site, max, order, acc).counts)
    decreases |order|
  {
    if order != [] {
      if SafeToStop(site, order[0], acc.counts) {
        var next := Picked(acc.pods + [order[0]], Stopped(site, order[0], acc.counts));
        StoppedGrows(scene, site, counts0, order[0], acc.counts);
        PickFromGrows(scene, site, counts0, max, order[1..], next);
      } else {
        PickFromGrows(scene, site, counts0, max, order[1..], acc);
      }
    }
  }

  /** The picks so far stay picked, new picks come from the order, and the maximum is kept. */
  lemma {:induction false} PickFromExtends(site: Site, max: int, order: seq<string>, acc: Picked)
    ensures var r := PickFrom(site, max, order, acc).pods;
            && acc.pods <= r
            && (forall p :: p in r ==> p in acc.pods || p in order)
            && (|acc.pods| < max ==> |r| <= max)
    decreases |order|
  {
    if order != [] {
      if SafeToStop(site, order[0], acc.counts) {
        var next := Picked(acc.pods + [order[0]], Stopped(site, order[0], acc.counts));
        if !ReachedMaximum(max, next.pods) {
          PickFromExtends(site, max, order[1..], next);
        }
      } else {
        PickFromExtends(site, max, order[1..], acc);
      }
    }
  }

  lemma {:induction false} PickFromMaximal(
    scene: Scene, site: Site, counts0: map<string, int>, max: int, order: seq<string>, acc: Picked, pod: string)
    requires Faithful(scene, site, counts0) && pod in order
    ensures var r := PickFrom(site, max, order, acc);
            ReachedMaximum(max, r.pods) || pod in r.pods || !SafeToStop(site, pod, r.counts)
    decreases |order|
  {
    var first, rest := order[0], order[1..];
    var safe := SafeToStop(site, first, acc.counts);
    var next := if safe then Picked(acc.pods + [first], Stopped(site, first, acc.counts)) else acc;
    if !(safe && ReachedMaximum(max, next.pods)) {
      if pod == first {
        if safe {
          PickFromExtends(site, max, rest, next);
          assert next.pods[|acc.pods|] == pod;
        } else {
          PickFromGrows(scene, site, counts0, max, rest, acc);
          RefusedStaysRefused(site, pod, acc.counts, PickFrom(site, max, rest, acc).counts);
        }
      } else {
        PickFromMaximal(scene, site, counts0, max, rest, next, pod);
      }
    }
  }

  /** If the maximum was not reached, every pod left out is refused against the final counters. */
  lemma LeftOutIsUnsafe(
    scene: Scene, site: Site, counts: map<string, int>, max: int, scheduled: seq<string>, order: seq<string>,
    pod: string)
    requires Faithful(scene, site, counts) && pod in order
    ensures var r := Pick(site, max, scheduled, order, counts);
            ReachedMaximum(max, r.pods) || pod in r.pods || !SafeToStop(site, pod, r.counts)
  {
    PickFromMaximal(scene, site, counts, max, order, Picked([], AllStopped(site, scheduled, counts)), pod);
  }

  /** The overseer is stopped only as the last out-of-date pod, with every managed node live. */
  lemma {:induction false} OverseerGoesLast(site: Site, max: int, order: seq<string>, acc: Picked, pod: string)
    requires pod in PickFrom(site, max, order, acc).pods && pod !in acc.pods
    requires NodeOf(site, pod) in site.nodes && site.nodes[NodeOf(site, pod)].overseer
    ensures OverseerMayStop(site)
    decreases |order|
  {
    if order != [] {
      if SafeToStop(site, order[0], acc.counts) {
        var next := Picked(acc.pods + [order[0]], Stopped(site, order[0], acc.counts));
        if pod != order[0] && !ReachedMaximum(max, next.pods) {
          OverseerGoesLast(site, max, order[1..], next, pod);
        }
      } else {
        OverseerGoesLast(site, max, order[1..], acc, pod);
      }
    }
  }

  // ----- no deadlock -----

  ghost predicate AllServing(cluster: ClusterStatus) {
    forall id :: Listed(cluster, id) ==> IsServing(cluster, Lookup(cluster, id))
  }

  lemma NothingNotActive(scene: Scene, site: Site, counts: map<string, int>)
    requires Faithful(scene, site, counts) && AllServing(scene.cluster)
    ensures forall k :: Get(counts, k) == 0
  {
    forall k ensures Get(counts, k) == 0 {
      InitialTracks(scene, site, counts);
      assert Unserved(scene.cluster, {}, k) == {};
      assert Get(counts, k) == Unavailable(scene.cluster, {}, k);
    }
  }

  /** Some pod of the order is not the overseer, or is the last one and may go. */
  ghost predicate SomePodMayGo(site: Site, order: seq<string>) {
    exists i :: 0 <= i < |order| && !(NodeOf(site, order[i]) in site.nodes
      && site.nodes[NodeOf(site, order[i])].overseer && !OverseerMayStop(site))
  }

  lemma {:induction false} PicksSomething(site: Site, max: int, order: seq<string>, counts: map<string, int>)
    requires forall k :: Get(counts, k) == 0
    requires SomePodMayGo(site, order)
    ensures PickFrom(site, max, order, Picked([], counts)).pods != []
    decreases |order|
  {
    var acc := Picked([], counts);
    if SafeToStop(site, order[0], counts) {
      var next := Picked([order[0]], Stopped(site, order[0], counts));
      assert acc.pods + [order[0]] == next.pods;
      PickFromExtends(site, max, order[1..], next);
    } else {
      var i :| 0 <= i < |order| && !(NodeOf(site, order[i]) in site.nodes
        && site.nodes[NodeOf(site, order[i])].overseer && !OverseerMayStop(site));
      assert SafeToStop(site, order[i], counts);
      assert order[i] == order[1..][i - 1];
      PicksSomething(site, max, order[1..], counts);
    }
  }

  /** In a healthy cluster the walk picks a pod, whatever the order and the limit per shard. */
  lemma HealthyClusterPicksSomething(
    scene: Scene, site: Site, counts: map<string, int>, max: int, order: seq<string>)
    requires Faithful(scene, site, counts) && AllServing(scene.cluster)
    requires order != [] && DistinctNodes(site, order)
    requires site.running == |order|
    requires forall n :: n in scene.managed ==> n in scene.cluster.liveNodes
    ensures Pick(site, max, [], order, counts).pods != []
  {
    NothingNotActive(scene, site, counts);
    assert SomePodMayGo(site, order) by {
      if |order| == 1 || NodeOf(site, order[0]) != scene.overseer {
        assert !(NodeOf(site, order[0]) in site.nodes
          && site.nodes[NodeOf(site, order[0])].overseer && !OverseerMayStop(site));
      } else {
        assert NodeOf(site, order[1]) != scene.overseer;
        assert !(NodeOf(site, order[1]) in site.nodes
          && site.nodes[NodeOf(site, order[1])].overseer && !OverseerMayStop(site));
      }
    }
    PicksSomething(site, max, order, counts);
  }

  // ----- the whole decision -----

  /**
    Decides which running pods to stop now. With `total` configured pods of which `availableUpdated`
    are done, the selection never takes the available pods below the total minus the limit.
   */
  method DeterminePodsSafeToUpdate(
    cloud: Cloud, podLimit: Option<IntOrPercent>, shardLimit: Option<IntOrPercent>, total: int,
    notStarted: nat, scheduled: seq<string>, running: array<string>,
    state: NodeReplicaState, availableUpdated: int) returns (pods: seq<string>, retryLater: bool)
    modifies running, state`notActive
    ensures var max := MaxPodsToUpdate(podLimit, total, running.Length, notStarted + |scheduled|, availableUpdated);
            if max <= 0 then
              pods == [] && retryLater && state.notActive == old(state.notActive)
            else
              && Picked(pods, state.notActive) ==
                 Pick(SiteOf(cloud, old(state.View()), shardLimit, running.Length), max, scheduled,
                      SortBySafety(cloud, state.nodes, old(running[..])), old(state.notActive))
              && (retryLater <==> pods == [] && running.Length > 0)
    ensures pods != [] ==>
              availableUpdated + running.Length - |pods| >= total - MaxPodsUnavailable(podLimit, total)
  {
    var max := MaxPodsToUpdate(podLimit, total, running.Length, notStarted + |scheduled|, availableUpdated);
    pods, retryLater := [], false;
    if max <= 0 {
      retryLater := true;
    }
    if !retryLater {
      ghost var site := SiteOf(cloud, state.View(), shardLimit, running.Length);
      ghost var order := SortBySafety(cloud, state.nodes, running[..]);
      ghost var acc := Picked([], AllStopped(site, scheduled, state.notActive));
      pods := PickPodsToUpdate(cloud, shardLimit, scheduled, running, state, max);
      PickFromExtends(site, max, order, acc);
      if |pods| == 0 && running.Length > 0 {
        retryLater := true;
      }
    }
  }

  /**
    In a healthy cluster, with nothing scheduled, not started or unavailable, the selection is empty
    exactly if the pod limit is a negative percentage.
   */
  lemma HealthySelectionExactly(
    scene: Scene, site: Site, counts: map<string, int>, podLimit: Option<IntOrPercent>, total: int, order: seq<string>)
    requires Faithful(scene, site, counts) && AllServing(scene.cluster)
    requires order != [] && DistinctNodes(site, order) && site.running == |order| <= total
    requires forall n :: n in scene.managed ==> n in scene.cluster.liveNodes
    ensures var max := MaxPodsToUpdate(podLimit, total, |order|, 0, total - |order|);
            (max > 0 && Pick(site, max, [], order, counts).pods != [])
            <==> !(podLimit.Some? && podLimit.value.Percent? && podLimit.value.p < 0)
  {
    var max := MaxPodsToUpdate(podLimit, total, |order|, 0, total - |order|);
    LimitAllowsOnePod(podLimit, total);
    HealthyClusterPicksSomething(scene, site, counts, max, order);
  }
}
