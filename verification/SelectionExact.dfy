/**
  The selection in terms of the cluster status alone: what the limits come to, which of two pods is the
  safer one, exactly which pods are refused, and the selection as the greedy walk that this defines.
 */
module SelectionExact {
  import opened Prelude
  import opened Naming
  import opened ClusterState
  import opened PodSelection
  import opened SelectionSafety
  import opened SelectionProgress
  import opened SelectionOrder
  import RollingUpdate

  // ----- limits -----

  /** `v` percent of a total, rounded down, where nothing counts as one. */
  predicate IsPercentage(bound: int, p: int, total: int) {
    if 0 <= p * total < 100 then bound == 1 else 100 * bound <= p * total < 100 * (bound + 1)
  }

  /**
    The number of pods that may be unavailable: all of them for a number of zero or less, otherwise the
    number or the percentage, by default a quarter, and one for text that is no number.
   */
  lemma PodLimitExactly(limit: Option<IntOrPercent>, desired: int)
    ensures var m := MaxPodsUnavailable(limit, desired);
            && (limit == None ==> IsPercentage(m, 25, desired))
            && (limit.Some? && limit.value.Number? ==> m == if limit.value.n <= 0 then desired else limit.value.n)
            && (limit.Some? && limit.value.Percent? ==> IsPercentage(m, limit.value.p, desired))
            && (limit == Some(Malformed) ==> m == 1)
  {
  }

  /** The number of replicas of a shard that may be unavailable: the same, but by default one. */
  lemma ShardLimitExactly(limit: Option<IntOrPercent>, totals: map<string, int>, k: string)
    requires k in totals && totals[k] >= 1
    ensures var m := MaxShardReplicasUnavailable(limit, totals, k);
            && (limit == None ==> m == 1)
            && (limit.Some? && limit.value.Number? ==> m == if limit.value.n <= 0 then totals[k] else limit.value.n)
            && (limit.Some? && limit.value.Percent? ==> IsPercentage(m, limit.value.p, totals[k]))
            && (limit == Some(Malformed) ==> m == 1)
  {
  }

  // ----- the safety order -----

  /** `a` comes before `b` in the order of characters. */
  ghost predicate Alphabetical(a: string, b: string) {
    || (a <= b && a != b)
    || exists i :: 0 <= i < |a| && i < |b| && a[..i] == b[..i] && a[i] < b[i]
  }

  lemma {:induction false} StringLessIsAlphabetical(a: string, b: string)
    ensures StringLess(a, b) <==> Alphabetical(a, b)
  {
    if a != "" && b != "" {
      var x, y := a[1..], b[1..];
      StringLessIsAlphabetical(x, y);
      assert a == [a[0]] + x && b == [b[0]] + y;
      if a[0] == b[0] && Alphabetical(x, y) && !(x <= y) {
        var i :| 0 <= i < |x| && i < |y| && x[..i] == y[..i] && x[i] < y[i];
        assert a[..i + 1] == [a[0]] + x[..i] && b[..i + 1] == [b[0]] + y[..i];
        assert a[i + 1] < b[i + 1];
      }
      if i :| 0 <= i < |a| && i < |b| && a[..i] == b[..i] && a[i] < b[i] {
        if i > 0 {
          assert a[0] == a[..i][0] == b[..i][0] == b[0];
          assert x[..i - 1] == a[..i][1..] && y[..i - 1] == b[..i][1..];
          assert x[i - 1] < y[i - 1];
        } else {
          assert a[0] < b[0];
        }
      }
      if a[0] < b[0] {
        assert a[..0] == b[..0];
      }
    }
  }

  ghost function On(scene: Scene, t: Tally): nat {
    Count(scene.cluster, AllIds(scene.cluster), t)
  }

  ghost predicate IsOverseer(scene: Scene, n: string) {
    scene.overseer != "" && n == scene.overseer
  }

  /** Live, home of a replica, or the overseer. */
  ghost predicate IsKnown(scene: Scene, n: string) {
    n in scene.cluster.liveNodes || On(scene, Hosts(n)) > 0 || IsOverseer(scene, n)
  }

  /**
    One known node is stopped before another: the overseer last, dead nodes first, then the node with
    fewer leaders, fewer replicas that are not down, fewer replicas, and the later name.
   */
  ghost predicate StopsBefore(scene: Scene, a: string, b: string) {
    var deadA, deadB := a !in scene.cluster.liveNodes, b !in scene.cluster.liveNodes;
    && !IsOverseer(scene, a)
    && (|| IsOverseer(scene, b)
        || (deadA && !deadB)
        || (deadA == deadB
            && (|| On(scene, Leaders(a)) < On(scene, Leaders(b))
                || (On(scene, Leaders(a)) == On(scene, Leaders(b))
                    && (|| On(scene, NotDown(a)) < On(scene, NotDown(b))
                        || (On(scene, NotDown(a)) == On(scene, NotDown(b))
                            && (|| On(scene, Hosts(a)) < On(scene, Hosts(b))
                                || (On(scene, Hosts(a)) == On(scene, Hosts(b)) && Alphabetical(b, a)))))))))
  }

  lemma KnownIsInState(scene: Scene, site: Site, counts: map<string, int>, n: string)
    requires Faithful(scene, site, counts)
    ensures n in site.nodes <==> IsKnown(scene, n)
    ensures n in site.nodes ==>
              && site.nodes[n].name == n && site.nodes[n].live == (n in scene.cluster.liveNodes)
              && site.nodes[n].overseer == IsOverseer(scene, n)
              && site.nodes[n].leaders == On(scene, Leaders(n)) && site.nodes[n].notDown == On(scene, NotDown(n))
              && site.nodes[n].replicas == On(scene, Hosts(n))
  {
    assert CounterOf(site.nodes, counts, Leaders(n)) == On(scene, Leaders(n));
    assert CounterOf(site.nodes, counts, NotDown(n)) == On(scene, NotDown(n));
    assert CounterOf(site.nodes, counts, Hosts(n)) == On(scene, Hosts(n));
    var hosted := Matching(scene.cluster, AllIds(scene.cluster), Hosts(n));
    if id :| id in AllIds(scene.cluster) && Lookup(scene.cluster, id).node == n {
      assert id in hosted;
    }
    if hosted != {} {
      var id :| id in hosted;
      assert Lookup(scene.cluster, id).node == n;
    }
  }

  /** Which of two pods on known nodes comes first is decided by the cluster status. */
  lemma SafetyOrderExactly(scene: Scene, site: Site, counts: map<string, int>, a: string, b: string)
    requires Faithful(scene, site, counts) && IsKnown(scene, NodeOf(site, a)) && IsKnown(scene, NodeOf(site, b))
    ensures SaferIn(site.cloud, site.nodes)(a, b) <==> StopsBefore(scene, NodeOf(site, a), NodeOf(site, b))
  {
    KnownIsInState(scene, site, counts, NodeOf(site, a));
    KnownIsInState(scene, site, counts, NodeOf(site, b));
    StringLessIsAlphabetical(NodeOf(site, b), NodeOf(site, a));
    hide Faithful, SolrNodeName, StringLess, Alphabetical, On, IsKnown;
  }

  // ----- exactly which pods are refused -----

  /** The node hosts a replica of shard `k` that is not down. */
  ghost predicate HostsUp(scene: Scene, n: string, k: string) {
    exists id :: && Listed(scene.cluster, id) && Lookup(scene.cluster, id).node == n && KeyOf(id) == k
                 && Lookup(scene.cluster, id).state !in {Down, RecoveryFailed}
  }

  /** Some replicas of shard `k` do not serve already, and stopping the node would take it past its limit. */
  ghost predicate ShardForbids(scene: Scene, site: Site, stopped: set<string>, n: string, k: string) {
    && HostsUp(scene, n, k)
    && Unavailable(scene.cluster, stopped, k) > 0
    && Unavailable(scene.cluster, stopped + {n}, k) > MaxShardReplicasUnavailable(site.shardLimit, site.totals, k)
  }

  /**
    The node may not be stopped now: it leads the overseer and is not the last one to go with all managed
    nodes live, or it is live and some shard on it forbids it.
   */
  ghost predicate IsRefused(scene: Scene, site: Site, stopped: set<string>, n: string) {
    || (IsOverseer(scene, n) && !(site.running == 1 && forall m :: m in scene.managed ==> m in scene.cluster.liveNodes))
    || (n in scene.cluster.liveNodes && exists k :: ShardForbids(scene, site, stopped, n, k))
  }

  lemma DownIsHosted(cluster: ClusterStatus, n: string, k: string, id: ReplicaId)
    ensures var all, down := Matching(cluster, AllIds(cluster), Hosted(n, k)),
                             Matching(cluster, AllIds(cluster), DownOn(n, k));
            && (id in down ==> id in all)
            && (id in all && id !in down <==>
                  && Listed(cluster, id) && Lookup(cluster, id).node == n && KeyOf(id) == k
                  && Lookup(cluster, id).state !in {Down, RecoveryFailed})
  {
    hide KeyOf;
  }

  lemma ProperSubsetSize<T>(part: set<T>, whole: set<T>)
    requires part <= whole
    ensures |part| != |whole| <==> exists x :: x in whole && x !in part
  {
    DisjointUnionSize(whole, part, whole - part);
    if x :| x in whole && x !in part {
      assert x in whole - part;
    }
    if whole - part != {} {
      var x :| x in whole - part;
      assert x in whole && x !in part;
    }
  }

  lemma UpIsCounted(scene: Scene, n: string, k: string)
    ensures HostsUp(scene, n, k) <==> On(scene, Hosted(n, k)) != On(scene, DownOn(n, k))
  {
    var all, down := Matching(scene.cluster, AllIds(scene.cluster), Hosted(n, k)),
                     Matching(scene.cluster, AllIds(scene.cluster), DownOn(n, k));
    hide Matching, Matches, KeyOf, Lookup, Listed, AllIds;
    forall id
      ensures id in down ==> id in all
      ensures id in all && id !in down <==>
                && Listed(scene.cluster, id) && Lookup(scene.cluster, id).node == n && KeyOf(id) == k
                && Lookup(scene.cluster, id).state !in {Down, RecoveryFailed}
    {
      DownIsHosted(scene.cluster, n, k, id);
    }
    ProperSubsetSize(down, all);
  }

  lemma OverloadIsForbidden(
    scene: Scene, site: Site, counts0: map<string, int>, counts: map<string, int>, stopped: set<string>, n: string,
    k: string)
    requires Faithful(scene, site, counts0) && Tracks(scene.cluster, counts, stopped)
    requires n in site.nodes && n in scene.cluster.liveNodes && n !in stopped
    ensures ShardForbids(scene, site, stopped, n, k) <==>
              k in site.nodes[n].total && Overloads(site, site.nodes[n], counts, k)
  {
    var c := site.nodes[n];
    UpIsCounted(scene, n, k);
    StoppingOneMore(scene.cluster, stopped, n, k);
    assert CounterOf(site.nodes, counts0, Hosted(n, k)) == On(scene, Hosted(n, k));
    assert CounterOf(site.nodes, counts0, DownOn(n, k)) == On(scene, DownOn(n, k));
    assert CounterOf(site.nodes, counts0, ActiveOn(n, k)) == On(scene, ActiveOn(n, k));
    assert Get(counts, k) == Unavailable(scene.cluster, stopped, k);
    assert k in c.total ==> c.total[k] > 0 by { assert AllPositive(c.total); }
    ActivePlusDownWithinHosted(scene.cluster, AllIds(scene.cluster), n, k);
    hide HostsUp, Unavailable, Count, Faithful, MaxShardReplicasUnavailable;
  }

  /** A pod passes the check exactly if its node is not refused, whatever was stopped before. */
  lemma CheckedExactly(
    scene: Scene, site: Site, counts0: map<string, int>, counts: map<string, int>, stopped: set<string>, pod: string)
    requires Faithful(scene, site, counts0) && Tracks(scene.cluster, counts, stopped) && NodeOf(site, pod) !in stopped
    ensures SafeToStop(site, pod, counts) <==> !IsRefused(scene, site, stopped, NodeOf(site, pod))
  {
    var n := NodeOf(site, pod);
    KnownIsInState(scene, site, counts0, n);
    assert site.allManagedLive <==> forall m :: m in scene.managed ==> m in scene.cluster.liveNodes;
    if n in site.nodes && n in scene.cluster.liveNodes {
      forall k ensures ShardForbids(scene, site, stopped, n, k) <==>
                         k in site.nodes[n].total && Overloads(site, site.nodes[n], counts, k)
      {
        OverloadIsForbidden(scene, site, counts0, counts, stopped, n, k);
      }
      forall k | k in site.nodes[n].total ensures site.nodes[n].replicas > 0 {
        NodeWithShardHosts(scene, site, counts0, n, k);
      }
    }
    hide Faithful, Tracks, SolrNodeName, ShardForbids, Overloads, IsKnown, On;
  }

  lemma NodeWithShardHosts(scene: Scene, site: Site, counts: map<string, int>, n: string, k: string)
    requires Faithful(scene, site, counts) && n in site.nodes && k in site.nodes[n].total
    ensures site.nodes[n].replicas > 0
  {
    assert CounterOf(site.nodes, counts, Hosted(n, k)) == On(scene, Hosted(n, k));
    assert CounterOf(site.nodes, counts, Hosts(n)) == On(scene, Hosts(n));
    assert AllPositive(site.nodes[n].total);
    ActivePlusDownWithinHosted(scene.cluster, AllIds(scene.cluster), n, k);
  }

  // ----- the selection as a greedy walk -----

  /** Takes every pod that is not refused with all before it stopped, until `room` pods are taken. */
  ghost function Greedy(scene: Scene, site: Site, room: int, order: seq<string>, stopped: set<string>): seq<string>
    decreases |order|
  {
    if order == [] then []
    else
      var n := NodeOf(site, order[0]);
      if IsRefused(scene, site, stopped, n) then Greedy(scene, site, room, order[1..], stopped)
      else [order[0]] + if room == 1 then [] else Greedy(scene, site, room - 1, order[1..], stopped + {n})
  }

  lemma {:induction false} PickFromIsGreedy(
    scene: Scene, site: Site, counts0: map<string, int>, max: int, order: seq<string>, acc: Picked,
    stopped: set<string>)
    requires Faithful(scene, site, counts0) && Tracks(scene.cluster, acc.counts, stopped) && DistinctNodes(site, order)
    requires forall i :: 0 <= i < |order| ==> NodeOf(site, order[i]) !in stopped
    requires max < 1 || |acc.pods| < max
    ensures PickFrom(site, max, order, acc).pods ==
            acc.pods + Greedy(scene, site, if max < 1 then 0 - |acc.pods| else max - |acc.pods|, order, stopped)
    decreases |order|
  {
    hide Faithful, Tracks, SolrNodeName, SafeToStop, IsRefused, Stopped;
    if order != [] {
      var pod, rest := order[0], order[1..];
      var n := NodeOf(site, pod);
      assert forall i :: 0 <= i < |rest| ==> rest[i] == order[i + 1];
      CheckedExactly(scene, site, counts0, acc.counts, stopped, pod);
      if SafeToStop(site, pod, acc.counts) {
        var next := Picked(acc.pods + [pod], Stopped(site, pod, acc.counts));
        StoppedTracks(scene, site, counts0, acc.counts, stopped, pod);
        if !ReachedMaximum(max, next.pods) {
          PickFromIsGreedy(scene, site, counts0, max, rest, next, stopped + {n});
        }
      } else {
        PickFromIsGreedy(scene, site, counts0, max, rest, acc, stopped);
      }
    }
  }

  /**
    The selection is the greedy walk over the safety order: each pod in turn is taken exactly if the
    cluster status does not refuse it with the scheduled pods and those taken before it stopped.
   */
  lemma SelectionIsGreedy(
    scene: Scene, site: Site, counts: map<string, int>, max: int, scheduled: seq<string>, order: seq<string>)
    requires Faithful(scene, site, counts) && Disjoint(site, scheduled, order)
    ensures Pick(site, max, scheduled, order, counts).pods ==
            Greedy(scene, site, if max < 1 then 0 else max, order, NodesOf(site, scheduled))
  {
    hide Faithful, SolrNodeName, PickFrom, Greedy, AllStopped;
    ScheduledTracks(scene, site, counts, scheduled);
    var acc := Picked([], AllStopped(site, scheduled, counts));
    assert forall i :: 0 <= i < |order| ==> NodeOf(site, order[i]) !in NodesOf(site, scheduled);
    PickFromIsGreedy(scene, site, counts, max, order, acc, NodesOf(site, scheduled));
  }

  /**
    With fewer picks than allowed, every running pod that is left out is refused by the cluster status
    once the scheduled and the selected pods are stopped.
   */
  lemma SelectionIsMaximal(
    scene: Scene, site: Site, counts: map<string, int>, max: int, scheduled: seq<string>, order: seq<string>,
    pod: string)
    requires Faithful(scene, site, counts) && Disjoint(site, scheduled, order) && pod in order
    ensures var picked := Pick(site, max, scheduled, order, counts).pods;
            || (max >= 1 && |picked| >= max) || pod in picked
            || IsRefused(scene, site, NodesOf(site, scheduled) + NodesOf(site, picked), NodeOf(site, pod))
  {
    LeftOutIsUnsafe(scene, site, counts, max, scheduled, order, pod);
    hide Faithful, SolrNodeName, PickFrom, AllStopped, IsRefused, SafeToStop;
    var r := Pick(site, max, scheduled, order, counts);
    var stopped := NodesOf(site, scheduled) + NodesOf(site, r.pods);
    var acc := Picked([], AllStopped(site, scheduled, counts));
    ScheduledTracks(scene, site, counts, scheduled);
    assert NodesOf(site, scheduled) + NodesOf(site, acc.pods) == NodesOf(site, scheduled);
    PickFromTracks(scene, site, counts, max, order, acc, NodesOf(site, scheduled));
    PickFromExtends(site, max, order, acc);
    if pod !in r.pods {
      LeftOutNotStopped(site, scheduled, order, r.pods, pod);
      CheckedExactly(scene, site, counts, r.counts, stopped, pod);
    }
  }

  lemma LeftOutNotStopped(site: Site, scheduled: seq<string>, order: seq<string>, picked: seq<string>, pod: string)
    requires Disjoint(site, scheduled, order) && pod in order && pod !in picked
    requires forall p :: p in picked ==> p in order
    ensures NodeOf(site, pod) !in NodesOf(site, scheduled) + NodesOf(site, picked)
  {
    hide SolrNodeName;
    var j :| 0 <= j < |order| && order[j] == pod;
    forall i | 0 <= i < |picked| ensures NodeOf(site, picked[i]) != NodeOf(site, pod) {
      assert picked[i] in order;
      var m :| 0 <= m < |order| && order[m] == picked[i];
    }
  }

  // ----- the selection of a step -----

  /** Pods that the cluster status does not know come first, and then the safer ones. */
  ghost predicate InStoppingOrder(scene: Scene, site: Site, order: seq<string>) {
    forall i, j :: 0 <= i < j < |order| ==>
      var a, b := NodeOf(site, order[i]), NodeOf(site, order[j]);
      !IsKnown(scene, a) || (IsKnown(scene, b) && StopsBefore(scene, a, b))
  }

  lemma SortedForStopping(scene: Scene, site: Site, counts: map<string, int>, pods: seq<string>)
    requires Faithful(scene, site, counts) && Distinct(pods) && !AdvertisesBlankHost(site.cloud)
    ensures var order := SortBySafety(site.cloud, site.nodes, pods);
            multiset(order) == multiset(pods) && InStoppingOrder(scene, site, order)
  {
    var less, order := SaferIn(site.cloud, site.nodes), SortBySafety(site.cloud, site.nodes, pods);
    assert Comparable(site, scene.overseer);
    SaferOrdersAll(site, scene.overseer, pods);
    SortPermutes(less, pods);
    assert forall y :: y in pods ==> y in multiset(pods);
    SortSorts(less, pods, multiset(pods));
    hide Faithful, SolrNodeName, IsKnown, StopsBefore, Sort, OrdersAll, Comparable;
    forall i, j | 0 <= i < j < |order|
      ensures var a, b := NodeOf(site, order[i]), NodeOf(site, order[j]);
              !IsKnown(scene, a) || (IsKnown(scene, b) && StopsBefore(scene, a, b))
    {
      KnownIsInState(scene, site, counts, NodeOf(site, order[i]));
      KnownIsInState(scene, site, counts, NodeOf(site, order[j]));
      assert less(order[i], order[j]);
      if IsKnown(scene, NodeOf(site, order[i])) {
        SafetyOrderExactly(scene, site, counts, order[i], order[j]);
      }
    }
  }

  /**
    What one step selects, for every status of the cluster. The limit on pods leaves room for as many as
    keep the promised number available. If that is none, the step retries. Otherwise it walks greedily
    over the running pods in the order of safety, and retries if it finds none among them.
   */
  lemma StepSelectionExactly(
    scene: Scene, cloud: Cloud, view: ReplicaView, podLimit: Option<IntOrPercent>, shardLimit: Option<IntOrPercent>,
    total: int, notStarted: nat, scheduled: seq<string>, running: seq<string>, availableUpdated: int)
    requires Aggregates(scene.cluster, scene.overseer, scene.managed, view)
    requires Distinct(scheduled + running) && !AdvertisesBlankHost(cloud)
    ensures var s := RollingUpdate.Selection(cloud, view, podLimit, shardLimit, total, notStarted, scheduled, running,
                                             availableUpdated);
            var room := availableUpdated + |running| - (total - MaxPodsUnavailable(podLimit, total));
            var site := SiteOf(cloud, view, shardLimit, |running|);
            var order := SortBySafety(cloud, view.nodes, running);
            && multiset(order) == multiset(running) && InStoppingOrder(scene, site, order)
            && s.pods == (if room <= 0 then [] else Greedy(scene, site, room, order, NodesOf(site, scheduled)))
            && (s.retryLater <==> room <= 0 || (s.pods == [] && running != []))
  {
    hide Aggregates, SolrNodeName, Sort, InStoppingOrder, Greedy, MaxPodsUnavailable, Pick;
    var site, order := SiteOf(cloud, view, shardLimit, |running|), SortBySafety(cloud, view.nodes, running);
    var room := availableUpdated + |running| - (total - MaxPodsUnavailable(podLimit, total));
    assert Distinct(running) by {
      assert forall i :: 0 <= i < |running| ==> (scheduled + running)[|scheduled| + i] == running[i];
    }
    SortedForStopping(scene, site, view.notActive, running);
    RollingUpdate.ApartAsNodes(site, scheduled, running, order);
    SelectionIsGreedy(scene, site, view.notActive, room, scheduled, order);
  }
}
