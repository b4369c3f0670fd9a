/**
  The cluster status reported by Solr, and its aggregation into per-node and per-shard counters.

  The aggregation walks nested maps and bumps counters. Its meaning is stated by counting: every
  counter is the number of replicas of the status that match a description (`Tally`), so it does
  not depend on the order in which the maps are walked.
 */
module ClusterState {
  import opened Prelude
  import opened Naming

  // ----- cluster status -----

  datatype ReplicaState = Active | Down | Recovering | RecoveryFailed | Unrecognized

  datatype Replica = Replica(state: ReplicaState, node: string, leader: bool)

  type Shards = map<string, map<string, Replica>>

  datatype ClusterStatus = ClusterStatus(collections: map<string, Shards>, liveNodes: seq<string>)

  datatype ReplicaId = ReplicaId(collection: string, shard: string, name: string)

  predicate Listed(cluster: ClusterStatus, id: ReplicaId) {
    && id.collection in cluster.collections
    && id.shard in cluster.collections[id.collection]
    && id.name in cluster.collections[id.collection][id.shard]
  }

  function Lookup(cluster: ClusterStatus, id: ReplicaId): Replica
    requires Listed(cluster, id)
  {
    cluster.collections[id.collection][id.shard][id.name]
  }

  ghost function AllIds(cluster: ClusterStatus): (ids: set<ReplicaId>)
    ensures forall id :: id in ids <==> Listed(cluster, id)
  {
    var ids := set c, s, r | c in cluster.collections && s in cluster.collections[c]
                           && r in cluster.collections[c][s] :: ReplicaId(c, s, r);
    assert forall id :: Listed(cluster, id) ==> ReplicaId(id.collection, id.shard, id.name) in ids;
    ids
  }

  function KeyOf(id: ReplicaId): string {
    ShardKey(id.collection, id.shard)
  }

  /** No collection name holds the separator of shard keys. */
  ghost predicate BarFree(cluster: ClusterStatus) {
    forall c :: c in cluster.collections ==> '|' !in c
  }

  predicate IsServing(cluster: ClusterStatus, r: Replica) {
    r.state == Active && r.node in cluster.liveNodes
  }

  // ----- what the counters count -----

  datatype Tally =
    | Hosted(node: string, key: string)
    | ActiveOn(node: string, key: string)
    | DownOn(node: string, key: string)
    | Leaders(node: string)
    | Hosts(node: string)
    | NotDown(node: string)
    | NotActive(key: string)
    | InShard(key: string)

  predicate IsDown(r: Replica) {
    r.state == Down || r.state == RecoveryFailed
  }

  predicate Matches(cluster: ClusterStatus, id: ReplicaId, t: Tally)
    requires Listed(cluster, id)
  {
    var r := Lookup(cluster, id);
    match t
    case Hosted(n, k) => r.node == n && KeyOf(id) == k
    case ActiveOn(n, k) => r.node == n && KeyOf(id) == k && r.state == Active
    case DownOn(n, k) => r.node == n && KeyOf(id) == k && IsDown(r)
    case Leaders(n) => r.node == n && r.leader
    case Hosts(n) => r.node == n
    case NotDown(n) => r.node == n && !IsDown(r)
    case NotActive(k) => KeyOf(id) == k && !IsServing(cluster, r)
    case InShard(k) => KeyOf(id) == k
  }

  ghost predicate AllListed(cluster: ClusterStatus, ids: set<ReplicaId>) {
    forall id :: id in ids ==> Listed(cluster, id)
  }

  ghost function Matching(cluster: ClusterStatus, ids: set<ReplicaId>, t: Tally): set<ReplicaId>
    requires AllListed(cluster, ids)
  {
    set id | id in ids && Matches(cluster, id, t)
  }

  ghost function Count(cluster: ClusterStatus, ids: set<ReplicaId>, t: Tally): nat
    requires AllListed(cluster, ids)
  {
    |Matching(cluster, ids, t)|
  }

  lemma CountOneMore(cluster: ClusterStatus, ids: set<ReplicaId>, id: ReplicaId, t: Tally)
    requires AllListed(cluster, ids) && Listed(cluster, id) && id !in ids
    ensures Count(cluster, ids + {id}, t) == Count(cluster, ids, t) + if Matches(cluster, id, t) then 1 else 0
  {
    hide Matches, Listed;
    var before, after := Matching(cluster, ids, t), Matching(cluster, ids + {id}, t);
    if Matches(cluster, id, t) {
      assert after == before + {id};
    } else {
      assert after == before;
    }
  }

  // ----- aggregated state -----

  datatype NodeContents = NodeContents(
    name: string,
    leaders: int,
    replicas: int,
    notDown: int,
    total: map<string, int>,
    active: map<string, int>,
    down: map<string, int>,
    overseer: bool,
    live: bool)

  predicate InClusterState(c: NodeContents) {
    c.overseer || c.replicas > 0
  }

  function EmptyContents(name: string, live: bool): NodeContents {
    NodeContents(name, 0, 0, 0, map[], map[], map[], false, live)
  }

  /** The value of the counter for `t`, where an absent node or key reads as zero. */
  function CounterOf(nodes: map<string, NodeContents>, notActive: map<string, int>, t: Tally): int
    requires !t.InShard?
  {
    match t
    case NotActive(k) => Get(notActive, k)
    case Hosted(n, k) => if n in nodes then Get(nodes[n].total, k) else 0
    case ActiveOn(n, k) => if n in nodes then Get(nodes[n].active, k) else 0
    case DownOn(n, k) => if n in nodes then Get(nodes[n].down, k) else 0
    case Leaders(n) => if n in nodes then nodes[n].leaders else 0
    case Hosts(n) => if n in nodes then nodes[n].replicas else 0
    case NotDown(n) => if n in nodes then nodes[n].notDown else 0
  }

  /** Every counter equals the number of replicas among `ids` that it describes. */
  ghost predicate Counts(
    cluster: ClusterStatus, ids: set<ReplicaId>, nodes: map<string, NodeContents>, notActive: map<string, int>)
    requires AllListed(cluster, ids)
  {
    forall t: Tally :: !t.InShard? ==> CounterOf(nodes, notActive, t) == Count(cluster, ids, t)
  }

  /** Counter maps hold no zero entries, so equal readings mean equal maps. */
  ghost predicate AllPositive(m: map<string, int>) {
    forall k :: k in m ==> m[k] > 0
  }

  ghost predicate NoZeroEntries(nodes: map<string, NodeContents>, notActive: map<string, int>) {
    && AllPositive(notActive)
    && forall n :: n in nodes ==>
         AllPositive(nodes[n].total) && AllPositive(nodes[n].active) && AllPositive(nodes[n].down)
  }

  /** Which nodes are known after the replicas `ids` were recorded, and what is said of each. */
  ghost predicate KnownNodes(
    cluster: ClusterStatus, ids: set<ReplicaId>, overseer: string, nodes: map<string, NodeContents>)
    requires AllListed(cluster, ids)
  {
    && (forall n :: n in nodes <==>
          || n in cluster.liveNodes
          || (exists id :: id in ids && Lookup(cluster, id).node == n)
          || (overseer != "" && n == overseer))
    && (forall n :: n in nodes ==>
          && nodes[n].name == n
          && nodes[n].live == (n in cluster.liveNodes)
          && nodes[n].overseer == (overseer != "" && n == overseer))
  }

  /** The totals recorded for the shards that were visited. */
  ghost predicate ShardTotals(cluster: ClusterStatus, totals: map<string, int>) {
    && (forall c, s :: c in cluster.collections && s in cluster.collections[c] ==>
          && ShardKey(c, s) in totals
          && totals[ShardKey(c, s)] == |cluster.collections[c][s]|)
    && (forall k :: k in totals ==>
          exists c, s :: c in cluster.collections && s in cluster.collections[c] && k == ShardKey(c, s))
  }

  /** The replica state of the nodes as the pod selector sees it. */
  datatype ReplicaView = ReplicaView(
    nodes: map<string, NodeContents>,
    totals: map<string, int>,
    notActive: map<string, int>,
    allManagedLive: bool)

  /** `view` is what the cluster status says. */
  ghost predicate Aggregates(cluster: ClusterStatus, overseer: string, managed: set<string>, view: ReplicaView) {
    && KnownNodes(cluster, AllIds(cluster), overseer, view.nodes)
    && Counts(cluster, AllIds(cluster), view.nodes, view.notActive)
    && NoZeroEntries(view.nodes, view.notActive)
    && (view.allManagedLive <==> forall n :: n in managed ==> n in cluster.liveNodes)
    && (BarFree(cluster) ==> ShardTotals(cluster, view.totals))
  }

  // ----- replicas on one node -----

  predicate ShardHosts(shard: map<string, Replica>, node: string) {
    exists r :: r in shard && shard[r].node == node
  }

  predicate CollectionHosts(shards: Shards, node: string) {
    exists s :: s in shards && ShardHosts(shards[s], node)
  }

  predicate HostsReplicas(cluster: ClusterStatus, node: string) {
    exists c :: c in cluster.collections && CollectionHosts(cluster.collections[c], node)
  }

  /** What the aggregated state says of one pod. A pod that it does not know holds nothing. */
  predicate PodHasReplicas(cloud: Cloud, view: ReplicaView, pod: string) {
    var n := SolrNodeName(cloud, pod);
    n in view.nodes && view.nodes[n].replicas > 0
  }

  lemma HostsIsCounted(cluster: ClusterStatus, node: string)
    ensures HostsReplicas(cluster, node) <==> Count(cluster, AllIds(cluster), Hosts(node)) > 0
  {
    var found := Matching(cluster, AllIds(cluster), Hosts(node));
    if HostsReplicas(cluster, node) {
      var c :| c in cluster.collections && CollectionHosts(cluster.collections[c], node);
      var s :| s in cluster.collections[c] && ShardHosts(cluster.collections[c][s], node);
      var r :| r in cluster.collections[c][s] && cluster.collections[c][s][r].node == node;
      assert ReplicaId(c, s, r) in found;
    }
    if |found| > 0 {
      var id :| id in found;
      assert ShardHosts(cluster.collections[id.collection][id.shard], node);
    }
  }

  /** The aggregated state says that a pod holds replicas exactly if the cluster status places one on its node. */
  lemma PodHasReplicasExactly(
    cluster: ClusterStatus, overseer: string, managed: set<string>, cloud: Cloud, view: ReplicaView, pod: string)
    requires Aggregates(cluster, overseer, managed, view)
    ensures PodHasReplicas(cloud, view, pod) <==> HostsReplicas(cluster, SolrNodeName(cloud, pod))
  {
    hide SolrNodeName, HostsReplicas;
    var n := SolrNodeName(cloud, pod);
    HostsIsCounted(cluster, n);
    assert CounterOf(view.nodes, view.notActive, Hosts(n)) == Count(cluster, AllIds(cluster), Hosts(n));
  }

  // ----- aggregation -----

  function Bumped(m: map<string, int>, k: string, amount: int): map<string, int> {
    m[k := Get(m, k) + amount]
  }

  /** The contents of a node after one more of its replicas was recorded. */
  function Recorded(c: NodeContents, key: string, r: Replica): NodeContents {
    c.(leaders := c.leaders + if r.leader then 1 else 0,
    replicas := c.replicas + 1,
    total := Bumped(c.total, key, 1),
    active := if r.state == Active then Bumped(c.active, key, 1) else c.active,
    down := if IsDown(r) then Bumped(c.down, key, 1) else c.down,
    notDown := c.notDown + if IsDown(r) then 0 else 1)
  }

  /** `nodes'` and `notActive'` are the counters after replica `r` of shard `key` was recorded. */
  ghost predicate RecordsReplica(
    cluster: ClusterStatus, key: string, r: Replica,
    nodes: map<string, NodeContents>, notActive: map<string, int>,
    nodes': map<string, NodeContents>, notActive': map<string, int>)
  {
    var contents := if r.node in nodes then nodes[r.node] else EmptyContents(r.node, false);
    && nodes' == nodes[r.node := Recorded(contents, key, r)]
    && notActive' == if IsServing(cluster, r) then notActive else Bumped(notActive, key, 1)
  }

  lemma RecordingBumpsOneCounter(
    cluster: ClusterStatus, id: ReplicaId,
    nodes: map<string, NodeContents>, notActive: map<string, int>,
    nodes': map<string, NodeContents>, notActive': map<string, int>, t: Tally)
    requires Listed(cluster, id) && !t.InShard?
    requires RecordsReplica(cluster, KeyOf(id), Lookup(cluster, id), nodes, notActive, nodes', notActive')
    ensures CounterOf(nodes', notActive', t) ==
            CounterOf(nodes, notActive, t) + if Matches(cluster, id, t) then 1 else 0
  {
    match t
    case NotActive(k) =>
    case Hosted(n, k) =>
    case ActiveOn(n, k) =>
    case DownOn(n, k) =>
    case Leaders(n) =>
    case Hosts(n) =>
    case NotDown(n) =>
  }

  lemma RecordingCounts(
    cluster: ClusterStatus, ids: set<ReplicaId>, id: ReplicaId,
    nodes: map<string, NodeContents>, notActive: map<string, int>,
    nodes': map<string, NodeContents>, notActive': map<string, int>)
    requires AllListed(cluster, ids) && Listed(cluster, id) && id !in ids
    requires Counts(cluster, ids, nodes, notActive)
    requires RecordsReplica(cluster, KeyOf(id), Lookup(cluster, id), nodes, notActive, nodes', notActive')
    ensures Counts(cluster, ids + {id}, nodes', notActive')
  {
    forall t: Tally | !t.InShard?
      ensures CounterOf(nodes', notActive', t) == Count(cluster, ids + {id}, t)
    {
      CountOneMore(cluster, ids, id, t);
      RecordingBumpsOneCounter(cluster, id, nodes, notActive, nodes', notActive', t);
    }
  }

  lemma RecordingKnowsNode(
    cluster: ClusterStatus, ids: set<ReplicaId>, id: ReplicaId,
    nodes: map<string, NodeContents>, contents: NodeContents)
    requires AllListed(cluster, ids) && Listed(cluster, id)
    requires KnownNodes(cluster, ids, "", nodes)
    requires var n := Lookup(cluster, id).node;
             && contents.name == n && !contents.overseer
             && contents.live == (n in cluster.liveNodes)
    ensures KnownNodes(cluster, ids + {id}, "", nodes[Lookup(cluster, id).node := contents])
  {
    var n := Lookup(cluster, id).node;
    var nodes' := nodes[n := contents];
    assert id in ids + {id};
    forall m ensures m in nodes' <==>
        m in cluster.liveNodes || (exists i :: i in ids + {id} && Lookup(cluster, i).node == m)
    {
      if m in nodes && m !in cluster.liveNodes {
        var i :| i in ids && Lookup(cluster, i).node == m;
        assert i in ids + {id};
      }
    }
  }

  lemma RecordingKeepsEntriesPositive(
    key: string, r: Replica, contents: NodeContents, nodes: map<string, NodeContents>, notActive: map<string, int>)
    requires NoZeroEntries(nodes, notActive)
    requires contents == if r.node in nodes then nodes[r.node] else EmptyContents(r.node, false)
    ensures NoZeroEntries(nodes[r.node := Recorded(contents, key, r)], notActive)
    ensures NoZeroEntries(nodes, Bumped(notActive, key, 1))
  {
    var updated := Recorded(contents, key, r);
    assert AllPositive(contents.total) && AllPositive(contents.active) && AllPositive(contents.down);
    assert AllPositive(updated.total) && AllPositive(updated.active) && AllPositive(updated.down);
  }

  lemma MarkingKeepsCounts(
    cluster: ClusterStatus, ids: set<ReplicaId>, nodes: map<string, NodeContents>, notActive: map<string, int>,
    n: string)
    requires AllListed(cluster, ids) && Counts(cluster, ids, nodes, notActive)
    ensures var contents := if n in nodes then nodes[n] else EmptyContents(n, false);
            Counts(cluster, ids, nodes[n := contents.(overseer := true)], notActive)
  {
    var contents := if n in nodes then nodes[n] else EmptyContents(n, false);
    var nodes' := nodes[n := contents.(overseer := true)];
    forall t: Tally | !t.InShard? ensures CounterOf(nodes', notActive, t) == Count(cluster, ids, t) {
      assert CounterOf(nodes', notActive, t) == CounterOf(nodes, notActive, t);
    }
  }

  lemma CountNone(cluster: ClusterStatus, t: Tally)
    ensures Count(cluster, {}, t) == 0
  {
  }

  /** Bumps the counters of one node for one of its replicas. */
  method RecordContents(contents: NodeContents, key: string, replica: Replica) returns (updated: NodeContents)
    ensures updated == Recorded(contents, key, replica)
  {
    updated := contents;
    if replica.leader {
      updated := updated.(leaders := updated.leaders + 1);
    }
    updated := updated.(replicas := updated.replicas + 1);
    updated := updated.(total := Bumped(updated.total, key, 1));
    if replica.state == Active {
      updated := updated.(active := Bumped(updated.active, key, 1));
    }
    if IsDown(replica) {
      updated := updated.(down := Bumped(updated.down, key, 1));
    } else {
      updated := updated.(notDown := updated.notDown + 1);
    }
  }

  /** The mutable replica state handed from the aggregation to the selector. */
  class NodeReplicaState {
    var nodes: map<string, NodeContents>
    var totals: map<string, int>
    var notActive: map<string, int>
    var allManagedLive: bool

    constructor ()
      ensures nodes == map[] && totals == map[] && notActive == map[] && allManagedLive
    {
      nodes, totals, notActive, allManagedLive := map[], map[], map[], true;
    }

    function View(): ReplicaView
      reads this
    {
      ReplicaView(nodes, totals, notActive, allManagedLive)
    }

    /** Marks every live node as known. */
    method AddLiveNodes(cluster: ClusterStatus)
      requires nodes == map[] && totals == map[] && notActive == map[]
      modifies this`nodes
      ensures KnownNodes(cluster, {}, "", nodes)
      ensures Counts(cluster, {}, nodes, notActive)
      ensures NoZeroEntries(nodes, notActive)
    {
      for i := 0 to |cluster.liveNodes|
        invariant forall n :: n in nodes <==> n in cluster.liveNodes[..i]
        invariant forall n :: n in nodes ==> nodes[n] == EmptyContents(n, true)
      {
        var name := cluster.liveNodes[i];
        var contents := if name in nodes then nodes[name].(live := true) else EmptyContents(name, true);
        nodes := nodes[name := contents];
      }
      assert cluster.liveNodes[..|cluster.liveNodes|] == cluster.liveNodes;
      forall t: Tally | !t.InShard? ensures CounterOf(nodes, notActive, t) == Count(cluster, {}, t) {
        CountNone(cluster, t);
      }
    }

    /** Records one replica on its node and in its shard. */
    method AddReplica(cluster: ClusterStatus, id: ReplicaId, ghost done: set<ReplicaId>)
      requires AllListed(cluster, done) && Listed(cluster, id) && id !in done
      requires KnownNodes(cluster, done, "", nodes)
      requires Counts(cluster, done, nodes, notActive)
      requires NoZeroEntries(nodes, notActive)
      modifies this`nodes, this`notActive
      ensures KnownNodes(cluster, done + {id}, "", nodes)
      ensures Counts(cluster, done + {id}, nodes, notActive)
      ensures NoZeroEntries(nodes, notActive)
    {
      ghost var nodes0, notActive0 := nodes, notActive;
      var replica := Lookup(cluster, id);
      var key := KeyOf(id);
      var contents := if replica.node in nodes then nodes[replica.node] else EmptyContents(replica.node, false);
      assert contents.live == (replica.node in cluster.liveNodes);
      RecordingKeepsEntriesPositive(key, replica, contents, nodes, notActive);
      if !(replica.state == Active && contents.live) {
        notActive := Bumped(notActive, key, 1);
      }
      contents := RecordContents(contents, key, replica);
      nodes := nodes[replica.node := contents];
      RecordingCounts(cluster, done, id, nodes0, notActive0, nodes, notActive);
      RecordingKnowsNode(cluster, done, id, nodes0, contents);
    }

    /** Marks the node that leads the overseer. */
    method MarkOverseer(cluster: ClusterStatus, ghost ids: set<ReplicaId>, overseer: string)
      requires AllListed(cluster, ids)
      requires KnownNodes(cluster, ids, "", nodes)
      requires Counts(cluster, ids, nodes, notActive)
      requires NoZeroEntries(nodes, notActive)
      modifies this`nodes
      ensures KnownNodes(cluster, ids, overseer, nodes)
      ensures Counts(cluster, ids, nodes, notActive)
      ensures NoZeroEntries(nodes, notActive)
    {
      if overseer != "" {
        MarkingKeepsCounts(cluster, ids, nodes, notActive, overseer);
        var contents := if overseer in nodes then nodes[overseer] else EmptyContents(overseer, false);
        nodes := nodes[overseer := contents.(overseer := true)];
      }
    }
  }

  /** Shard totals restricted to the shards visited so far. */
  ghost predicate TotalsSoFar(
    cluster: ClusterStatus, totals: map<string, int>, collections: set<string>, current: string, shards: set<string>)
  {
    && (forall c, s ::
          && c in cluster.collections && s in cluster.collections[c]
          && (c in collections || (c == current && s in shards)) ==>
            && ShardKey(c, s) in totals
            && totals[ShardKey(c, s)] == |cluster.collections[c][s]|)
    && (forall k :: k in totals ==>
          exists c, s :: c in cluster.collections && s in cluster.collections[c] && k == ShardKey(c, s))
  }

  lemma TotalsExtend(
    cluster: ClusterStatus, totals: map<string, int>, collections: set<string>, c: string, shards: set<string>,
    s: string)
    requires BarFree(cluster) && TotalsSoFar(cluster, totals, collections, c, shards)
    requires c in cluster.collections && s in cluster.collections[c]
    ensures TotalsSoFar(cluster, totals[ShardKey(c, s) := |cluster.collections[c][s]|], collections, c, shards + {s})
  {
    forall d, t | d in cluster.collections && t in cluster.collections[d]
      ensures ShardKey(d, t) == ShardKey(c, s) <==> d == c && t == s
    {
      ShardKeyInjective(d, t, c, s);
    }
  }

  /**
    Aggregates a cluster status, its overseer leader and the set of managed nodes. The walk takes the
    collections, shards and replicas in any order.
   */
  method FindSolrNodeContents(cluster: ClusterStatus, overseer: string, managed: set<string>)
    returns (state: NodeReplicaState)
    ensures fresh(state)
    ensures Aggregates(cluster, overseer, managed, state.View())
  {
    state := new NodeReplicaState();
    state.AddLiveNodes(cluster);
    var unseen := managed - (set n | n in cluster.liveNodes);
    AddCollections(state, cluster);
    state.MarkOverseer(cluster, AllIds(cluster), overseer);
    state.allManagedLive := unseen == {};
    forall n | n in managed && n !in cluster.liveNodes ensures unseen != {} {
      assert n in unseen;
    }
  }

  /** Records every replica of every collection. */
  method AddCollections(state: NodeReplicaState, cluster: ClusterStatus)
    requires KnownNodes(cluster, {}, "", state.nodes)
    requires Counts(cluster, {}, state.nodes, state.notActive)
    requires NoZeroEntries(state.nodes, state.notActive)
    requires state.totals == map[]
    modifies state`nodes, state`notActive, state`totals
    ensures KnownNodes(cluster, AllIds(cluster), "", state.nodes)
    ensures Counts(cluster, AllIds(cluster), state.nodes, state.notActive)
    ensures NoZeroEntries(state.nodes, state.notActive)
    ensures BarFree(cluster) ==> ShardTotals(cluster, state.totals)
  {
    ghost var done: set<ReplicaId> := {};
    var collections := cluster.collections.Keys;
    while collections != {}
      invariant collections <= cluster.collections.Keys
      invariant forall id :: id in done <==> Listed(cluster, id) && id.collection !in collections
      invariant KnownNodes(cluster, done, "", state.nodes)
      invariant Counts(cluster, done, state.nodes, state.notActive)
      invariant NoZeroEntries(state.nodes, state.notActive)
      invariant BarFree(cluster) ==> TotalsSoFar(cluster, state.totals, cluster.collections.Keys - collections, "", {})
      decreases collections
    {
      var c :| c in collections;
      done := AddCollection(state, cluster, c, collections, done);
      collections := collections - {c};
    }
    assert done == AllIds(cluster);
  }

  /** Records every replica of one collection. */
  method AddCollection(
    state: NodeReplicaState, cluster: ClusterStatus, c: string,
    ghost collections: set<string>, ghost done0: set<ReplicaId>)
    returns (ghost done: set<ReplicaId>)
    requires c in collections && collections <= cluster.collections.Keys
    requires forall id :: id in done0 <==> Listed(cluster, id) && id.collection !in collections
    requires KnownNodes(cluster, done0, "", state.nodes)
    requires Counts(cluster, done0, state.nodes, state.notActive)
    requires NoZeroEntries(state.nodes, state.notActive)
    requires BarFree(cluster) ==> TotalsSoFar(cluster, state.totals, cluster.collections.Keys - collections, "", {})
    modifies state`nodes, state`notActive, state`totals
    ensures forall id :: id in done <==> Listed(cluster, id) && id.collection !in collections - {c}
    ensures KnownNodes(cluster, done, "", state.nodes)
    ensures Counts(cluster, done, state.nodes, state.notActive)
    ensures NoZeroEntries(state.nodes, state.notActive)
    ensures BarFree(cluster) ==> TotalsSoFar(cluster, state.totals, cluster.collections.Keys - (collections - {c}),
                                             "", {})
  {
    done := done0;
    ghost var visited := cluster.collections.Keys - collections;
    var shards := cluster.collections[c].Keys;
    while shards != {}
      invariant shards <= cluster.collections[c].Keys
      invariant forall id :: id in done <==>
                  && Listed(cluster, id)
                  && (id.collection !in collections || (id.collection == c && id.shard !in shards))
      invariant KnownNodes(cluster, done, "", state.nodes)
      invariant Counts(cluster, done, state.nodes, state.notActive)
      invariant NoZeroEntries(state.nodes, state.notActive)
      invariant BarFree(cluster) ==>
                  TotalsSoFar(cluster, state.totals, visited, c, cluster.collections[c].Keys - shards)
      decreases shards
    {
      var s :| s in shards;
      var replicas := cluster.collections[c][s];
      if BarFree(cluster) {
        TotalsExtend(cluster, state.totals, visited, c, cluster.collections[c].Keys - shards, s);
      }
      state.totals := state.totals[ShardKey(c, s) := |replicas|];
      done := AddShard(state, cluster, c, s, done);
      assert cluster.collections[c].Keys - (shards - {s}) == cluster.collections[c].Keys - shards + {s};
      shards := shards - {s};
    }
  }

  /** Records every replica of one shard. */
  method AddShard(
    state: NodeReplicaState, cluster: ClusterStatus, c: string, s: string, ghost done0: set<ReplicaId>)
    returns (ghost done: set<ReplicaId>)
    requires c in cluster.collections && s in cluster.collections[c]
    requires AllListed(cluster, done0)
    requires forall id :: id in done0 ==> !(id.collection == c && id.shard == s)
    requires KnownNodes(cluster, done0, "", state.nodes)
    requires Counts(cluster, done0, state.nodes, state.notActive)
    requires NoZeroEntries(state.nodes, state.notActive)
    modifies state`nodes, state`notActive
    ensures forall id :: id in done <==>
              id in done0 || (Listed(cluster, id) && id.collection == c && id.shard == s)
    ensures KnownNodes(cluster, done, "", state.nodes)
    ensures Counts(cluster, done, state.nodes, state.notActive)
    ensures NoZeroEntries(state.nodes, state.notActive)
  {
    done := done0;
    var names := cluster.collections[c][s].Keys;
    while names != {}
      invariant names <= cluster.collections[c][s].Keys
      invariant forall id :: id in done <==>
                  id in done0 || (Listed(cluster, id) && id.collection == c && id.shard == s && id.name !in names)
      invariant KnownNodes(cluster, done, "", state.nodes)
      invariant Counts(cluster, done, state.nodes, state.notActive)
      invariant NoZeroEntries(state.nodes, state.notActive)
      decreases names
    {
      var name :| name in names;
      state.AddReplica(cluster, ReplicaId(c, s, name), done);
      done := done + {ReplicaId(c, s, name)};
      names := names - {name};
    }
  }

  // ----- consequences -----

  lemma SameReadings(a: map<string, int>, b: map<string, int>)
    requires AllPositive(a) && AllPositive(b)
    requires forall k :: Get(a, k) == Get(b, k)
    ensures a == b
  {
    forall k ensures k in a <==> k in b {
      assert Get(a, k) == Get(b, k);
    }
    forall k | k in a ensures a[k] == b[k] {
      assert Get(a, k) == Get(b, k);
    }
  }

  lemma SameNode(
    cluster: ClusterStatus, overseer: string, managed: set<string>, v: ReplicaView, w: ReplicaView, n: string)
    requires Aggregates(cluster, overseer, managed, v) && Aggregates(cluster, overseer, managed, w)
    requires n in v.nodes && n in w.nodes
    ensures v.nodes[n] == w.nodes[n]
  {
    forall t: Tally | !t.InShard?
      ensures CounterOf(v.nodes, v.notActive, t) == CounterOf(w.nodes, w.notActive, t)
    {
      assert CounterOf(v.nodes, v.notActive, t) == Count(cluster, AllIds(cluster), t);
    }
    var a, b := v.nodes[n], w.nodes[n];
    assert CounterOf(v.nodes, v.notActive, Leaders(n)) == CounterOf(w.nodes, w.notActive, Leaders(n));
    assert CounterOf(v.nodes, v.notActive, Hosts(n)) == CounterOf(w.nodes, w.notActive, Hosts(n));
    assert CounterOf(v.nodes, v.notActive, NotDown(n)) == CounterOf(w.nodes, w.notActive, NotDown(n));
    forall k ensures Get(a.total, k) == Get(b.total, k) && Get(a.active, k) == Get(b.active, k)
                  && Get(a.down, k) == Get(b.down, k) {
      assert CounterOf(v.nodes, v.notActive, Hosted(n, k)) == CounterOf(w.nodes, w.notActive, Hosted(n, k));
      assert CounterOf(v.nodes, v.notActive, ActiveOn(n, k)) == CounterOf(w.nodes, w.notActive, ActiveOn(n, k));
      assert CounterOf(v.nodes, v.notActive, DownOn(n, k)) == CounterOf(w.nodes, w.notActive, DownOn(n, k));
    }
    SameReadings(a.total, b.total);
    SameReadings(a.active, b.active);
    SameReadings(a.down, b.down);
  }

  /**
    The aggregated state is a function of the cluster status alone: whatever order the maps are
    walked in, the result is the same, as long as collection names hold no '|'.
   */
  lemma AggregationIgnoresMapOrder(
    cluster: ClusterStatus, overseer: string, managed: set<string>, v: ReplicaView, w: ReplicaView)
    requires BarFree(cluster)
    requires Aggregates(cluster, overseer, managed, v) && Aggregates(cluster, overseer, managed, w)
    ensures v == w
  {
    SameNodes(cluster, overseer, managed, v, w);
    SameNotActive(cluster, overseer, managed, v, w);
    SameTotals(cluster, v.totals, w.totals);
  }

  lemma TotalsAgreeAt(cluster: ClusterStatus, a: map<string, int>, b: map<string, int>, k: string)
    requires ShardTotals(cluster, a) && ShardTotals(cluster, b) && k in a
    ensures k in b && a[k] == b[k]
  {
    var c, s :| c in cluster.collections && s in cluster.collections[c] && k == ShardKey(c, s);
  }

  lemma SameTotals(cluster: ClusterStatus, a: map<string, int>, b: map<string, int>)
    requires ShardTotals(cluster, a) && ShardTotals(cluster, b)
    ensures a == b
  {
    forall k | k in a ensures k in b && a[k] == b[k] {
      TotalsAgreeAt(cluster, a, b, k);
    }
    forall k | k in b ensures k in a {
      TotalsAgreeAt(cluster, b, a, k);
    }
  }

  lemma SameNodes(cluster: ClusterStatus, overseer: string, managed: set<string>, v: ReplicaView, w: ReplicaView)
    requires Aggregates(cluster, overseer, managed, v) && Aggregates(cluster, overseer, managed, w)
    ensures v.nodes == w.nodes
  {
    assert v.nodes.Keys == w.nodes.Keys;
    forall n | n in v.nodes ensures v.nodes[n] == w.nodes[n] {
      SameNode(cluster, overseer, managed, v, w, n);
    }
  }

  lemma SameNotActive(cluster: ClusterStatus, overseer: string, managed: set<string>, v: ReplicaView, w: ReplicaView)
    requires Aggregates(cluster, overseer, managed, v) && Aggregates(cluster, overseer, managed, w)
    ensures v.notActive == w.notActive
  {
    forall k ensures Get(v.notActive, k) == Get(w.notActive, k) {
      assert CounterOf(v.nodes, v.notActive, NotActive(k)) == Count(cluster, AllIds(cluster), NotActive(k));
      assert CounterOf(w.nodes, w.notActive, NotActive(k)) == Count(cluster, AllIds(cluster), NotActive(k));
    }
    SameReadings(v.notActive, w.notActive);
  }

  /** On each node the active and the down replicas of a shard are disjoint parts of those hosted. */
  lemma ActivePlusDownWithinHosted(cluster: ClusterStatus, ids: set<ReplicaId>, n: string, k: string)
    requires AllListed(cluster, ids)
    ensures Count(cluster, ids, ActiveOn(n, k)) + Count(cluster, ids, DownOn(n, k)) <= Count(cluster, ids, Hosted(n, k))
    ensures Count(cluster, ids, Hosted(n, k)) <= Count(cluster, ids, Hosts(n))
  {
    var a, d := Matching(cluster, ids, ActiveOn(n, k)), Matching(cluster, ids, DownOn(n, k));
    var h := Matching(cluster, ids, Hosted(n, k));
    forall id | id in ids
      ensures Matches(cluster, id, ActiveOn(n, k)) ==>
              Matches(cluster, id, Hosted(n, k)) && !Matches(cluster, id, DownOn(n, k))
      ensures Matches(cluster, id, DownOn(n, k)) ==> Matches(cluster, id, Hosted(n, k))
      ensures Matches(cluster, id, Hosted(n, k)) ==> Matches(cluster, id, Hosts(n))
    {
    }
    hide Matches;
    assert a !! d && a + d <= h;
    DisjointUnionSize(a + d, a, d);
    SubsetSize(a + d, h);
    SubsetSize(h, Matching(cluster, ids, Hosts(n)));
  }

  /** The replicas of a shard that would not serve while the nodes `stopped` are stopped. */
  ghost function Unserved(cluster: ClusterStatus, stopped: set<string>, k: string): set<ReplicaId> {
    set id | id in AllIds(cluster) && KeyOf(id) == k
          && (!IsServing(cluster, Lookup(cluster, id)) || Lookup(cluster, id).node in stopped)
  }

  ghost function Unavailable(cluster: ClusterStatus, stopped: set<string>, k: string): nat {
    |Unserved(cluster, stopped, k)|
  }

  /** The replicas of a shard that would still serve while the nodes `stopped` are stopped. */
  ghost function Available(cluster: ClusterStatus, stopped: set<string>, k: string): nat {
    |set id | id in AllIds(cluster) && KeyOf(id) == k
           && IsServing(cluster, Lookup(cluster, id)) && Lookup(cluster, id).node !in stopped|
  }

  lemma AvailableIsTheRest(cluster: ClusterStatus, stopped: set<string>, k: string)
    ensures Available(cluster, stopped, k) + Unavailable(cluster, stopped, k)
         == Count(cluster, AllIds(cluster), InShard(k))
  {
    var serving := set id | id in AllIds(cluster) && KeyOf(id) == k
                         && IsServing(cluster, Lookup(cluster, id)) && Lookup(cluster, id).node !in stopped;
    var all := Matching(cluster, AllIds(cluster), InShard(k));
    assert all == serving + Unserved(cluster, stopped, k);
    DisjointUnionSize(all, serving, Unserved(cluster, stopped, k));
  }

  lemma NothingStopped(cluster: ClusterStatus, k: string)
    ensures Unavailable(cluster, {}, k) == Count(cluster, AllIds(cluster), NotActive(k))
  {
    assert Unserved(cluster, {}, k) == Matching(cluster, AllIds(cluster), NotActive(k));
  }

  /** Stopping one more node takes away exactly its active replicas, and only if the node is live. */
  lemma StoppingOneMore(cluster: ClusterStatus, stopped: set<string>, n: string, k: string)
    requires n !in stopped
    ensures Unavailable(cluster, stopped + {n}, k) == Unavailable(cluster, stopped, k) +
              if n in cluster.liveNodes then Count(cluster, AllIds(cluster), ActiveOn(n, k)) else 0
  {
    var before, after := Unserved(cluster, stopped, k), Unserved(cluster, stopped + {n}, k);
    if n in cluster.liveNodes {
      var lost := Matching(cluster, AllIds(cluster), ActiveOn(n, k));
      assert after == before + lost;
      DisjointUnionSize(after, before, lost);
    } else {
      assert after == before;
    }
  }

  lemma ShardSize(cluster: ClusterStatus, c: string, s: string)
    requires BarFree(cluster) && c in cluster.collections && s in cluster.collections[c]
    ensures Count(cluster, AllIds(cluster), InShard(ShardKey(c, s))) == |cluster.collections[c][s]|
  {
    var names := cluster.collections[c][s].Keys;
    var ids := set r | r in names :: ReplicaId(c, s, r);
    forall id | Listed(cluster, id) ensures KeyOf(id) == ShardKey(c, s) <==> id in ids {
      ShardKeyInjective(id.collection, id.shard, c, s);
      if id.collection == c && id.shard == s {
        assert ReplicaId(c, s, id.name) in ids;
      }
    }
    assert Matching(cluster, AllIds(cluster), InShard(ShardKey(c, s))) == ids;
    NamesToIds(c, s, names);
  }

  lemma NamesToIds(c: string, s: string, names: set<string>)
    ensures |set r | r in names :: ReplicaId(c, s, r)| == |names|
  {
    var ids := set r | r in names :: ReplicaId(c, s, r);
    if names != {} {
      var x :| x in names;
      NamesToIds(c, s, names - {x});
      var rest := set r | r in names - {x} :: ReplicaId(c, s, r);
      assert ids == rest + {ReplicaId(c, s, x)};
    }
  }
}
