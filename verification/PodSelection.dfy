/**
  Choosing which out-of-date pods may be stopped for a rolling update.

  `PickFrom` is the greedy walk over the sorted pods. It is specified by what it does to the shards of
  the cluster status: the counters it changes in place always equal the number of replicas that would
  not serve with the chosen pods stopped, and no shard is pushed past its limit by more than one pod.
 */
module PodSelection {
  import opened Prelude
  import opened Naming
  import opened ClusterState

  // ----- limits -----

  datatype IntOrPercent = Number(n: int) | Percent(p: int) | Malformed

  /** An absolute number, or a percentage of `total` rounded down. Malformed text has no value. */
  function Scaled(v: IntOrPercent, total: int): Option<int> {
    match v
    case Number(n) => Some(n)
    case Percent(p) => Some(p * total / 100)
    case Malformed => None
  }

  predicate IsUnlimited(limit: Option<IntOrPercent>) {
    limit.Some? && limit.value.Number? && limit.value.n <= 0
  }

  function MaxPodsUnavailable(limit: Option<IntOrPercent>, desired: int): int {
    if IsUnlimited(limit) then
      desired
    else
      match Scaled(if limit.Some? then limit.value else Percent(25), desired)
      case None => 1
      case Some(v) => if v == 0 then 1 else v
  }

  function MaxShardReplicasUnavailable(limit: Option<IntOrPercent>, totals: map<string, int>, k: string): int {
    var resolved :=
      if IsUnlimited(limit) && k in totals then
        totals[k]
      else
        match Scaled(if limit.Some? then limit.value else Number(1), Get(totals, k))
        case None => 1
        case Some(v) => v;
    if resolved == 0 then 1 else resolved
  }

  /** How many running pods may be stopped on top of those that are already unavailable. */
  function MaxPodsToUpdate(
    limit: Option<IntOrPercent>, total: int, running: int, notStartedOrScheduled: int, availableUpdated: int): int
  {
    var unavailableUpdated := total - availableUpdated - running - notStartedOrScheduled;
    MaxPodsUnavailable(limit, total) - unavailableUpdated - notStartedOrScheduled
  }

  /** The limit leaves room for at least one pod exactly when it is not a negative percentage. */
  lemma LimitAllowsOnePod(limit: Option<IntOrPercent>, desired: int)
    requires desired >= 1
    ensures MaxPodsUnavailable(limit, desired) >= 1 <==>
              !(limit.Some? && limit.value.Percent? && limit.value.p < 0)
  {
    var v := if limit.Some? then limit.value else Percent(25);
    if v.Percent? {
      if v.p < 0 {
        assert v.p * desired <= -desired < 0;
        assert v.p * desired / 100 < 0;
      } else {
        assert v.p * desired >= 0;
        assert v.p * desired / 100 >= 0;
      }
    }
  }

  // ----- safety order -----

  predicate StringLess(a: string, b: string) {
    if b == "" then false
    else if a == "" then true
    else a[0] < b[0] || (a[0] == b[0] && StringLess(a[1..], b[1..]))
  }

  lemma {:induction false} StringLessTotal(a: string, b: string)
    ensures a != b ==> StringLess(a, b) || StringLess(b, a)
    ensures !(StringLess(a, b) && StringLess(b, a))
  {
    if a != "" && b != "" && a[0] == b[0] {
      StringLessTotal(a[1..], b[1..]);
      assert a == [a[0]] + a[1..] && b == [b[0]] + b[1..];
    }
  }

  lemma {:induction false} StringLessTransitive(a: string, b: string, c: string)
    requires StringLess(a, b) && StringLess(b, c)
    ensures StringLess(a, c)
  {
    if a != "" && a[0] == b[0] == c[0] {
      StringLessTransitive(a[1..], b[1..], c[1..]);
    }
  }

  /** The comparison handed to the sort: `a` is safer to stop than `b`. */
  predicate Safer(cloud: Cloud, nodes: map<string, NodeContents>, a: string, b: string) {
    var na, nb := SolrNodeName(cloud, a), SolrNodeName(cloud, b);
    if na !in nodes then true
    else if nodes[na].overseer then false
    else if nb !in nodes then false
    else if nodes[nb].overseer then true
    else
      var x, y := nodes[na], nodes[nb];
      if x.live != y.live then !x.live
      else if x.leaders != y.leaders then x.leaders < y.leaders
      else if x.notDown != y.notDown then x.notDown < y.notDown
      else if x.replicas != y.replicas then x.replicas < y.replicas
      else StringLess(y.name, x.name)
  }

  type Comparison = (string, string) -> bool

  function SaferIn(cloud: Cloud, nodes: map<string, NodeContents>): Comparison {
    (a, b) => Safer(cloud, nodes, a, b)
  }

  /** Insertion into a sorted prefix, from its end, as the stable library sort does. */
  function Insert(less: Comparison, s: seq<string>, x: string): (r: seq<string>)
    ensures |r| == |s| + 1
  {
    if s == [] || !less(x, s[|s| - 1]) then
      s + [x]
    else
      Insert(less, s[..|s| - 1], x) + [s[|s| - 1]]
  }

  function Sort(less: Comparison, s: seq<string>): (r: seq<string>)
    ensures |r| == |s|
  {
    if s == [] then [] else Insert(less, Sort(less, s[..|s| - 1]), s[|s| - 1])
  }

  lemma InsertPasses(less: Comparison, before: seq<string>, moved: string, x: string)
    requires less(x, moved)
    ensures Insert(less, before + [moved], x) == Insert(less, before, x) + [moved]
  {
    assert (before + [moved])[..|before|] == before;
  }

  lemma InsertStops(less: Comparison, before: seq<string>, x: string)
    requires before == [] || !less(x, before[|before| - 1])
    ensures Insert(less, before, x) == before + [x]
  {
  }

  /** Moves the element at `i` down into the sorted prefix before it. */
  method InsertInPlace(less: Comparison, a: array<string>, i: nat)
    requires i < a.Length
    modifies a
    ensures a[..i + 1] == Insert(less, old(a[..i]), old(a[i]))
    ensures a[i + 1..] == old(a[i + 1..])
  {
    hide Insert;
    ghost var x, prefix, rest := a[i], a[..i], a[i + 1..];
    var j := i;
    while j > 0 && less(a[j], a[j - 1])
      invariant 0 <= j <= i
      invariant a[j] == x
      invariant Insert(less, prefix, x) == Insert(less, a[..j], x) + a[j + 1..i + 1]
      invariant a[i + 1..] == rest
    {
      ghost var moved, tail, before := a[j - 1], a[j + 1..i + 1], a[..j - 1];
      assert a[..j] == before + [moved];
      InsertPasses(less, before, moved, x);
      a[j], a[j - 1] := a[j - 1], a[j];
      assert a[..j - 1] == before;
      assert a[j..i + 1] == [moved] + tail;
      j := j - 1;
    }
    InsertStops(less, a[..j], x);
    assert a[..i + 1] == a[..j] + [x] + a[j + 1..i + 1];
  }

  /** Sorts in place. */
  method SortInPlace(less: Comparison, a: array<string>)
    modifies a
    ensures a[..] == Sort(less, old(a[..]))
  {
    ghost var a0 := a[..];
    for i := 0 to a.Length
      invariant a[..i] == Sort(less, a0[..i])
      invariant a[i..] == a0[i..]
    {
      assert a0[..i + 1][..i] == a0[..i];
      assert a[i] == a[i..][0] == a0[i];
      assert a[i + 1..] == a[i..][1..];
      InsertInPlace(less, a, i);
    }
    assert a0[..a.Length] == a0 && a[..a.Length] == a[..];
  }

  function SortBySafety(cloud: Cloud, nodes: map<string, NodeContents>, s: seq<string>): seq<string> {
    Sort(SaferIn(cloud, nodes), s)
  }

  // ----- selection -----

  /** Everything the walk reads and does not change. */
  datatype Site = Site(
    cloud: Cloud,
    nodes: map<string, NodeContents>,
    totals: map<string, int>,
    allManagedLive: bool,
    shardLimit: Option<IntOrPercent>,
    running: nat)

  function NodeOf(site: Site, pod: string): string {
    SolrNodeName(site.cloud, pod)
  }

  function ShardLimit(site: Site, k: string): int {
    MaxShardReplicasUnavailable(site.shardLimit, site.totals, k)
  }

  /** Stopping the node would push shard `k`, some of whose replicas are already out, past its limit. */
  predicate Overloads(site: Site, c: NodeContents, counts: map<string, int>, k: string)
    requires k in c.total
  {
    && c.total[k] != Get(c.down, k)
    && Get(counts, k) > 0
    && Get(counts, k) + Get(c.active, k) > ShardLimit(site, k)
  }

  predicate OverseerMayStop(site: Site) {
    site.running == 1 && site.allManagedLive
  }

  predicate SafeToStop(site: Site, pod: string, counts: map<string, int>) {
    var n := NodeOf(site, pod);
    n in site.nodes && InClusterState(site.nodes[n]) ==>
      && (site.nodes[n].overseer ==> OverseerMayStop(site))
      && (site.nodes[n].live ==> forall k :: k in site.nodes[n].total ==> !Overloads(site, site.nodes[n], counts, k))
  }

  function Sum(a: map<string, int>, b: map<string, int>): (r: map<string, int>)
    ensures forall k :: Get(r, k) == Get(a, k) + Get(b, k)
  {
    map k | k in a.Keys + b.Keys :: Get(a, k) + Get(b, k)
  }

  /** The counters once `pod` counts as stopped. */
  function Stopped(site: Site, pod: string, counts: map<string, int>): map<string, int> {
    var n := NodeOf(site, pod);
    if n in site.nodes && site.nodes[n].live then Sum(counts, site.nodes[n].active) else counts
  }

  function AllStopped(site: Site, pods: seq<string>, counts: map<string, int>): map<string, int> {
    if pods == [] then counts
    else Stopped(site, pods[|pods| - 1], AllStopped(site, pods[..|pods| - 1], counts))
  }

  datatype Picked = Picked(pods: seq<string>, counts: map<string, int>)

  predicate ReachedMaximum(max: int, pods: seq<string>) {
    max >= 1 && |pods| >= max
  }

  function PickFrom(site: Site, max: int, order: seq<string>, acc: Picked): Picked
    decreases |order|
  {
    if order == [] then
      acc
    else if SafeToStop(site, order[0], acc.counts) then
      var next := Picked(acc.pods + [order[0]], Stopped(site, order[0], acc.counts));
      if ReachedMaximum(max, next.pods) then next else PickFrom(site, max, order[1..], next)
    else
      PickFrom(site, max, order[1..], acc)
  }

  function Pick(site: Site, max: int, scheduled: seq<string>, order: seq<string>, counts: map<string, int>): Picked {
    PickFrom(site, max, order, Picked([], AllStopped(site, scheduled, counts)))
  }

  /** Adds the replica counts of a node to the shard counters, key by key in any order. */
  method AddReplicaCounts(counts: map<string, int>, extra: map<string, int>) returns (r: map<string, int>)
    ensures r == Sum(counts, extra)
  {
    r := counts;
    var keys := extra.Keys;
    while keys != {}
      invariant keys <= extra.Keys
      invariant r.Keys == counts.Keys + (extra.Keys - keys)
      invariant forall k :: k in r ==> r[k] == Get(counts, k) + if k in keys then 0 else Get(extra, k)
      decreases keys
    {
      var k :| k in keys;
      r := Bumped(r, k, extra[k]);
      keys := keys - {k};
    }
  }

  /** Whether some shard on the node forbids stopping it, checking the shards in any order. */
  method FindsOverload(site: Site, c: NodeContents, counts: map<string, int>) returns (found: bool)
    ensures found <==> exists k :: k in c.total && Overloads(site, c, counts, k)
  {
    found := false;
    var keys := c.total.Keys;
    while keys != {}
      invariant keys <= c.total.Keys
      invariant forall k :: k in c.total && k !in keys ==> !Overloads(site, c, counts, k)
      decreases keys
    {
      var k :| k in keys;
      keys := keys - {k};
      if c.total[k] != Get(c.down, k) {
        var notActive := Get(counts, k);
        var maxDown := MaxShardReplicasUnavailable(site.shardLimit, site.totals, k);
        if notActive > 0 && notActive + Get(c.active, k) > maxDown {
          assert Overloads(site, c, counts, k);
          return true;
        }
      }
    }
  }

  method IsSafeToStop(site: Site, pod: string, counts: map<string, int>) returns (safe: bool)
    ensures safe == SafeToStop(site, pod, counts)
  {
    safe := true;
    var n := NodeOf(site, pod);
    if n in site.nodes && InClusterState(site.nodes[n]) {
      var contents := site.nodes[n];
      if contents.overseer {
        safe := site.running == 1 && site.allManagedLive;
      }
      if safe && contents.live {
        var overloads := FindsOverload(site, contents, counts);
        safe := !overloads;
      }
    }
  }

  /** Counts `pod` as stopped in the shard counters of `state`. */
  method CountStopped(site: Site, pod: string, state: NodeReplicaState)
    modifies state`notActive
    ensures state.notActive == Stopped(site, pod, old(state.notActive))
  {
    var n := NodeOf(site, pod);
    if n in site.nodes && site.nodes[n].live {
      state.notActive := AddReplicaCounts(state.notActive, site.nodes[n].active);
    }
  }

  function SiteOf(cloud: Cloud, view: ReplicaView, shardLimit: Option<IntOrPercent>, running: nat): Site {
    Site(cloud, view.nodes, view.totals, view.allManagedLive, shardLimit, running)
  }

  method CountScheduled(site: Site, scheduled: seq<string>, state: NodeReplicaState)
    modifies state`notActive
    ensures state.notActive == AllStopped(site, scheduled, old(state.notActive))
  {
    for i := 0 to |scheduled|
      invariant state.notActive == AllStopped(site, scheduled[..i], old(state.notActive))
    {
      CountStopped(site, scheduled[i], state);
      assert scheduled[..i + 1][..i] == scheduled[..i];
    }
    assert scheduled[..|scheduled|] == scheduled;
  }

  method PickGreedily(site: Site, order: seq<string>, state: NodeReplicaState, max: int) returns (picked: seq<string>)
    modifies state`notActive
    ensures Picked(picked, state.notActive) == PickFrom(site, max, order, Picked([], old(state.notActive)))
  {
    picked := [];
    for i := 0 to |order|
      invariant PickFrom(site, max, order[i..], Picked(picked, state.notActive)) ==
                PickFrom(site, max, order, Picked([], old(state.notActive)))
    {
      assert order[i..][0] == order[i] && order[i..][1..] == order[i + 1..];
      var safe := IsSafeToStop(site, order[i], state.notActive);
      if safe {
        CountStopped(site, order[i], state);
        picked := picked + [order[i]];
        if max >= 1 && |picked| >= max {
          return;
        }
      }
    }
  }

  /** Sorts the running pods in place and picks greedily, updating the shard counters in place. */
  method PickPodsToUpdate(
    cloud: Cloud, shardLimit: Option<IntOrPercent>, scheduled: seq<string>, running: array<string>,
    state: NodeReplicaState, max: int) returns (picked: seq<string>)
    modifies running, state`notActive
    ensures running[..] == SortBySafety(cloud, state.nodes, old(running[..]))
    ensures Picked(picked, state.notActive) ==
            Pick(SiteOf(cloud, old(state.View()), shardLimit, running.Length), max, scheduled,
                 SortBySafety(cloud, state.nodes, old(running[..])), old(state.notActive))
  {
    SortInPlace(SaferIn(cloud, state.nodes), running);
    var site := SiteOf(cloud, state.View(), shardLimit, running.Length);
    CountScheduled(site, scheduled, state);
    picked := PickGreedily(site, running[..], state, max);
  }
}
