/**
  When the selection depends only on the state of the cluster and not on the order in which the pods
  were listed. The source requires this always; it holds exactly when at most one running pod is
  missing from the cluster state, because the comparison puts every missing pod before every other.
 */
module SelectionOrder {
  import opened Prelude
  import opened Naming
  import opened ClusterState
  import opened PodSelection
  import opened SelectionSafety
  import opened SelectionProgress

  // ----- sorting -----

  ghost predicate StrictlySorted(less: Comparison, s: seq<string>) {
    forall i, j :: 0 <= i < j < |s| ==> less(s[i], s[j])
  }

  /** On the elements of `s` the comparison is a strict total order. */
  ghost predicate TotalOn(less: Comparison, s: multiset<string>) {
    && (forall a, b :: a in s && b in s && a != b ==> less(a, b) != less(b, a))
    && (forall a, b, c ::
          a in s && b in s && c in s && a != b && b != c && a != c && less(a, b) && less(b, c) ==> less(a, c))
  }

  /** On the elements of `s` any two are ordered one way at least, and the comparison is transitive. */
  ghost predicate OrdersAll(less: Comparison, s: multiset<string>) {
    && (forall a, b :: a in s && b in s && a != b ==> less(a, b) || less(b, a))
    && (forall a, b, c ::
          a in s && b in s && c in s && a != b && b != c && a != c && less(a, b) && less(b, c) ==> less(a, c))
  }

  lemma {:induction false} InsertPermutes(less: Comparison, s: seq<string>, x: string)
    ensures multiset(Insert(less, s, x)) == multiset(s) + multiset{x}
  {
    if s != [] && less(x, s[|s| - 1]) {
      InsertPermutes(less, s[..|s| - 1], x);
      assert s == s[..|s| - 1] + [s[|s| - 1]];
    }
  }

  lemma {:induction false} SortPermutes(less: Comparison, s: seq<string>)
    ensures multiset(Sort(less, s)) == multiset(s)
  {
    if s != [] {
      var rest, x := s[..|s| - 1], s[|s| - 1];
      SortPermutes(less, rest);
      InsertPermutes(less, Sort(less, rest), x);
      assert s == rest + [x];
    }
  }

  lemma {:induction false} InsertSorts(less: Comparison, s: seq<string>, x: string, all: multiset<string>)
    requires OrdersAll(less, all) && x in all && x !in s
    requires forall y :: y in s ==> y in all
    requires StrictlySorted(less, s)
    ensures StrictlySorted(less, Insert(less, s, x))
  {
    var r := Insert(less, s, x);
    if s == [] || !less(x, s[|s| - 1]) {
      forall i | 0 <= i < |s| ensures less(s[i], x) {
        var last := s[|s| - 1];
        assert last in s && s[i] in s;
        assert less(last, x);
      }
    } else {
      var rest, last := s[..|s| - 1], s[|s| - 1];
      InsertSorts(less, rest, x, all);
      InsertPermutes(less, rest, x);
      var p := Insert(less, rest, x);
      forall i | 0 <= i < |p| ensures less(p[i], last) {
        assert p[i] in multiset(p);
        assert p[i] == x || p[i] in rest;
      }
      assert r == p + [last];
    }
  }

  lemma {:induction false} SortSorts(less: Comparison, s: seq<string>, all: multiset<string>)
    requires OrdersAll(less, all) && Distinct(s)
    requires forall y :: y in s ==> y in all
    ensures StrictlySorted(less, Sort(less, s))
  {
    if s != [] {
      var rest, x := s[..|s| - 1], s[|s| - 1];
      assert forall y :: y in rest ==> y in s;
      SortSorts(less, rest, all);
      SortPermutes(less, rest);
      assert forall y :: y in Sort(less, rest) ==> y in multiset(rest);
      assert x in s;
      InsertSorts(less, Sort(less, rest), x, all);
    }
  }

  lemma SameFirst(less: Comparison, s: seq<string>, t: seq<string>)
    requires multiset(s) == multiset(t) && TotalOn(less, multiset(s)) && s != [] && t != []
    requires StrictlySorted(less, s) && StrictlySorted(less, t)
    ensures s[0] == t[0]
  {
    assert s[0] in multiset(t) && t[0] in multiset(s);
    var j :| 0 <= j < |t| && t[j] == s[0];
    var i :| 0 <= i < |s| && s[i] == t[0];
    assert i == 0 || less(s[0], s[i]);
    assert j == 0 || less(t[0], t[j]);
  }

  lemma TailSorted(less: Comparison, s: seq<string>)
    requires s != [] && StrictlySorted(less, s)
    ensures StrictlySorted(less, s[1..])
  {
  }

  lemma TailMultiset(s: seq<string>)
    requires s != []
    ensures multiset(s[1..]) == multiset(s) - multiset{s[0]}
  {
    assert s == [s[0]] + s[1..];
  }

  lemma TotalOnPart(less: Comparison, all: multiset<string>, part: multiset<string>)
    requires TotalOn(less, all) && part <= all
    ensures TotalOn(less, part)
  {
    assert forall a :: a in part ==> a in all;
  }

  lemma TailsMatch(less: Comparison, s: seq<string>, t: seq<string>)
    requires multiset(s) == multiset(t) && TotalOn(less, multiset(s)) && s != [] && t != []
    requires StrictlySorted(less, s) && StrictlySorted(less, t)
    ensures s[0] == t[0] && multiset(s[1..]) == multiset(t[1..]) && TotalOn(less, multiset(s[1..]))
    ensures StrictlySorted(less, s[1..]) && StrictlySorted(less, t[1..])
  {
    SameFirst(less, s, t);
    hide TotalOn, StrictlySorted;
    TailSorted(less, s);
    TailSorted(less, t);
    TailMultiset(s);
    TailMultiset(t);
    TotalOnPart(less, multiset(s), multiset(s[1..]));
  }

  lemma SameLength(s: seq<string>, t: seq<string>)
    requires multiset(s) == multiset(t)
    ensures |s| == |t|
  {
    assert |s| == |multiset(s)| == |multiset(t)| == |t|;
  }

  /** There is only one sorted arrangement. */
  lemma {:induction false} SortedUnique(less: Comparison, s: seq<string>, t: seq<string>)
    requires multiset(s) == multiset(t) && TotalOn(less, multiset(s))
    requires StrictlySorted(less, s) && StrictlySorted(less, t)
    ensures s == t
  {
    hide TotalOn, StrictlySorted;
    SameLength(s, t);
    if s != [] {
      TailsMatch(less, s, t);
      SortedUnique(less, s[1..], t[1..]);
      assert s == [s[0]] + s[1..] && t == [t[0]] + t[1..];
    }
  }

  lemma DistinctCounts(s: seq<string>)
    requires Distinct(s)
    ensures forall x :: multiset(s)[x] <= 1
  {
    if s != [] {
      var rest, x := s[..|s| - 1], s[|s| - 1];
      DistinctCounts(rest);
      assert s == rest + [x];
      assert x !in rest;
    }
  }

  lemma PermutationDistinct(s: seq<string>, t: seq<string>)
    requires Distinct(s) && multiset(s) == multiset(t)
    ensures Distinct(t)
  {
    DistinctCounts(s);
    forall i, j | 0 <= i < j < |t| ensures t[i] != t[j] {
      assert t == t[..i] + [t[i]] + t[i + 1..];
      assert t[j] == t[i + 1..][j - i - 1];
      assert multiset(t)[t[j]] <= 1;
    }
  }

  // ----- the safety comparison -----

  predicate Missing(site: Site, pod: string) {
    NodeOf(site, pod) !in site.nodes
  }

  ghost predicate AtMostOneMissing(site: Site, pods: seq<string>) {
    forall i, j :: 0 <= i < j < |pods| ==> !(Missing(site, pods[i]) && Missing(site, pods[j]))
  }

  /** What the comparison needs of the nodes: true names, and one overseer at most. */
  ghost predicate Comparable(site: Site, overseer: string) {
    && !AdvertisesBlankHost(site.cloud)
    && forall n :: n in site.nodes ==>
         site.nodes[n].name == n && (site.nodes[n].overseer ==> n == overseer)
  }

  lemma SaferAsymmetric(site: Site, overseer: string, a: string, b: string)
    requires Comparable(site, overseer) && a != b
    requires !(Missing(site, a) && Missing(site, b))
    ensures SaferIn(site.cloud, site.nodes)(a, b) != SaferIn(site.cloud, site.nodes)(b, a)
  {
    SolrNodeNameInjective(site.cloud, a, b);
    StringLessTotal(NodeOf(site, a), NodeOf(site, b));
  }

  lemma SaferTransitive(site: Site, overseer: string, a: string, b: string, c: string)
    requires Comparable(site, overseer) && a != b && b != c && a != c
    requires !(Missing(site, a) && Missing(site, b)) && !(Missing(site, b) && Missing(site, c))
    requires !(Missing(site, a) && Missing(site, c))
    requires SaferIn(site.cloud, site.nodes)(a, b) && SaferIn(site.cloud, site.nodes)(b, c)
    ensures SaferIn(site.cloud, site.nodes)(a, c)
  {
    SolrNodeNameInjective(site.cloud, a, b);
    SolrNodeNameInjective(site.cloud, b, c);
    var x, y, z := NodeOf(site, a), NodeOf(site, b), NodeOf(site, c);
    if StringLess(z, y) && StringLess(y, x) {
      StringLessTransitive(z, y, x);
    }
  }

  lemma SaferIsTotal(site: Site, overseer: string, pods: seq<string>)
    requires Comparable(site, overseer) && Distinct(pods) && AtMostOneMissing(site, pods)
    ensures TotalOn(SaferIn(site.cloud, site.nodes), multiset(pods))
  {
    var all, less := multiset(pods), SaferIn(site.cloud, site.nodes);
    forall a, b | a in all && b in all && a != b
      ensures !(Missing(site, a) && Missing(site, b)) && less(a, b) != less(b, a)
    {
      var i :| 0 <= i < |pods| && pods[i] == a;
      var j :| 0 <= j < |pods| && pods[j] == b;
      SaferAsymmetric(site, overseer, a, b);
    }
    forall a, b, c | a in all && b in all && c in all && a != b && b != c && a != c && less(a, b) && less(b, c)
      ensures less(a, c)
    {
      SaferTransitive(site, overseer, a, b, c);
    }
  }

  /** However many pods are missing, the comparison orders any two pods and is transitive. */
  lemma SaferOrdersAll(site: Site, overseer: string, pods: seq<string>)
    requires Comparable(site, overseer)
    ensures OrdersAll(SaferIn(site.cloud, site.nodes), multiset(pods))
  {
    hide SolrNodeName, Comparable;
    var all, less := multiset(pods), SaferIn(site.cloud, site.nodes);
    forall a, b | a in all && b in all && a != b ensures less(a, b) || less(b, a) {
      if !Missing(site, a) && !Missing(site, b) {
        SaferAsymmetric(site, overseer, a, b);
      }
    }
    forall a, b, c | a in all && b in all && c in all && a != b && b != c && a != c && less(a, b) && less(b, c)
      ensures less(a, c)
    {
      if !Missing(site, a) {
        SaferTransitive(site, overseer, a, b, c);
      }
    }
  }

  // ----- order independence -----

  ghost predicate Permutes(s: seq<string>, t: seq<string>) {
    multiset(s) == multiset(t)
  }

  /** The selection, as a list, for the running pods listed in the order `listed`. */
  function Selection(
    site: Site, max: int, scheduled: seq<string>, counts: map<string, int>, listed: seq<string>): seq<string>
  {
    Pick(site, max, scheduled, SortBySafety(site.cloud, site.nodes, listed), counts).pods
  }

  ghost predicate IgnoresListOrder(
    site: Site, max: int, scheduled: seq<string>, counts: map<string, int>, pods: seq<string>)
  {
    forall s, t :: Permutes(s, pods) && Permutes(t, pods) ==>
      Selection(site, max, scheduled, counts, s) == Selection(site, max, scheduled, counts, t)
  }

  /** With at most one missing pod every listing sorts to the same order. */
  lemma CanonicalOrder(site: Site, overseer: string, s: seq<string>, t: seq<string>)
    requires Comparable(site, overseer) && Distinct(s) && AtMostOneMissing(site, s) && Permutes(t, s)
    ensures SortBySafety(site.cloud, site.nodes, s) == SortBySafety(site.cloud, site.nodes, t)
  {
    var less := SaferIn(site.cloud, site.nodes);
    SaferIsTotal(site, overseer, s);
    PermutationDistinct(s, t);
    assert forall y :: y in t ==> y in multiset(t);
    SortPermutes(less, s);
    SortPermutes(less, t);
    SortSorts(less, s, multiset(s));
    SortSorts(less, t, multiset(s));
    SortedUnique(less, Sort(less, s), Sort(less, t));
  }

  lemma {:induction false} InsertsInFront(less: Comparison, s: seq<string>, x: string)
    requires forall y :: less(x, y)
    ensures Insert(less, s, x) == [x] + s
  {
    if s != [] {
      InsertsInFront(less, s[..|s| - 1], x);
      assert s == s[..|s| - 1] + [s[|s| - 1]];
    }
  }

  /** A missing pod is inserted in front of everything. */
  lemma MissingGoesFirst(site: Site, s: seq<string>, x: string)
    requires Missing(site, x)
    ensures Insert(SaferIn(site.cloud, site.nodes), s, x) == [x] + s
  {
    hide Insert, SolrNodeName;
    assert forall y :: SaferIn(site.cloud, site.nodes)(x, y);
    InsertsInFront(SaferIn(site.cloud, site.nodes), s, x);
  }

  lemma LastMissingIsPickedFirst(
    site: Site, max: int, scheduled: seq<string>, counts: map<string, int>, s: seq<string>, x: string)
    requires Missing(site, x)
    ensures var r := Selection(site, max, scheduled, counts, s + [x]);
            r != [] && r[0] == x
  {
    var less := SaferIn(site.cloud, site.nodes);
    assert (s + [x])[..|s|] == s;
    MissingGoesFirst(site, Sort(less, s), x);
    var order := [x] + Sort(less, s);
    assert Sort(less, s + [x]) == order;
    var acc := Picked([], AllStopped(site, scheduled, counts));
    assert SafeToStop(site, x, acc.counts);
    var next := Picked([x], Stopped(site, x, acc.counts));
    assert acc.pods + [order[0]] == next.pods;
    PickFromExtends(site, max, order[1..], next);
  }

  lemma MoveToEnd(pods: seq<string>, i: nat, j: nat) returns (rest: seq<string>)
    requires i < j < |pods|
    ensures Permutes(rest + [pods[i]] + [pods[j]], pods) && Permutes(rest + [pods[j]] + [pods[i]], pods)
  {
    rest := pods[..i] + pods[i + 1..j] + pods[j + 1..];
    assert pods == pods[..i] + [pods[i]] + pods[i + 1..j] + [pods[j]] + pods[j + 1..];
  }

  /**
    The selected list is the same for every order in which the running pods are listed exactly when
    at most one of them is missing from the cluster state.
   */
  lemma SelectionIgnoresListOrder(
    scene: Scene, site: Site, counts: map<string, int>, max: int, scheduled: seq<string>, pods: seq<string>)
    requires Faithful(scene, site, counts) && Distinct(pods) && !AdvertisesBlankHost(site.cloud)
    ensures IgnoresListOrder(site, max, scheduled, counts, pods) <==> AtMostOneMissing(site, pods)
  {
    assert Comparable(site, scene.overseer);
    if AtMostOneMissing(site, pods) {
      forall s, t | Permutes(s, pods) && Permutes(t, pods)
        ensures Selection(site, max, scheduled, counts, s) == Selection(site, max, scheduled, counts, t)
      {
        CanonicalOrder(site, scene.overseer, pods, s);
        CanonicalOrder(site, scene.overseer, pods, t);
      }
    } else {
      var i, j :| 0 <= i < j < |pods| && Missing(site, pods[i]) && Missing(site, pods[j]);
      TwoMissingDisagree(site, max, scheduled, counts, pods, i, j);
    }
  }

  lemma TwoMissingSwapped(
    site: Site, max: int, scheduled: seq<string>, counts: map<string, int>, rest: seq<string>, a: string, b: string)
    requires a != b && Missing(site, a) && Missing(site, b)
    ensures Selection(site, max, scheduled, counts, rest + [a] + [b]) !=
            Selection(site, max, scheduled, counts, rest + [b] + [a])
  {
    LastMissingIsPickedFirst(site, max, scheduled, counts, rest + [a], b);
    LastMissingIsPickedFirst(site, max, scheduled, counts, rest + [b], a);
  }

  lemma TwoMissingDisagree(
    site: Site, max: int, scheduled: seq<string>, counts: map<string, int>, pods: seq<string>, i: nat, j: nat)
    requires Distinct(pods) && i < j < |pods| && Missing(site, pods[i]) && Missing(site, pods[j])
    ensures !IgnoresListOrder(site, max, scheduled, counts, pods)
  {
    hide SolrNodeName, Selection;
    var rest := MoveToEnd(pods, i, j);
    TwoMissingSwapped(site, max, scheduled, counts, rest, pods[i], pods[j]);
  }

  // ----- the first pod of a healthy cluster -----

  predicate IsOverseer(site: Site, pod: string) {
    NodeOf(site, pod) in site.nodes && site.nodes[NodeOf(site, pod)].overseer
  }

  lemma {:induction false} InsertKeepsLast(less: Comparison, s: seq<string>, x: string)
    requires s != [] && less(x, s[|s| - 1])
    ensures Insert(less, s, x)[|s|] == s[|s| - 1]
  {
  }

  /** The pod of the overseer sorts last, wherever it was listed and whatever else is missing. */
  lemma {:induction false} OverseerSortsLast(site: Site, listed: seq<string>, a: string)
    requires a in listed && IsOverseer(site, a)
    requires forall i :: 0 <= i < |listed| && listed[i] != a ==> !IsOverseer(site, listed[i])
    ensures SortBySafety(site.cloud, site.nodes, listed)[|listed| - 1] == a
  {
    hide SolrNodeName, Insert, StringLess;
    var less := SaferIn(site.cloud, site.nodes);
    var rest, x := listed[..|listed| - 1], listed[|listed| - 1];
    var sorted := Sort(less, rest);
    if x == a {
      InsertStops(less, sorted, a);
    } else {
      assert a in rest by { assert listed == rest + [x]; }
      OverseerSortsLast(site, rest, a);
      InsertKeepsLast(less, sorted, x);
    }
  }

  /** In a healthy cluster the first pod of the safety order may always go. */
  lemma HealthyFirstMayGo(scene: Scene, site: Site, counts: map<string, int>, listed: seq<string>)
    requires Faithful(scene, site, counts) && AllServing(scene.cluster)
    requires listed != [] && Distinct(listed) && !AdvertisesBlankHost(site.cloud) && site.running == |listed|
    requires forall n :: n in scene.managed ==> n in scene.cluster.liveNodes
    ensures var first := SortBySafety(site.cloud, site.nodes, listed)[0]; SafeToStop(site, first, counts)
  {
    var order := SortBySafety(site.cloud, site.nodes, listed);
    var first := order[0];
    NothingNotActive(scene, site, counts);
    SortPermutes(SaferIn(site.cloud, site.nodes), listed);
    PermutationDistinct(listed, order);
    DistinctPodsDistinctNodes(site, order);
    assert first in multiset(order);
    hide SolrNodeName, Sort, Safer;
    if IsOverseer(site, first) && |order| > 1 {
      forall i | 0 <= i < |listed| && listed[i] != first ensures !IsOverseer(site, listed[i]) {
        assert listed[i] in multiset(listed);
        assert listed[i] in order;
        assert NodeOf(site, listed[i]) != NodeOf(site, first);
      }
      OverseerSortsLast(site, listed, first);
      assert false;
    }
  }

  /** So it is always selected, and with room for one pod it is the selection. */
  lemma HealthyFirstIsPicked(scene: Scene, site: Site, counts: map<string, int>, max: int, listed: seq<string>)
    requires Faithful(scene, site, counts) && AllServing(scene.cluster)
    requires listed != [] && Distinct(listed) && !AdvertisesBlankHost(site.cloud) && site.running == |listed|
    requires forall n :: n in scene.managed ==> n in scene.cluster.liveNodes
    ensures var order := SortBySafety(site.cloud, site.nodes, listed);
            var picked := Pick(site, max, [], order, counts).pods;
            order[0] in picked && (max == 1 ==> picked == [order[0]])
  {
    HealthyFirstMayGo(scene, site, counts, listed);
    hide Sort, SafeToStop, Stopped, SolrNodeName, Faithful, AllServing;
    var order := SortBySafety(site.cloud, site.nodes, listed);
    var next := Picked([order[0]], Stopped(site, order[0], counts));
    assert [] + [order[0]] == next.pods;
    PickFromExtends(site, max, order[1..], next);
    assert AllStopped(site, [], counts) == counts;
    var picked := Pick(site, max, [], order, counts).pods;
    assert next.pods <= picked;
    assert picked[0] == order[0];
  }
}
