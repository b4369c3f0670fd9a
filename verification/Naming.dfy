/**
  Names that carry a StatefulSet ordinal: Solr pods, the Solr node each pod advertises, and the data
  claims of the pods. The operator prints ordinals into names and parses them back, so the proofs
  here are round trips and injectivity.
 */
module Naming {
  import opened Prelude

  // ----- decimal numbers -----

  function Digit(d: nat): char
    requires d < 10
  {
    (48 + d) as char
  }

  predicate IsDigit(c: char) {
    '0' <= c <= '9'
  }

  predicate AllDigits(s: string) {
    forall i :: 0 <= i < |s| ==> IsDigit(s[i])
  }

  /** strconv.Itoa and the %d verb, for the non-negative numbers the operator prints. */
  function Itoa(n: nat): string {
    if n < 10 then [Digit(n)] else Itoa(n / 10) + [Digit(n % 10)]
  }

  function DecimalValue(s: string): nat
    requires AllDigits(s)
  {
    if s == "" then 0 else DecimalValue(s[..|s| - 1]) * 10 + (s[|s| - 1] as int - 48)
  }

  const INT64_LIMIT := 0x8000_0000_0000_0000
  const INT32_LIMIT := 0x8000_0000

  /** strconv.Atoi: an optional sign, at least one digit, and a value that fits in 64 bits. */
  function Atoi(s: string): Option<int> {
    var signed := s != "" && (s[0] == '-' || s[0] == '+');
    var body := if signed then s[1..] else s;
    if body == "" || !AllDigits(body) then
      None
    else
      var v: int := if signed && s[0] == '-' then 0 - DecimalValue(body) else DecimalValue(body);
      if -INT64_LIMIT <= v < INT64_LIMIT then Some(v) else None
  }

  /** The Go conversion int32(x). */
  function Int32(x: int): int {
    (x + INT32_LIMIT) % (2 * INT32_LIMIT) - INT32_LIMIT
  }

  /** The conversion keeps what fits in 32 bits, never raises a number, and turns 2^31 negative. */
  lemma Int32Range(x: nat)
    ensures Int32(x) <= x
    ensures x < INT32_LIMIT ==> Int32(x) == x
    ensures x == INT32_LIMIT ==> Int32(x) < 0
  {
    var m := 2 * INT32_LIMIT;
    if x + INT32_LIMIT >= m {
      assert (x + INT32_LIMIT) % m <= x + INT32_LIMIT;
    }
  }

  /** A printed number is a non-empty run of digits whose value is the number. */
  lemma {:induction false} ItoaValue(n: nat)
    ensures Itoa(n) != "" && AllDigits(Itoa(n)) && DecimalValue(Itoa(n)) == n
  {
    if n >= 10 {
      ItoaValue(n / 10);
      assert Itoa(n)[..|Itoa(n)| - 1] == Itoa(n / 10);
    } else {
      assert DecimalValue([Digit(n)][..0]) == 0;
    }
  }

  /** Printing and parsing an ordinal is exact for everything that fits in 64 bits. */
  lemma AtoiItoa(n: nat)
    ensures Atoi(Itoa(n)) == if n < INT64_LIMIT then Some(n) else None
  {
    ItoaValue(n);
    assert IsDigit(Itoa(n)[0]);
  }

  lemma ItoaInjective(a: nat, b: nat)
    ensures Itoa(a) == Itoa(b) <==> a == b
  {
    ItoaValue(a);
    ItoaValue(b);
  }

  // ----- concatenation -----

  /** Two strings with the same head and tail are equal exactly when their middles are. */
  lemma SameMiddle(head: string, a: string, b: string, tail: string)
    ensures head + a + tail == head + b + tail <==> a == b
  {
    if head + a + tail == head + b + tail {
      assert a == (head + a + tail)[|head|..|head| + |a|];
      assert b == (head + b + tail)[|head|..|head| + |b|];
    }
  }

  lemma SplitLater(a: string, b: string, sep: char, x: string, y: string)
    requires sep !in b && |a| < |b|
    ensures a + [sep] + x != b + [sep] + y
  {
    assert (a + [sep] + x)[|a|] == sep;
    assert (b + [sep] + y)[|a|] == b[|a|];
    assert b[|a|] in b;
  }

  /** A string splits in only one way around the first occurrence of a separator. */
  lemma SameSplit(a: string, b: string, sep: char, x: string, y: string)
    requires sep !in a && sep !in b
    ensures a + [sep] + x == b + [sep] + y <==> a == b && x == y
  {
    if |a| < |b| {
      SplitLater(a, b, sep, x, y);
    } else if |b| < |a| {
      SplitLater(b, a, sep, y, x);
    } else {
      var l, r := a + [sep] + x, b + [sep] + y;
      assert a == l[..|a|] && b == r[..|b|];
      assert x == l[|a| + 1..] && y == r[|b| + 1..];
    }
  }

  // ----- shard keys -----

  /** The key under which the replicas of one shard are counted. */
  function ShardKey(collection: string, shard: string): string {
    collection + "|" + shard
  }

  /** Shard keys do not collide as long as collection names hold no '|'. */
  lemma ShardKeyInjective(c: string, s: string, d: string, t: string)
    requires '|' !in c && '|' !in d
    ensures ShardKey(c, s) == ShardKey(d, t) <==> c == d && s == t
  {
    SameSplit(c, d, '|', s, t);
  }

  /**
    Two collections have shards with the same key exactly if the name of one, followed by '|', begins the
    name of the other.
   */
  lemma ShardKeysCollideExactly(c: string, d: string)
    requires c != d
    ensures (exists s, t :: ShardKey(c, s) == ShardKey(d, t)) <==> c + "|" <= d || d + "|" <= c
  {
    if s, t :| ShardKey(c, s) == ShardKey(d, t) {
      if |c| <= |d| {
        KeyBegins(c, s, d, t);
      } else {
        KeyBegins(d, t, c, s);
      }
    }
    if c + "|" <= d {
      KeyOfLonger(c, d);
    } else if d + "|" <= c {
      KeyOfLonger(d, c);
    }
  }

  lemma KeyBegins(c: string, s: string, d: string, t: string)
    requires ShardKey(c, s) == ShardKey(d, t) && |c| <= |d| && c != d
    ensures c + "|" <= d
  {
    var key := ShardKey(d, t);
    assert key[..|c|] == c && key[..|d|] == d && key[|c|] == '|';
    assert |c| == |d| ==> c == d;
  }

  lemma KeyOfLonger(c: string, d: string)
    requires c + "|" <= d
    ensures ShardKey(c, d[|c| + 1..] + "|") == ShardKey(d, "")
  {
    assert d == c + "|" + d[|c| + 1..];
  }

  /** Such a pair of shards. */
  lemma ShardKeyCollides()
    ensures ShardKey("a|b", "c") == ShardKey("a", "b|c")
  {
    assert ShardKey("a|b", "c") == "a|b|c" == ShardKey("a", "b|c");
  }

  // ----- pods -----

  datatype ExternalMethod = Ingress | ExternalDns | LoadBalancer

  datatype External = External(
    publishedBy: ExternalMethod,
    useExternalAddress: bool,
    hideNodes: bool,
    domainName: string,
    nodePortOverride: nat)

  /** The part of a SolrCloud resource that decides how its nodes are named. */
  datatype Cloud = Cloud(
    name: string,
    namespace: string,
    kubeDomain: string,
    podPort: nat,
    external: Option<External>)

  function StatefulSetName(cloud: Cloud): string {
    cloud.name + "-solrcloud"
  }

  function PodName(cloud: Cloud, ordinal: nat): string {
    StatefulSetName(cloud) + "-" + Itoa(ordinal)
  }

  /** The names of all pods of a StatefulSet with the given number of replicas. */
  method GetSolrPodNames(cloud: Cloud, replicas: nat) returns (names: array<string>)
    ensures fresh(names) && names.Length == replicas
    ensures forall i :: 0 <= i < replicas ==> names[i] == PodName(cloud, i)
    ensures Distinct(names[..])
  {
    names := new string[replicas];
    for i := 0 to replicas
      invariant forall j :: 0 <= j < i ==> names[j] == PodName(cloud, j)
    {
      names[i] := PodName(cloud, i);
    }
    forall i, j | 0 <= i < j < replicas ensures names[i] != names[j] {
      PodNameInjective(cloud, i, j);
    }
  }

  lemma PodNameInjective(cloud: Cloud, a: nat, b: nat)
    ensures PodName(cloud, a) == PodName(cloud, b) <==> a == b
  {
    var head := StatefulSetName(cloud) + "-";
    assert PodName(cloud, a) == head + Itoa(a) + "" && PodName(cloud, b) == head + Itoa(b) + "";
    SameMiddle(head, Itoa(a), Itoa(b), "");
    ItoaInjective(a, b);
  }

  predicate HasSuffix(s: string, suffix: string) {
    |suffix| <= |s| && s[|s| - |suffix|..] == suffix
  }

  /** The "-0" suffix test that singles out the last pod of a cloud finds ordinal zero and nothing else. */
  lemma OrdinalZeroSuffix(cloud: Cloud, ordinal: nat)
    ensures HasSuffix(PodName(cloud, ordinal), "-0") <==> ordinal == 0
  {
    var name := PodName(cloud, ordinal);
    var printed := Itoa(ordinal);
    ItoaValue(ordinal);
    assert name[|name| - |printed|..] == printed;
    if ordinal == 0 {
      assert name[|name| - 2..] == "-0";
    } else if ordinal < 10 {
      assert name[|name| - 1] == printed[0] == Digit(ordinal);
      assert name[|name| - 2..][1] == Digit(ordinal) != '0';
    } else {
      ItoaValue(ordinal / 10);
      assert name[|name| - 2] == printed[|printed| - 2];
      assert IsDigit(printed[|printed| - 2]);
      assert name[|name| - 2..][0] != "-0"[0];
    }
  }

  // ----- Solr nodes -----

  function KubeDomainSuffix(cloud: Cloud): string {
    if cloud.kubeDomain != "" then ".svc." + cloud.kubeDomain else ""
  }

  predicate UsesIndividualNodeServices(cloud: Cloud) {
    && cloud.external.Some?
    && !cloud.external.value.hideNodes
    && cloud.external.value.publishedBy != ExternalDns
  }

  function NodePort(cloud: Cloud): nat {
    if UsesIndividualNodeServices(cloud) && cloud.external.value.nodePortOverride > 0 then
      cloud.external.value.nodePortOverride
    else
      cloud.podPort
  }

  function ExternalNodeHost(cloud: Cloud, ext: External, pod: string): string {
    match ext.publishedBy
    case Ingress => cloud.namespace + "-" + pod + ("." + ext.domainName)
    case ExternalDns => "" + pod + ("." + (cloud.namespace + "." + ext.domainName))
    case LoadBalancer => ""
  }

  function InternalNodeHost(cloud: Cloud, pod: string): string {
    if UsesIndividualNodeServices(cloud) then
      "" + pod + ("." + cloud.namespace + KubeDomainSuffix(cloud))
    else
      "" + pod + ("." + (cloud.name + "-solrcloud-headless") + "." + cloud.namespace + KubeDomainSuffix(cloud))
  }

  function AdvertisedNodeHost(cloud: Cloud, pod: string): string {
    if cloud.external.Some? && cloud.external.value.useExternalAddress then
      ExternalNodeHost(cloud, cloud.external.value, pod)
    else
      InternalNodeHost(cloud, pod)
  }

  /** The name under which the Solr node of a pod appears in the cluster state. */
  function SolrNodeName(cloud: Cloud, pod: string): string {
    AdvertisedNodeHost(cloud, pod) + (":" + Itoa(NodePort(cloud)) + "_solr")
  }

  /** The unsupported combination for which no host name is built at all. */
  predicate AdvertisesBlankHost(cloud: Cloud) {
    && cloud.external.Some?
    && cloud.external.value.useExternalAddress
    && cloud.external.value.publishedBy == LoadBalancer
  }

  /** Different pods have different Solr nodes, except when no host name is advertised. */
  lemma SolrNodeNameInjective(cloud: Cloud, a: string, b: string)
    ensures SolrNodeName(cloud, a) == SolrNodeName(cloud, b) <==> a == b || AdvertisesBlankHost(cloud)
  {
    var port := ":" + Itoa(NodePort(cloud)) + "_solr";
    SameMiddle("", AdvertisedNodeHost(cloud, a), AdvertisedNodeHost(cloud, b), port);
    assert forall h: string :: "" + h + port == h + port;
    if cloud.external.Some? && cloud.external.value.useExternalAddress {
      var ext := cloud.external.value;
      match ext.publishedBy
      case Ingress => SameMiddle(cloud.namespace + "-", a, b, "." + ext.domainName);
      case ExternalDns => SameMiddle("", a, b, "." + (cloud.namespace + "." + ext.domainName));
      case LoadBalancer =>
    } else if UsesIndividualNodeServices(cloud) {
      SameMiddle("", a, b, "." + cloud.namespace + KubeDomainSuffix(cloud));
    } else {
      var service := cloud.name + "-solrcloud-headless";
      SameMiddle("", a, b, "." + service + "." + cloud.namespace + KubeDomainSuffix(cloud));
    }
  }

  // ----- data claims -----

  /** The claim a StatefulSet creates for one pod: a template and set name, then the ordinal. */
  function PvcName(base: string, ordinal: nat): string {
    base + "-" + Itoa(ordinal)
  }

  /** The position of the last '-', or -1. */
  function LastDash(s: string): (r: int)
    ensures -1 <= r < |s|
    ensures r >= 0 ==> s[r] == '-'
    ensures forall i :: r < i < |s| ==> s[i] != '-'
  {
    if s == "" then -1
    else if s[|s| - 1] == '-' then |s| - 1
    else LastDash(s[..|s| - 1])
  }

  /** Whether a claim belongs to no pod of a StatefulSet with the given number of replicas. */
  predicate IsPvcOrphan(name: string, replicas: int) {
    var index := LastDash(name);
    if index == -1 then
      false
    else
      match Atoi(name[index + 1..])
      case None => false
      case Some(ordinal) => Int32(ordinal) >= replicas
  }

  /** The ordinal of a printed claim name, dashes and digits in the base included, is found again. */
  lemma LastDashOfPvcName(base: string, ordinal: nat)
    ensures var name := PvcName(base, ordinal);
            LastDash(name) == |base| && name[|base| + 1..] == Itoa(ordinal)
  {
    var name := PvcName(base, ordinal);
    ItoaValue(ordinal);
    assert name[|base|] == '-';
    forall i | |base| < i < |name| ensures name[i] != '-' {
      assert name[i] == Itoa(ordinal)[i - |base| - 1];
    }
    assert name[|base| + 1..] == Itoa(ordinal);
  }

  /** For every base name the test is exact up to Go's conversions of the parsed number. */
  lemma PvcOrphanExact(base: string, ordinal: nat, replicas: int)
    ensures IsPvcOrphan(PvcName(base, ordinal), replicas)
       <==> ordinal < INT64_LIMIT && Int32(ordinal) >= replicas
  {
    LastDashOfPvcName(base, ordinal);
    AtoiItoa(ordinal);
  }

  /**
    For every ordinal a claim counts as orphaned only if its ordinal is at or above the replica
    count, and inside the int32 range exactly then.
   */
  lemma PvcOrphanMeansOrdinalBeyondReplicas(base: string, ordinal: nat, replicas: nat)
    ensures IsPvcOrphan(PvcName(base, ordinal), replicas) ==> ordinal >= replicas
    ensures ordinal < INT32_LIMIT ==> (IsPvcOrphan(PvcName(base, ordinal), replicas) <==> ordinal >= replicas)
  {
    PvcOrphanExact(base, ordinal, replicas);
    Int32Range(ordinal);
  }

  /** The first ordinal past the int32 range wraps to a negative number and its claim is kept. */
  lemma PvcOrphanWrapsBeyondInt32(base: string, ordinal: nat, replicas: nat)
    requires ordinal == INT32_LIMIT
    ensures !IsPvcOrphan(PvcName(base, ordinal), replicas)
  {
    PvcOrphanExact(base, ordinal, replicas);
    Int32Range(ordinal);
  }

  /** Walks a list and keeps the items that pass a test. */
  method Select(items: seq<string>, keep: string -> bool) returns (kept: seq<string>)
    ensures forall item :: item in kept <==> item in items && keep(item)
  {
    kept := [];
    for i := 0 to |items|
      invariant forall item :: item in kept <==> item in items[..i] && keep(item)
    {
      if keep(items[i]) {
        kept := kept + [items[i]];
      }
    }
    assert items[..|items|] == items;
  }

  /**
    Deletes the orphaned claims of a cloud that is fully ready. The result lists the deletions, in
    list order. No claim of a pod that the StatefulSet still runs is ever among them.
   */
  method CleanupOrphanPvcs(
    readyReplicas: int, statusReplicas: int, specReplicas: int, setReplicas: nat,
    pvcs: Option<seq<string>>) returns (deleted: seq<string>)
    ensures forall name :: name in deleted <==>
              && readyReplicas == statusReplicas
              && pvcs.Some? && name in pvcs.value && |pvcs.value| > specReplicas
              && IsPvcOrphan(name, setReplicas)
    ensures forall base: string, ordinal: nat :: ordinal < setReplicas ==> PvcName(base, ordinal) !in deleted
  {
    deleted := [];
    if readyReplicas == statusReplicas && pvcs.Some? {
      var items := pvcs.value;
      if |items| > specReplicas {
        deleted := Select(items, name => IsPvcOrphan(name, setReplicas));
      }
    }
    RunningClaimsAreNoOrphans(deleted, setReplicas);
  }

  lemma RunningClaimsAreNoOrphans(names: seq<string>, replicas: nat)
    requires forall name :: name in names ==> IsPvcOrphan(name, replicas)
    ensures forall base: string, ordinal: nat :: ordinal < replicas ==> PvcName(base, ordinal) !in names
  {
    forall base: string, ordinal: nat | ordinal < replicas ensures PvcName(base, ordinal) !in names {
      PvcOrphanMeansOrdinalBeyondReplicas(base, ordinal, replicas);
    }
  }
}
