/**
  Regenerating the StatefulSet from the SolrCloud spec and copying it over the one that exists. The
  lock, the queue, the recorded storage size and the replica count belong to the cluster operations
  and must survive every regeneration; host aliases are merged so that addresses are not lost.
 */
module StatefulSetFields {
  import opened Prelude

  const LOCK_ANNOTATION := "solr.apache.org/clusterOpsLock"
  const QUEUE_ANNOTATION := "solr.apache.org/clusterOpsRetryQueue"
  const STORAGE_ANNOTATION := "solr.apache.org/storageMinimumSize"

  type StringMap = map<string, string>

  /** A host alias. The merge looks at the first hostname alone. */
  datatype Alias = Alias(ip: string, first: string, others: seq<string>)

  datatype SetFields = SetFields(
    labels: StringMap, annotations: StringMap, templateAnnotations: StringMap,
    replicas: Option<int>, hostAliases: seq<Alias>)

  // ----- copying maps -----

  /** Reading a string map the way Go does. */
  function Read(m: StringMap, k: string): string {
    if k in m then m[k] else ""
  }

  predicate Differs(from: StringMap, to: StringMap) {
    exists k :: k in from && Read(to, k) != from[k]
  }

  /** `to` with the values of `from`. Keys of `from` without a value are not added. */
  function Overlaid(from: StringMap, to: StringMap): StringMap {
    map k | k in to.Keys + from.Keys && (k in to || from[k] != "") :: if k in from then from[k] else to[k]
  }

  lemma NothingOverlaid(m: StringMap, to: StringMap)
    requires m == map[]
    ensures Overlaid(m, to) == to && !Differs(m, to)
  {
  }

  lemma OverlayOne(m: StringMap, to: StringMap, k: string, v: string)
    requires k !in m
    ensures Read(Overlaid(m, to), k) == Read(to, k)
    ensures Overlaid(m[k := v], to) == if Read(to, k) != v then Overlaid(m, to)[k := v] else Overlaid(m, to)
    ensures Differs(m[k := v], to) <==> Differs(m, to) || Read(to, k) != v
  {
    var more := m[k := v];
    assert more[k] == v;
    assert forall j :: j in m ==> j in more && more[j] == m[j];
  }

  method CopyMap(from: StringMap, to: StringMap) returns (copied: StringMap, changed: bool)
    ensures copied == Overlaid(from, to) && (changed <==> Differs(from, to))
  {
    hide Overlaid, Differs;
    copied, changed := to, false;
    assert copied == Overlaid(from - from.Keys, to) && !Differs(from - from.Keys, to) by {
      NothingOverlaid(from - from.Keys, to);
    }
    var keys := from.Keys;
    while keys != {}
      invariant keys <= from.Keys
      invariant copied == Overlaid(from - keys, to)
      invariant changed <==> Differs(from - keys, to)
      decreases keys
    {
      var k :| k in keys;
      assert from - (keys - {k}) == (from - keys)[k := from[k]];
      OverlayOne(from - keys, to, k, from[k]);
      if Read(copied, k) != from[k] {
        changed := true;
        copied := copied[k := from[k]];
      }
      keys := keys - {k};
    }
    assert from - {} == from;
  }

  // ----- host aliases -----

  /** The first alias with this first hostname that is not the given one, or the length of the list. */
  function FirstOther(aliases: seq<Alias>, a: Alias): (i: nat)
    ensures i <= |aliases|
    ensures i < |aliases| ==> aliases[i].first == a.first && aliases[i] != a
    ensures forall j :: 0 <= j < i ==> aliases[j].first == a.first ==> aliases[j] == a
  {
    if aliases == [] then 0
    else if aliases[0].first == a.first && aliases[0] != a then 0
    else 1 + FirstOther(aliases[1..], a)
  }

  predicate Names(aliases: seq<Alias>, host: string) {
    exists i :: 0 <= i < |aliases| && aliases[i].first == host
  }

  function WithAlias(aliases: seq<Alias>, a: Alias): seq<Alias> {
    var i := FirstOther(aliases, a);
    if i < |aliases| then aliases[i := a]
    else if Names(aliases, a.first) then aliases
    else aliases + [a]
  }

  function WithAliases(to: seq<Alias>, from: seq<Alias>): seq<Alias> {
    if from == [] then to
    else WithAlias(WithAliases(to, from[..|from| - 1]), from[|from| - 1])
  }

  function Merged(to: seq<Alias>, from: seq<Alias>): seq<Alias> {
    if to == from then to else if to == [] then from else WithAliases(to, from)
  }

  predicate SomePutChanges(to: seq<Alias>, from: seq<Alias>) {
    from != [] &&
    var before := WithAliases(to, from[..|from| - 1]);
    SomePutChanges(to, from[..|from| - 1]) || WithAlias(before, from[|from| - 1]) != before
  }

  predicate MergeChanges(to: seq<Alias>, from: seq<Alias>) {
    to != from && (to == [] || SomePutChanges(to, from))
  }

  method PutAlias(aliases: seq<Alias>, a: Alias) returns (merged: seq<Alias>, changed: bool)
    ensures merged == WithAlias(aliases, a) && (changed <==> merged != aliases)
  {
    merged, changed := aliases, false;
    var found := false;
    for i := 0 to |aliases|
      invariant merged == aliases && !changed
      invariant forall j :: 0 <= j < i ==> aliases[j].first == a.first ==> aliases[j] == a
      invariant found <==> exists j :: 0 <= j < i && aliases[j].first == a.first
    {
      if a.first == aliases[i].first {
        found := true;
        if aliases[i] != a {
          changed := true;
          merged := merged[i := a];
          assert merged[i] != aliases[i];
          break;
        }
      }
    }
    if !found {
      changed := true;
      merged := merged + [a];
    }
  }

  method MergeHostAliases(to: seq<Alias>, from: seq<Alias>) returns (merged: seq<Alias>, changed: bool)
    ensures merged == Merged(to, from) && (changed <==> MergeChanges(to, from))
  {
    merged, changed := to, false;
    if to != from {
      if to == [] {
        changed := true;
        merged := from;
      } else {
        for i := 0 to |from|
          invariant merged == WithAliases(to, from[..i])
          invariant changed <==> SomePutChanges(to, from[..i])
        {
          assert from[..i + 1][..i] == from[..i];
          var put;
          merged, put := PutAlias(merged, from[i]);
          changed := changed || put;
        }
        assert from[..|from|] == from;
      }
    }
  }

  // ----- what the merge keeps -----

  ghost predicate UniqueFirsts(aliases: seq<Alias>) {
    forall i, j :: 0 <= i < j < |aliases| ==> aliases[i].first != aliases[j].first
  }

  lemma WithAliasElements(to: seq<Alias>, a: Alias)
    requires UniqueFirsts(to)
    ensures UniqueFirsts(WithAlias(to, a))
    ensures forall x :: x in WithAlias(to, a) <==> x == a || (x in to && x.first != a.first)
    ensures WithAlias(to, a) == to <==> a in to
  {
    hide FirstOther;
    var i, after := FirstOther(to, a), WithAlias(to, a);
    if i < |to| {
      assert after[i] == a;
      assert forall j :: 0 <= j < |to| && j != i ==> after[j] == to[j];
    } else if !Names(to, a.first) {
      assert after[|to|] == a;
      assert forall j :: 0 <= j < |to| ==> after[j] == to[j];
    }
  }

  lemma {:induction false} WithAliasesElements(to: seq<Alias>, from: seq<Alias>)
    requires UniqueFirsts(to) && UniqueFirsts(from)
    ensures UniqueFirsts(WithAliases(to, from))
    ensures forall x :: x in WithAliases(to, from) <==> x in from || (x in to && !Names(from, x.first))
  {
    if from != [] {
      hide WithAlias;
      var rest, last := from[..|from| - 1], from[|from| - 1];
      WithAliasesElements(to, rest);
      WithAliasElements(WithAliases(to, rest), last);
      assert from == rest + [last];
      assert forall x :: x in from <==> x in rest || x == last;
      assert forall x :: x in rest ==> x.first != last.first;
      assert forall h :: Names(from, h) <==> Names(rest, h) || h == last.first by {
        assert from[|from| - 1].first == last.first;
        assert forall i :: 0 <= i < |rest| ==> from[i] == rest[i];
      }
    }
  }

  /**
    With one alias for each first hostname, the merged aliases are the new ones and those old ones
    that no new alias replaces, so the new address wins and no first hostname is dropped.
   */
  lemma MergedElements(to: seq<Alias>, from: seq<Alias>)
    requires UniqueFirsts(to) && UniqueFirsts(from)
    ensures UniqueFirsts(Merged(to, from))
    ensures forall x :: x in Merged(to, from) <==> x in from || (x in to && !Names(from, x.first))
  {
    WithAliasesElements(to, from);
  }

  // ----- when a second merge is silent -----

  /** An alias for the first hostname of `a` that says something else. */
  predicate IsStale(x: Alias, a: Alias) {
    x.first == a.first && x != a
  }

  predicate HasStale(aliases: seq<Alias>, a: Alias) {
    exists i :: 0 <= i < |aliases| && IsStale(aliases[i], a)
  }

  ghost predicate AtMostOneStale(aliases: seq<Alias>, a: Alias) {
    forall i, j :: 0 <= i < j < |aliases| ==> !(IsStale(aliases[i], a) && IsStale(aliases[j], a))
  }

  /** A put replaces the first stale alias, adds a missing one, and changes the list exactly if there is such a one. */
  lemma PutStale(to: seq<Alias>, a: Alias)
    ensures HasStale(WithAlias(to, a), a) <==> !AtMostOneStale(to, a)
    ensures WithAlias(to, a) != to <==> HasStale(to, a) || !Names(to, a.first)
    ensures Names(WithAlias(to, a), a.first) && |WithAlias(to, a)| >= |to|
  {
    hide FirstOther;
    var i, after := FirstOther(to, a), WithAlias(to, a);
    if i < |to| {
      assert after[i] == a && IsStale(to[i], a);
      assert forall j :: 0 <= j < |to| && j != i ==> after[j] == to[j];
    } else if !Names(to, a.first) {
      assert after[|to|] == a;
      assert forall j :: 0 <= j < |to| ==> after[j] == to[j];
    }
  }

  /** A put for another first hostname leaves the aliases of this one alone. */
  lemma PutLeaves(to: seq<Alias>, a: Alias, b: Alias)
    requires a.first != b.first
    ensures HasStale(WithAlias(to, a), b) <==> HasStale(to, b)
    ensures AtMostOneStale(WithAlias(to, a), b) <==> AtMostOneStale(to, b)
    ensures Names(WithAlias(to, a), b.first) <==> Names(to, b.first)
  {
    hide FirstOther;
    var i, after := FirstOther(to, a), WithAlias(to, a);
    if i < |to| {
      assert after[i] == a && to[i].first == a.first;
      assert forall j :: 0 <= j < |to| && j != i ==> after[j] == to[j];
    } else if !Names(to, a.first) {
      assert after[|to|] == a;
      assert forall j :: 0 <= j < |to| ==> after[j] == to[j];
    }
  }

  lemma {:induction false} PutsLeave(to: seq<Alias>, from: seq<Alias>, b: Alias)
    requires forall m :: 0 <= m < |from| ==> from[m].first != b.first
    ensures HasStale(WithAliases(to, from), b) <==> HasStale(to, b)
    ensures AtMostOneStale(WithAliases(to, from), b) <==> AtMostOneStale(to, b)
    ensures Names(WithAliases(to, from), b.first) <==> Names(to, b.first)
  {
    hide WithAlias, HasStale, AtMostOneStale, Names;
    if from != [] {
      var rest := from[..|from| - 1];
      PutsLeave(to, rest, b);
      PutLeaves(WithAliases(to, rest), from[|from| - 1], b);
    }
  }

  /** After all puts, a stale alias is left for a new one exactly if there were at least two. */
  lemma {:induction false} PutsStale(to: seq<Alias>, from: seq<Alias>, m: nat)
    requires UniqueFirsts(from) && m < |from|
    ensures HasStale(WithAliases(to, from), from[m]) <==> !AtMostOneStale(to, from[m])
    ensures Names(WithAliases(to, from), from[m].first) && |WithAliases(to, from)| >= |to|
    decreases |from|
  {
    hide WithAlias, HasStale, AtMostOneStale, Names;
    var rest, last := from[..|from| - 1], from[|from| - 1];
    var before := WithAliases(to, rest);
    PutStale(before, last);
    PutsGrow(to, rest);
    if m < |rest| {
      PutsStale(to, rest, m);
      PutLeaves(before, last, from[m]);
    } else {
      PutsLeave(to, rest, last);
    }
  }

  lemma {:induction false} PutsGrow(to: seq<Alias>, from: seq<Alias>)
    ensures |WithAliases(to, from)| >= |to|
  {
    if from != [] {
      PutsGrow(to, from[..|from| - 1]);
    }
  }

  /** Some put changes the list exactly if a new alias has a stale one in it or is missing from it. */
  lemma {:induction false} PutsChangeExactly(to: seq<Alias>, from: seq<Alias>)
    requires UniqueFirsts(from)
    ensures SomePutChanges(to, from) <==>
              exists m :: 0 <= m < |from| && (HasStale(to, from[m]) || !Names(to, from[m].first))
    ensures !SomePutChanges(to, from) ==> WithAliases(to, from) == to
  {
    hide WithAlias, HasStale, Names;
    if from != [] {
      var rest, last := from[..|from| - 1], from[|from| - 1];
      PutsChangeExactly(to, rest);
      PutsLeave(to, rest, last);
      PutStale(WithAliases(to, rest), last);
      assert forall m :: 0 <= m < |rest| ==> rest[m] == from[m];
    }
  }

  /** No new alias finds two that say something else, or there is nothing to merge. */
  ghost predicate SettlesAtOnce(to: seq<Alias>, from: seq<Alias>) {
    to == [] || to == from || forall m :: 0 <= m < |from| ==> AtMostOneStale(to, from[m])
  }

  /**
    A second merge of the same aliases changes nothing and says so exactly if no first hostname has more
    than one alias that differs from the new one.
   */
  lemma SecondMergeExactly(to: seq<Alias>, from: seq<Alias>)
    requires UniqueFirsts(from)
    ensures !MergeChanges(Merged(to, from), from) <==> SettlesAtOnce(to, from)
    ensures SettlesAtOnce(to, from) ==> Merged(Merged(to, from), from) == Merged(to, from)
  {
    hide WithAliases, HasStale, AtMostOneStale, Names;
    if to != [] && to != from {
      var once := WithAliases(to, from);
      forall m | 0 <= m < |from|
        ensures Names(once, from[m].first) && (HasStale(once, from[m]) <==> !AtMostOneStale(to, from[m]))
      {
        PutsStale(to, from, m);
      }
      PutsGrow(to, from);
      PutsChangeExactly(once, from);
      NoneStaleInItself(from);
    }
  }

  lemma NoneStaleInItself(from: seq<Alias>)
    requires UniqueFirsts(from)
    ensures forall m :: 0 <= m < |from| ==> !HasStale(from, from[m])
  {
  }

  /** In particular with one alias for each first hostname. */
  lemma SecondMergeChangesNothing(to: seq<Alias>, from: seq<Alias>)
    requires UniqueFirsts(to) && UniqueFirsts(from)
    ensures Merged(Merged(to, from), from) == Merged(to, from)
    ensures !MergeChanges(Merged(to, from), from)
  {
    assert forall m :: 0 <= m < |from| ==> AtMostOneStale(to, from[m]);
    SecondMergeExactly(to, from);
  }

  /** With two aliases for one hostname, each merge replaces one of them. */
  lemma DuplicatesChangeTwice()
    ensures var a, b := Alias("10.0.0.1", "solr-0", []), Alias("10.0.0.2", "solr-0", []);
            Merged([a, a], [b]) == [b, a] && MergeChanges(Merged([a, a], [b]), [b])
  {
    var a, b := Alias("10.0.0.1", "solr-0", []), Alias("10.0.0.2", "solr-0", []);
    assert [b][..0] == [];
    assert FirstOther([a, a], b) == 0;
    assert FirstOther([b, a][1..], b) == 0;
    assert FirstOther([b, a], b) == 1;
    assert WithAliases([a, a], [b]) == [b, a];
    assert WithAlias([b, a], b)[1] != [b, a][1];
  }

  /** A further hostname of a replaced alias is lost. */
  lemma SecondHostnameLost()
    ensures var to, from := [Alias("10.0.0.1", "solr-0", ["solr"])], [Alias("10.0.0.2", "solr-0", [])];
            Resolves(to, "solr") && !Resolves(Merged(to, from), "solr")
  {
    var to, from := [Alias("10.0.0.1", "solr-0", ["solr"])], [Alias("10.0.0.2", "solr-0", [])];
    assert to[0].others[0] == "solr";
    ResolvesMerged(to, from, "solr");
    assert from[0].first == "solr-0" == to[0].first;
    assert to[0] !in from;
  }

  predicate Resolves(aliases: seq<Alias>, host: string) {
    exists i :: 0 <= i < |aliases| && (aliases[i].first == host || host in aliases[i].others)
  }

  /** The alias survives a merge with `from`. */
  predicate Survives(a: Alias, from: seq<Alias>) {
    a in from || !Names(from, a.first)
  }

  /**
    A merge drops no hostname exactly if the further hostnames of each alias that it replaces are
    named by a new alias or by an old one that survives.
   */
  lemma HostnamesKeptExactly(to: seq<Alias>, from: seq<Alias>)
    requires UniqueFirsts(to) && UniqueFirsts(from)
    ensures (forall h :: Resolves(to, h) ==> Resolves(Merged(to, from), h)) <==>
            (forall i, h :: 0 <= i < |to| && !Survives(to[i], from) && h in to[i].others ==>
               Resolves(from, h) || exists j :: 0 <= j < |to| && Survives(to[j], from) && Resolves([to[j]], h))
  {
    forall h ensures Resolves(Merged(to, from), h) <==> Resolves(from, h) || KeptByOld(to, from, h) {
      ResolvesMerged(to, from, h);
    }
    forall i, h | 0 <= i < |to| && (h == to[i].first || h in to[i].others) && Survives(to[i], from)
      ensures KeptByOld(to, from, h)
    {
      assert Resolves([to[i]], h) by { assert [to[i]][0] == to[i]; }
    }
    forall i | 0 <= i < |to| && !Survives(to[i], from) ensures Resolves(from, to[i].first) {
    }
  }

  predicate KeptByOld(to: seq<Alias>, from: seq<Alias>, h: string) {
    exists j :: 0 <= j < |to| && Survives(to[j], from) && Resolves([to[j]], h)
  }

  lemma ResolvesMerged(to: seq<Alias>, from: seq<Alias>, h: string)
    requires UniqueFirsts(to) && UniqueFirsts(from)
    ensures Resolves(Merged(to, from), h) <==> Resolves(from, h) || KeptByOld(to, from, h)
  {
    MergedElements(to, from);
    var merged := Merged(to, from);
    if Resolves(merged, h) {
      var i :| 0 <= i < |merged| && (merged[i].first == h || h in merged[i].others);
      if merged[i] in from {
      } else {
        assert merged[i] in to;
        var j :| 0 <= j < |to| && to[j] == merged[i];
        assert [to[j]][0] == to[j];
      }
    }
    if Resolves(from, h) {
      var i :| 0 <= i < |from| && (from[i].first == h || h in from[i].others);
      assert from[i] in merged;
    }
    if KeptByOld(to, from, h) {
      var j :| 0 <= j < |to| && Survives(to[j], from) && Resolves([to[j]], h);
      assert to[j] in merged;
    }
  }

  // ----- every run of merges -----

  /** What the operator generates: one hostname for each alias, each once. */
  ghost predicate Generated(aliases: seq<Alias>) {
    UniqueFirsts(aliases) && forall i :: 0 <= i < |aliases| ==> aliases[i].others == []
  }

  function MergedAll(to: seq<Alias>, specs: seq<seq<Alias>>): seq<Alias> {
    if specs == [] then to else Merged(MergedAll(to, specs[..|specs| - 1]), specs[|specs| - 1])
  }

  /** However the addresses change over time, each hostname that was ever generated keeps the address it got last. */
  lemma {:induction false} HostnamesNeverLost(to: seq<Alias>, specs: seq<seq<Alias>>, i: nat)
    requires Generated(to) && (forall j :: 0 <= j < |specs| ==> Generated(specs[j])) && i < |specs|
    ensures Generated(MergedAll(to, specs))
    ensures forall a :: a in specs[i] && (forall j :: i < j < |specs| ==> !Names(specs[j], a.first)) ==>
              a in MergedAll(to, specs)
    ensures forall h :: Names(specs[i], h) ==> Names(MergedAll(to, specs), h)
  {
    var rest, last := specs[..|specs| - 1], specs[|specs| - 1];
    var before := MergedAll(to, rest);
    if i < |rest| {
      HostnamesNeverLost(to, rest, i);
    } else if rest != [] {
      HostnamesNeverLost(to, rest, 0);
    }
    MergedElements(before, last);
    MergedNames(before, last);
  }

  lemma MergedNames(to: seq<Alias>, from: seq<Alias>)
    requires UniqueFirsts(to) && UniqueFirsts(from)
    ensures forall h :: Names(Merged(to, from), h) <==> Names(to, h) || Names(from, h)
  {
    MergedElements(to, from);
    var merged := Merged(to, from);
    forall h ensures Names(merged, h) <==> Names(to, h) || Names(from, h) {
      if Names(from, h) {
        var i :| 0 <= i < |from| && from[i].first == h;
        assert from[i] in merged;
      } else if Names(to, h) {
        var i :| 0 <= i < |to| && to[i].first == h;
        assert to[i] in merged;
      }
    }
  }

  // ----- regeneration -----

  function KeepKey(expected: StringMap, found: StringMap, k: string): StringMap {
    if k in found then expected[k := found[k]] else expected
  }

  function Preserved(expected: SetFields, found: SetFields): SetFields {
    expected.(
      annotations :=
        KeepKey(KeepKey(KeepKey(expected.annotations, found.annotations, LOCK_ANNOTATION),
                        found.annotations, QUEUE_ANNOTATION),
                found.annotations, STORAGE_ANNOTATION),
      templateAnnotations := KeepKey(expected.templateAnnotations, found.templateAnnotations, STORAGE_ANNOTATION),
      replicas := found.replicas)
  }

  function Copied(from: SetFields, to: SetFields): SetFields {
    SetFields(Overlaid(from.labels, to.labels), Overlaid(from.annotations, to.annotations), from.templateAnnotations,
              from.replicas, Merged(to.hostAliases, from.hostAliases))
  }

  predicate CopyChanges(from: SetFields, to: SetFields) {
    || Differs(from.labels, to.labels) || Differs(from.annotations, to.annotations)
    || from.templateAnnotations != to.templateAnnotations || from.replicas != to.replicas
    || MergeChanges(to.hostAliases, from.hostAliases)
  }

  function Regenerated(found: SetFields, expected: SetFields): SetFields {
    Copied(Preserved(expected, found), found)
  }

  class StatefulSet {
    var labels: StringMap
    var annotations: StringMap
    var templateAnnotations: StringMap
    var replicas: Option<int>
    var hostAliases: seq<Alias>

    constructor (f: SetFields)
      ensures Fields() == f
    {
      labels, annotations, templateAnnotations := f.labels, f.annotations, f.templateAnnotations;
      replicas, hostAliases := f.replicas, f.hostAliases;
    }

    function Fields(): SetFields
      reads this
    {
      SetFields(labels, annotations, templateAnnotations, replicas, hostAliases)
    }

    /** Writes what must be preserved of `found` into this, the expected StatefulSet. */
    method MaintainPreserved(found: StatefulSet)
      requires found != this
      modifies this
      ensures Fields() == Preserved(old(Fields()), found.Fields())
    {
      if LOCK_ANNOTATION in found.annotations {
        annotations := annotations[LOCK_ANNOTATION := found.annotations[LOCK_ANNOTATION]];
      }
      if QUEUE_ANNOTATION in found.annotations {
        annotations := annotations[QUEUE_ANNOTATION := found.annotations[QUEUE_ANNOTATION]];
      }
      if STORAGE_ANNOTATION in found.annotations {
        annotations := annotations[STORAGE_ANNOTATION := found.annotations[STORAGE_ANNOTATION]];
      }
      if STORAGE_ANNOTATION in found.templateAnnotations {
        templateAnnotations := templateAnnotations[STORAGE_ANNOTATION := found.templateAnnotations[STORAGE_ANNOTATION]];
      }
      replicas := found.replicas;
    }

    /** Copies the owned fields of `from` to this. */
    method CopyFields(from: StatefulSet) returns (changed: bool)
      requires from != this
      modifies this
      ensures Fields() == Copied(from.Fields(), old(Fields()))
      ensures changed <==> CopyChanges(from.Fields(), old(Fields()))
    {
      hide Overlaid, Differs, Merged, MergeChanges;
      var c1, c2, c3;
      labels, c1 := CopyMap(from.labels, labels);
      annotations, c2 := CopyMap(from.annotations, annotations);
      changed := c1 || c2;
      if replicas != from.replicas {
        changed := true;
        replicas := from.replicas;
      }
      if templateAnnotations != from.templateAnnotations {
        changed := true;
        templateAnnotations := from.templateAnnotations;
      }
      hostAliases, c3 := MergeHostAliases(hostAliases, from.hostAliases);
      changed := changed || c3;
    }

    /** Brings this, the StatefulSet that was found, up to the expected one. */
    method Regenerate(expected: StatefulSet) returns (changed: bool)
      requires expected != this
      modifies this, expected
      ensures Fields() == Regenerated(old(Fields()), old(expected.Fields()))
      ensures changed <==> CopyChanges(Preserved(old(expected.Fields()), old(Fields())), old(Fields()))
    {
      hide Preserved, Copied, CopyChanges;
      expected.MaintainPreserved(this);
      changed := CopyFields(expected);
    }
  }

  /** An annotation reads the same in both maps, or is absent from both. */
  predicate SameAt(a: StringMap, b: StringMap, k: string) {
    (k in a <==> k in b) && (k in a ==> a[k] == b[k])
  }

  /** What cluster operations keep in the StatefulSet is the same in both. */
  predicate SameOperatorState(a: SetFields, b: SetFields) {
    && a.replicas == b.replicas
    && SameAt(a.annotations, b.annotations, LOCK_ANNOTATION)
    && SameAt(a.annotations, b.annotations, QUEUE_ANNOTATION)
    && SameAt(a.annotations, b.annotations, STORAGE_ANNOTATION)
  }

  /**
    One annotation after a regeneration: one of the three kept annotations that exists is left alone;
    any other takes the generated value, and is left alone if there is none.
   */
  lemma AnnotationAfter(found: SetFields, expected: SetFields, k: string)
    ensures var after := Regenerated(found, expected).annotations;
            if k in {LOCK_ANNOTATION, QUEUE_ANNOTATION, STORAGE_ANNOTATION} && k in found.annotations
            then k in after && after[k] == found.annotations[k]
            else if k in expected.annotations
            then (k in after <==> k in found.annotations || expected.annotations[k] != "")
                 && (k in after ==> after[k] == expected.annotations[k])
            else SameAt(after, found.annotations, k)
  {
    assert LOCK_ANNOTATION != QUEUE_ANNOTATION && QUEUE_ANNOTATION != STORAGE_ANNOTATION
      && LOCK_ANNOTATION != STORAGE_ANNOTATION by {
      assert LOCK_ANNOTATION[16] != STORAGE_ANNOTATION[16] && QUEUE_ANNOTATION[16] != STORAGE_ANNOTATION[16];
      assert |LOCK_ANNOTATION| != |QUEUE_ANNOTATION|;
    }
  }

  /**
    A regeneration leaves the lock, the queue, the storage size and the replicas alone exactly if no
    one of the three annotations is generated with a value while the StatefulSet does not have it.
   */
  lemma OperatorStateKeptExactly(found: SetFields, expected: SetFields)
    ensures SameOperatorState(Regenerated(found, expected), found) <==>
            forall k :: k in {LOCK_ANNOTATION, QUEUE_ANNOTATION, STORAGE_ANNOTATION} ==>
              k in found.annotations || Read(expected.annotations, k) == ""
  {
    hide Regenerated;
    AnnotationAfter(found, expected, LOCK_ANNOTATION);
    AnnotationAfter(found, expected, QUEUE_ANNOTATION);
    AnnotationAfter(found, expected, STORAGE_ANNOTATION);
    assert Regenerated(found, expected).replicas == found.replicas by { ReplicasKept(found, expected); }
  }

  lemma ReplicasKept(found: SetFields, expected: SetFields)
    ensures Regenerated(found, expected).replicas == found.replicas
  {
  }

  lemma NoDifferenceNoChange(from: StringMap, to: StringMap)
    requires !Differs(from, to)
    ensures Overlaid(from, to) == to
  {
  }

  lemma OverlaySettles(from: StringMap, to: StringMap)
    ensures !Differs(from, Overlaid(from, to))
  {
  }

  lemma AnnotationsSettle(found: SetFields, expected: SetFields)
    ensures var once := Regenerated(found, expected);
            !Differs(Preserved(expected, once).annotations, once.annotations)
  {
    var once := Regenerated(found, expected);
    var again := Preserved(expected, once).annotations;
    forall k | k in again ensures Read(once.annotations, k) == again[k] {
      AnnotationAfter(found, expected, k);
      hide Regenerated;
    }
  }

  /**
    Regenerating again from the same spec finds nothing to do exactly if a second merge of the host
    aliases is silent.
   */
  lemma SecondRegenerationExactly(found: SetFields, expected: SetFields)
    requires UniqueFirsts(expected.hostAliases)
    ensures var once := Regenerated(found, expected);
            && (!CopyChanges(Preserved(expected, once), once) <==>
                  SettlesAtOnce(found.hostAliases, expected.hostAliases))
            && (SettlesAtOnce(found.hostAliases, expected.hostAliases) ==> Regenerated(once, expected) == once)
  {
    hide Overlaid, Differs, Merged, MergeChanges, SettlesAtOnce;
    var once := Regenerated(found, expected);
    AnnotationsSettle(found, expected);
    OverlaySettles(expected.labels, found.labels);
    SecondMergeExactly(found.hostAliases, expected.hostAliases);
    NoDifferenceNoChange(Preserved(expected, once).annotations, once.annotations);
    NoDifferenceNoChange(expected.labels, once.labels);
    assert Preserved(expected, once).templateAnnotations == once.templateAnnotations;
  }

  // ----- what a regeneration reports -----

  /** A put leaves every alias of another first hostname in its place. */
  lemma PutKeepsPlace(to: seq<Alias>, a: Alias, i: nat)
    requires i < |to| && to[i].first != a.first
    ensures i < |WithAlias(to, a)| && WithAlias(to, a)[i] == to[i]
  {
  }

  /** If some put changes the list, the last list has a new alias where the first one had another or none. */
  lemma {:induction false} PutsChangeSomePlace(to: seq<Alias>, from: seq<Alias>) returns (i: nat)
    requires UniqueFirsts(from) && SomePutChanges(to, from)
    ensures i < |WithAliases(to, from)| && Names(from, WithAliases(to, from)[i].first)
    ensures i < |to| ==> WithAliases(to, from)[i] != to[i]
  {
    hide SomePutChanges, Names;
    LastPut(to, from);
    var rest, last := from[..|from| - 1], from[|from| - 1];
    var before := WithAliases(to, rest);
    if SomePutChanges(to, rest) {
      i := PutsChangeSomePlace(to, rest);
      NamesMore(from, before[i].first);
      PutKeepsPlace(before, last, i);
    } else {
      PutsChangeExactly(to, rest);
      i := FirstOther(before, last);
      NamesMore(from, last.first);
    }
  }

  lemma LastPut(to: seq<Alias>, from: seq<Alias>)
    requires SomePutChanges(to, from)
    ensures from != []
    ensures var before := WithAliases(to, from[..|from| - 1]);
            SomePutChanges(to, from[..|from| - 1]) || WithAlias(before, from[|from| - 1]) != before
  {
  }

  lemma NamesMore(from: seq<Alias>, h: string)
    requires from != []
    ensures Names(from, h) <==> Names(from[..|from| - 1], h) || h == from[|from| - 1].first
    ensures UniqueFirsts(from) ==> !Names(from[..|from| - 1], from[|from| - 1].first)
  {
  }

  lemma MergeReportsExactly(to: seq<Alias>, from: seq<Alias>)
    requires UniqueFirsts(from)
    ensures MergeChanges(to, from) <==> Merged(to, from) != to
  {
    hide WithAliases, SomePutChanges, Names;
    PutsChangeExactly(to, from);
    if SomePutChanges(to, from) {
      var i := PutsChangeSomePlace(to, from);
    }
  }

  lemma OverlayReportsExactly(from: StringMap, to: StringMap)
    ensures Differs(from, to) <==> Overlaid(from, to) != to
  {
    if Differs(from, to) {
      var k :| k in from && Read(to, k) != from[k];
      assert Read(Overlaid(from, to), k) != Read(to, k);
    } else {
      NoDifferenceNoChange(from, to);
    }
  }

  /** A regeneration asks for an update exactly if it changes one of the fields. */
  lemma RegenerationReportsExactly(found: SetFields, expected: SetFields)
    requires UniqueFirsts(expected.hostAliases)
    ensures CopyChanges(Preserved(expected, found), found) <==> Regenerated(found, expected) != found
  {
    hide Overlaid, Differs, Merged, MergeChanges;
    OverlayReportsExactly(expected.labels, found.labels);
    OverlayReportsExactly(Preserved(expected, found).annotations, found.annotations);
    MergeReportsExactly(found.hostAliases, expected.hostAliases);
  }

  /**
    A regeneration takes over the labels and the annotations of the pod template that are generated, but a
    storage size that the template has stays.
   */
  lemma TemplateAfter(found: SetFields, expected: SetFields, k: string)
    ensures var after := Regenerated(found, expected);
            && (if k == STORAGE_ANNOTATION && k in found.templateAnnotations
                then SameAt(after.templateAnnotations, found.templateAnnotations, k)
                else SameAt(after.templateAnnotations, expected.templateAnnotations, k))
            && (if k in expected.labels && (k in found.labels || expected.labels[k] != "")
                then SameAt(after.labels, expected.labels, k) else SameAt(after.labels, found.labels, k))
  {
  }

  // ----- every run of regenerations -----

  function RegeneratedAll(found: SetFields, specs: seq<SetFields>): SetFields {
    if specs == [] then found else Regenerated(RegeneratedAll(found, specs[..|specs| - 1]), specs[|specs| - 1])
  }

  /** However often the spec changes, the replicas stay. */
  lemma {:induction false} RunKeepsReplicas(found: SetFields, specs: seq<SetFields>)
    ensures RegeneratedAll(found, specs).replicas == found.replicas
  {
    hide Regenerated;
    if specs != [] {
      RunKeepsReplicas(found, specs[..|specs| - 1]);
      ReplicasKept(RegeneratedAll(found, specs[..|specs| - 1]), specs[|specs| - 1]);
    }
  }

  /** However often the spec changes, a lock, a queue or a storage size that exists stays. */
  lemma {:induction false} RunKeepsOperatorState(found: SetFields, specs: seq<SetFields>, k: string)
    requires k in {LOCK_ANNOTATION, QUEUE_ANNOTATION, STORAGE_ANNOTATION} && k in found.annotations
    ensures SameAt(RegeneratedAll(found, specs).annotations, found.annotations, k)
  {
    hide Regenerated;
    if specs != [] {
      var before := RegeneratedAll(found, specs[..|specs| - 1]);
      RunKeepsOperatorState(found, specs[..|specs| - 1], k);
      AnnotationAfter(before, specs[|specs| - 1], k);
    }
  }
}
