/** The pairing of original and assessed results in an archive. */
module ArchivePairing {
  import opened Outcomes

  datatype Version = V2 | V3 | OtherVersion

  /** A captured domain result: its own digest, its domain, and the original it says it reassesses. */
  datatype Artifact = Artifact(sha256: string, domain: string, version: Version, original: Option<string>)

  datatype Reference = Reference(domain: string, sha256: string)

  datatype Failure =
    | UnknownVersion | WrongCounts | BadAggregate | ForeignDomain | NotOnePair | OriginalVersion | UnusedResults

  type Registry = map<string, Artifact>

  /** The artifact an aggregate's reference selects. */
  predicate Selects(supplied: seq<Artifact>, r: Reference, a: Artifact) {
    a in supplied && a.sha256 == r.sha256 && a.domain == r.domain
  }

  /** One artifact per referenced domain, and nothing else. */
  ghost predicate IsRegistry(aggregate: seq<Reference>, supplied: seq<Artifact>, selected: Registry) {
    && (forall i, j :: 0 <= i < j < |aggregate| ==> aggregate[i].domain != aggregate[j].domain)
    && (forall i :: 0 <= i < |aggregate| ==>
          aggregate[i].domain in selected && Selects(supplied, aggregate[i], selected[aggregate[i].domain]))
    && (forall domain :: domain in selected ==> exists i :: 0 <= i < |aggregate| && aggregate[i].domain == domain)
  }

  predicate UniquelyCaptured(supplied: seq<Artifact>) {
    forall i, j :: 0 <= i < j < |supplied| ==> supplied[i].sha256 != supplied[j].sha256
  }

  ghost predicate IsIndex(results: map<string, Artifact>, supplied: seq<Artifact>) {
    && (forall sha :: sha in results ==> results[sha] in supplied && results[sha].sha256 == sha)
    && (forall a :: a in supplied ==> a.sha256 in results && results[a.sha256] == a)
  }

  method Index(supplied: seq<Artifact>) returns (results: map<string, Artifact>, unique: bool)
    ensures unique <==> UniquelyCaptured(supplied)
    ensures unique ==> IsIndex(results, supplied)
  {
    results := map[];
    unique := true;
    for i := 0 to |supplied|
      invariant unique <==> UniquelyCaptured(supplied[..i])
      invariant forall sha :: sha in results <==> exists j :: 0 <= j < i && supplied[j].sha256 == sha
      invariant unique ==> IsIndex(results, supplied[..i])
    {
      var a := supplied[i];
      assert supplied[..i + 1] == supplied[..i] + [a];
      if a.sha256 in results {
        unique := false;
      }
      results := results[a.sha256 := a];
    }
    assert supplied[..|supplied|] == supplied;
  }

  lemma RegistryExtends(aggregate: seq<Reference>, supplied: seq<Artifact>, selected: Registry, i: nat, a: Artifact)
    requires i < |aggregate| && IsRegistry(aggregate[..i], supplied, selected)
    requires aggregate[i].domain !in selected && Selects(supplied, aggregate[i], a)
    ensures IsRegistry(aggregate[..i + 1], supplied, selected[aggregate[i].domain := a])
  {
    hide Selects;
    assert aggregate[..i + 1] == aggregate[..i] + [aggregate[i]];
    assert aggregate[..i + 1][i] == aggregate[i];
  }

  /** A repeated domain, or a reference that selects nothing, leaves the aggregate without a registry. */
  lemma NoRegistry(aggregate: seq<Reference>, supplied: seq<Artifact>, selected: Registry, i: nat)
    requires i < |aggregate| && IsRegistry(aggregate[..i], supplied, selected)
    requires aggregate[i].domain in selected || forall a :: !Selects(supplied, aggregate[i], a)
    ensures forall other :: !IsRegistry(aggregate, supplied, other)
  {
    hide Selects;
    if aggregate[i].domain in selected {
      var j :| 0 <= j < i && aggregate[..i][j].domain == aggregate[i].domain;
      assert aggregate[j].domain == aggregate[i].domain;
    }
  }

  method AggregateResults(aggregate: seq<Reference>, results: map<string, Artifact>, supplied: seq<Artifact>)
    returns (r: Result<Registry, Failure>)
    requires IsIndex(results, supplied)
    ensures r.Ok? ==> IsRegistry(aggregate, supplied, r.value)
    ensures r.Err? ==> forall selected :: !IsRegistry(aggregate, supplied, selected)
  {
    hide IsRegistry;
    var selected: Registry := map[];
    assert aggregate[..0] == [];
    EmptyRegistry(supplied);
    for i := 0 to |aggregate|
      invariant IsRegistry(aggregate[..i], supplied, selected)
    {
      var reference := aggregate[i];
      if reference.domain in selected || reference.sha256 !in results {
        NoRegistry(aggregate, supplied, selected, i);
        return Err(BadAggregate);
      }
      if results[reference.sha256].domain != reference.domain {
        NoRegistry(aggregate, supplied, selected, i);
        return Err(ForeignDomain);
      }
      RegistryExtends(aggregate, supplied, selected, i, results[reference.sha256]);
      selected := selected[reference.domain := results[reference.sha256]];
    }
    assert aggregate[..|aggregate|] == aggregate;
    return Ok(selected);
  }

  lemma EmptyRegistry(supplied: seq<Artifact>)
    ensures IsRegistry([], supplied, map[])
  {
  }

  /** With unique digests, an aggregate selects one registry. */
  lemma RegistryIsUnique(aggregate: seq<Reference>, supplied: seq<Artifact>, a: Registry, b: Registry)
    requires UniquelyCaptured(supplied) && IsRegistry(aggregate, supplied, a) && IsRegistry(aggregate, supplied, b)
    ensures a == b
  {
    forall domain | domain in a ensures domain in b && a[domain] == b[domain] {
      var i :| 0 <= i < |aggregate| && aggregate[i].domain == domain;
      var j :| 0 <= j < |supplied| && supplied[j] == a[domain];
      var k :| 0 <= k < |supplied| && supplied[k] == b[domain];
    }
    assert forall domain :: domain in b ==> domain in a;
  }

  /** Each assessed domain names the digest of the original of that domain. */
  predicate IsOriginalPair(original: Registry, assessment: Registry) {
    && original.Keys == assessment.Keys
    && forall domain :: domain in original ==> assessment[domain].original == Some(original[domain].sha256)
  }

  /** Every captured result is the original or the assessment of exactly one domain. */
  ghost predicate IsPartition(supplied: seq<Artifact>, original: Registry, assessment: Registry) {
    && (forall a :: a in supplied ==> (a.domain in original && original[a.domain] == a) || (a.domain in assessment && assessment[a.domain] == a))
    && (forall domain :: domain in original ==> original[domain] in supplied && original[domain].domain == domain)
    && (forall domain :: domain in assessment ==> assessment[domain] in supplied && assessment[domain].domain == domain)
    && (forall x, y :: x in original && y in assessment ==> original[x] != assessment[y])
  }

  /** The one way to read the two aggregates as originals and their assessments. */
  ghost predicate IsPairing(aggregates: seq<seq<Reference>>, supplied: seq<Artifact>, original: Registry, assessment: Registry) {
    && |aggregates| == 2
    && ((IsRegistry(aggregates[0], supplied, original) && IsRegistry(aggregates[1], supplied, assessment)) ||
        (IsRegistry(aggregates[1], supplied, original) && IsRegistry(aggregates[0], supplied, assessment)))
    && IsOriginalPair(original, assessment) && !IsOriginalPair(assessment, original)
  }

  ghost predicate IsAcceptable(aggregates: seq<seq<Reference>>, supplied: seq<Artifact>, original: Registry, assessment: Registry) {
    && (forall a :: a in supplied ==> a.version != OtherVersion) && UniquelyCaptured(supplied)
    && IsPairing(aggregates, supplied, original, assessment)
    && (forall domain :: domain in original ==> original[domain].version == V2)
    && IsPartition(supplied, original, assessment)
  }

  // ---- Counting results ----------------------------------------------------------------

  function Shas(m: Registry): set<string> {
    set domain | domain in m :: m[domain].sha256
  }

  function SuppliedShas(supplied: seq<Artifact>): set<string> {
    set a | a in supplied :: a.sha256
  }

  ghost predicate HasDistinctShas(m: Registry) {
    forall x, y :: x in m && y in m && x != y ==> m[x].sha256 != m[y].sha256
  }

  lemma {:induction false} ShasAreCounted(m: Registry)
    ensures |Shas(m)| <= |m| && (HasDistinctShas(m) ==> |Shas(m)| == |m|)
    decreases |m|
  {
    if m == map[] {
      assert Shas(m) == {};
    } else {
      var domain :| domain in m;
      var rest := m - {domain};
      ShasAreCounted(rest);
      forall sha | sha in Shas(m) ensures sha in Shas(rest) + {m[domain].sha256} {
        var x :| x in m && m[x].sha256 == sha;
        assert x == domain || (x in rest && rest[x] == m[x]);
      }
      assert Shas(m) == Shas(rest) + {m[domain].sha256};
      if HasDistinctShas(m) {
        forall other | other in rest ensures rest[other].sha256 != m[domain].sha256 {
          assert other in m && other != domain;
        }
        assert HasDistinctShas(rest);
      }
    }
  }

  lemma {:induction false} SuppliedAreCounted(supplied: seq<Artifact>)
    requires UniquelyCaptured(supplied)
    ensures |SuppliedShas(supplied)| == |supplied|
    decreases |supplied|
  {
    if supplied == [] {
      assert SuppliedShas(supplied) == {};
    } else {
      var n := |supplied| - 1;
      var rest, last := supplied[..n], supplied[n];
      assert supplied == rest + [last];
      SuppliedAreCounted(rest);
      assert SuppliedShas(supplied) == SuppliedShas(rest) + {last.sha256};
      assert last.sha256 !in SuppliedShas(rest) by {
        forall a | a in rest ensures a.sha256 != last.sha256 {
          var i :| 0 <= i < n && supplied[i] == a;
        }
      }
    }
  }

  lemma SameShaSameArtifact(supplied: seq<Artifact>, a: Artifact, b: Artifact)
    requires UniquelyCaptured(supplied) && a in supplied && b in supplied && a.sha256 == b.sha256
    ensures a == b
  {
    var i :| 0 <= i < |supplied| && supplied[i] == a;
    var j :| 0 <= j < |supplied| && supplied[j] == b;
  }

  /** The count the code makes: as many selected as supplied, and all with different digests. */
  predicate SelectsAll(supplied: seq<Artifact>, original: Registry, assessment: Registry) {
    && |original| + |assessment| == |supplied|
    && |Shas(original) + Shas(assessment)| == |original| + |assessment|
  }

  ghost predicate SelectsFrom(supplied: seq<Artifact>, m: Registry) {
    forall domain :: domain in m ==> m[domain] in supplied && m[domain].domain == domain
  }

  lemma RegistrySelects(aggregate: seq<Reference>, supplied: seq<Artifact>, m: Registry)
    requires IsRegistry(aggregate, supplied, m)
    ensures SelectsFrom(supplied, m)
  {
    forall domain | domain in m ensures m[domain] in supplied && m[domain].domain == domain {
      var i :| 0 <= i < |aggregate| && aggregate[i].domain == domain;
    }
  }

  lemma SelectionHasDistinctShas(supplied: seq<Artifact>, m: Registry)
    requires UniquelyCaptured(supplied) && SelectsFrom(supplied, m)
    ensures HasDistinctShas(m)
  {
    forall x, y | x in m && y in m && x != y ensures m[x].sha256 != m[y].sha256 {
      if m[x].sha256 == m[y].sha256 {
        SameShaSameArtifact(supplied, m[x], m[y]);
      }
    }
  }

  lemma UnionIsSupplied(supplied: seq<Artifact>, original: Registry, assessment: Registry)
    requires UniquelyCaptured(supplied) && SelectsFrom(supplied, original) && SelectsFrom(supplied, assessment)
    requires SelectsAll(supplied, original, assessment)
    ensures Shas(original) + Shas(assessment) == SuppliedShas(supplied) && Shas(original) !! Shas(assessment)
  {
    var a, b, all := Shas(original), Shas(assessment), SuppliedShas(supplied);
    ShasAreCounted(original);
    ShasAreCounted(assessment);
    SuppliedAreCounted(supplied);
    assert a + b <= all;
    SubsetOfSameSize(a + b, all);
    FullUnionIsDisjoint(a, b);
  }

  lemma FullUnionIsDisjoint<T>(a: set<T>, b: set<T>)
    requires |a + b| == |a| + |b|
    ensures a !! b
  {
    assert |a + b| == |a| + |b| - |a * b|;
    forall x | x in a ensures x !in b {
      assert x !in a * b;
    }
  }

  lemma {:induction false} SubsetOfSameSize<T>(a: set<T>, b: set<T>)
    requires a <= b && |a| >= |b|
    ensures a == b
  {
    if a != b {
      var x :| x in b && x !in a;
      assert a <= b - {x};
      SubsetSize(a, b - {x});
    }
  }

  lemma {:induction false} SubsetSize<T>(a: set<T>, b: set<T>)
    requires a <= b
    ensures |a| <= |b|
    decreases |a|
  {
    if a != {} {
      var x :| x in a;
      SubsetSize(a - {x}, b - {x});
    }
  }

  /** Counting digests is enough: the two registries partition what was supplied. */
  lemma CountingIsPartition(supplied: seq<Artifact>, original: Registry, assessment: Registry)
    requires UniquelyCaptured(supplied) && SelectsFrom(supplied, original) && SelectsFrom(supplied, assessment)
    ensures SelectsAll(supplied, original, assessment) <==> IsPartition(supplied, original, assessment)
  {
    if SelectsAll(supplied, original, assessment) {
      UnionIsSupplied(supplied, original, assessment);
      EverySuppliedIsSelected(supplied, original, assessment);
    }
    if IsPartition(supplied, original, assessment) {
      PartitionIsCounted(supplied, original, assessment);
    }
  }

  lemma EverySuppliedIsSelected(supplied: seq<Artifact>, original: Registry, assessment: Registry)
    requires UniquelyCaptured(supplied) && SelectsFrom(supplied, original) && SelectsFrom(supplied, assessment)
    requires Shas(original) + Shas(assessment) == SuppliedShas(supplied) && Shas(original) !! Shas(assessment)
    ensures IsPartition(supplied, original, assessment)
  {
    forall a | a in supplied
      ensures (a.domain in original && original[a.domain] == a) || (a.domain in assessment && assessment[a.domain] == a)
    {
      assert a.sha256 in SuppliedShas(supplied);
      if a.sha256 in Shas(original) {
        var domain :| domain in original && original[domain].sha256 == a.sha256;
        SameShaSameArtifact(supplied, a, original[domain]);
      } else {
        var domain :| domain in assessment && assessment[domain].sha256 == a.sha256;
        SameShaSameArtifact(supplied, a, assessment[domain]);
      }
    }
    forall x, y | x in original && y in assessment ensures original[x] != assessment[y] {
      assert original[x].sha256 in Shas(original) && assessment[y].sha256 in Shas(assessment);
    }
  }

  lemma PartitionIsDisjoint(supplied: seq<Artifact>, original: Registry, assessment: Registry)
    requires UniquelyCaptured(supplied) && IsPartition(supplied, original, assessment)
    ensures Shas(original) !! Shas(assessment)
  {
    forall sha | sha in Shas(original) && sha in Shas(assessment) ensures false {
      var x :| x in original && original[x].sha256 == sha;
      var y :| y in assessment && assessment[y].sha256 == sha;
      SameShaSameArtifact(supplied, original[x], assessment[y]);
    }
  }

  lemma PartitionCovers(supplied: seq<Artifact>, original: Registry, assessment: Registry)
    requires IsPartition(supplied, original, assessment)
    ensures Shas(original) + Shas(assessment) == SuppliedShas(supplied)
  {
    forall sha | sha in SuppliedShas(supplied) ensures sha in Shas(original) + Shas(assessment) {
      var a :| a in supplied && a.sha256 == sha;
    }
    forall sha | sha in Shas(original) + Shas(assessment) ensures sha in SuppliedShas(supplied) {
      if sha in Shas(original) {
        var x :| x in original && original[x].sha256 == sha;
      } else {
        var y :| y in assessment && assessment[y].sha256 == sha;
      }
    }
  }

  lemma PartitionIsCounted(supplied: seq<Artifact>, original: Registry, assessment: Registry)
    requires UniquelyCaptured(supplied) && SelectsFrom(supplied, original) && SelectsFrom(supplied, assessment)
    requires IsPartition(supplied, original, assessment)
    ensures SelectsAll(supplied, original, assessment)
  {
    SelectionHasDistinctShas(supplied, original);
    SelectionHasDistinctShas(supplied, assessment);
    ShasAreCounted(original);
    ShasAreCounted(assessment);
    SuppliedAreCounted(supplied);
    PartitionIsDisjoint(supplied, original, assessment);
    PartitionCovers(supplied, original, assessment);
    hide IsPartition, Shas, SuppliedShas, SelectsFrom, HasDistinctShas, UniquelyCaptured;
    assert |Shas(original) + Shas(assessment)| == |Shas(original)| + |Shas(assessment)|;
  }

  // ---- The pairing --------------------------------------------------------------------------

  method ResultPair(aggregates: seq<seq<Reference>>, supplied: seq<Artifact>)
    returns (r: Result<(Registry, Registry), Failure>)
    ensures r.Ok? ==> IsAcceptable(aggregates, supplied, r.value.0, r.value.1)
    ensures r.Err? ==> forall original, assessment :: !IsAcceptable(aggregates, supplied, original, assessment)
  {
    hide IsPartition, SelectsAll, IsRegistry, IsOriginalPair, UniquelyCaptured;
    if exists a :: a in supplied && a.version == OtherVersion {
      return Err(UnknownVersion);
    }
    var results, unique := Index(supplied);
    if |aggregates| != 2 || !unique {
      return Err(WrongCounts);
    }
    var first := AggregateResults(aggregates[0], results, supplied);
    if first.Err? {
      return Err(first.error);
    }
    var second := AggregateResults(aggregates[1], results, supplied);
    if second.Err? {
      return Err(second.error);
    }
    OnlyTheseRegistries(aggregates, supplied, first.value, second.value);
    var forwards, backwards := IsOriginalPair(first.value, second.value), IsOriginalPair(second.value, first.value);
    if forwards == backwards {
      return Err(NotOnePair);
    }
    var original, assessment := if forwards then first.value else second.value, if forwards then second.value else first.value;
    if exists domain :: domain in original && original[domain].version != V2 {
      return Err(OriginalVersion);
    }
    RegistrySelects(aggregates[0], supplied, first.value);
    RegistrySelects(aggregates[1], supplied, second.value);
    CountingIsPartition(supplied, original, assessment);
    if !SelectsAll(supplied, original, assessment) {
      return Err(UnusedResults);
    }
    return Ok((original, assessment));
  }

  lemma OnlyTheseRegistries(aggregates: seq<seq<Reference>>, supplied: seq<Artifact>, first: Registry, second: Registry)
    requires UniquelyCaptured(supplied) && |aggregates| == 2
    requires IsRegistry(aggregates[0], supplied, first) && IsRegistry(aggregates[1], supplied, second)
    ensures forall x, y :: IsPairing(aggregates, supplied, x, y) ==> (x, y) in {(first, second), (second, first)}
  {
    hide IsOriginalPair;
    forall x, y | IsPairing(aggregates, supplied, x, y) ensures (x, y) in {(first, second), (second, first)} {
      if IsRegistry(aggregates[0], supplied, x) && IsRegistry(aggregates[1], supplied, y) {
        RegistryIsUnique(aggregates[0], supplied, x, first);
        RegistryIsUnique(aggregates[1], supplied, y, second);
      } else {
        RegistryIsUnique(aggregates[1], supplied, x, second);
        RegistryIsUnique(aggregates[0], supplied, y, first);
      }
    }
  }

  /** The accepted reading is the only one. */
  lemma PairingIsUnique(aggregates: seq<seq<Reference>>, supplied: seq<Artifact>, a: Registry, b: Registry, x: Registry, y: Registry)
    requires IsAcceptable(aggregates, supplied, a, b) && IsAcceptable(aggregates, supplied, x, y)
    ensures a == x && b == y
  {
    hide IsPartition, UniquelyCaptured, IsOriginalPair, IsRegistry;
    if IsRegistry(aggregates[0], supplied, a) && IsRegistry(aggregates[1], supplied, b) {
      OnlyTheseRegistries(aggregates, supplied, a, b);
    } else {
      OnlyTheseRegistries(aggregates, supplied, b, a);
    }
  }
}

/** The comparison of an original result with its assessment, criterion by criterion. */
module ArchiveComparison {
  import opened Outcomes
  import opened Sequences

  datatype Source = Core | Product | OtherSource

  datatype Assertion = Assertion(
    id: string, source: Source, namespace: Option<string>, status: string, observed: Option<string>, unit: Option<string>,
    evidence: seq<string>)

  datatype Witness = Witness(id: string, evidence: seq<string>)

  datatype Coverage = Coverage(covered: seq<Witness>, uncovered: seq<string>)

  datatype Calibration = Unobserved | Selected(artifacts: multiset<(string, nat)>) | NotApplicable(reason: string)

  datatype Evaluation = Evaluation(
    implementation: string, version: string, configuration: (string, nat), environment: (string, nat),
    window: Option<string>, calibration: Option<Calibration>, coverage: Option<Coverage>)

  /** A result with the controls and the indexed evidence of its domain. */
  datatype Captured = Captured(
    assertions: seq<Assertion>, evaluation: Evaluation, isV3: bool, required: set<string>,
    rawSources: set<string>, metricSources: set<string>)

  datatype Failure = AmbiguousIdentities | NotClassifiedOnce | NoMetricSource | NoMeasuredValue | NoRawSource

  const SKIPPED := "skipped"

  // ---- Criteria ----------------------------------------------------------------------------

  /** Policy assertions of the platform are criteria only when a product states them. */
  predicate IsCriterion(a: Assertion, policies: set<string>) {
    a.source == Product || a.id !in policies
  }

  ghost predicate AreCriteria(assertions: seq<Assertion>, policies: set<string>, criteria: map<string, Assertion>) {
    && (forall i, j :: 0 <= i < j < |assertions| && IsCriterion(assertions[i], policies) && IsCriterion(assertions[j], policies) ==>
          assertions[i].id != assertions[j].id)
    && (forall i :: 0 <= i < |assertions| && IsCriterion(assertions[i], policies) ==>
          assertions[i].id in criteria && criteria[assertions[i].id] == assertions[i])
    && (forall id :: id in criteria ==> criteria[id].id == id && criteria[id] in assertions && IsCriterion(criteria[id], policies))
  }

  method Criteria(assertions: seq<Assertion>, policies: set<string>) returns (r: Result<map<string, Assertion>, Failure>)
    ensures r.Ok? ==> AreCriteria(assertions, policies, r.value)
    ensures r.Err? ==> forall criteria :: !AreCriteria(assertions, policies, criteria)
  {
    var criteria: map<string, Assertion> := map[];
    for i := 0 to |assertions|
      invariant AreCriteria(assertions[..i], policies, criteria)
    {
      var a := assertions[i];
      assert assertions[..i + 1] == assertions[..i] + [a];
      if IsCriterion(a, policies) {
        if a.id in criteria {
          var j :| 0 <= j < i && assertions[j] == criteria[a.id];
          return Err(AmbiguousIdentities);
        }
        criteria := criteria[a.id := a];
      }
    }
    assert assertions[..|assertions|] == assertions;
    return Ok(criteria);
  }

  /** Every assertion of a product, and every one that is no policy, is a criterion; a mere policy is not. */
  lemma CriteriaAreThese(assertions: seq<Assertion>, policies: set<string>, criteria: map<string, Assertion>)
    requires AreCriteria(assertions, policies, criteria)
    ensures forall a :: a in assertions && (a.source == Product || a.id !in policies) ==> a.id in criteria && criteria[a.id] == a
    ensures forall id :: id in criteria ==>
              criteria[id] in assertions && criteria[id].id == id && (criteria[id].source == Product || id !in policies)
  {
    forall a | a in assertions && (a.source == Product || a.id !in policies) ensures a.id in criteria && criteria[a.id] == a {
      var i :| 0 <= i < |assertions| && assertions[i] == a;
    }
  }

  // ---- Coverage -----------------------------------------------------------------------------

  function CoveredIds(c: Coverage): set<string> {
    set w | w in c.covered :: w.id
  }

  function Expected(r: Captured, criteria: map<string, Assertion>): set<string> {
    criteria.Keys + if r.isV3 then r.required else {}
  }

  /** Every expected assertion is classified exactly once, and what is covered was asserted. */
  predicate ClassifiesOnce(c: Coverage, expected: set<string>, criteria: map<string, Assertion>) {
    && (forall i, j :: 0 <= i < j < |c.covered| ==> c.covered[i].id != c.covered[j].id)
    && (forall i, j :: 0 <= i < j < |c.uncovered| ==> c.uncovered[i] != c.uncovered[j])
    && CoveredIds(c) !! Elements(c.uncovered) && CoveredIds(c) + Elements(c.uncovered) == expected
    && CoveredIds(c) <= criteria.Keys
  }

  /** A covered criterion is bound to its captured sources. */
  predicate IsWitnessed(w: Witness, a: Assertion, r: Captured) {
    var declared := Elements(w.evidence);
    && declared != {} && a.status != SKIPPED
    && if a.source == Core then |declared| == 1 && declared <= r.metricSources && a.observed.Some?
       else declared == Elements(a.evidence) * r.rawSources
  }

  datatype Covered = Covered(covered: set<string>, expected: set<string>, criteria: map<string, Assertion>)

  /** The evidence of a covered metric is its declared source. */
  function Bound(a: Assertion, w: Witness): Assertion {
    if a.source == Core && w.evidence != [] then a.(evidence := w.evidence[..1]) else a
  }

  ghost predicate CoverageHolds(r: Captured, criteria: map<string, Assertion>) {
    r.evaluation.coverage.Some? ==>
      && ClassifiesOnce(r.evaluation.coverage.value, Expected(r, criteria), criteria)
      && forall w :: w in r.evaluation.coverage.value.covered ==> IsWitnessed(w, criteria[w.id], r)
  }

  /** What coverage leaves of the criteria: the same assertions, with metrics bound to their source. */
  ghost predicate Binds(c: Coverage, n: nat, before: map<string, Assertion>, after: map<string, Assertion>)
    requires n <= |c.covered|
  {
    && after.Keys == before.Keys
    && (forall i :: 0 <= i < n && c.covered[i].id in before ==> after[c.covered[i].id] == Bound(before[c.covered[i].id], c.covered[i]))
    && (forall id :: id in before && (forall i :: 0 <= i < n ==> c.covered[i].id != id) ==> after[id] == before[id])
  }

  /** The covered and the expected assertions, and the criteria bound to their sources; without coverage nothing is covered. */
  ghost predicate Covers(r: Captured, criteria: map<string, Assertion>, c: Covered) {
    && c.criteria.Keys == criteria.Keys && criteria.Keys <= c.expected && c.covered <= criteria.Keys
    && if r.evaluation.coverage.Some? then
         && c.covered == CoveredIds(r.evaluation.coverage.value) && c.expected == Expected(r, criteria)
         && Binds(r.evaluation.coverage.value, |r.evaluation.coverage.value.covered|, criteria, c.criteria)
       else c == Covered({}, criteria.Keys, criteria)
  }

  lemma ClassifiedFacts(c: Coverage, expected: set<string>, criteria: map<string, Assertion>)
    requires ClassifiesOnce(c, expected, criteria)
    ensures forall w :: w in c.covered ==> w.id in criteria
    ensures forall i, j :: 0 <= i < j < |c.covered| ==> c.covered[i].id != c.covered[j].id
    ensures CoveredIds(c) <= criteria.Keys && CoveredIds(c) <= expected
  {
    forall w | w in c.covered ensures w.id in criteria {
      assert w.id in CoveredIds(c);
    }
  }

  method CheckCoverage(r: Captured, criteria: map<string, Assertion>) returns (result: Result<Covered, Failure>)
    ensures result.Ok? <==> CoverageHolds(r, criteria)
    ensures result.Ok? ==> Covers(r, criteria, result.value)
  {
    if r.evaluation.coverage.None? {
      return Ok(Covered({}, criteria.Keys, criteria));
    }
    var c := r.evaluation.coverage.value;
    var expected := Expected(r, criteria);
    if !ClassifiesOnce(c, expected, criteria) {
      return Err(NotClassifiedOnce);
    }
    ClassifiedFacts(c, expected, criteria);
    hide IsWitnessed, ClassifiesOnce, Binds, CoveredIds;
    var bound := BindCovered(c, r, criteria);
    return if bound.Err? then Err(bound.error) else Ok(Covered(CoveredIds(c), expected, bound.value));
  }

  lemma NothingBound(c: Coverage, criteria: map<string, Assertion>)
    ensures Binds(c, 0, criteria, criteria)
  {
  }

  lemma OneMoreBound(c: Coverage, i: nat, before: map<string, Assertion>, after: map<string, Assertion>)
    requires i < |c.covered| && Binds(c, i, before, after) && c.covered[i].id in before
    requires forall j :: 0 <= j < i ==> c.covered[j].id != c.covered[i].id
    ensures var w := c.covered[i]; Binds(c, i + 1, before, after[w.id := Bound(before[w.id], w)])
  {
    hide Bound;
  }

  method BindCovered(c: Coverage, r: Captured, criteria: map<string, Assertion>) returns (bound: Result<map<string, Assertion>, Failure>)
    requires forall w :: w in c.covered ==> w.id in criteria
    requires forall i, j :: 0 <= i < j < |c.covered| ==> c.covered[i].id != c.covered[j].id
    ensures bound.Ok? <==> forall w :: w in c.covered ==> IsWitnessed(w, criteria[w.id], r)
    ensures bound.Ok? ==> Binds(c, |c.covered|, criteria, bound.value)
  {
    hide IsWitnessed, Bound, Binds;
    var after := criteria;
    assert Binds(c, 0, criteria, criteria) by {
      NothingBound(c, criteria);
    }
    for i := 0 to |c.covered|
      invariant Binds(c, i, criteria, after)
      invariant forall j :: 0 <= j < i ==> IsWitnessed(c.covered[j], criteria[c.covered[j].id], r)
    {
      var w := c.covered[i];
      assert w in c.covered;
      var failure := CheckWitness(w, criteria[w.id], r);
      if failure.Some? {
        return Err(failure.value);
      }
      OneMoreBound(c, i, criteria, after);
      after := after[w.id := Bound(criteria[w.id], w)];
    }
    return Ok(after);
  }

  method CheckWitness(w: Witness, a: Assertion, r: Captured) returns (failure: Option<Failure>)
    ensures failure.None? <==> IsWitnessed(w, a, r)
  {
    var declared := Elements(w.evidence);
    var actual := declared;
    if a.source == Core {
      if |declared| != 1 || !(declared <= r.metricSources) {
        return Some(NoMetricSource);
      }
      if a.observed.None? {
        return Some(NoMeasuredValue);
      }
    } else {
      actual := Elements(a.evidence) * r.rawSources;
    }
    if actual == {} || declared != actual || a.status == SKIPPED {
      return Some(NoRawSource);
    }
    return None;
  }

  /** With coverage accepted, every expected assertion is on exactly one of the two lists, once, and nothing else is on them. */
  lemma ExpectedAreClassifiedOnce(r: Captured, criteria: map<string, Assertion>, id: string)
    requires CoverageHolds(r, criteria) && r.evaluation.coverage.Some?
    ensures var c := r.evaluation.coverage.value;
            var expected := id in criteria || (r.isV3 && id in r.required);
            && (expected <==> (exists i :: 0 <= i < |c.covered| && c.covered[i].id == id) || id in c.uncovered)
            && !((exists i :: 0 <= i < |c.covered| && c.covered[i].id == id) && id in c.uncovered)
            && (forall i, j :: 0 <= i < j < |c.covered| ==> c.covered[i].id != c.covered[j].id)
            && (forall i, j :: 0 <= i < j < |c.uncovered| ==> c.uncovered[i] != c.uncovered[j])
  {
    hide IsWitnessed;
    var c := r.evaluation.coverage.value;
    assert id in CoveredIds(c) <==> exists i :: 0 <= i < |c.covered| && c.covered[i].id == id by {
      if id in CoveredIds(c) {
        var w :| w in c.covered && w.id == id;
        var i :| 0 <= i < |c.covered| && c.covered[i] == w;
      }
    }
    assert id in Expected(r, criteria) <==> id in CoveredIds(c) || id in Elements(c.uncovered);
  }

  /** What a covered criterion rests on: a metric on its one declared metric source, any other on its declared raw sources. */
  lemma CoveredRestsOnSources(r: Captured, criteria: map<string, Assertion>, w: Witness)
    requires CoverageHolds(r, criteria) && r.evaluation.coverage.Some? && w in r.evaluation.coverage.value.covered
    ensures w.id in criteria && criteria[w.id].status != "skipped" && w.evidence != []
    ensures var a := criteria[w.id];
            if a.source == Core then
              && w.evidence[0] in r.metricSources && (forall e :: e in w.evidence ==> e == w.evidence[0]) && a.observed.Some?
              && Bound(a, w) == a.(evidence := [w.evidence[0]])
            else
              (forall e :: e in w.evidence <==> e in a.evidence && e in r.rawSources) && Bound(a, w) == a
  {
    var a := criteria[w.id];
    assert w.id in CoveredIds(r.evaluation.coverage.value);
    assert IsWitnessed(w, a, r);
    assert Elements<string>([]) == {};
    if a.source == Core {
      SingleSource(w.evidence);
    } else {
      forall e ensures e in w.evidence <==> e in a.evidence && e in r.rawSources {
        assert e in Elements(w.evidence) <==> e in Elements(a.evidence) * r.rawSources;
      }
    }
  }

  lemma SingleSource(evidence: seq<string>)
    requires |Elements(evidence)| == 1
    ensures evidence != [] && forall e :: e in evidence ==> e == evidence[0]
  {
    assert Elements<string>([]) == {};
    forall e | e in evidence ensures e == evidence[0] {
      if e != evidence[0] {
        TwoAreMore(Elements(evidence), e, evidence[0]);
      }
    }
  }

  lemma TwoAreMore(s: set<string>, x: string, y: string)
    requires x in s && y in s && x != y
    ensures |s| >= 2
  {
    assert |s - {x}| == |s| - 1 && y in s - {x};
  }

  // ---- Comparison --------------------------------------------------------------------------------

  datatype Reason =
    | MethodChanged | EnvironmentChanged | WindowChanged | CalibrationUnobserved | CalibrationChanged
    | CoverageUnobserved | NoCoveredAssertions | OutcomeChanged

  datatype ComparisonStatus = NotComparable | Different | Matched

  datatype Comparison = Comparison(status: ComparisonStatus, compared: set<string>, excluded: set<string>, reasons: set<Reason>)

  function CalibrationIdentity(e: Evaluation): Option<Calibration> {
    if e.calibration.None? || e.calibration.value.Unobserved? then None else e.calibration
  }

  function When(condition: bool, reason: Reason): set<Reason> {
    if condition then {reason} else {}
  }

  function ComparisonReasons(before: Evaluation, after: Evaluation): set<Reason> {
    var a, b := CalibrationIdentity(before), CalibrationIdentity(after);
    When((before.implementation, before.version, before.configuration) != (after.implementation, after.version, after.configuration), MethodChanged)
    + When(before.environment != after.environment, EnvironmentChanged)
    + When(before.window != after.window, WindowChanged)
    + When(a.None? || b.None?, CalibrationUnobserved)
    + When(a.Some? && b.Some? && a != b, CalibrationChanged)
    + When(before.coverage.None? || after.coverage.None?, CoverageUnobserved)
  }

  /** What is compared of an assertion; evidence is compared without regard to order. */
  datatype Compared = Compared(
    source: Source, namespace: Option<string>, status: string, observed: Option<string>, unit: Option<string>, evidence: multiset<string>)

  function OutcomeOf(a: Assertion): Compared {
    Compared(a.source, a.namespace, a.status, a.observed, a.unit, multiset(a.evidence))
  }

  function Compare(original: Covered, assessment: Covered, before: Evaluation, after: Evaluation): Comparison
    requires original.covered <= original.criteria.Keys && assessment.covered <= assessment.criteria.Keys
  {
    var covered := original.covered * assessment.covered;
    var reasons := ComparisonReasons(before, after) + When(covered == {}, NoCoveredAssertions);
    var compared := if reasons == {} then covered else {};
    var excluded := (original.expected + assessment.expected) - compared;
    if compared == {} then Comparison(NotComparable, {}, excluded, reasons)
    else if exists id :: id in compared && OutcomeOf(original.criteria[id]) != OutcomeOf(assessment.criteria[id])
    then Comparison(Different, compared, excluded, {OutcomeChanged})
    else Comparison(Matched, compared, excluded, {})
  }

  /** Evaluated alike: same method, environment and window, known and equal calibration, coverage on both sides. */
  predicate EvaluatedAlike(before: Evaluation, after: Evaluation) {
    && before.implementation == after.implementation && before.version == after.version
    && before.configuration == after.configuration && before.environment == after.environment && before.window == after.window
    && before.calibration.Some? && !before.calibration.value.Unobserved? && before.calibration == after.calibration
    && before.coverage.Some? && after.coverage.Some?
  }

  lemma ReasonsMeanDifferences(before: Evaluation, after: Evaluation)
    ensures ComparisonReasons(before, after) == {} <==> EvaluatedAlike(before, after)
  {
    var a, b := CalibrationIdentity(before), CalibrationIdentity(after);
    var reasons := ComparisonReasons(before, after);
    if !EvaluatedAlike(before, after) {
      if before.implementation != after.implementation || before.version != after.version || before.configuration != after.configuration {
        assert MethodChanged in reasons;
      } else if before.environment != after.environment {
        assert EnvironmentChanged in reasons;
      } else if before.window != after.window {
        assert WindowChanged in reasons;
      } else if before.coverage.None? || after.coverage.None? {
        assert CoverageUnobserved in reasons;
      } else if a.None? || b.None? {
        assert CalibrationUnobserved in reasons;
      } else {
        assert CalibrationChanged in reasons;
      }
    }
  }

  /** The same verdict on the same grounds; the order of the evidence does not matter. */
  predicate SameOutcome(a: Assertion, b: Assertion) {
    && a.source == b.source && a.namespace == b.namespace && a.status == b.status && a.observed == b.observed && a.unit == b.unit
    && multiset(a.evidence) == multiset(b.evidence)
  }

  lemma OutcomesAreCompared(a: Assertion, b: Assertion)
    ensures OutcomeOf(a) == OutcomeOf(b) <==> SameOutcome(a, b)
  {
  }

  /**
   The comparison of two sides: their expected assertions are split into
   compared and excluded ones, and it matches exactly when both were evaluated
   alike, cover something in common and agree on all of it.
   */
  ghost predicate IsComparison(c: Comparison, original: Covered, assessment: Covered, before: Evaluation, after: Evaluation)
    requires original.covered <= original.criteria.Keys && assessment.covered <= assessment.criteria.Keys
  {
    var common := original.covered * assessment.covered;
    && c.compared !! c.excluded && c.compared + c.excluded == original.expected + assessment.expected
    && original.criteria.Keys + assessment.criteria.Keys <= c.compared + c.excluded
    && (c.status != NotComparable <==> EvaluatedAlike(before, after) && common != {})
    && (c.status != NotComparable ==> c.compared == common)
    && (c.status == Matched <==>
          EvaluatedAlike(before, after) && common != {} &&
          forall id :: id in common ==> SameOutcome(original.criteria[id], assessment.criteria[id]))
    && (c.status == Matched <==> c.reasons == {})
  }

  /**
   Per domain: compared and excluded assertions split all criteria of both
   sides; a comparison takes place exactly when both were evaluated alike and
   cover something in common; and it matches exactly when, on top of that,
   every commonly covered outcome is equal, with no reason recorded.
   */
  lemma ComparisonIsComplete(original: Covered, assessment: Covered, before: Evaluation, after: Evaluation)
    requires original.covered <= original.criteria.Keys <= original.expected
    requires assessment.covered <= assessment.criteria.Keys <= assessment.expected
    ensures IsComparison(Compare(original, assessment, before, after), original, assessment, before, after)
  {
    forall a, b ensures OutcomeOf(a) == OutcomeOf(b) <==> SameOutcome(a, b) {
      OutcomesAreCompared(a, b);
    }
    hide ComparisonReasons, EvaluatedAlike, OutcomeOf, SameOutcome, When;
    var common, all := original.covered * assessment.covered, original.expected + assessment.expected;
    NothingSpeaksAgainst(before, after, common);
    NothingIsLost(common, all);
  }

  /** There is no reason against a comparison exactly when both sides were evaluated alike and cover something in common. */
  lemma NothingSpeaksAgainst(before: Evaluation, after: Evaluation, common: set<string>)
    ensures var reasons := ComparisonReasons(before, after) + When(common == {}, NoCoveredAssertions);
            reasons == {} <==> EvaluatedAlike(before, after) && common != {}
  {
    ReasonsMeanDifferences(before, after);
    hide ComparisonReasons, EvaluatedAlike;
    if common == {} {
      assert NoCoveredAssertions in When(true, NoCoveredAssertions);
    }
  }

  lemma NothingIsLost(common: set<string>, all: set<string>)
    requires common <= all
    ensures common !! all - common && common + (all - common) == all
  {
  }

  /** The criteria of a captured result, as its coverage leaves them. */
  ghost predicate CoverageOf(r: Captured, policies: set<string>, c: Covered) {
    exists criteria :: AreCriteria(r.assertions, policies, criteria) && CoverageHolds(r, criteria) && Covers(r, criteria, c)
  }

  /** Each criterion of a result is either compared or excluded. */
  predicate Splits(c: Comparison, assertions: seq<Assertion>, policies: set<string>) {
    forall a :: a in assertions && IsCriterion(a, policies) ==> (a.id in c.compared) != (a.id in c.excluded)
  }

  lemma CriteriaAreUnique(assertions: seq<Assertion>, policies: set<string>, a: map<string, Assertion>, b: map<string, Assertion>)
    requires AreCriteria(assertions, policies, a) && AreCriteria(assertions, policies, b)
    ensures a == b
  {
    hide IsCriterion;
    forall id | id in a ensures id in b && b[id] == a[id] {
      var i :| 0 <= i < |assertions| && assertions[i] == a[id];
    }
    forall id | id in b ensures id in a {
      var i :| 0 <= i < |assertions| && assertions[i] == b[id];
    }
  }

  /** Without coverage of its only criteria, a result has none. */
  lemma NoCoverage(r: Captured, policies: set<string>, criteria: map<string, Assertion>)
    requires AreCriteria(r.assertions, policies, criteria) && !CoverageHolds(r, criteria)
    ensures forall c :: !CoverageOf(r, policies, c)
  {
    hide AreCriteria, CoverageHolds, Covers;
    forall c ensures !CoverageOf(r, policies, c) {
      if CoverageOf(r, policies, c) {
        var other :| AreCriteria(r.assertions, policies, other) && CoverageHolds(r, other) && Covers(r, other, c);
        CriteriaAreUnique(r.assertions, policies, criteria, other);
      }
    }
  }

  lemma CriteriaAreSplit(assertions: seq<Assertion>, policies: set<string>, criteria: map<string, Assertion>, c: Comparison)
    requires AreCriteria(assertions, policies, criteria)
    requires criteria.Keys <= c.compared + c.excluded && c.compared !! c.excluded
    ensures Splits(c, assertions, policies)
  {
    hide IsCriterion;
  }

  /** The comparison of one domain, from the captured results of both sides. */
  method CompareDomain(original: Captured, assessment: Captured, policies: set<string>) returns (r: Result<Comparison, Failure>)
    ensures r.Ok? ==>
              exists left, right ::
                && CoverageOf(original, policies, left) && CoverageOf(assessment, policies, right)
                && left.covered <= left.criteria.Keys && right.covered <= right.criteria.Keys
                && IsComparison(r.value, left, right, original.evaluation, assessment.evaluation)
    ensures r.Ok? ==> Splits(r.value, original.assertions, policies) && Splits(r.value, assessment.assertions, policies)
    ensures r.Err? ==> (forall c :: !CoverageOf(original, policies, c)) || (forall c :: !CoverageOf(assessment, policies, c))
  {
    hide Compare, AreCriteria, EvaluatedAlike, CoverageHolds, Binds, IsCriterion;
    var before := Criteria(original.assertions, policies);
    if before.Err? {
      return Err(before.error);
    }
    var after := Criteria(assessment.assertions, policies);
    if after.Err? {
      return Err(after.error);
    }
    var left := CheckCoverage(original, before.value);
    if left.Err? {
      NoCoverage(original, policies, before.value);
      return Err(left.error);
    }
    var right := CheckCoverage(assessment, after.value);
    if right.Err? {
      NoCoverage(assessment, policies, after.value);
      return Err(right.error);
    }
    ComparisonIsComplete(left.value, right.value, original.evaluation, assessment.evaluation);
    assert CoverageOf(original, policies, left.value) && CoverageOf(assessment, policies, right.value);
    var comparison := Compare(left.value, right.value, original.evaluation, assessment.evaluation);
    CriteriaAreSplit(original.assertions, policies, before.value, comparison);
    CriteriaAreSplit(assessment.assertions, policies, after.value, comparison);
    hide CoverageOf, OutcomeOf, Splits;
    return Ok(comparison);
  }
}
