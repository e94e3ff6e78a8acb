/** Expansion preserves meaning, and the accepted comparison of two registries is a relaxation. */
module SchemaMeaning {
  import opened Outcomes
  import opened Json
  import opened SchemaModel
  import opened SchemaRegistry
  import opened SchemaCompare

  ghost predicate SameOracles(e: Semantics, f: Semantics) {
    e.literal == f.literal && e.matches == f.matches
  }

  /** The two schemas accept the same instances and mark the same children. */
  ghost predicate Equivalent(x: Schema, e: Semantics, y: Schema, f: Semantics) {
    && (forall v :: Accepts(x, e, v) == Accepts(y, f, v))
    && (forall v, c :: Marks(x, e, v, c) == Marks(y, f, v, c))
  }

  ghost predicate ValuesMatch(x: Value, e: Semantics, y: Value, f: Semantics) {
    match x
    case Lit(_) => y == x
    case One(s) => y.One? && Equivalent(s, e, y.schema, f)
    case Many(list) =>
      y.Many? && |list| == |y.schemas| && forall i :: 0 <= i < |list| ==> Equivalent(list[i], e, y.schemas[i], f)
    case Named(members) =>
      y.Named? && members.Keys == y.members.Keys && forall n :: n in members ==> Equivalent(members[n], e, y.members[n], f)
  }

  /** Metadata and addressing assert nothing and mark nothing. */
  predicate IsSilent(k: Keyword) {
    k.Metadata? || k.Addressing?
  }

  lemma SilentKeywordSaysNothing(node: Schema, k: Keyword, e: Semantics, v: Json)
    requires node.Node? && k in node.keywords && IsSilent(k)
    ensures Asserts(node, k, e, v) && forall c :: !Evaluates(node, k, e, v, c)
  {
    AssertsByShape(node, k, e, v);
    hide Asserts, Accepts, Marks;
  }

  /** Keyword by keyword the nodes mean the same, whichever silent keywords they have. */
  ghost predicate NodesMatch(x: Schema, e: Semantics, y: Schema, f: Semantics) {
    && x.Node? && y.Node? && SameOracles(e, f)
    && (forall k :: !IsSilent(k) ==> (k in x.keywords <==> k in y.keywords))
    && (forall k :: k in x.keywords && !IsSilent(k) ==> ValuesMatch(x.keywords[k], e, y.keywords[k], f))
    && x.reference.Some? == y.reference.Some?
    && (x.reference.Some? ==> Equivalent(x.reference.value, e, y.reference.value, f))
  }

  // ---- A node means what its keywords mean ------------------------------------------

  lemma AdjacentsMatch(x: Schema, e: Semantics, y: Schema, f: Semantics)
    requires NodesMatch(x, e, y, f)
    ensures PrefixLength(x) == PrefixLength(y)
    ensures HasIf(x) == HasIf(y)
    ensures HasIf(x) ==> Equivalent(x.keywords[If].schema, e, y.keywords[If].schema, f)
    ensures forall n: nat :: CountAllowed(x, n) == CountAllowed(y, n)
    ensures forall n :: IsAdditional(e, x, n) == IsAdditional(f, y, n)
  {
    forall k | k in {PrefixItems, If, MinContains, MaxContains, Properties, PatternProperties} && k in x.keywords
      ensures ValuesMatch(x.keywords[k], e, y.keywords[k], f)
    {
    }
    assert NamedAt(x, Properties).Keys == NamedAt(y, Properties).Keys;
    assert NamedAt(x, PatternProperties).Keys == NamedAt(y, PatternProperties).Keys;
    assert CountBound(x, MinContains) == CountBound(y, MinContains);
    assert CountBound(x, MaxContains) == CountBound(y, MaxContains);
  }

  lemma EvaluatesMatch(x: Schema, e: Semantics, y: Schema, f: Semantics, k: Keyword, v: Json, c: Child)
    requires NodesMatch(x, e, y, f) && !IsSilent(k) && k in x.keywords
    ensures Evaluates(x, k, e, v, c) == Evaluates(y, k, f, v, c)
  {
    hide Accepts, Marks, PrefixLength, IsAdditional;
    AdjacentsMatch(x, e, y, f);
    assert ValuesMatch(x.keywords[k], e, y.keywords[k], f);
  }

  lemma EvaluatedAlike(x: Schema, e: Semantics, y: Schema, f: Semantics, v: Json, c: Child)
    requires NodesMatch(x, e, y, f)
    ensures forall k :: k in x.keywords && Evaluates(x, k, e, v, c) ==> k in y.keywords && Evaluates(y, k, f, v, c)
    ensures forall k :: k in y.keywords && Evaluates(y, k, f, v, c) ==> k in x.keywords && Evaluates(x, k, e, v, c)
  {
    hide Evaluates, ValuesMatch;
    forall k | k in x.keywords || k in y.keywords
      ensures k in x.keywords && Evaluates(x, k, e, v, c) <==> k in y.keywords && Evaluates(y, k, f, v, c)
    {
      if !IsSilent(k) {
        EvaluatesMatch(x, e, y, f, k, v, c);
      } else {
        if k in x.keywords {
          SilentKeywordSaysNothing(x, k, e, v);
        }
        if k in y.keywords {
          SilentKeywordSaysNothing(y, k, f, v);
        }
      }
    }
  }

  lemma EvaluatedBesideMatches(x: Schema, e: Semantics, y: Schema, f: Semantics, k: Keyword, v: Json, c: Child)
    requires NodesMatch(x, e, y, f)
    ensures EvaluatedBeside(x, k, e, v, c) == EvaluatedBeside(y, k, f, v, c)
  {
    EvaluatedAlike(x, e, y, f, v, c);
    hide Evaluates, Marks;
  }

  lemma HitsMatch(s: Schema, e: Semantics, t: Schema, f: Semantics, items: seq<Json>)
    requires Equivalent(s, e, t, f)
    ensures Hits(s, e, items) == Hits(t, f, items)
  {
  }

  lemma UnevaluatedMatches(x: Schema, e: Semantics, y: Schema, f: Semantics, k: Keyword, v: Json)
    requires NodesMatch(x, e, y, f) && !IsSilent(k) && k in x.keywords && x.keywords[k].One?
    requires k == UnevaluatedProperties || k == UnevaluatedItems
    requires y.keywords[k].One? && Equivalent(x.keywords[k].schema, e, y.keywords[k].schema, f)
    ensures SingleHolds(x, k, e, v) == SingleHolds(y, k, f, v)
  {
    assert x.Node? && y.Node? && k in y.keywords;
    hide NodesMatch, Accepts, EvaluatedBeside;
    forall c ensures EvaluatedBeside(x, k, e, v, c) == EvaluatedBeside(y, k, f, v, c) {
      EvaluatedBesideMatches(x, e, y, f, k, v, c);
    }
  }

  lemma ItemKeywordsMatch(x: Schema, e: Semantics, y: Schema, f: Semantics, k: Keyword, v: Json)
    requires NodesMatch(x, e, y, f) && !IsSilent(k) && k in x.keywords && x.keywords[k].One? && k in {Items, Contains}
    requires y.keywords[k].One? && Equivalent(x.keywords[k].schema, e, y.keywords[k].schema, f)
    ensures SingleHolds(x, k, e, v) == SingleHolds(y, k, f, v)
  {
    hide Accepts, IsAdditional, CountAllowed, PrefixLength, Hits, ValuesMatch;
    assert x.Node? && y.Node? && k in y.keywords;
    AdjacentsMatch(x, e, y, f);
    hide NodesMatch;
    if v.Arr? {
      HitsMatch(x.keywords[k].schema, e, y.keywords[k].schema, f, v.items);
    }
  }

  lemma SingleMatches(x: Schema, e: Semantics, y: Schema, f: Semantics, k: Keyword, v: Json)
    requires NodesMatch(x, e, y, f) && !IsSilent(k) && k in x.keywords && x.keywords[k].One?
    requires y.keywords[k].One? && Equivalent(x.keywords[k].schema, e, y.keywords[k].schema, f)
    ensures SingleHolds(x, k, e, v) == SingleHolds(y, k, f, v)
  {
    hide Accepts, EvaluatedBeside, IsAdditional, CountAllowed, PrefixLength, ValuesMatch;
    assert x.Node? && y.Node? && k in y.keywords;
    AdjacentsMatch(x, e, y, f);
    hide NodesMatch;
    if k == UnevaluatedProperties || k == UnevaluatedItems {
      UnevaluatedMatches(x, e, y, f, k, v);
    } else if k == Items || k == Contains {
      ItemKeywordsMatch(x, e, y, f, k, v);
    }
  }

  lemma BranchesMatch(x: Schema, e: Semantics, y: Schema, f: Semantics, k: Keyword, v: Json)
    requires NodesMatch(x, e, y, f) && !IsSilent(k) && k in x.keywords && x.keywords[k].Many?
    ensures y.keywords[k].Many? && BranchesHold(x, k, e, v) == BranchesHold(y, k, f, v)
  {
    assert ValuesMatch(x.keywords[k], e, y.keywords[k], f);
    var s, t := x.keywords[k].schemas, y.keywords[k].schemas;
    assert |s| == |t|;
    hide NodesMatch, ValuesMatch, Accepts;
    forall i | 0 <= i < |s| ensures Equivalent(s[i], e, t[i], f) {
    }
  }

  lemma MembersMatch(x: Schema, e: Semantics, y: Schema, f: Semantics, k: Keyword, v: Json)
    requires NodesMatch(x, e, y, f) && !IsSilent(k) && k in x.keywords && x.keywords[k].Named?
    ensures y.keywords[k].Named? && MembersHold(x, k, e, v) == MembersHold(y, k, f, v)
  {
    assert ValuesMatch(x.keywords[k], e, y.keywords[k], f);
    var s, t := x.keywords[k].members, y.keywords[k].members;
    assert s.Keys == t.Keys && e.matches == f.matches;
    hide NodesMatch, ValuesMatch, Accepts;
    forall n | n in s ensures Equivalent(s[n], e, t[n], f) {
    }
  }

  lemma LiteralMatches(k: Keyword, json: Json, e: Semantics, f: Semantics, v: Json)
    requires SameOracles(e, f)
    ensures LiteralHolds(k, json, e, v) == LiteralHolds(k, json, f, v)
  {
  }

  lemma AssertsMatch(x: Schema, e: Semantics, y: Schema, f: Semantics, k: Keyword, v: Json)
    requires NodesMatch(x, e, y, f) && !IsSilent(k) && k in x.keywords
    ensures Asserts(x, k, e, v) == Asserts(y, k, f, v)
  {
    hide Equivalent, SingleHolds, BranchesHold, MembersHold, LiteralHolds, Accepts, Asserts;
    assert SameOracles(e, f) && y.Node? && k in y.keywords;
    assert ValuesMatch(x.keywords[k], e, y.keywords[k], f);
    assert x.keywords[k].Lit? ==> y.keywords[k] == x.keywords[k];
    assert x.keywords[k].One? ==> y.keywords[k].One? && Equivalent(x.keywords[k].schema, e, y.keywords[k].schema, f);
    AssertsByShape(x, k, e, v);
    AssertsByShape(y, k, f, v);
    match x.keywords[k]
    case Lit(json) =>
      LiteralMatches(k, json, e, f, v);
    case One(_) =>
      SingleMatches(x, e, y, f, k, v);
    case Many(_) =>
      BranchesMatch(x, e, y, f, k, v);
    case Named(_) =>
      MembersMatch(x, e, y, f, k, v);
  }

  lemma AssertedAlike(x: Schema, e: Semantics, y: Schema, f: Semantics, v: Json)
    requires NodesMatch(x, e, y, f)
    ensures (forall k :: k in x.keywords ==> Asserts(x, k, e, v)) <==> forall k :: k in y.keywords ==> Asserts(y, k, f, v)
  {
    hide Asserts, ValuesMatch;
    forall k | k in x.keywords || k in y.keywords
      ensures (k in x.keywords ==> Asserts(x, k, e, v)) <==> (k in y.keywords ==> Asserts(y, k, f, v))
    {
      if !IsSilent(k) {
        AssertsMatch(x, e, y, f, k, v);
      } else {
        if k in x.keywords {
          SilentKeywordSaysNothing(x, k, e, v);
        }
        if k in y.keywords {
          SilentKeywordSaysNothing(y, k, f, v);
        }
      }
    }
  }

  lemma MatchingNodesAreEquivalent(x: Schema, e: Semantics, y: Schema, f: Semantics)
    requires NodesMatch(x, e, y, f)
    ensures Equivalent(x, e, y, f)
  {
    hide Asserts, Evaluates;
    forall v ensures Accepts(x, e, v) == Accepts(y, f, v) {
      AssertedAlike(x, e, y, f, v);
    }
    forall v, c ensures Marks(x, e, v, c) == Marks(y, f, v, c) {
      EvaluatedAlike(x, e, y, f, v, c);
    }
  }

  lemma BareReferenceIsItsTarget(node: Schema, e: Semantics)
    requires node.Node?
    ensures Equivalent(node, e, Collapsed(node), e)
  {
  }

  // ---- Expansion ------------------------------------------------------------------------

  /** A schema object with every keyword as authored, and what its $ref string looks up to. */
  function Authored(g: Registry, id: Id): Schema
    requires ReferencesResolve(g) && id in g.nodes
  {
    Node(g.nodes[id].keywords, if g.nodes[id].ref.None? then None else Some(g.lookup[g.nodes[id].ref.value]))
  }

  /** The authored meaning: each object accepts and marks what all of its keywords and its reference say. */
  ghost predicate Describes(e: Semantics, g: Registry)
    requires ReferencesResolve(g)
  {
    forall id :: id in g.nodes ==> Equivalent(At(id), e, Authored(g, id), e)
  }

  lemma FilledHandleMatches(g: Registry, cache: map<Id, Schema>, from: Id, s: Schema, e: Semantics, f: Semantics)
    requires IsExpansion(g, cache) && IsHandle(g, s) && SameOracles(e, f)
    requires forall to :: Edge(g, from, to) ==> to in cache && Equivalent(At(to), e, cache[to], f)
    requires s.At? ==> Edge(g, from, s.id)
    ensures Equivalent(s, e, FillHandle(s, cache), f)
  {
  }

  lemma FilledShapeMatches(g: Registry, cache: map<Id, Schema>, id: Id, e: Semantics, f: Semantics)
    requires Wellformed(g) && IsExpansion(g, cache) && id in cache && SameOracles(e, f)
    requires forall to :: Edge(g, id, to) ==> to in cache && Equivalent(At(to), e, cache[to], f)
    ensures NodesMatch(Authored(g, id), e, FillNode(Shape(g, id), cache), f)
  {
    assert ReferencesResolve(g) && id in g.nodes;
    hide Equivalent, IsExpansion;
    var shape := Shape(g, id);
    forall k | k in shape.keywords
      ensures ValuesMatch(shape.keywords[k], e, FillValue(shape.keywords[k], cache), f)
    {
      forall to | Uses(shape.keywords[k], to) ensures Edge(g, id, to) {
        UsedIsNode(g, shape.keywords[k], to);
      }
      match shape.keywords[k]
      case One(s) =>
        assert s.At? ==> Uses(shape.keywords[k], s.id);
        FilledHandleMatches(g, cache, id, s, e, f);
      case Many(list) =>
        forall i | 0 <= i < |list| ensures Equivalent(list[i], e, FillHandle(list[i], cache), f) {
          assert list[i].At? ==> Uses(shape.keywords[k], list[i].id);
          FilledHandleMatches(g, cache, id, list[i], e, f);
        }
      case Named(members) =>
        forall n | n in members ensures Equivalent(members[n], e, FillHandle(members[n], cache), f) {
          assert members[n].At? ==> Uses(shape.keywords[k], members[n].id);
          FilledHandleMatches(g, cache, id, members[n], e, f);
        }
      case Lit(_) =>
    }
    if shape.reference.Some? {
      FilledHandleMatches(g, cache, id, shape.reference.value, e, f);
    }
  }

  /**
   Every expanded node accepts exactly the instances the authored object
   accepts, and marks the same children, under any meaning of the objects
   that follows their keywords. The expansion itself needs no meaning of ids.
   */
  lemma {:induction false} ExpansionPreservesMeaning(
      g: Registry, cache: map<Id, Schema>, rank: map<Id, nat>, id: Id, e: Semantics, f: Semantics)
    requires Wellformed(g) && IsExpansion(g, cache) && Ranks(g, cache.Keys, rank) && id in cache
    requires Describes(e, g) && SameOracles(e, f)
    ensures Equivalent(At(id), e, cache[id], f)
    decreases rank[id]
  {
    hide Equivalent, NodesMatch;
    forall to | Edge(g, id, to) ensures to in cache && Equivalent(At(to), e, cache[to], f) {
      assert Covered(g, id, cache.Keys);
      ExpansionPreservesMeaning(g, cache, rank, to, e, f);
    }
    var filled := FillNode(Shape(g, id), cache);
    FilledShapeMatches(g, cache, id, e, f);
    MatchingNodesAreEquivalent(Authored(g, id), e, filled, f);
    BareReferenceIsItsTarget(filled, f);
    EquivalenceChains(At(id), e, Authored(g, id), e, filled, f);
    EquivalenceChains(At(id), e, filled, f, cache[id], f);
  }

  lemma EquivalenceChains(x: Schema, e: Semantics, y: Schema, f: Semantics, z: Schema, h: Semantics)
    requires Equivalent(x, e, y, f) && Equivalent(y, f, z, h)
    ensures Equivalent(x, e, z, h)
  {
  }

  /** An expanded registry has a meaning: reading every object as its expansion follows all keywords. */
  lemma ExpansionGivesMeaning(g: Registry, cache: map<Id, Schema>, base: Semantics) returns (e: Semantics)
    requires Wellformed(g) && IsExpansion(g, cache) && cache.Keys == g.nodes.Keys
    ensures SameOracles(e, base) && Describes(e, g)
  {
    e := base.(
      accepts := (id, v) => id in cache && Accepts(cache[id], base, v),
      evaluates := (id, v, c) => id in cache && Marks(cache[id], base, v, c));
    forall to | to in cache ensures Equivalent(At(to), e, cache[to], base) {
    }
    ReadingFollowsKeywords(g, cache, e, base);
  }

  lemma ReadingFollowsKeywords(g: Registry, cache: map<Id, Schema>, e: Semantics, f: Semantics)
    requires Wellformed(g) && IsExpansion(g, cache) && cache.Keys == g.nodes.Keys && SameOracles(e, f)
    requires forall to :: to in cache ==> Equivalent(At(to), e, cache[to], f)
    ensures Describes(e, g)
  {
    hide Equivalent, NodesMatch, Authored, FillNode, Shape, Collapsed;
    forall id | id in g.nodes ensures Equivalent(At(id), e, Authored(g, id), e) {
      var filled := FillNode(Shape(g, id), cache);
      FilledShapeMatches(g, cache, id, e, f);
      MatchingNodesAreEquivalent(Authored(g, id), e, filled, f);
      BareReferenceIsItsTarget(filled, f);
      MeaningsAgree(At(id), Authored(g, id), e, filled, cache[id], f);
    }
  }

  lemma MeaningsAgree(handle: Schema, authored: Schema, e: Semantics, filled: Schema, expansion: Schema, f: Semantics)
    requires Equivalent(handle, e, expansion, f) && Equivalent(authored, e, filled, f) && Equivalent(filled, f, expansion, f)
    ensures Equivalent(handle, e, authored, e)
  {
  }

  /** The whole check: what the old registry accepts under a name, the new one accepts too. */
  lemma AcceptedReleaseIsRelaxation(
      g: Registry, before: map<Id, Schema>, rank: map<Id, nat>, e: Semantics, oldRoot: Id,
      h: Registry, after: map<Id, Schema>, later: map<Id, nat>, f: Semantics, newRoot: Id,
      context: Context, instance: Json)
    requires Wellformed(g) && IsExpansion(g, before) && Ranks(g, before.Keys, rank) && Describes(e, g)
    requires Wellformed(h) && IsExpansion(h, after) && Ranks(h, after.Keys, later) && Describes(f, h)
    requires SameOracles(e, f) && oldRoot in before && newRoot in after
    requires Compare(before[oldRoot], after[newRoot], context)
    requires e.accepts(oldRoot, instance)
    ensures f.accepts(newRoot, instance)
  {
    hide IsExpansion, Ranks, Wellformed, Describes, Compare;
    ExpansionPreservesMeaning(g, before, rank, oldRoot, e, f);
    ExpansionPreservesMeaning(h, after, later, newRoot, f, f);
    assert Accepts(At(oldRoot), e, instance) && Accepts(before[oldRoot], f, instance);
    AcceptedChangeIsRelaxation(before[oldRoot], after[newRoot], context, f, instance);
    assert Accepts(At(newRoot), f, instance);
  }

  // ---- What an expansion depends on -------------------------------------------------------

  /** The two registries differ at most in metadata and addressing. */
  ghost predicate SaysTheSame(g: Registry, h: Registry) {
    && g.nodes.Keys == h.nodes.Keys && g.lookup == h.lookup
    && forall id :: id in g.nodes ==>
         && g.nodes[id].ref == h.nodes[id].ref
         && forall k :: !IsSilent(k) ==>
              && (k in g.nodes[id].keywords <==> k in h.nodes[id].keywords)
              && (k in g.nodes[id].keywords ==> g.nodes[id].keywords[k] == h.nodes[id].keywords[k])
  }

  lemma SameShape(g: Registry, h: Registry, id: Id)
    requires SaysTheSame(g, h) && ReferencesResolve(g) && ReferencesResolve(h) && id in g.nodes
    ensures Shape(g, id) == Shape(h, id)
  {
    assert Shape(g, id).keywords == Shape(h, id).keywords;
  }

  lemma FilledAlike(g: Registry, id: Id, cache: map<Id, Schema>, other: map<Id, Schema>)
    requires ReferencesResolve(g) && id in g.nodes && Wellformed(g)
    requires forall to :: Edge(g, id, to) ==> to in cache && to in other && cache[to] == other[to]
    ensures FillNode(Shape(g, id), cache) == FillNode(Shape(g, id), other)
  {
    var shape := Shape(g, id);
    forall k | k in shape.keywords ensures FillValue(shape.keywords[k], cache) == FillValue(shape.keywords[k], other) {
      forall to | Uses(shape.keywords[k], to) ensures to in cache && to in other && cache[to] == other[to] {
        UsedIsNode(g, shape.keywords[k], to);
        assert Edge(g, id, to);
      }
      FilledValueIsStable(shape.keywords[k], cache, other);
    }
    if shape.reference.Some? && shape.reference.value.At? {
      assert Edge(g, id, shape.reference.value.id);
    }
  }

  /** Metadata and addressing leave no trace in an expansion, and there is only one. */
  lemma {:induction false} ExpansionIgnoresMetadata(
      g: Registry, cache: map<Id, Schema>, rank: map<Id, nat>, h: Registry, other: map<Id, Schema>, id: Id)
    requires Wellformed(g) && SaysTheSame(g, h) && IsExpansion(g, cache) && IsExpansion(h, other)
    requires Ranks(g, cache.Keys, rank) && id in cache && id in other
    ensures cache[id] == other[id]
    decreases rank[id]
  {
    hide FillNode, Collapsed, SaysTheSame, Wellformed;
    forall to | Edge(g, id, to) ensures to in cache && to in other && cache[to] == other[to] {
      assert Covered(g, id, cache.Keys) && Covered(h, id, other.Keys);
      SameEdges(g, h, id, to);
      ExpansionIgnoresMetadata(g, cache, rank, h, other, to);
    }
    SameShape(g, h, id);
    FilledAlike(g, id, cache, other);
  }

  lemma SameEdges(g: Registry, h: Registry, from: Id, to: Id)
    requires SaysTheSame(g, h) && Edge(g, from, to) && ReferencesResolve(h)
    ensures Edge(h, from, to)
  {
    SameShape(g, h, from);
    hide Shape;
  }

  /** An object that is only a reference expands to what its target expands to, so inlining it is no change. */
  lemma BareReferenceExpandsToTarget(g: Registry, cache: map<Id, Schema>, id: Id, to: Id)
    requires IsExpansion(g, cache) && id in cache && g.nodes[id].ref.Some? && g.lookup[g.nodes[id].ref.value] == At(to)
    requires forall k :: k in g.nodes[id].keywords ==> IsSilent(k)
    ensures to in cache && cache[id] == cache[to]
  {
    var shape := Shape(g, id);
    assert shape.keywords == map[];
    assert IsHandle(g, At(to)) && Edge(g, id, to);
    assert Covered(g, id, cache.Keys);
    assert FillNode(shape, cache).keywords == map[];
  }

  /** No walk through an expanded registry returns to where it started. */
  lemma ExpandedRegistryIsAcyclic(g: Registry, cache: map<Id, Schema>, rank: map<Id, nat>, walk: seq<Id>)
    requires IsExpansion(g, cache) && cache.Keys == g.nodes.Keys && Ranks(g, cache.Keys, rank)
    requires IsWalk(g, walk)
    ensures !Repeats(walk)
  {
    hide IsExpansion, Ranks, Edge;
    forall i, j | 0 <= i < j < |walk| ensures walk[i] != walk[j] {
      var part := walk[i..j + 1];
      forall p | 0 < p < |part| ensures Edge(g, part[p - 1], part[p]) {
        assert Edge(g, walk[i + p - 1], walk[i + p]);
      }
      RankFallsAlongWalks(g, cache.Keys, rank, part);
    }
  }
}
