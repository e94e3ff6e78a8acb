/** Registries of schema objects that refer to each other by identity, and walks through them. */
module SchemaRegistry {
  import opened Outcomes
  import opened SchemaModel

  /** A schema object as authored: its subschemas are other objects or booleans, its $ref is a string. */
  datatype RawNode = RawNode(keywords: map<Keyword, Value>, ref: Option<string>)

  datatype Registry = Registry(nodes: map<Id, RawNode>, lookup: map<string, Schema>)

  predicate IsHandle(g: Registry, s: Schema) {
    s.Always? || (s.At? && s.id in g.nodes)
  }

  predicate HoldsHandles(g: Registry, v: Value) {
    match v
    case Lit(_) => true
    case One(s) => IsHandle(g, s)
    case Many(list) => forall i :: 0 <= i < |list| ==> IsHandle(g, list[i])
    case Named(members) => forall n :: n in members ==> IsHandle(g, members[n])
  }

  predicate IsApplied(k: Keyword) {
    !k.Metadata? && !k.Addressing?
  }

  /** Subschemas are themselves schema locations. */
  predicate Wellformed(g: Registry) {
    forall id, k :: id in g.nodes && k in g.nodes[id].keywords ==> HoldsHandles(g, g.nodes[id].keywords[k])
  }

  predicate ReferencesResolve(g: Registry) {
    forall id :: id in g.nodes && g.nodes[id].ref.Some? ==>
      g.nodes[id].ref.value in g.lookup && IsHandle(g, g.lookup[g.nodes[id].ref.value])
  }

  /** One object with its metadata dropped and its reference looked up, but nothing below it expanded. */
  function Shape(g: Registry, id: Id): Schema
    requires ReferencesResolve(g) && id in g.nodes
    ensures Shape(g, id).Node?
  {
    var node := g.nodes[id];
    Node(map k | k in node.keywords && IsApplied(k) :: node.keywords[k],
         if node.ref.Some? then Some(g.lookup[node.ref.value]) else None)
  }

  predicate Uses(v: Value, id: Id) {
    match v
    case Lit(_) => false
    case One(s) => s == At(id)
    case Many(list) => At(id) in list
    case Named(members) => exists n :: n in members && members[n] == At(id)
  }

  /** A keyword or the reference of one object leads to the other. */
  ghost predicate Edge(g: Registry, from: Id, to: Id) {
    && ReferencesResolve(g) && from in g.nodes && to in g.nodes
    && var shape := Shape(g, from);
       || shape.reference == Some(At(to))
       || exists k :: k in shape.keywords && Uses(shape.keywords[k], to)
  }

  ghost predicate IsWalk(g: Registry, walk: seq<Id>) {
    && (forall i :: 0 <= i < |walk| ==> walk[i] in g.nodes)
    && forall i :: 0 < i < |walk| ==> Edge(g, walk[i - 1], walk[i])
  }

  ghost predicate Repeats(walk: seq<Id>) {
    exists i, j :: 0 <= i < j < |walk| && walk[i] == walk[j]
  }

  // ---- Filling in expansions ----------------------------------------------------

  function FillHandle(s: Schema, cache: map<Id, Schema>): Schema {
    if s.At? && s.id in cache then cache[s.id] else s
  }

  function FillValue(v: Value, cache: map<Id, Schema>): Value {
    match v
    case Lit(_) => v
    case One(s) => One(FillHandle(s, cache))
    case Many(list) => Many(seq(|list|, i requires 0 <= i < |list| => FillHandle(list[i], cache)))
    case Named(members) => Named(map n | n in members :: FillHandle(members[n], cache))
  }

  function FillReference(r: Option<Schema>, cache: map<Id, Schema>): Option<Schema> {
    if r.Some? then Some(FillHandle(r.value, cache)) else None
  }

  function FillNode(node: Schema, cache: map<Id, Schema>): Schema
    requires node.Node?
    ensures FillNode(node, cache).Node?
  {
    Node(map k | k in node.keywords :: FillValue(node.keywords[k], cache), FillReference(node.reference, cache))
  }

  /** A bare reference is its target; siblings stay beside the reference. */
  function Collapsed(node: Schema): Schema
    requires node.Node?
  {
    if node.reference.Some? && node.keywords == map[] then node.reference.value else node
  }

  /** Every object an expansion of this one needs is already in the table. */
  ghost predicate Covered(g: Registry, id: Id, known: set<Id>) {
    forall to :: Edge(g, id, to) ==> to in known
  }

  ghost predicate IsExpansion(g: Registry, cache: map<Id, Schema>) {
    && ReferencesResolve(g)
    && cache.Keys <= g.nodes.Keys
    && forall id :: id in cache ==>
         Covered(g, id, cache.Keys) && cache[id] == Collapsed(FillNode(Shape(g, id), cache))
  }

  /** Each edge leads to an object that entered the table earlier. */
  ghost predicate Ranks(g: Registry, known: set<Id>, rank: map<Id, nat>) {
    && rank.Keys == known
    && (forall id :: id in known ==> rank[id] < |known|)
    && forall id, to :: id in known && to in known && Edge(g, id, to) ==> rank[to] < rank[id]
  }

  ghost predicate Extends(before: map<Id, Schema>, after: map<Id, Schema>) {
    before.Keys <= after.Keys && forall id :: id in before ==> after[id] == before[id]
  }

  lemma FilledValueIsStable(v: Value, cache: map<Id, Schema>, later: map<Id, Schema>)
    requires forall id :: Uses(v, id) ==> id in cache && id in later && later[id] == cache[id]
    ensures FillValue(v, later) == FillValue(v, cache)
  {
    match v
    case One(s) =>
      assert s.At? ==> Uses(v, s.id);
    case Many(list) =>
      forall i | 0 <= i < |list| ensures FillHandle(list[i], later) == FillHandle(list[i], cache) {
        assert list[i].At? ==> Uses(v, list[i].id);
      }
    case Named(members) =>
      forall n | n in members ensures FillHandle(members[n], later) == FillHandle(members[n], cache) {
        assert members[n].At? ==> Uses(v, members[n].id);
      }
    case Lit(_) =>
  }

  lemma FilledNodeIsStable(g: Registry, id: Id, cache: map<Id, Schema>, later: map<Id, Schema>)
    requires ReferencesResolve(g) && id in g.nodes && Wellformed(g)
    requires Extends(cache, later) && Covered(g, id, cache.Keys)
    ensures FillNode(Shape(g, id), later) == FillNode(Shape(g, id), cache)
  {
    var shape := Shape(g, id);
    forall k | k in shape.keywords
      ensures FillValue(shape.keywords[k], later) == FillValue(shape.keywords[k], cache)
    {
      forall to | Uses(shape.keywords[k], to) ensures to in cache {
        UsedIsNode(g, shape.keywords[k], to);
        assert Edge(g, id, to);
      }
      FilledValueIsStable(shape.keywords[k], cache, later);
    }
    if shape.reference.Some? && shape.reference.value.At? {
      assert Edge(g, id, shape.reference.value.id);
    }
  }

  lemma UsedIsNode(g: Registry, v: Value, id: Id)
    requires HoldsHandles(g, v) && Uses(v, id)
    ensures id in g.nodes
  {
    match v
    case Many(list) =>
      var i :| 0 <= i < |list| && list[i] == At(id);
      assert IsHandle(g, list[i]);
    case Named(members) =>
      var n :| n in members && members[n] == At(id);
      assert IsHandle(g, members[n]);
    case One(s) =>
      assert IsHandle(g, s);
    case Lit(_) =>
  }

  /** Storing one more expansion keeps the table an expansion and the ranks in order. */
  lemma TableGrows(g: Registry, cache: map<Id, Schema>, rank: map<Id, nat>, id: Id)
    requires Wellformed(g) && IsExpansion(g, cache) && Ranks(g, cache.Keys, rank)
    requires id in g.nodes && id !in cache && Covered(g, id, cache.Keys)
    ensures var later := cache[id := Collapsed(FillNode(Shape(g, id), cache))];
            && IsExpansion(g, later) && Extends(cache, later)
            && Ranks(g, later.Keys, rank[id := |cache.Keys|])
  {
    ExpansionGrows(g, cache, id);
    var later := cache[id := Collapsed(FillNode(Shape(g, id), cache))];
    hide Shape, Edge, Wellformed, FillNode, Collapsed, Covered, Ranks, ReferencesResolve;
    assert later.Keys == cache.Keys + {id};
    RanksGrow(g, cache.Keys, rank, id);
  }

  lemma ExpansionGrows(g: Registry, cache: map<Id, Schema>, id: Id)
    requires Wellformed(g) && IsExpansion(g, cache)
    requires id in g.nodes && id !in cache && Covered(g, id, cache.Keys)
    ensures var later := cache[id := Collapsed(FillNode(Shape(g, id), cache))];
            IsExpansion(g, later) && Extends(cache, later)
  {
    var later := cache[id := Collapsed(FillNode(Shape(g, id), cache))];
    assert ReferencesResolve(g);
    hide Shape, Edge, Wellformed, FillNode, Collapsed, Covered, ReferencesResolve;
    assert later.Keys == cache.Keys + {id} && Extends(cache, later);
    forall other | other in later
      ensures Covered(g, other, cache.Keys) && Covered(g, other, later.Keys)
      ensures later[other] == Collapsed(FillNode(Shape(g, other), later))
    {
      CoverageGrows(g, other, cache.Keys, later.Keys);
      FilledNodeIsStable(g, other, cache, later);
    }
  }

  lemma CoverageGrows(g: Registry, id: Id, known: set<Id>, more: set<Id>)
    requires Covered(g, id, known) && known <= more
    ensures Covered(g, id, more)
  {
    hide Edge;
  }

  lemma RanksGrow(g: Registry, known: set<Id>, rank: map<Id, nat>, id: Id)
    requires Ranks(g, known, rank) && id !in known
    requires forall other :: other in known + {id} ==> Covered(g, other, known)
    ensures Ranks(g, known + {id}, rank[id := |known|])
  {
    hide Edge;
    forall from, to | from in known + {id} && Edge(g, from, to)
      ensures to in known
    {
      assert Covered(g, from, known);
    }
  }

  /** An expanded registry has no cycle: no walk of at least one step returns to its start. */
  lemma {:induction false} RankFallsAlongWalks(g: Registry, known: set<Id>, rank: map<Id, nat>, walk: seq<Id>)
    requires Ranks(g, known, rank) && IsWalk(g, walk) && |walk| >= 2
    requires forall id :: id in g.nodes ==> id in known
    ensures rank[walk[|walk| - 1]] < rank[walk[0]]
    decreases |walk|
  {
    var last := |walk| - 1;
    assert Edge(g, walk[last - 1], walk[last]);
    if last > 1 {
      RankFallsAlongWalks(g, known, rank, walk[..last]);
    }
  }
}

/** The table of expansions, filled by a traversal that rejects cycles and deep nesting. */
module SchemaExpansion {
  import opened Outcomes
  import opened SchemaModel
  import opened SchemaRegistry

  datatype Rejection = CycleOrDepth | UnsupportedKeyword | Unresolvable

  const MAX_DEPTH: nat := 128

  /** Evidence for a refusal: a walk that comes back to itself or has more than 128 objects. */
  ghost predicate HasBadWalk(g: Registry) {
    exists walk :: IsWalk(g, walk) && (Repeats(walk) || |walk| == 129)
  }

  ghost predicate IsActivePath(g: Registry, path: seq<Id>, active: set<Id>) {
    && IsWalk(g, path)
    && (forall id :: id in active <==> id in path)
    && |path| == |active| <= MAX_DEPTH
  }

  class Expansion {
    const registry: Registry
    var cache: map<Id, Schema>
    ghost var rank: map<Id, nat>

    ghost predicate Valid()
      reads this
    {
      Wellformed(registry) && ReferencesResolve(registry) && IsExpansion(registry, cache) && Ranks(registry, cache.Keys, rank)
    }

    constructor (registry: Registry)
      requires Wellformed(registry) && ReferencesResolve(registry)
      ensures Valid() && this.registry == registry && cache == map[]
    {
      this.registry := registry;
      cache, rank := map[], map[];
    }

    /** Every schema object, used or not, is expanded; success proves the registry acyclic. */
    method ExpandAll() returns (rejection: Option<Rejection>)
      requires Valid()
      modifies this
      ensures Valid()
      ensures rejection.None? ==> cache.Keys == registry.nodes.Keys
      ensures rejection.None? ==> forall id, name :: id in registry.nodes ==> Unsupported(name) !in registry.nodes[id].keywords
      ensures rejection == Some(CycleOrDepth) ==> HasBadWalk(registry)
      ensures rejection == Some(UnsupportedKeyword) ==>
                exists id, name :: id in registry.nodes && Unsupported(name) in registry.nodes[id].keywords
      ensures rejection != Some(Unresolvable)
    {
      hide Ranks, Wellformed, HasBadWalk, Covered, Shape, ReferencesResolve;
      var pending := registry.nodes.Keys;
      while pending != {}
        invariant Valid() && pending <= registry.nodes.Keys
        invariant forall id :: id in registry.nodes && id !in pending ==>
                    id in cache && forall name :: Unsupported(name) !in registry.nodes[id].keywords
        decreases pending
      {
        var id :| id in pending;
        if k :| k in registry.nodes[id].keywords && k.Unsupported? {
          assert Unsupported(k.name) in registry.nodes[id].keywords;
          return Some(UnsupportedKeyword);
        }
        var visited := Visit(At(id), {}, []);
        if visited.Err? {
          return Some(CycleOrDepth);
        }
        pending := pending - {id};
      }
      rejection := None;
    }

    method Visit(value: Schema, active: set<Id>, ghost path: seq<Id>) returns (r: Result<Schema, Rejection>)
      requires Valid() && IsHandle(registry, value) && IsActivePath(registry, path, active)
      requires value.At? && path != [] ==> Edge(registry, path[|path| - 1], value.id)
      modifies this
      ensures Valid() && Extends(old(cache), cache)
      ensures forall id :: id in active && id !in old(cache) ==> id !in cache
      ensures r.Ok? ==> (value.At? ==> value.id in cache) && r.value == FillHandle(value, cache)
      ensures r.Err? ==> r.error == CycleOrDepth && HasBadWalk(registry)
      decreases MAX_DEPTH - |active|, 0
    {
      hide IsExpansion, Ranks, Wellformed, Covered, Edge, Shape;
      if value.Always? {
        return Ok(value);
      }
      var id := value.id;
      ghost var deeper := path + [id];
      if id in active || |active| >= MAX_DEPTH {
        if id in active {
          ghost var i :| 0 <= i < |path| && path[i] == id;
          assert deeper[i] == deeper[|path|];
        }
        assert IsWalk(registry, deeper);
        return Err(CycleOrDepth);
      }
      if id !in cache {
        assert IsActivePath(registry, deeper, active + {id});
        var expanded := Expand(id, active + {id}, deeper);
        if expanded.Err? {
          return expanded;
        }
        TableGrows(registry, cache, rank, id);
        rank := rank[id := |cache.Keys|];
        cache := cache[id := expanded.value];
      }
      r := Ok(cache[id]);
    }

    method VisitValue(value: Value, active: set<Id>, ghost path: seq<Id>) returns (r: Result<Value, Rejection>)
      requires Valid() && HoldsHandles(registry, value) && IsActivePath(registry, path, active) && path != []
      requires forall id :: Uses(value, id) ==> Edge(registry, path[|path| - 1], id)
      modifies this
      ensures Valid() && Extends(old(cache), cache)
      ensures forall id :: id in active && id !in old(cache) ==> id !in cache
      ensures r.Ok? ==> (forall id :: Uses(value, id) ==> id in cache) && r.value == FillValue(value, cache)
      ensures r.Err? ==> r.error == CycleOrDepth && HasBadWalk(registry)
      decreases MAX_DEPTH - |active|, 1
    {
      hide IsExpansion, Ranks, Wellformed, Edge, IsActivePath;
      match value
      case Lit(_) =>
        r := Ok(value);
      case One(s) =>
        assert s.At? ==> Uses(value, s.id);
        var visited := Visit(s, active, path);
        if visited.Err? {
          return Err(visited.error);
        }
        r := Ok(One(visited.value));
      case Many(list) =>
        var items: seq<Schema> := [];
        for i := 0 to |list|
          invariant Valid() && Extends(old(cache), cache)
          invariant forall id :: id in active && id !in old(cache) ==> id !in cache
          invariant |items| == i
          invariant forall j :: 0 <= j < i ==> (list[j].At? ==> list[j].id in cache) && items[j] == FillHandle(list[j], cache)
        {
          assert list[i].At? ==> Uses(value, list[i].id);
          var visited := Visit(list[i], active, path);
          if visited.Err? {
            return Err(visited.error);
          }
          items := items + [visited.value];
        }
        r := Ok(Many(items));
        assert items == FillValue(value, cache).schemas;
      case Named(members) =>
        var expanded: map<string, Schema> := map[];
        var pending := members.Keys;
        while pending != {}
          invariant Valid() && Extends(old(cache), cache)
          invariant forall id :: id in active && id !in old(cache) ==> id !in cache
          invariant pending <= members.Keys && expanded.Keys == members.Keys - pending
          invariant forall n :: n in expanded ==>
                      (members[n].At? ==> members[n].id in cache) && expanded[n] == FillHandle(members[n], cache)
          decreases pending
        {
          var n :| n in pending;
          assert members[n].At? ==> Uses(value, members[n].id);
          var visited := Visit(members[n], active, path);
          if visited.Err? {
            return Err(visited.error);
          }
          expanded := expanded[n := visited.value];
          pending := pending - {n};
        }
        r := Ok(Named(expanded));
        assert expanded == FillValue(value, cache).members;
    }

    method Expand(id: Id, active: set<Id>, ghost path: seq<Id>) returns (r: Result<Schema, Rejection>)
      requires Valid() && id in registry.nodes && id !in cache
      requires IsActivePath(registry, path, active) && path != [] && path[|path| - 1] == id
      modifies this
      ensures Valid() && Extends(old(cache), cache)
      ensures forall a :: a in active && a !in old(cache) ==> a !in cache
      ensures r.Ok? ==> Covered(registry, id, cache.Keys) && r.value == Collapsed(FillNode(Shape(registry, id), cache))
      ensures r.Err? ==> r.error == CycleOrDepth && HasBadWalk(registry)
      decreases MAX_DEPTH - |active|, 2
    {
      hide IsExpansion, Ranks, IsActivePath;
      var shape := Shape(registry, id);
      var own: map<Keyword, Value> := map[];
      var pending := shape.keywords.Keys;
      while pending != {}
        invariant Valid() && Extends(old(cache), cache)
        invariant forall a :: a in active && a !in old(cache) ==> a !in cache
        invariant pending <= shape.keywords.Keys && own.Keys == shape.keywords.Keys - pending
        invariant forall k, to :: k in own && Uses(shape.keywords[k], to) ==> to in cache
        invariant forall k :: k in own ==> own[k] == FillValue(shape.keywords[k], cache)
        decreases pending
      {
        var k :| k in pending;
        forall to | Uses(shape.keywords[k], to) ensures Edge(registry, id, to) {
          UsedIsNode(registry, shape.keywords[k], to);
        }
        ghost var earlier := cache;
        var visited := VisitValue(shape.keywords[k], active, path);
        if visited.Err? {
          return Err(visited.error);
        }
        forall j | j in own ensures FillValue(shape.keywords[j], cache) == own[j] {
          FilledValueIsStable(shape.keywords[j], earlier, cache);
        }
        own := own[k := visited.value];
        pending := pending - {k};
      }
      if shape.reference.None? {
        r := Ok(Node(own, None));
        assert own == FillNode(shape, cache).keywords;
      } else {
        ghost var earlier := cache;
        var target := Visit(shape.reference.value, active, path);
        if target.Err? {
          return target;
        }
        forall j | j in own ensures FillValue(shape.keywords[j], cache) == own[j] {
          FilledValueIsStable(shape.keywords[j], earlier, cache);
        }
        r := Ok(if own != map[] then Node(own, Some(target.value)) else target.value);
        assert own == FillNode(shape, cache).keywords;
      }
    }
  }

  /** Check references first: only a registry whose references all resolve is expanded. */
  method ExpandRegistry(g: Registry) returns (r: Result<map<Id, Schema>, Rejection>, ghost rank: map<Id, nat>)
    requires Wellformed(g)
    ensures r.Ok? ==> r.value.Keys == g.nodes.Keys && IsExpansion(g, r.value) && Ranks(g, g.nodes.Keys, rank)
    ensures r == Err(Unresolvable) <==> !ReferencesResolve(g)
    ensures r == Err(CycleOrDepth) ==> HasBadWalk(g)
    ensures r == Err(UnsupportedKeyword) ==> exists id, name :: id in g.nodes && Unsupported(name) in g.nodes[id].keywords
  {
    rank := map[];
    if !ReferencesResolve(g) {
      return Err(Unresolvable), rank;
    }
    var expansion := new Expansion(g);
    var rejection := expansion.ExpandAll();
    rank := expansion.rank;
    if rejection.Some? {
      return Err(rejection.value), rank;
    }
    r := Ok(expansion.cache);
  }
}
