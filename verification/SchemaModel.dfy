/**
 JSON Schema Draft 2020-12 nodes and what they accept: Core sections 8.2.3.1,
 10.2, 10.3 and 11, Validation sections 6.1, 6.4 and 6.5.3.
 */
module SchemaModel {
  import opened Outcomes
  import opened Json

  /** The identity of a schema object inside a registry of documents. */
  type Id = nat

  datatype Keyword =
    | Type | Const | Enum | Required | MinContains | MaxContains
    | Literal(name: string)
    | Properties | PatternProperties | DependentSchemas
    | AllOf | AnyOf | OneOf | PrefixItems
    | AdditionalProperties | Items | Contains | PropertyNames
    | Not | If | Then | Else
    | UnevaluatedProperties | UnevaluatedItems
    | Metadata(name: string) | Addressing(name: string) | Unsupported(name: string)

  datatype Value =
    | Lit(json: Json)
    | One(schema: Schema)
    | Many(schemas: seq<Schema>)
    | Named(members: map<string, Schema>)

  /** An expanded node holds its reference beside its own keywords; At is a schema object not yet expanded. */
  datatype Schema =
    | Always(holds: bool)
    | At(id: Id)
    | Node(keywords: map<Keyword, Value>, reference: Option<Schema>)

  /** A location directly below an instance, for the annotations that unevaluated* reads. */
  datatype Child = MemberNamed(name: string) | ItemAt(index: int)

  /**
   Everything the model does not fix: the meaning of the remaining literal
   assertions and of regular expressions, and of schema objects named by id.
   */
  datatype Semantics = Semantics(
    literal: (string, Json, Json) -> bool,
    matches: (string, string) -> bool,
    accepts: (Id, Json) -> bool,
    evaluates: (Id, Json, Child) -> bool)

  // ---- Literal assertions ---------------------------------------------------

  predicate Integral(d: Double) {
    DoubleValue(d) == DoubleValue(d).Floor as real
  }

  predicate HasType(name: string, instance: Json) {
    match instance
    case Null => name == "null"
    case Bool(_) => name == "boolean"
    case Int(_) => name == "integer" || name == "number"
    case Float(d) => name == "number" || (name == "integer" && Integral(d))
    case Str(_) => name == "string"
    case Arr(_) => name == "array"
    case Obj(_) => name == "object"
  }

  /** Equality of instances: numbers compare by mathematical value. */
  predicate SameInstance(a: Json, b: Json) {
    match a
    case Int(i) => b == a || (b.Float? && DoubleValue(b.d) == i as real)
    case Float(d) => (b.Float? && DoubleEqual(d, b.d)) || (b.Int? && DoubleValue(d) == b.i as real)
    case Arr(l) => b.Arr? && |l| == |b.items| && forall i :: 0 <= i < |l| ==> SameInstance(l[i], b.items[i])
    case Obj(l) => b.Obj? && l.Keys == b.members.Keys && forall k :: k in l ==> SameInstance(l[k], b.members[k])
    case _ => a == b
  }

  predicate TypeHolds(spec: Json, instance: Json) {
    match spec
    case Str(name) => HasType(name, instance)
    case Arr(names) => exists i :: 0 <= i < |names| && names[i].Str? && HasType(names[i].s, instance)
    case _ => true
  }

  predicate EnumHolds(spec: Json, instance: Json) {
    spec.Arr? ==> exists i :: 0 <= i < |spec.items| && SameInstance(instance, spec.items[i])
  }

  predicate RequiredHolds(spec: Json, instance: Json) {
    spec.Arr? && instance.Obj? ==>
      forall i :: 0 <= i < |spec.items| && spec.items[i].Str? ==> spec.items[i].s in instance.members
  }

  // ---- Adjacent keywords ----------------------------------------------------

  function NamedAt(node: Schema, k: Keyword): map<string, Schema>
    requires node.Node?
  {
    if k in node.keywords && node.keywords[k].Named? then node.keywords[k].members else map[]
  }

  function PrefixLength(node: Schema): nat
    requires node.Node?
  {
    if PrefixItems in node.keywords && node.keywords[PrefixItems].Many? then |node.keywords[PrefixItems].schemas| else 0
  }

  function CountBound(node: Schema, k: Keyword): Option<real>
    requires node.Node?
  {
    if k in node.keywords && node.keywords[k].Lit? then
      match node.keywords[k].json
      case Int(i) => Some(i as real)
      case Float(d) => Some(DoubleValue(d))
      case _ => None
    else None
  }

  predicate CountAllowed(node: Schema, n: nat)
    requires node.Node?
  {
    var low, high := CountBound(node, MinContains), CountBound(node, MaxContains);
    && (if low.Some? then low.value <= n as real else 1 <= n)
    && (high.Some? ==> n as real <= high.value)
  }

  predicate MatchesSome(env: Semantics, patterns: set<string>, name: string) {
    exists p :: p in patterns && env.matches(p, name)
  }

  predicate IsAdditional(env: Semantics, node: Schema, name: string)
    requires node.Node?
  {
    name !in NamedAt(node, Properties) && !MatchesSome(env, NamedAt(node, PatternProperties).Keys, name)
  }

  // ---- Acceptance -------------------------------------------------------------

  ghost predicate Accepts(s: Schema, env: Semantics, instance: Json)
    decreases s, 4
  {
    match s
    case Always(b) => b
    case At(id) => env.accepts(id, instance)
    case Node(keywords, reference) =>
      && (reference.Some? ==> Accepts(reference.value, env, instance))
      && forall k :: k in keywords ==> Asserts(s, k, env, instance)
  }

  predicate HasIf(node: Schema)
    requires node.Node?
  {
    If in node.keywords && node.keywords[If].One?
  }

  /** One keyword of a node, with the adjacent keywords it depends on. */
  ghost predicate Asserts(node: Schema, k: Keyword, env: Semantics, instance: Json)
    requires node.Node? && k in node.keywords
    decreases node, 3
  {
    match node.keywords[k]
    case Lit(json) => LiteralHolds(k, json, env, instance)
    case One(_) => SingleHolds(node, k, env, instance)
    case Many(_) => BranchesHold(node, k, env, instance)
    case Named(_) => MembersHold(node, k, env, instance)
  }

  predicate LiteralHolds(k: Keyword, json: Json, env: Semantics, instance: Json) {
    match k
    case Type => TypeHolds(json, instance)
    case Const => SameInstance(instance, json)
    case Enum => EnumHolds(json, instance)
    case Required => RequiredHolds(json, instance)
    case Literal(name) => env.literal(name, json, instance)
    case _ => true
  }

  ghost predicate SingleHolds(node: Schema, k: Keyword, env: Semantics, instance: Json)
    requires node.Node? && k in node.keywords && node.keywords[k].One?
    decreases node, 2
  {
    var sub := node.keywords[k].schema;
    match k
    case AdditionalProperties =>
      instance.Obj? ==> forall n :: n in instance.members && IsAdditional(env, node, n) ==>
        Accepts(sub, env, instance.members[n])
    case Items =>
      instance.Arr? ==> forall i :: PrefixLength(node) <= i < |instance.items| ==>
        Accepts(sub, env, instance.items[i])
    case Contains => instance.Arr? ==> CountAllowed(node, |Hits(sub, env, instance.items)|)
    case PropertyNames => instance.Obj? ==> forall n :: n in instance.members ==> Accepts(sub, env, Str(n))
    case Not => !Accepts(sub, env, instance)
    case Then => HasIf(node) && Accepts(node.keywords[If].schema, env, instance) ==> Accepts(sub, env, instance)
    case Else => HasIf(node) && !Accepts(node.keywords[If].schema, env, instance) ==> Accepts(sub, env, instance)
    case UnevaluatedProperties =>
      instance.Obj? ==> forall n :: n in instance.members && !EvaluatedBeside(node, k, env, instance, MemberNamed(n)) ==>
        Accepts(sub, env, instance.members[n])
    case UnevaluatedItems =>
      instance.Arr? ==> forall i :: 0 <= i < |instance.items| && !EvaluatedBeside(node, k, env, instance, ItemAt(i)) ==>
        Accepts(sub, env, instance.items[i])
    case _ => true
  }

  ghost predicate BranchesHold(node: Schema, k: Keyword, env: Semantics, instance: Json)
    requires node.Node? && k in node.keywords && node.keywords[k].Many?
    decreases node, 2
  {
    var subs := node.keywords[k].schemas;
    match k
    case AllOf => forall i :: 0 <= i < |subs| ==> Accepts(subs[i], env, instance)
    case AnyOf => exists i :: 0 <= i < |subs| && Accepts(subs[i], env, instance)
    case OneOf =>
      && (exists i :: 0 <= i < |subs| && Accepts(subs[i], env, instance))
      && (forall i, j :: 0 <= i < j < |subs| ==> !(Accepts(subs[i], env, instance) && Accepts(subs[j], env, instance)))
    case PrefixItems =>
      instance.Arr? ==> forall i :: 0 <= i < |subs| && i < |instance.items| ==> Accepts(subs[i], env, instance.items[i])
    case _ => true
  }

  ghost predicate MembersHold(node: Schema, k: Keyword, env: Semantics, instance: Json)
    requires node.Node? && k in node.keywords && node.keywords[k].Named?
    decreases node, 2
  {
    var members := node.keywords[k].members;
    match k
    case Properties =>
      instance.Obj? ==> forall n :: n in members && n in instance.members ==>
        Accepts(members[n], env, instance.members[n])
    case PatternProperties =>
      instance.Obj? ==> forall p, n :: p in members && n in instance.members && env.matches(p, n) ==>
        Accepts(members[p], env, instance.members[n])
    case DependentSchemas =>
      instance.Obj? ==> forall n :: n in members && n in instance.members ==> Accepts(members[n], env, instance)
    case _ => true
  }

  /** The positions of the items a subschema accepts. */
  ghost function Hits(s: Schema, env: Semantics, items: seq<Json>): set<int>
    decreases s, 5
  {
    set i | 0 <= i < |items| && Accepts(s, env, items[i])
  }

  /** Evaluated by the reference or by a keyword other than the given one: what unevaluated* looks at. */
  ghost predicate EvaluatedBeside(node: Schema, k: Keyword, env: Semantics, instance: Json, c: Child)
    requires node.Node?
    decreases node, 1
  {
    || (node.reference.Some? && Marks(node.reference.value, env, instance, c))
    || exists other :: other in node.keywords && other != k && Evaluates(node, other, env, instance, c)
  }

  /** An applied subschema contributes its annotations only when it accepts. */
  ghost predicate Marks(s: Schema, env: Semantics, instance: Json, c: Child)
    decreases s, 5
  {
    Accepts(s, env, instance) &&
    match s
    case Always(_) => false
    case At(id) => env.evaluates(id, instance, c)
    case Node(keywords, reference) =>
      || (reference.Some? && Marks(reference.value, env, instance, c))
      || exists k :: k in keywords && Evaluates(s, k, env, instance, c)
  }

  /** Which children a keyword marks as evaluated. */
  ghost predicate Evaluates(node: Schema, k: Keyword, env: Semantics, instance: Json, c: Child)
    requires node.Node? && k in node.keywords
    decreases node, 0
  {
    match node.keywords[k]
    case Lit(_) => false
    case One(sub) =>
      (match k
       case AdditionalProperties => c.MemberNamed? && IsAdditional(env, node, c.name)
       case UnevaluatedProperties => c.MemberNamed?
       case Items => c.ItemAt? && PrefixLength(node) <= c.index
       case UnevaluatedItems => c.ItemAt?
       case Contains => c.ItemAt? && instance.Arr? && 0 <= c.index < |instance.items| &&
         Accepts(sub, env, instance.items[c.index])
       case If => Marks(sub, env, instance, c)
       case Then => HasIf(node) && Accepts(node.keywords[If].schema, env, instance) && Marks(sub, env, instance, c)
       case Else => HasIf(node) && !Accepts(node.keywords[If].schema, env, instance) && Marks(sub, env, instance, c)
       case _ => false)
    case Many(subs) =>
      (match k
       case PrefixItems => c.ItemAt? && c.index < |subs|
       case AllOf => exists i :: 0 <= i < |subs| && Marks(subs[i], env, instance, c)
       case AnyOf => exists i :: 0 <= i < |subs| && Marks(subs[i], env, instance, c)
       case OneOf => exists i :: 0 <= i < |subs| && Marks(subs[i], env, instance, c)
       case _ => false)
    case Named(members) =>
      (match k
       case Properties => c.MemberNamed? && c.name in members
       case PatternProperties => c.MemberNamed? && MatchesSome(env, members.Keys, c.name)
       case DependentSchemas => instance.Obj? && exists n :: n in members && n in instance.members && Marks(members[n], env, instance, c)
       case _ => false)
  }

  lemma AssertsByShape(node: Schema, k: Keyword, env: Semantics, instance: Json)
    requires node.Node? && k in node.keywords
    ensures node.keywords[k].Lit? ==> (Asserts(node, k, env, instance) <==> LiteralHolds(k, node.keywords[k].json, env, instance))
    ensures node.keywords[k].One? ==> (Asserts(node, k, env, instance) <==> SingleHolds(node, k, env, instance))
    ensures node.keywords[k].Many? ==> (Asserts(node, k, env, instance) <==> BranchesHold(node, k, env, instance))
    ensures node.keywords[k].Named? ==> (Asserts(node, k, env, instance) <==> MembersHold(node, k, env, instance))
  {
    hide Accepts, SingleHolds, BranchesHold, MembersHold, LiteralHolds;
  }

  lemma AcceptedKeyword(node: Schema, k: Keyword, env: Semantics, instance: Json)
    requires node.Node? && k in node.keywords && Accepts(node, env, instance)
    ensures Asserts(node, k, env, instance)
  {
    hide Asserts;
  }
}
