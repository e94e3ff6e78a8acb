/** The bounded comparison of expanded schemas, and why an accepted change is a relaxation. */
module SchemaCompare {
  import opened Outcomes
  import opened Json
  import opened SchemaModel

  /** Enum values may be added only to input documents, and nothing may change in a frozen context. */
  datatype Context = Context(inputDocument: bool, positive: bool)

  predicate IsSingle(k: Keyword) {
    k in {AdditionalProperties, Items, Contains, PropertyNames, Not, If, Then, Else, UnevaluatedProperties, UnevaluatedItems}
  }

  predicate IsSequence(k: Keyword) {
    k in {AllOf, AnyOf, OneOf, PrefixItems}
  }

  /** Keywords whose subschemas may relax without tightening the whole. */
  predicate IsPositive(k: Keyword) {
    k in {Properties, Items, AllOf, AnyOf, Then, Else, PrefixItems}
  }

  function ValueOf(node: Schema, k: Keyword): Value
    requires node.Node?
  {
    if k in node.keywords then node.keywords[k] else Named(map[])
  }

  predicate IsEvaluationSensitive(node: Schema)
    requires node.Node?
  {
    UnevaluatedProperties in node.keywords || UnevaluatedItems in node.keywords
  }

  predicate Compare(before: Schema, after: Schema, context: Context)
    decreases before, 2
  {
    || before == after
    || (
      && context.positive && before.Node? && after.Node?
      && before.reference.Some? == after.reference.Some?
      && (before.reference.Some? ==> Compare(before.reference.value, after.reference.value, context))
      && !IsEvaluationSensitive(before) && !IsEvaluationSensitive(after)
      && before.keywords.Keys - {Properties} == after.keywords.Keys - {Properties}
      && forall k :: k in before.keywords.Keys + after.keywords.Keys ==> KeywordAllowed(before, after, k, context)
    )
  }

  predicate KeywordAllowed(before: Schema, after: Schema, k: Keyword, context: Context)
    requires before.Node? && after.Node?
    decreases before, 1
  {
    var prior, next := ValueOf(before, k), ValueOf(after, k);
    || prior == next
    || (
      var child := context.(positive := context.positive &&
                     (IsPositive(k) || (k == OneOf && DisjointBranches(prior) && DisjointBranches(next))));
      if k == Enum && context.inputDocument && context.positive then EnumGrows(prior, next)
      else if k == Properties then prior.Named? && next.Named? && PropertiesAllowed(before, after, child)
      else if IsSingle(k) then k in before.keywords && prior.One? && next.One? && Compare(prior.schema, next.schema, child)
      else if IsSequence(k) then
        && k in before.keywords && prior.Many? && next.Many? && |prior.schemas| == |next.schemas|
        && forall i :: 0 <= i < |prior.schemas| ==> Compare(prior.schemas[i], next.schemas[i], child)
      else false
    )
  }

  predicate EnumGrows(prior: Value, next: Value) {
    && prior.Lit? && prior.json.Arr? && next.Lit? && next.json.Arr?
    && forall i :: 0 <= i < |prior.json.items| ==> prior.json.items[i] in next.json.items
  }

  /** Added names need an object closed to them before, and none of them may be required. */
  predicate AdditionsAllowed(parent: Schema, added: set<string>, context: Context)
    requires parent.Node?
  {
    added == {} || (
      && context.positive
      && AdditionalProperties in parent.keywords && parent.keywords[AdditionalProperties] == One(Always(false))
      && PatternProperties !in parent.keywords && UnevaluatedProperties !in parent.keywords
      && forall n :: n in added ==> !IsRequired(parent, n)
    )
  }

  predicate IsRequired(node: Schema, name: string)
    requires node.Node?
  {
    Required in node.keywords && node.keywords[Required].Lit? && node.keywords[Required].json.Arr? &&
    Str(name) in node.keywords[Required].json.items
  }

  predicate PropertiesAllowed(before: Schema, after: Schema, context: Context)
    requires before.Node? && after.Node?
    decreases before, 0
  {
    var prior, next := NamedAt(before, Properties), NamedAt(after, Properties);
    && prior.Keys <= next.Keys
    && AdditionsAllowed(before, next.Keys - prior.Keys, context)
    && forall n :: n in prior ==> Compare(prior[n], next[n], context)
  }

  /** The required members of an object branch that must be one string constant. */
  function Discriminators(branch: Schema): map<string, string> {
    if branch.Node? && Type in branch.keywords && branch.keywords[Type] == Lit(Str("object")) &&
       Required in branch.keywords && branch.keywords[Required].Lit? && branch.keywords[Required].json.Arr?
    then
      var properties := NamedAt(branch, Properties);
      map n | n in properties && IsRequired(branch, n) && properties[n].Node? && Const in properties[n].keywords &&
              properties[n].keywords[Const].Lit? && properties[n].keywords[Const].json.Str?
        :: properties[n].keywords[Const].json.s
    else map[]
  }

  predicate SeparatesBranches(branches: seq<Schema>, name: string) {
    && (forall i :: 0 <= i < |branches| ==> name in Discriminators(branches[i]))
    && forall i, j :: 0 <= i < j < |branches| ==> Discriminators(branches[i])[name] != Discriminators(branches[j])[name]
  }

  predicate DisjointBranches(value: Value) {
    && value.Many? && value.schemas != []
    && exists name :: name in Discriminators(value.schemas[0]) && SeparatesBranches(value.schemas, name)
  }

  // ---- Soundness ---------------------------------------------------------------

  lemma DiscriminatorFixesMember(branch: Schema, name: string, env: Semantics, instance: Json)
    requires name in Discriminators(branch) && Accepts(branch, env, instance)
    ensures instance.Obj? && name in instance.members && instance.members[name] == Str(Discriminators(branch)[name])
  {
    hide Accepts, Asserts, SingleHolds, BranchesHold;
    forall k | k in {Type, Required, Properties} ensures k in branch.keywords && Asserts(branch, k, env, instance) {
      AcceptedKeyword(branch, k, env, instance);
    }
    AssertsByShape(branch, Type, env, instance);
    assert HasType("object", instance);
    AssertsByShape(branch, Required, env, instance);
    AssertsByShape(branch, Properties, env, instance);
    var constraint := NamedAt(branch, Properties)[name];
    assert Accepts(constraint, env, instance.members[name]);
    AcceptedKeyword(constraint, Const, env, instance.members[name]);
    AssertsByShape(constraint, Const, env, instance.members[name]);
  }

  /** A required, unique string constant keeps any two branches from accepting one instance. */
  lemma DisjointBranchesExclude(branches: seq<Schema>, i: int, j: int, env: Semantics, instance: Json)
    requires DisjointBranches(Many(branches)) && 0 <= i < |branches| && 0 <= j < |branches| && i != j
    ensures !(Accepts(branches[i], env, instance) && Accepts(branches[j], env, instance))
  {
    if Accepts(branches[i], env, instance) && Accepts(branches[j], env, instance) {
      var name :| name in Discriminators(branches[0]) && SeparatesBranches(branches, name);
      DiscriminatorFixesMember(branches[i], name, env, instance);
      DiscriminatorFixesMember(branches[j], name, env, instance);
      assert false;
    }
  }

  lemma FrozenKeyword(before: Schema, after: Schema, k: Keyword, context: Context)
    requires before.Node? && after.Node? && KeywordAllowed(before, after, k, context)
    requires !IsPositive(k) && k != OneOf && k != Enum
    ensures ValueOf(before, k) == ValueOf(after, k)
  {
  }

  ghost predicate Changed(before: Schema, after: Schema, context: Context) {
    before != after && Compare(before, after, context)
  }

  lemma SameKeys(before: Schema, after: Schema, context: Context, k: Keyword)
    requires Changed(before, after, context)
    ensures k != Properties ==> (k in before.keywords <==> k in after.keywords)
    ensures KeywordAllowed(before, after, k, context)
  {
    assert k in before.keywords.Keys - {Properties} <==> k in after.keywords.Keys - {Properties};
    assert k in before.keywords.Keys + after.keywords.Keys ==> KeywordAllowed(before, after, k, context);
  }

  /** What a keyword reads beside itself is the same before and after, except that objects may close later. */
  lemma SameAdjacents(before: Schema, after: Schema, context: Context, env: Semantics)
    requires Changed(before, after, context)
    ensures PrefixLength(before) == PrefixLength(after)
    ensures HasIf(before) == HasIf(after)
    ensures HasIf(before) ==> before.keywords[If] == after.keywords[If]
    ensures forall n: nat :: CountAllowed(before, n) == CountAllowed(after, n)
    ensures forall n :: IsAdditional(env, after, n) ==> IsAdditional(env, before, n)
  {
    SameKeys(before, after, context, PrefixItems);
    SameKeys(before, after, context, Properties);
    forall k | k in {If, MinContains, MaxContains, PatternProperties}
      ensures k in before.keywords <==> k in after.keywords
      ensures ValueOf(before, k) == ValueOf(after, k)
    {
      SameKeys(before, after, context, k);
      FrozenKeyword(before, after, k, context);
    }
  }

  lemma UnchangedSingleRelaxes(before: Schema, after: Schema, k: Keyword, context: Context, env: Semantics, instance: Json)
    requires Changed(before, after, context) && k != UnevaluatedProperties && k != UnevaluatedItems
    requires k in before.keywords && k in after.keywords && before.keywords[k] == after.keywords[k] && after.keywords[k].One?
    requires SingleHolds(before, k, env, instance)
    ensures SingleHolds(after, k, env, instance)
  {
    SameAdjacents(before, after, context, env);
    hide Changed, Accepts, IsAdditional, CountAllowed, PrefixLength;
  }

  lemma UnchangedGroupsHold(before: Schema, after: Schema, k: Keyword, env: Semantics, instance: Json)
    requires before.Node? && after.Node? && k in before.keywords && k in after.keywords
    requires before.keywords[k] == after.keywords[k]
    ensures before.keywords[k].Many? ==> BranchesHold(before, k, env, instance) == BranchesHold(after, k, env, instance)
    ensures before.keywords[k].Named? ==> MembersHold(before, k, env, instance) == MembersHold(after, k, env, instance)
  {
    hide Accepts;
  }

  lemma UnchangedKeywordRelaxes(before: Schema, after: Schema, k: Keyword, context: Context, env: Semantics, instance: Json)
    requires Changed(before, after, context) && Accepts(before, env, instance) && k != Properties
    requires k in before.keywords && k in after.keywords && before.keywords[k] == after.keywords[k]
    ensures Asserts(after, k, env, instance)
  {
    assert before.Node? && after.Node? && k != UnevaluatedProperties && k != UnevaluatedItems;
    hide Changed, Accepts, Asserts, SingleHolds, LiteralHolds;
    UnchangedGroupsHold(before, after, k, env, instance);
    hide BranchesHold, MembersHold;
    AcceptedKeyword(before, k, env, instance);
    AssertsByShape(before, k, env, instance);
    AssertsByShape(after, k, env, instance);
    if after.keywords[k].One? {
      UnchangedSingleRelaxes(before, after, k, context, env, instance);
    }
  }

  /** If the comparison accepts, every instance valid under the old schema is valid under the new one. */
  lemma {:induction false} AcceptedChangeIsRelaxation(before: Schema, after: Schema, context: Context, env: Semantics, instance: Json)
    requires Compare(before, after, context) && Accepts(before, env, instance)
    ensures Accepts(after, env, instance)
    decreases before, 3
  {
    if before != after {
      if before.reference.Some? {
        AcceptedChangeIsRelaxation(before.reference.value, after.reference.value, context, env, instance);
      }
      forall k | k in after.keywords ensures Asserts(after, k, env, instance) {
        KeywordRelaxes(before, after, k, context, env, instance);
      }
    }
  }

  lemma {:induction false} KeywordRelaxes(before: Schema, after: Schema, k: Keyword, context: Context, env: Semantics, instance: Json)
    requires Changed(before, after, context) && Accepts(before, env, instance) && k in after.keywords
    ensures Asserts(after, k, env, instance)
    decreases before, 2
  {
    SameKeys(before, after, context, k);
    if k == Properties {
      PropertiesRelax(before, after, context, env, instance);
    } else if before.keywords[k] == after.keywords[k] {
      UnchangedKeywordRelaxes(before, after, k, context, env, instance);
    } else if k == Enum {
      EnumRelaxes(before, after, context, env, instance);
    } else if IsSingle(k) {
      SingleRelaxes(before, after, k, context, env, instance);
    } else {
      SequenceRelaxes(before, after, k, context, env, instance);
    }
  }

  lemma EnumRelaxes(before: Schema, after: Schema, context: Context, env: Semantics, instance: Json)
    requires Changed(before, after, context) && Accepts(before, env, instance)
    requires Enum in before.keywords && Enum in after.keywords && before.keywords[Enum] != after.keywords[Enum]
    ensures Asserts(after, Enum, env, instance)
  {
    hide Accepts, Asserts, SingleHolds, BranchesHold, MembersHold;
    SameKeys(before, after, context, Enum);
    AcceptedKeyword(before, Enum, env, instance);
    AssertsByShape(before, Enum, env, instance);
    AssertsByShape(after, Enum, env, instance);
    var prior, next := before.keywords[Enum].json, after.keywords[Enum].json;
    var i :| 0 <= i < |prior.items| && SameInstance(instance, prior.items[i]);
    assert prior.items[i] in next.items;
    var j :| 0 <= j < |next.items| && next.items[j] == prior.items[i];
    assert SameInstance(instance, next.items[j]);
  }

  lemma NothingIsAccepted(env: Semantics, instance: Json)
    ensures !Accepts(Always(false), env, instance)
  {
  }

  /** A member under an added name cannot occur in an instance of the closed object. */
  lemma AddedMemberIsAbsent(before: Schema, after: Schema, context: Context, env: Semantics, instance: Json, n: string)
    requires Changed(before, after, context) && Accepts(before, env, instance) && instance.Obj?
    requires n in NamedAt(after, Properties) && n !in NamedAt(before, Properties)
    ensures n !in instance.members
  {
    SameKeys(before, after, context, Properties);
    hide Accepts, Asserts, Changed, Compare;
    assert n in NamedAt(after, Properties).Keys - NamedAt(before, Properties).Keys;
    AcceptedKeyword(before, AdditionalProperties, env, instance);
    AssertsByShape(before, AdditionalProperties, env, instance);
    if n in instance.members {
      NothingIsAccepted(env, instance.members[n]);
    }
    assert IsAdditional(env, before, n);
  }

  lemma {:induction false} PropertiesRelax(before: Schema, after: Schema, context: Context, env: Semantics, instance: Json)
    requires Changed(before, after, context) && Accepts(before, env, instance) && Properties in after.keywords
    ensures Asserts(after, Properties, env, instance)
    decreases before, 0
  {
    SameKeys(before, after, context, Properties);
    var prior, next := NamedAt(before, Properties), NamedAt(after, Properties);
    if after.keywords[Properties] == ValueOf(before, Properties) && Properties in before.keywords {
      assert Asserts(before, Properties, env, instance);
      if after.keywords[Properties].Named? {
        assert MembersHold(before, Properties, env, instance) && MembersHold(after, Properties, env, instance);
      } else {
        UnappliedShapeHolds(after, Properties, env, instance);
      }
    } else {
      forall n | instance.Obj? && n in next && n in instance.members ensures Accepts(next[n], env, instance.members[n]) {
        if n in prior {
          assert Asserts(before, Properties, env, instance) && MembersHold(before, Properties, env, instance);
          AcceptedChangeIsRelaxation(prior[n], next[n], context, env, instance.members[n]);
        } else {
          AddedMemberIsAbsent(before, after, context, env, instance, n);
        }
      }
      assert MembersHold(after, Properties, env, instance);
    }
  }

  lemma UnappliedShapeHolds(node: Schema, k: Keyword, env: Semantics, instance: Json)
    requires node.Node? && k == Properties && k in node.keywords && !node.keywords[k].Named?
    ensures Asserts(node, k, env, instance)
  {
    assert node.keywords[k].One? ==> SingleHolds(node, k, env, instance);
    assert node.keywords[k].Many? ==> BranchesHold(node, k, env, instance);
  }

  lemma {:induction false} SingleRelaxes(before: Schema, after: Schema, k: Keyword, context: Context, env: Semantics, instance: Json)
    requires Changed(before, after, context) && Accepts(before, env, instance) && IsSingle(k)
    requires k in before.keywords && k in after.keywords && before.keywords[k] != after.keywords[k]
    ensures Asserts(after, k, env, instance)
    decreases before, 0
  {
    hide Accepts, Asserts, IsAdditional, CountAllowed, PrefixLength, Hits, EvaluatedBeside;
    SameKeys(before, after, context, k);
    assert before.keywords[k].One? && after.keywords[k].One?;
    var prior, next := before.keywords[k].schema, after.keywords[k].schema;
    assert k in {Items, Then, Else} && Compare(prior, next, context);
    SameAdjacents(before, after, context, env);
    AcceptedKeyword(before, k, env, instance);
    AssertsByShape(before, k, env, instance);
    AssertsByShape(after, k, env, instance);
    hide Changed, KeywordAllowed, Compare;
    if k == Items && instance.Arr? {
      forall i | PrefixLength(after) <= i < |instance.items| ensures Accepts(next, env, instance.items[i]) {
        AcceptedChangeIsRelaxation(prior, next, context, env, instance.items[i]);
      }
    } else if k != Items && Accepts(prior, env, instance) {
      AcceptedChangeIsRelaxation(prior, next, context, env, instance);
    }
  }

  /** Branches that relax one by one: oneOf needs the new branches to exclude each other. */
  lemma BranchesRelax(before: Schema, after: Schema, k: Keyword, env: Semantics, instance: Json)
    requires before.Node? && after.Node? && k in {AllOf, AnyOf, OneOf} && k in before.keywords && k in after.keywords
    requires before.keywords[k].Many? && after.keywords[k].Many?
    requires k == OneOf ==> DisjointBranches(after.keywords[k])
    requires var prior, next := before.keywords[k].schemas, after.keywords[k].schemas;
             |prior| == |next| &&
             forall i :: 0 <= i < |prior| && Accepts(prior[i], env, instance) ==> Accepts(next[i], env, instance)
    requires BranchesHold(before, k, env, instance)
    ensures BranchesHold(after, k, env, instance)
  {
    hide Accepts, DisjointBranches;
    var next := after.keywords[k].schemas;
    if k == OneOf {
      forall l, r | 0 <= l < r < |next| ensures !(Accepts(next[l], env, instance) && Accepts(next[r], env, instance)) {
        DisjointBranchesExclude(next, l, r, env, instance);
      }
    }
  }

  lemma {:induction false} SequenceRelaxes(before: Schema, after: Schema, k: Keyword, context: Context, env: Semantics, instance: Json)
    requires Changed(before, after, context) && Accepts(before, env, instance) && IsSequence(k)
    requires k in before.keywords && k in after.keywords && before.keywords[k] != after.keywords[k]
    ensures Asserts(after, k, env, instance)
    decreases before, 1
  {
    assert before.Node? && after.Node?;
    hide Accepts, Asserts, BranchesHold, KeywordAllowed, Compare, DisjointBranches;
    SameKeys(before, after, context, k);
    ChangedBranches(before, after, k, context);
    AcceptedKeyword(before, k, env, instance);
    AssertsByShape(before, k, env, instance);
    AssertsByShape(after, k, env, instance);
    var prior, next := before.keywords[k].schemas, after.keywords[k].schemas;
    if k == PrefixItems {
      PrefixItemsRelax(before, after, context, env, instance);
    } else {
      forall i | 0 <= i < |prior| && Accepts(prior[i], env, instance) ensures Accepts(next[i], env, instance) {
        AcceptedChangeIsRelaxation(prior[i], next[i], context, env, instance);
      }
      BranchesRelax(before, after, k, env, instance);
    }
  }

  lemma {:induction false} PrefixItemsRelax(before: Schema, after: Schema, context: Context, env: Semantics, instance: Json)
    requires before.Node? && after.Node? && PrefixItems in before.keywords && PrefixItems in after.keywords
    requires before.keywords[PrefixItems].Many? && after.keywords[PrefixItems].Many?
    requires var prior, next := before.keywords[PrefixItems].schemas, after.keywords[PrefixItems].schemas;
             |prior| == |next| && forall i :: 0 <= i < |prior| ==> Compare(prior[i], next[i], context)
    requires BranchesHold(before, PrefixItems, env, instance)
    ensures BranchesHold(after, PrefixItems, env, instance)
    decreases before, 0
  {
    hide Accepts, Compare;
    var prior, next := before.keywords[PrefixItems].schemas, after.keywords[PrefixItems].schemas;
    forall i | instance.Arr? && 0 <= i < |next| && i < |instance.items| ensures Accepts(next[i], env, instance.items[i]) {
      AcceptedChangeIsRelaxation(prior[i], next[i], context, env, instance.items[i]);
    }
  }

  /** Changed branches were compared one by one in the same context; a changed oneOf was found disjoint. */
  lemma ChangedBranches(before: Schema, after: Schema, k: Keyword, context: Context)
    requires before.Node? && after.Node? && KeywordAllowed(before, after, k, context) && IsSequence(k)
    requires ValueOf(before, k) != ValueOf(after, k)
    ensures ValueOf(before, k).Many? && ValueOf(after, k).Many?
    ensures var prior, next := ValueOf(before, k).schemas, ValueOf(after, k).schemas;
            && |prior| == |next| && forall i :: 0 <= i < |prior| ==> Compare(prior[i], next[i], context)
    ensures k == OneOf ==> DisjointBranches(ValueOf(before, k)) && DisjointBranches(ValueOf(after, k))
  {
    var prior, next := ValueOf(before, k), ValueOf(after, k);
    assert prior.Many? && next.Many? ==> prior.schemas != next.schemas;
  }

  // ---- What exactly is accepted -------------------------------------------------

  /** The branch is an object whose required member of that name must be that string. */
  predicate IsDiscriminated(branch: Schema, name: string, constant: string) {
    && branch.Node? && Type in branch.keywords && branch.keywords[Type] == Lit(Str("object"))
    && Required in branch.keywords && branch.keywords[Required].Lit? && branch.keywords[Required].json.Arr?
    && Str(name) in branch.keywords[Required].json.items
    && Properties in branch.keywords && branch.keywords[Properties].Named? && name in branch.keywords[Properties].members
    && var member := branch.keywords[Properties].members[name];
       member.Node? && Const in member.keywords && member.keywords[Const] == Lit(Str(constant))
  }

  ghost predicate FixesMember(branch: Schema, name: string) {
    exists constant :: IsDiscriminated(branch, name, constant)
  }

  /** Every branch fixes the member, and no two to the same constant. */
  ghost predicate TellsApart(branches: seq<Schema>, name: string) {
    && (forall i :: 0 <= i < |branches| ==> FixesMember(branches[i], name))
    && forall i, j, constant :: 0 <= i < j < |branches| && IsDiscriminated(branches[i], name, constant) ==>
         !IsDiscriminated(branches[j], name, constant)
  }

  ghost predicate IsExclusive(branches: seq<Schema>) {
    branches != [] && exists name :: TellsApart(branches, name)
  }

  lemma DiscriminatorsAreConstants(branch: Schema, name: string, constant: string)
    ensures IsDiscriminated(branch, name, constant) <==>
              name in Discriminators(branch) && Discriminators(branch)[name] == constant
  {
  }

  lemma SeparatedExactly(branches: seq<Schema>, name: string)
    ensures SeparatesBranches(branches, name) <==> TellsApart(branches, name)
  {
    hide Discriminators, IsDiscriminated;
    forall i, constant | 0 <= i < |branches|
      ensures IsDiscriminated(branches[i], name, constant) <==>
                name in Discriminators(branches[i]) && Discriminators(branches[i])[name] == constant
    {
      DiscriminatorsAreConstants(branches[i], name, constant);
    }
    if SeparatesBranches(branches, name) {
      forall i | 0 <= i < |branches| ensures FixesMember(branches[i], name) {
        assert IsDiscriminated(branches[i], name, Discriminators(branches[i])[name]);
      }
      forall i, j, constant | 0 <= i < j < |branches| && IsDiscriminated(branches[i], name, constant)
        ensures !IsDiscriminated(branches[j], name, constant)
      {
        DiscriminatorsAreConstants(branches[i], name, constant);
        DiscriminatorsAreConstants(branches[j], name, constant);
      }
    }
    if TellsApart(branches, name) {
      forall i | 0 <= i < |branches|
        ensures name in Discriminators(branches[i]) && IsDiscriminated(branches[i], name, Discriminators(branches[i])[name])
      {
        var constant :| IsDiscriminated(branches[i], name, constant);
      }
    }
  }

  lemma DisjointExactly(branches: seq<Schema>)
    ensures DisjointBranches(Many(branches)) <==> IsExclusive(branches)
  {
    hide Discriminators, TellsApart;
    forall name ensures SeparatesBranches(branches, name) <==> TellsApart(branches, name) {
      SeparatedExactly(branches, name);
    }
    if branches != [] {
      assert forall name :: SeparatesBranches(branches, name) ==> name in Discriminators(branches[0]);
    }
  }

  /** The change of one keyword that both nodes have, other than properties. */
  ghost predicate KeywordGrows(x: Value, y: Value, k: Keyword, context: Context)
    decreases x, 0
  {
    match (x, y)
    case (Lit(Arr(prior)), Lit(Arr(wider))) => k == Enum && context.inputDocument && forall v :: v in prior ==> v in wider
    case (One(s), One(t)) => k in {Items, Then, Else} && IsAddition(s, t, context)
    case (Many(l), Many(m)) =>
      && (k in {AllOf, AnyOf, PrefixItems} || (k == OneOf && IsExclusive(l) && IsExclusive(m)))
      && |l| == |m| && forall i :: 0 <= i < |l| ==> IsAddition(l[i], m[i], context)
    case _ => false
  }

  /** Every member stays; a new one is optional, and the object was closed to it. */
  ghost predicate MembersGrow(before: Schema, prior: map<string, Schema>, wider: map<string, Schema>, context: Context)
    requires before.Node?
    requires forall n :: n in prior ==> prior[n] < before
    decreases before, 0
  {
    && (forall n :: n in prior ==> n in wider && IsAddition(prior[n], wider[n], context))
    && forall n :: n in wider && n !in prior ==>
         && AdditionalProperties in before.keywords && before.keywords[AdditionalProperties] == One(Always(false))
         && PatternProperties !in before.keywords
         && !(Required in before.keywords && before.keywords[Required].Lit? && before.keywords[Required].json.Arr? &&
              Str(n) in before.keywords[Required].json.items)
  }

  /**
   The additions a reviewer need not look at, keyword by keyword: enum values of
   input documents, optional members of closed objects, and additions below
   keywords that relax with their subschemas.
   */
  ghost predicate IsAddition(before: Schema, after: Schema, context: Context)
    decreases before, 1
  {
    || before == after
    || (
      && context.positive && before.Node? && after.Node?
      && (match (before.reference, after.reference)
          case (None, None) => true
          case (Some(s), Some(t)) => IsAddition(s, t, context)
          case _ => false)
      && (forall k :: k in {UnevaluatedProperties, UnevaluatedItems} ==> k !in before.keywords && k !in after.keywords)
      && (forall k :: k != Properties ==> (k in before.keywords <==> k in after.keywords))
      && (forall k :: k in before.keywords && k in after.keywords && k != Properties ==>
            before.keywords[k] == after.keywords[k] || KeywordGrows(before.keywords[k], after.keywords[k], k, context))
      && (match (PropertiesOf(before), PropertiesOf(after))
          case (Named(prior), Named(wider)) => prior == wider || MembersGrow(before, prior, wider, context)
          case (x, y) => x == y)
    )
  }

  function PropertiesOf(node: Schema): Value
    requires node.Node?
  {
    if Properties in node.keywords then node.keywords[Properties] else Named(map[])
  }

  /** The comparison accepts additions and nothing else. */
  lemma {:induction false} AcceptedExactly(before: Schema, after: Schema, context: Context)
    ensures Compare(before, after, context) <==> IsAddition(before, after, context)
    decreases before, 2
  {
    if before != after && context.positive && before.Node? && after.Node? {
      if before.reference.Some? && after.reference.Some? {
        AcceptedExactly(before.reference.value, after.reference.value, context);
      }
      hide KeywordAllowed, KeywordGrows, MembersGrow;
      forall k | k in before.keywords && k in after.keywords && k != Properties
        ensures KeywordAllowed(before, after, k, context) <==>
                  before.keywords[k] == after.keywords[k] || KeywordGrows(before.keywords[k], after.keywords[k], k, context)
      {
        KeywordAcceptedExactly(before, after, k, context);
      }
      if UnevaluatedProperties !in before.keywords {
        MembersAcceptedExactly(before, after, context);
      }
      SameKeywordsExactly(before, after);
    }
  }

  lemma {:induction false} KeywordAcceptedExactly(before: Schema, after: Schema, k: Keyword, context: Context)
    requires context.positive && before.Node? && after.Node? && k in before.keywords && k in after.keywords && k != Properties
    ensures KeywordAllowed(before, after, k, context) <==>
              before.keywords[k] == after.keywords[k] || KeywordGrows(before.keywords[k], after.keywords[k], k, context)
    decreases before, 1
  {
    hide Compare, IsAddition, DisjointBranches, IsExclusive;
    if before.keywords[k].One? && after.keywords[k].One? {
      SingleAcceptedExactly(before, after, k, context);
    } else if before.keywords[k].Many? && after.keywords[k].Many? {
      SequenceAcceptedExactly(before, after, k, context);
    }
  }

  lemma {:induction false} SingleAcceptedExactly(before: Schema, after: Schema, k: Keyword, context: Context)
    requires context.positive && before.Node? && after.Node? && k in before.keywords && k in after.keywords && k != Properties
    requires before.keywords[k].One? && after.keywords[k].One?
    ensures KeywordAllowed(before, after, k, context) <==>
              before.keywords[k] == after.keywords[k] || KeywordGrows(before.keywords[k], after.keywords[k], k, context)
    decreases before, 0
  {
    hide Compare, IsAddition, DisjointBranches, IsExclusive;
    assert context.(positive := true) == context;
    var s, t := before.keywords[k].schema, after.keywords[k].schema;
    AcceptedExactly(s, t, context);
    FrozenMeansEqual(s, t, context);
  }

  lemma {:induction false} SequenceAcceptedExactly(before: Schema, after: Schema, k: Keyword, context: Context)
    requires context.positive && before.Node? && after.Node? && k in before.keywords && k in after.keywords && k != Properties
    requires before.keywords[k].Many? && after.keywords[k].Many?
    ensures KeywordAllowed(before, after, k, context) <==>
              before.keywords[k] == after.keywords[k] || KeywordGrows(before.keywords[k], after.keywords[k], k, context)
    decreases before, 0
  {
    hide DisjointBranches, IsExclusive, IsAddition, Compare;
    assert context.(positive := true) == context;
    var l, m := before.keywords[k].schemas, after.keywords[k].schemas;
    DisjointExactly(l);
    DisjointExactly(m);
    forall i | 0 <= i < |l| && |l| == |m|
      ensures Compare(l[i], m[i], context) <==> IsAddition(l[i], m[i], context)
      ensures Compare(l[i], m[i], context.(positive := false)) <==> l[i] == m[i]
    {
      AcceptedExactly(l[i], m[i], context);
      FrozenMeansEqual(l[i], m[i], context);
    }
    assert |l| == |m| && (forall i :: 0 <= i < |l| ==> l[i] == m[i]) ==> l == m;
  }

  /** Below a keyword that does not relax with its subschema nothing may change. */
  lemma FrozenMeansEqual(s: Schema, t: Schema, context: Context)
    ensures Compare(s, t, context.(positive := false)) <==> s == t
  {
  }

  lemma {:induction false} MembersAcceptedExactly(before: Schema, after: Schema, context: Context)
    requires context.positive && before.Node? && after.Node? && UnevaluatedProperties !in before.keywords
    ensures KeywordAllowed(before, after, Properties, context) <==>
              match (PropertiesOf(before), PropertiesOf(after))
              case (Named(prior), Named(wider)) => prior == wider || MembersGrow(before, prior, wider, context)
              case (x, y) => x == y
    decreases before, 1
  {
    hide IsAddition;
    assert context.(positive := true) == context;
    match (PropertiesOf(before), PropertiesOf(after))
    case (Named(prior), Named(wider)) =>
      forall n | n in prior && n in wider
        ensures Compare(prior[n], wider[n], context) <==> IsAddition(prior[n], wider[n], context)
      {
        AcceptedExactly(prior[n], wider[n], context);
      }
      hide Compare;
      assert forall n :: n in wider.Keys - prior.Keys <==> n in wider && n !in prior;
    case _ =>
  }

  lemma SameKeywordsExactly(before: Schema, after: Schema)
    requires before.Node? && after.Node?
    ensures before.keywords.Keys - {Properties} == after.keywords.Keys - {Properties} <==>
              forall k :: k != Properties ==> (k in before.keywords <==> k in after.keywords)
  {
    if before.keywords.Keys - {Properties} == after.keywords.Keys - {Properties} {
      forall k | k != Properties ensures k in before.keywords <==> k in after.keywords {
        assert k in before.keywords.Keys - {Properties} <==> k in after.keywords.Keys - {Properties};
      }
    }
  }

  /** An enum may grow in input documents only. */
  lemma EnumsGrowOnlyInInputDocuments(before: Schema, after: Schema, context: Context)
    requires before.Node? && after.Node? && Enum in before.keywords && Enum in after.keywords
    requires before.keywords[Enum] != after.keywords[Enum] && !context.inputDocument
    ensures !Compare(before, after, context)
  {
    AcceptedExactly(before, after, context);
    hide Compare;
  }

  /** With the rest unchanged, an enum of an input document may take any values in but none out. */
  lemma EnumChangeAcceptedExactly(before: Schema, next: seq<Json>, context: Context)
    requires before.Node? && Enum in before.keywords && before.keywords[Enum].Lit? && before.keywords[Enum].json.Arr?
    requires context.positive && context.inputDocument && before.keywords[Enum] != Lit(Arr(next))
    requires UnevaluatedProperties !in before.keywords && UnevaluatedItems !in before.keywords
    ensures Compare(before, before.(keywords := before.keywords[Enum := Lit(Arr(next))]), context)
       <==> forall v :: v in before.keywords[Enum].json.items ==> v in next
  {
    var after := before.(keywords := before.keywords[Enum := Lit(Arr(next))]);
    AcceptedExactly(before, after, context);
    hide Compare;
    assert before.keywords[Enum] != after.keywords[Enum];
    assert PropertiesOf(before) == PropertiesOf(after);
    if before.reference.Some? {
      assert IsAddition(before.reference.value, after.reference.value, context);
    }
  }

  /** Any other assertion, a removed property and a keyword that comes or goes are refused in every context. */
  lemma OtherChangesAreRefused(before: Schema, after: Schema, context: Context)
    requires before.Node? && after.Node?
    requires
      || (exists k :: k != Properties && (k in before.keywords) != (k in after.keywords))
      || (exists k :: k in before.keywords && k in after.keywords && before.keywords[k] != after.keywords[k] &&
            k !in {Enum, Properties, Items, Then, Else, AllOf, AnyOf, OneOf, PrefixItems})
      || (PropertiesOf(before).Named? && PropertiesOf(after).Named? &&
          exists n :: n in PropertiesOf(before).members && n !in PropertiesOf(after).members)
    ensures !Compare(before, after, context)
  {
    AcceptedExactly(before, after, context);
    hide Compare;
  }

  // ---- What is accepted ---------------------------------------------------------

  /** A new optional member of an object that was closed to it is accepted. */
  lemma OptionalMemberIsAccepted(node: Schema, name: string, added: Schema, context: Context)
    requires context.positive && node.Node? && !IsEvaluationSensitive(node)
    requires AdditionalProperties in node.keywords && node.keywords[AdditionalProperties] == One(Always(false))
    requires PatternProperties !in node.keywords && !IsRequired(node, name)
    requires Properties in node.keywords ==> node.keywords[Properties].Named?
    requires name !in NamedAt(node, Properties)
    ensures Compare(node, node.(keywords := node.keywords[Properties := Named(NamedAt(node, Properties)[name := added])]), context)
  {
    var wider := NamedAt(node, Properties)[name := added];
    var after := node.(keywords := node.keywords[Properties := Named(wider)]);
    assert wider.Keys - NamedAt(node, Properties).Keys == {name};
    assert PropertiesAllowed(node, after, context);
    assert node.keywords.Keys - {Properties} == after.keywords.Keys - {Properties};
    forall k | k in node.keywords.Keys + after.keywords.Keys ensures KeywordAllowed(node, after, k, context) {
      assert k != Properties ==> ValueOf(node, k) == ValueOf(after, k);
    }
    assert Compare(node, after, context);
  }

  /** The same change of an open object is refused, and rightly: it can reject an old instance. */
  lemma OpenObjectsMayNotGrow()
    ensures var before := Node(map[Properties := Named(map[])], None);
            var after := Node(map[Properties := Named(map["a" := Always(false)])], None);
            && (forall context :: !Compare(before, after, context))
            && forall env :: Accepts(before, env, Obj(map["a" := Null])) && !Accepts(after, env, Obj(map["a" := Null]))
  {
    var before := Node(map[Properties := Named(map[])], None);
    var after := Node(map[Properties := Named(map["a" := Always(false)])], None);
    forall context ensures !Compare(before, after, context) {
      assert "a" in NamedAt(after, Properties).Keys - NamedAt(before, Properties).Keys;
      assert Properties in before.keywords && !KeywordAllowed(before, after, Properties, context);
    }
    forall env ensures !Accepts(after, env, Obj(map["a" := Null])) {
      assert "a" in after.keywords[Properties].members && !MembersHold(after, Properties, env, Obj(map["a" := Null]));
      assert !Asserts(after, Properties, env, Obj(map["a" := Null]));
    }
  }

  /** Relaxing one branch of an arbitrary oneOf can make two branches accept. */
  lemma OverlappingBranchesMayNotRelax()
    ensures var before := Node(map[OneOf := Many([Always(true), Always(false)])], None);
            var after := Node(map[OneOf := Many([Always(true), Always(true)])], None);
            && (forall context :: !Compare(before, after, context))
            && forall env :: Accepts(before, env, Null) && !Accepts(after, env, Null)
  {
    var before := Node(map[OneOf := Many([Always(true), Always(false)])], None);
    var after := Node(map[OneOf := Many([Always(true), Always(true)])], None);
    forall context ensures !Compare(before, after, context) {
      assert !Compare(before.keywords[OneOf].schemas[1], after.keywords[OneOf].schemas[1], context);
      assert OneOf in before.keywords && !KeywordAllowed(before, after, OneOf, context);
    }
    forall env ensures Accepts(before, env, Null) && !Accepts(after, env, Null) {
      assert Accepts(before.keywords[OneOf].schemas[0], env, Null) && BranchesHold(before, OneOf, env, Null);
      assert Accepts(after.keywords[OneOf].schemas[0], env, Null) && Accepts(after.keywords[OneOf].schemas[1], env, Null);
      assert !BranchesHold(after, OneOf, env, Null);
      assert !Asserts(after, OneOf, env, Null);
    }
  }

  /** Accepted changes compose: checking each release against the last one also checks it against the first. */
  lemma {:induction false} AcceptedChangesCompose(a: Schema, b: Schema, c: Schema, context: Context)
    requires Compare(a, b, context) && Compare(b, c, context)
    ensures Compare(a, c, context)
    decreases a, 2
  {
    if a != b && b != c {
      if a.reference.Some? {
        AcceptedChangesCompose(a.reference.value, b.reference.value, c.reference.value, context);
      }
      forall k ensures KeywordAllowed(a, c, k, context) {
        KeywordChangesCompose(a, b, c, k, context);
      }
    }
  }

  lemma {:induction false} KeywordChangesCompose(a: Schema, b: Schema, c: Schema, k: Keyword, context: Context)
    requires Changed(a, b, context) && Changed(b, c, context)
    ensures KeywordAllowed(a, c, k, context)
    decreases a, 1
  {
    SameKeys(a, b, context, k);
    SameKeys(b, c, context, k);
    var x, y, z := ValueOf(a, k), ValueOf(b, k), ValueOf(c, k);
    if k == Properties {
      if x != z {
        MemberChangesCompose(a, b, c, context);
      }
    } else if x != y && y != z {
      if k == Enum {
        forall i | 0 <= i < |x.json.items| ensures x.json.items[i] in z.json.items {
          assert x.json.items[i] in y.json.items;
          var j :| 0 <= j < |y.json.items| && y.json.items[j] == x.json.items[i];
          assert y.json.items[j] in z.json.items;
        }
      } else if IsSingle(k) {
        AcceptedChangesCompose(x.schema, y.schema, z.schema, context);
      } else {
        ChangedBranches(a, b, k, context);
        ChangedBranches(b, c, k, context);
        forall i | 0 <= i < |x.schemas| ensures Compare(x.schemas[i], z.schemas[i], context) {
          AcceptedChangesCompose(x.schemas[i], y.schemas[i], z.schemas[i], context);
        }
        assert context.(positive := true) == context;
      }
    }
  }

  lemma {:induction false} MemberChangesCompose(a: Schema, b: Schema, c: Schema, context: Context)
    requires Changed(a, b, context) && Changed(b, c, context)
    requires ValueOf(a, Properties).Named? && ValueOf(b, Properties).Named? && ValueOf(c, Properties).Named?
    requires PropertiesAllowed(a, b, context) && PropertiesAllowed(b, c, context)
    ensures PropertiesAllowed(a, c, context)
    decreases a, 0
  {
    var x, y, z := NamedAt(a, Properties), NamedAt(b, Properties), NamedAt(c, Properties);
    forall n | n in x ensures Compare(x[n], z[n], context) {
      AcceptedChangesCompose(x[n], y[n], z[n], context);
    }
    forall k | k in {AdditionalProperties, PatternProperties, Required, UnevaluatedProperties}
      ensures k in a.keywords <==> k in b.keywords
      ensures ValueOf(a, k) == ValueOf(b, k)
    {
      SameKeys(a, b, context, k);
      FrozenKeyword(a, b, k, context);
    }
    assert z.Keys - x.Keys == (z.Keys - y.Keys) + (y.Keys - x.Keys);
  }
}
