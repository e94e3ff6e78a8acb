/**
 RFC 7396 patches: applying one, computing one, and exactly when one exists.
 The specification functions follow section 2 of RFC 7396; the methods fill a
 dictionary member by member, and are proved to compute those functions.
 */
module MergePatch {
  import opened Json

  type Object = map<string, Json>

  function MembersOf(j: Json): Object {
    if j.Obj? then j.members else map[]
  }

  function Member(o: Object, key: string): Json {
    if key in o then o[key] else Null
  }

  /** MergePatch of section 2 of RFC 7396. */
  function Patched(target: Json, patch: Json): Json
    decreases patch
  {
    if !patch.Obj? then patch
    else
      var base := MembersOf(target);
      Obj(map k | k in base.Keys + patch.members.Keys && (k in patch.members ==> patch.members[k] != Null) ::
            if k in patch.members then Patched(Member(base, k), patch.members[k]) else base[k])
  }

  /** One member of a patched document. */
  lemma PatchedMember(target: Json, patch: Json, key: string)
    requires patch.Obj?
    ensures var base, result := MembersOf(target), Patched(target, patch).members;
            if key !in patch.members then (key in result <==> key in base) && (key in base ==> result[key] == base[key])
            else if patch.members[key] == Null then key !in result
            else key in result && result[key] == Patched(Member(base, key), patch.members[key])
  {
  }

  method ApplyPatch(target: Json, patch: Json) returns (result: Json)
    ensures result == Patched(target, patch)
    decreases patch
  {
    if !patch.Obj? {
      return patch;
    }
    var base := MembersOf(target);
    var merged := base;
    var pending := patch.members.Keys;
    while pending != {}
      invariant pending <= patch.members.Keys
      invariant forall k :: k in pending || k !in patch.members ==>
                  (k in merged <==> k in base) && (k in base ==> merged[k] == base[k])
      invariant forall k :: k in patch.members && k !in pending ==>
                  if patch.members[k] == Null then k !in merged
                  else k in merged && merged[k] == Patched(Member(base, k), patch.members[k])
      decreases pending
    {
      var key :| key in pending;
      if patch.members[key] == Null {
        merged := merged - {key};
      } else {
        var value := ApplyPatch(Member(merged, key), patch.members[key]);
        merged := merged[key := value];
      }
      pending := pending - {key};
    }
    result := Obj(merged);
    assert merged == Patched(target, patch).members;
  }

  /** The patch that names every removed member and every changed one. */
  function Difference(source: Object, target: Object): Object
    decreases Obj(target)
  {
    map k | k in source.Keys + target.Keys && !(k in source && k in target && JsonEqual(source[k], target[k])) ::
      if k !in target then Null
      else if target[k].Obj? then Obj(Difference(MembersOf(Member(source, k)), target[k].members))
      else target[k]
  }

  method CreatePatch(source: Object, target: Object) returns (patch: Object)
    ensures patch == Difference(source, target)
    decreases Obj(target)
  {
    patch := map k | k in source && k !in target :: Null;
    var pending := target.Keys;
    while pending != {}
      invariant pending <= target.Keys
      invariant forall k :: k in patch <==>
                  (k in source && k !in target) || (k in target && k !in pending && k in Difference(source, target))
      invariant forall k :: k in patch ==> k in Difference(source, target) && patch[k] == Difference(source, target)[k]
      decreases pending
    {
      var key :| key in pending;
      var value := target[key];
      if key in source && JsonEqual(source[key], value) {
      } else if value.Obj? {
        var nested := CreatePatch(MembersOf(Member(source, key)), value.members);
        patch := patch[key := Obj(nested)];
      } else {
        patch := patch[key := value];
      }
      pending := pending - {key};
    }
  }

  /**
   What a patch can express: a null member cannot be written, only kept.
   Arrays are replaced whole, so nulls inside them are harmless.
   */
  predicate Representable(source: Object, target: Object)
    decreases Obj(target)
  {
    forall k :: k in target ==>
      || (k in source && JsonEqual(source[k], target[k]))
      || (target[k] != Null && !target[k].Obj?)
      || (target[k].Obj? && Representable(MembersOf(Member(source, k)), target[k].members))
  }

  /** If any patch at all leads from source to target, then target is representable. */
  lemma {:induction false} OnlyRepresentableIsReachable(source: Object, target: Object, patch: Json)
    requires JsonEqual(Patched(Obj(source), patch), Obj(target))
    ensures Representable(source, target)
    decreases Obj(target)
  {
    var result := Patched(Obj(source), patch).members;
    forall k | k in target && target[k].Obj? && !(k in source && JsonEqual(source[k], target[k]))
      ensures Representable(MembersOf(Member(source, k)), target[k].members)
    {
      PatchedMember(Obj(source), patch, k);
      var previous, inner := MembersOf(Member(source, k)), patch.members[k];
      assert Patched(Obj(previous), inner) == Patched(Member(source, k), inner);
      OnlyRepresentableIsReachable(previous, target[k].members, inner);
    }
    forall k | k in target && target[k] == Null
      ensures k in source && JsonEqual(source[k], Null)
    {
      PatchedMember(Obj(source), patch, k);
      assert k in result && result[k] == Null;
    }
  }

  /** The computed patch reaches every representable target, up to JSON equality. */
  lemma {:induction false} DifferenceReaches(source: Object, target: Object)
    requires Representable(source, target) && AllFinite(Obj(target))
    ensures JsonEqual(Patched(Obj(source), Obj(Difference(source, target))), Obj(target))
    decreases Obj(target)
  {
    var patch := Difference(source, target);
    var result := Patched(Obj(source), Obj(patch)).members;
    forall k | k in target ensures k in result && JsonEqual(result[k], target[k]) {
      PatchedMember(Obj(source), Obj(patch), k);
      if k in patch {
        if target[k].Obj? {
          var previous := MembersOf(Member(source, k));
          assert Patched(Obj(previous), patch[k]) == Patched(Member(source, k), patch[k]);
          DifferenceReaches(previous, target[k].members);
        } else {
          JsonEqualReflexive(target[k]);
        }
      }
    }
    assert result.Keys == target.Keys;
  }

  /**
   The refusal of an unrepresentable target is complete: the computed patch
   reproduces the target exactly when some patch does.
   */
  lemma DifferenceIsBest(source: Object, target: Object)
    requires AllFinite(Obj(target))
    ensures Representable(source, target)
       <==> JsonEqual(Patched(Obj(source), Obj(Difference(source, target))), Obj(target))
    ensures Representable(source, target)
       <==> exists p :: JsonEqual(Patched(Obj(source), p), Obj(target))
  {
    if Representable(source, target) {
      DifferenceReaches(source, target);
    }
    forall p | JsonEqual(Patched(Obj(source), p), Obj(target)) ensures Representable(source, target) {
      OnlyRepresentableIsReachable(source, target, p);
    }
  }

  /** Whatever patch reaches the target names at least the members that the computed one names. */
  lemma DifferenceIsLeast(source: Object, target: Object, patch: Object)
    requires JsonEqual(Patched(Obj(source), Obj(patch)), Obj(target))
    ensures Difference(source, target).Keys <= patch.Keys
    ensures JsonEqual(Obj(source), Obj(target)) <==> Difference(source, target) == map[]
  {
    forall k | k in Difference(source, target) ensures k in patch {
      PatchedMember(Obj(source), Obj(patch), k);
    }
    if JsonEqual(Obj(source), Obj(target)) {
      assert forall k :: k !in Difference(source, target);
    } else if Difference(source, target) == map[] {
      forall k | k in source.Keys + target.Keys ensures k in source && k in target && JsonEqual(source[k], target[k]) {
        assert k !in Difference(source, target);
      }
      assert source.Keys == target.Keys;
    }
  }

  /** Members that compare equal are also the same value: no zero changed its sign. */
  predicate SharedAreIdentical(source: Object, target: Object)
    decreases Obj(target)
  {
    forall k :: k in target ==>
      if k in source && JsonEqual(source[k], target[k]) then source[k] == target[k]
      else target[k].Obj? ==> SharedAreIdentical(MembersOf(Member(source, k)), target[k].members)
  }

  /** The exact condition for reproducing the target itself and not only an equal tree. */
  lemma {:induction false} ReproducesIdentically(source: Object, target: Object)
    ensures Patched(Obj(source), Obj(Difference(source, target))) == Obj(target)
       <==> Representable(source, target) && SharedAreIdentical(source, target)
    decreases Obj(target)
  {
    var patch := Difference(source, target);
    var result := Patched(Obj(source), Obj(patch)).members;
    forall k | k in target
      ensures (k in result && result[k] == target[k])
         <==> if k in source && JsonEqual(source[k], target[k]) then source[k] == target[k]
              else target[k] != Null &&
                   (target[k].Obj? ==>
                      Representable(MembersOf(Member(source, k)), target[k].members) &&
                      SharedAreIdentical(MembersOf(Member(source, k)), target[k].members))
    {
      PatchedMember(Obj(source), Obj(patch), k);
      if k in patch && target[k].Obj? {
        var previous := MembersOf(Member(source, k));
        assert Patched(Obj(previous), patch[k]) == Patched(Member(source, k), patch[k]);
        ReproducesIdentically(previous, target[k].members);
      }
    }
    assert result.Keys <= target.Keys;
    assert result == target <==> forall k :: k in target ==> k in result && result[k] == target[k];
  }

  /** A sign of zero is lost: the patch is empty although the documents differ. */
  lemma SignOfZeroIsNotPatched()
    ensures var source, target := map["a" := Float(Finite(0.0))], map["a" := Float(NegativeZero)];
            && Difference(source, target) == map[]
            && Representable(source, target)
            && Patched(Obj(source), Obj(map[])) != Obj(target)
  {
    var source, target := map["a" := Float(Finite(0.0))], map["a" := Float(NegativeZero)];
    assert JsonEqual(source["a"], target["a"]);
    assert Patched(Obj(source), Obj(map[])).members["a"] == Float(Finite(0.0));
  }

  /** Applying a patch again changes nothing. */
  lemma {:induction false} PatchIsIdempotent(target: Json, patch: Json)
    ensures Patched(Patched(target, patch), patch) == Patched(target, patch)
    decreases patch
  {
    if patch.Obj? {
      var once := Patched(target, patch).members;
      forall k | k in patch.members && patch.members[k] != Null
        ensures Patched(once[k], patch.members[k]) == once[k]
      {
        PatchIsIdempotent(Member(MembersOf(target), k), patch.members[k]);
      }
      assert Patched(Obj(once), patch).members == once;
    }
  }

  // ---- Members at any depth ------------------------------------------------------------

  datatype Found = Absent | Present(value: Json)

  /** The value that a chain of member names leads to. */
  function At(j: Json, path: seq<string>): Found
    decreases |path|
  {
    if path == [] then Present(j)
    else if j.Obj? && path[0] in j.members then At(j.members[path[0]], path[1..])
    else Absent
  }

  /** The patch neither reaches the path nor replaces anything on the way to it. */
  predicate LeavesAlone(patch: Json, path: seq<string>)
    decreases |path|
  {
    path != [] && patch.Obj? && (path[0] in patch.members ==> LeavesAlone(patch.members[path[0]], path[1..]))
  }

  /** What a patch has at a path, null and objects apart, the result has there, whatever the target was. */
  lemma {:induction false} PatchSetsValue(target: Json, patch: Json, path: seq<string>, value: Json)
    requires At(patch, path) == Present(value) && value != Null && !value.Obj?
    ensures At(Patched(target, patch), path) == Present(value)
    decreases |path|
  {
    if path != [] {
      PatchedMember(target, patch, path[0]);
      if path[1..] == [] {
        assert At(patch.members[path[0]], path[1..]) == Present(patch.members[path[0]]);
      } else {
        assert patch.members[path[0]].Obj?;
      }
      PatchSetsValue(Member(MembersOf(target), path[0]), patch.members[path[0]], path[1..], value);
    }
  }

  /** A null removes what is at its path. */
  lemma {:induction false} PatchRemovesMember(target: Json, patch: Json, path: seq<string>)
    requires path != [] && At(patch, path) == Present(Null)
    ensures At(Patched(target, patch), path) == Absent
    decreases |path|
  {
    PatchedMember(target, patch, path[0]);
    if path[1..] != [] {
      PatchRemovesMember(Member(MembersOf(target), path[0]), patch.members[path[0]], path[1..]);
    }
  }

  /** A value that a patch leaves alone stays. */
  lemma {:induction false} PatchLeavesValue(target: Json, patch: Json, path: seq<string>, value: Json)
    requires LeavesAlone(patch, path) && At(target, path) == Present(value)
    ensures At(Patched(target, patch), path) == Present(value)
    decreases |path|
  {
    PatchedMember(target, patch, path[0]);
    if path[0] in patch.members {
      PatchLeavesValue(target.members[path[0]], patch.members[path[0]], path[1..], value);
    }
  }
}

/** semantic_diff and resolve_merge_patches. */
module DocumentOps {
  import opened Outcomes
  import opened Json
  import opened MergePatch

  datatype DocumentError = NonFiniteNumber | Unrepresentable | SchemaVersionChanged | Invalid

  /** Diffing succeeds exactly when some RFC 7396 patch exists, and returns one. */
  method SemanticDiff(source: Object, target: Object) returns (r: Result<Object, DocumentError>)
    ensures !(AllFinite(Obj(source)) && AllFinite(Obj(target))) <==> r == Err(NonFiniteNumber)
    ensures AllFinite(Obj(source)) && AllFinite(Obj(target)) ==>
              (r.Ok? <==> exists p :: JsonEqual(Patched(Obj(source), p), Obj(target)))
    ensures r.Ok? ==> JsonEqual(Patched(Obj(source), Obj(r.value)), Obj(target))
    ensures r.Err? ==> r.error in {NonFiniteNumber, Unrepresentable}
  {
    if !AllFinite(Obj(source)) || !AllFinite(Obj(target)) {
      return Err(NonFiniteNumber);
    }
    var patch := CreatePatch(source, target);
    var reproduced := ApplyPatch(Obj(source), Obj(patch));
    DifferenceIsBest(source, target);
    if !JsonEqual(reproduced, Obj(target)) {
      return Err(Unrepresentable);
    }
    r := Ok(patch);
  }

  /** Python's == on parsed values: a bool, an int and a float compare by number. */
  predicate PythonEqual(a: Json, b: Json) {
    if IsNumber(a) && IsNumber(b) then NumbersEqual(a, b)
    else match (a, b)
      case (Arr(l), Arr(r)) => |l| == |r| && forall i :: 0 <= i < |l| ==> PythonEqual(l[i], r[i])
      case (Obj(l), Obj(r)) => l.Keys == r.Keys && forall k :: k in l ==> PythonEqual(l[k], r[k])
      case (_, _) => a == b
  }

  predicate IsNumber(j: Json) {
    j.Bool? || j.Int? || j.Float?
  }

  predicate NumbersEqual(a: Json, b: Json)
    requires IsNumber(a) && IsNumber(b)
  {
    DoubleEqual(AsDouble(a), AsDouble(b))
  }

  function AsDouble(j: Json): Double
    requires IsNumber(j)
  {
    match j
    case Bool(b) => Finite(if b then 1.0 else 0.0)
    case Int(i) => Finite(i as real)
    case Float(d) => d
  }

  /** The document after all overlays, the first one innermost. */
  function Overlaid(base: Object, overlays: seq<Object>): Object {
    if overlays == [] then base
    else
      var last := |overlays| - 1;
      Patched(Obj(Overlaid(base, overlays[..last])), Obj(overlays[last])).members
  }

  predicate FiniteInputs(base: Object, overlays: seq<Object>) {
    AllFinite(Obj(base)) && forall i :: 0 <= i < |overlays| ==> AllFinite(Obj(overlays[i]))
  }

  predicate SameSchemaVersion(a: Object, b: Object) {
    PythonEqual(Member(a, "schema_version"), Member(b, "schema_version"))
  }

  method ResolveMergePatches(base: Object, overlays: seq<Object>, valid: Object -> bool)
    returns (r: Result<Object, DocumentError>)
    ensures r == Err(NonFiniteNumber) <==> !FiniteInputs(base, overlays)
    ensures r == Err(SchemaVersionChanged) <==>
              FiniteInputs(base, overlays) && !SameSchemaVersion(Overlaid(base, overlays), base)
    ensures r == Err(Invalid) <==>
              && FiniteInputs(base, overlays) && SameSchemaVersion(Overlaid(base, overlays), base)
              && !valid(Overlaid(base, overlays))
    ensures r.Ok? ==> r.value == Overlaid(base, overlays)
    ensures r.Ok? && "schema_version" in base && base["schema_version"].Str? ==>
              "schema_version" in r.value && r.value["schema_version"] == base["schema_version"]
    ensures r.Err? ==> r.error in {NonFiniteNumber, SchemaVersionChanged, Invalid}
  {
    if !AllFinite(Obj(base)) {
      return Err(NonFiniteNumber);
    }
    var resolved := base;
    for i := 0 to |overlays|
      invariant resolved == Overlaid(base, overlays[..i])
      invariant forall j :: 0 <= j < i ==> AllFinite(Obj(overlays[j]))
    {
      if !AllFinite(Obj(overlays[i])) {
        return Err(NonFiniteNumber);
      }
      var merged := ApplyPatch(Obj(resolved), Obj(overlays[i]));
      assert overlays[..i + 1][..i] == overlays[..i];
      resolved := merged.members;
    }
    assert overlays[..|overlays|] == overlays;
    if !SameSchemaVersion(resolved, base) {
      return Err(SchemaVersionChanged);
    }
    if !valid(resolved) {
      return Err(Invalid);
    }
    r := Ok(resolved);
  }

  // ---- What a stack of overlays leaves ---------------------------------------------------

  /** No overlay from the given one on touches the path. */
  predicate StayClear(overlays: seq<Object>, from: nat, path: seq<string>) {
    forall i :: from <= i < |overlays| ==> LeavesAlone(Obj(overlays[i]), path)
  }

  lemma LastIsPatch(base: Object, overlays: seq<Object>)
    requires overlays != []
    ensures var last := |overlays| - 1;
            Obj(Overlaid(base, overlays)) == Patched(Obj(Overlaid(base, overlays[..last])), Obj(overlays[last]))
  {
  }

  lemma {:induction false} ClearOverlaysKeep(base: Object, overlays: seq<Object>, from: nat, path: seq<string>, value: Json)
    requires from <= |overlays| && StayClear(overlays, from, path)
    requires At(Obj(Overlaid(base, overlays[..from])), path) == Present(value)
    ensures At(Obj(Overlaid(base, overlays)), path) == Present(value)
    decreases |overlays|
  {
    hide At, LeavesAlone, Overlaid;
    if from == |overlays| {
      assert overlays[..from] == overlays;
    } else {
      var last := |overlays| - 1;
      assert overlays[..last][..from] == overlays[..from];
      LastIsPatch(base, overlays);
      ClearOverlaysKeep(base, overlays[..last], from, path, value);
      PatchLeavesValue(Obj(Overlaid(base, overlays[..last])), Obj(overlays[last]), path, value);
    }
  }

  /** A value the base has and no overlay touches is in the result, at any depth. */
  lemma UntouchedValueStays(base: Object, overlays: seq<Object>, path: seq<string>, value: Json)
    requires StayClear(overlays, 0, path) && At(Obj(base), path) == Present(value)
    ensures At(Obj(Overlaid(base, overlays)), path) == Present(value)
  {
    assert overlays[..0] == [];
    ClearOverlaysKeep(base, overlays, 0, path, value);
  }

  /** The last overlay that has a value at a path decides it, at any depth. */
  lemma LastValueWins(base: Object, overlays: seq<Object>, i: nat, path: seq<string>, value: Json)
    requires i < |overlays| && StayClear(overlays, i + 1, path)
    requires At(Obj(overlays[i]), path) == Present(value) && value != Null && !value.Obj?
    ensures At(Obj(Overlaid(base, overlays)), path) == Present(value)
  {
    assert overlays[..i + 1][..i] == overlays[..i];
    PatchSetsValue(Obj(Overlaid(base, overlays[..i])), Obj(overlays[i]), path, value);
    ClearOverlaysKeep(base, overlays, i + 1, path, value);
  }

  /** A member that the last overlay naming it sets to null is gone. */
  lemma LastNullRemoves(base: Object, overlays: seq<Object>, i: nat, key: string)
    requires i < |overlays| && key in overlays[i] && overlays[i][key] == Null
    requires forall j :: i < j < |overlays| ==> key !in overlays[j]
    ensures key !in Overlaid(base, overlays)
  {
    assert overlays[..i + 1][..i] == overlays[..i];
    PatchedMember(Obj(Overlaid(base, overlays[..i])), Obj(overlays[i]), key);
    LastOverlayDecides(base, overlays, key, i + 1);
  }

  /** A stack of one overlay is one patch, and stacks compose. */
  lemma {:induction false} StacksCompose(base: Object, lower: seq<Object>, upper: seq<Object>)
    ensures Overlaid(base, []) == base
    ensures forall o :: Obj(Overlaid(base, [o])) == Patched(Obj(base), Obj(o))
    ensures Overlaid(base, lower + upper) == Overlaid(Overlaid(base, lower), upper)
    decreases |upper|
  {
    forall o ensures Obj(Overlaid(base, [o])) == Patched(Obj(base), Obj(o)) {
      assert [o][..0] == [];
    }
    if upper == [] {
      assert lower + upper == lower;
    } else {
      var last := |upper| - 1;
      assert (lower + upper)[..|lower + upper| - 1] == lower + upper[..last];
      StacksCompose(base, lower, upper[..last]);
    }
  }

  /** A member that no overlay names keeps its value, and the last overlay naming one decides it. */
  lemma {:induction false} LastOverlayDecides(base: Object, overlays: seq<Object>, key: string, at: nat)
    requires at <= |overlays|
    requires forall i :: at <= i < |overlays| ==> key !in overlays[i]
    ensures key in Overlaid(base, overlays) <==> key in Overlaid(base, overlays[..at])
    ensures Member(Overlaid(base, overlays), key) == Member(Overlaid(base, overlays[..at]), key)
    decreases |overlays|
  {
    if at < |overlays| {
      var before := overlays[..|overlays| - 1];
      assert before[..at] == overlays[..at];
      LastOverlayDecides(base, before, key, at);
    } else {
      assert overlays[..at] == overlays;
    }
  }

  /** Materializing an overlay stack and laying its last overlay on again changes nothing. */
  lemma LastOverlayIsAbsorbed(base: Object, overlays: seq<Object>)
    requires overlays != []
    ensures Overlaid(base, overlays + [overlays[|overlays| - 1]]) == Overlaid(base, overlays)
  {
    var last := overlays[|overlays| - 1];
    var below := Obj(Overlaid(base, overlays[..|overlays| - 1]));
    assert (overlays + [last])[..|overlays|] == overlays;
    PatchIsIdempotent(below, Obj(last));
    assert Patched(below, Obj(last)) == Obj(Overlaid(base, overlays));
  }
}
