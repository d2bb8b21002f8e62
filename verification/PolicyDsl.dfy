// Policy documents: their schema, and diff, validation and mutation of candidates.
module PolicyDsl {
  import opened Json
  import opened CanonicalJson

  const PROTECTED_FIELDS: set<string> :=
    {"safety_policy_ref", "evaluator_suite_ref", "tenant_permissions", "knowledge_snapshot_ref"}

  const ALLOWED_COMPONENTS: set<string> :=
    {"phase_policy", "action_policy", "retrieval_policy", "tool_policy", "response_policy", "memory_policy",
     "termination_policy"}

  const FREE_FIELDS: set<string> := {"version", "description", "metadata"}

  // ---- The schema -------------------------------------------------------------------------------

  // A required string field.
  predicate RequiredStr(d: Dict, key: string) {
    key in d && d[key].Str?
  }

  // An optional field that holds a mapping when present; an explicit null is refused.
  predicate OptionalObj(d: Dict, key: string) {
    key in d ==> d[key].Obj?
  }

  // `PolicyDocument.model_validate` succeeds; keys it does not know are ignored.
  predicate SchemaValid(d: Dict) {
    && RequiredStr(d, "id")
    && RequiredStr(d, "version")
    && RequiredStr(d, "safety_policy_ref")
    && RequiredStr(d, "evaluator_suite_ref")
    && ("description" in d ==> d["description"].Str?)
    && ("knowledge_snapshot_ref" in d ==> d["knowledge_snapshot_ref"].Str? || d["knowledge_snapshot_ref"].Null?)
    && (forall key | key in ALLOWED_COMPONENTS :: OptionalObj(d, key))
    && OptionalObj(d, "tenant_permissions")
    && OptionalObj(d, "metadata")
  }

  const MAPPINGS: set<string> := {
    "phase_policy", "action_policy", "retrieval_policy", "tool_policy", "response_policy", "memory_policy",
    "termination_policy", "tenant_permissions", "metadata"}

  // Which values a field of a valid document may be given.
  lemma FieldTypes(d: Dict, key: string, value: Json)
    requires SchemaValid(d)
    ensures SchemaValid(d[key := value]) <==>
      && (key in {"id", "version", "safety_policy_ref", "evaluator_suite_ref", "description"} ==> value.Str?)
      && (key == "knowledge_snapshot_ref" ==> value.Str? || value.Null?)
      && (key in MAPPINGS ==> value.Obj?)
  {
    var given := d[key := value];
    forall other | other in ALLOWED_COMPONENTS && other != key ensures OptionalObj(given, other) {
      assert OptionalObj(d, other);
    }
    assert key in ALLOWED_COMPONENTS ==> (OptionalObj(given, key) <==> value.Obj?);
    hide OptionalObj;
  }

  // A key may be left out unless the schema requires it.
  lemma FieldsRequired(d: Dict, key: string)
    requires SchemaValid(d)
    ensures SchemaValid(d - {key}) <==> key !in {"id", "version", "safety_policy_ref", "evaluator_suite_ref"}
  {
    forall other | other in ALLOWED_COMPONENTS ensures OptionalObj(d - {key}, other) {
      assert OptionalObj(d, other);
    }
    hide OptionalObj;
  }

  // ---- Differences --------------------------------------------------------------------------------

  datatype Change = Change(before: Json, after: Json)

  predicate SameAt(a: Dict, b: Dict, key: string) {
    PyEq(Get(a, key), Get(b, key))
  }

  function DiffOf(base: Dict, candidate: Dict): map<string, Change> {
    map key | key in base.Keys + candidate.Keys && !SameAt(base, candidate, key)
      :: Change(Get(base, key), Get(candidate, key))
  }

  // The differences on the keys listed so far.
  ghost predicate IsDiffOn(base: Dict, candidate: Dict, ks: seq<string>, changes: map<string, Change>) {
    && (forall key :: key in changes <==> key in ks && !SameAt(base, candidate, key))
    && (forall key | key in changes :: changes[key] == Change(Get(base, key), Get(candidate, key)))
  }

  lemma DiffStep(base: Dict, candidate: Dict, ks: seq<string>, key: string, changes: map<string, Change>)
    requires IsDiffOn(base, candidate, ks, changes)
    ensures IsDiffOn(base, candidate, ks + [key],
      if SameAt(base, candidate, key) then changes else changes[key := Change(Get(base, key), Get(candidate, key))])
  {
    hide SameAt, Get;
  }

  lemma DiffIsCharacterized(base: Dict, candidate: Dict, ks: seq<string>, changes: map<string, Change>)
    requires IsDiffOn(base, candidate, ks, changes) && forall key :: key in ks <==> key in base.Keys + candidate.Keys
    ensures changes == DiffOf(base, candidate)
  {
    hide SameAt, Get;
    assert changes.Keys == DiffOf(base, candidate).Keys;
  }

  method SemanticDiff(base: Dict, candidate: Dict) returns (changes: map<string, Change>)
    ensures changes == DiffOf(base, candidate)
  {
    hide SortedKeys, IsDiffOn, DiffOf;
    var keys := Sorted(base.Keys + candidate.Keys);
    changes := DiffOn(base, candidate, keys);
    DiffIsCharacterized(base, candidate, keys, changes);
  }

  // The loop over the keys.
  method DiffOn(base: Dict, candidate: Dict, keys: seq<string>) returns (changes: map<string, Change>)
    ensures IsDiffOn(base, candidate, keys, changes)
  {
    changes := map[];
    assert IsDiffOn(base, candidate, keys[..0], changes);
    hide SameAt, Get, IsDiffOn;
    for i := 0 to |keys|
      invariant IsDiffOn(base, candidate, keys[..i], changes)
    {
      DiffStep(base, candidate, keys[..i], keys[i], changes);
      assert keys[..i + 1] == keys[..i] + [keys[i]];
      if !SameAt(base, candidate, keys[i]) {
        changes := changes[keys[i] := Change(Get(base, keys[i]), Get(candidate, keys[i]))];
      }
    }
    assert keys[..|keys|] == keys;
  }

  // Writing every `after` into the base.
  function ApplyDiff(base: Dict, diff: map<string, Change>): Dict {
    base + map key | key in diff :: diff[key].after
  }

  // Writing every `before` back into the candidate.
  function UndoDiff(candidate: Dict, diff: map<string, Change>): Dict {
    candidate + map key | key in diff :: diff[key].before
  }

  // Two documents that read alike under `get`, on every key.
  ghost predicate ReadAlike(a: Dict, b: Dict) {
    forall key :: SameAt(a, b, key)
  }

  // A diff names exactly the keys that read differently, and carries enough to redo the change.
  lemma DiffRecoversCandidate(base: Dict, candidate: Dict)
    ensures ReadAlike(ApplyDiff(base, DiffOf(base, candidate)), candidate)
    ensures forall key :: key in DiffOf(base, candidate) <==> !SameAt(base, candidate, key)
    ensures DiffOf(base, candidate) == map[] <==> ReadAlike(base, candidate)
  {
    var diff := DiffOf(base, candidate);
    forall key ensures SameAt(ApplyDiff(base, diff), candidate, key) {}
    if ReadAlike(base, candidate) {
      assert diff.Keys == {};
    }
    if diff == map[] {
      forall key ensures SameAt(base, candidate, key) { assert key !in diff; }
    }
  }

  // A diff carries enough to undo the change as well.
  lemma DiffRecoversBase(base: Dict, candidate: Dict)
    ensures ReadAlike(UndoDiff(candidate, DiffOf(base, candidate)), base)
  {
    var diff := DiffOf(base, candidate);
    forall key ensures SameAt(UndoDiff(candidate, diff), base, key) {}
  }

  // ---- Validation of a mutation ---------------------------------------------------------------------

  datatype MutationError = ProtectedFieldChanged(key: string) | FieldNotMutable(key: string) | SchemaFailed

  // `mutable or ALLOWED_COMPONENTS`: an empty set counts as absent.
  function EffectiveMutable(mutable: set<string>): set<string> {
    if mutable == {} then ALLOWED_COMPONENTS else mutable
  }

  predicate Violates(base: Dict, candidate: Dict, mutable: set<string>, e: MutationError) {
    match e
    case ProtectedFieldChanged(key) => key in PROTECTED_FIELDS && !SameAt(base, candidate, key)
    case FieldNotMutable(key) =>
      !SameAt(base, candidate, key) && key !in EffectiveMutable(mutable) && key !in FREE_FIELDS
    case SchemaFailed => !SchemaValid(candidate)
  }

  // What an accepted mutation keeps: validity, and every field outside the mutable and free ones.
  ghost predicate Accepted(base: Dict, candidate: Dict, mutable: set<string>) {
    && SchemaValid(candidate)
    && (forall key | key in PROTECTED_FIELDS :: SameAt(base, candidate, key))
    && (forall key | key !in EffectiveMutable(mutable) && key !in FREE_FIELDS :: SameAt(base, candidate, key))
  }

  ghost predicate Distinct(errors: seq<MutationError>) {
    forall i, j | 0 <= i < j < |errors| :: errors[i] != errors[j]
  }

  // The loop over `PROTECTED_FIELDS`, a set: its order is arbitrary.
  method ProtectedErrors(base: Dict, candidate: Dict) returns (errors: seq<MutationError>)
    ensures forall e :: e in errors <==>
      e.ProtectedFieldChanged? && e.key in PROTECTED_FIELDS && !SameAt(base, candidate, e.key)
    ensures Distinct(errors)
  {
    errors := [];
    var todo := PROTECTED_FIELDS;
    while todo != {}
      invariant todo <= PROTECTED_FIELDS
      invariant forall e :: e in errors <==>
        e.ProtectedFieldChanged? && e.key in PROTECTED_FIELDS - todo && !SameAt(base, candidate, e.key)
      invariant Distinct(errors)
    {
      var key :| key in todo;
      if !SameAt(base, candidate, key) {
        errors := errors + [ProtectedFieldChanged(key)];
      }
      todo := todo - {key};
    }
  }

  // The loop over the diff, in key order.
  method FieldErrors(changed: set<string>, mutable: set<string>) returns (errors: seq<MutationError>)
    ensures forall e :: e in errors <==>
      e.FieldNotMutable? && e.key in changed && e.key !in mutable && e.key !in FREE_FIELDS
    ensures Distinct(errors)
  {
    errors := [];
    var keys := Sorted(changed);
    for i := 0 to |keys|
      invariant forall e :: e in errors <==>
        e.FieldNotMutable? && e.key in keys[..i] && e.key !in mutable && e.key !in FREE_FIELDS
      invariant Distinct(errors)
    {
      assert keys[i] !in keys[..i];
      if keys[i] !in mutable && keys[i] !in FREE_FIELDS {
        errors := errors + [FieldNotMutable(keys[i])];
      }
    }
  }

  // The errors are the violated rules, each once; there are none exactly for an accepted candidate.
  method ValidateMutation(base: Dict, candidate: Dict, mutable: set<string>) returns (errors: seq<MutationError>)
    ensures forall e :: e in errors <==> Violates(base, candidate, mutable, e)
    ensures Distinct(errors)
    ensures errors == [] <==> Accepted(base, candidate, mutable)
  {
    var protectedErrors := ProtectedErrors(base, candidate);
    var diff := SemanticDiff(base, candidate);
    var fieldErrors := FieldErrors(diff.Keys, EffectiveMutable(mutable));
    errors := protectedErrors + fieldErrors;
    if !SchemaValid(candidate) {
      errors := errors + [SchemaFailed];
    }
    AllViolations(base, candidate, mutable, protectedErrors, fieldErrors);
    NoViolationIsAcceptance(base, candidate, mutable);
    assert errors != [] ==> errors[0] in errors;
  }

  lemma DistinctConcat(a: seq<MutationError>, b: seq<MutationError>)
    requires Distinct(a) && Distinct(b) && forall e | e in a :: e !in b
    ensures Distinct(a + b)
  {
    forall i, j | 0 <= i < j < |a + b| ensures (a + b)[i] != (a + b)[j] {
      if i < |a| <= j { assert (a + b)[i] in a && (a + b)[j] in b; }
    }
  }

  lemma AllViolations(base: Dict, candidate: Dict, mutable: set<string>, protectedErrors: seq<MutationError>,
      fieldErrors: seq<MutationError>)
    requires Distinct(protectedErrors) && Distinct(fieldErrors)
    requires forall e :: e in protectedErrors <==>
      e.ProtectedFieldChanged? && e.key in PROTECTED_FIELDS && !SameAt(base, candidate, e.key)
    requires forall e :: e in fieldErrors <==>
      && e.FieldNotMutable? && e.key in DiffOf(base, candidate).Keys
      && e.key !in EffectiveMutable(mutable) && e.key !in FREE_FIELDS
    ensures var errors := protectedErrors + fieldErrors + (if SchemaValid(candidate) then [] else [SchemaFailed]);
      Distinct(errors) && forall e :: e in errors <==> Violates(base, candidate, mutable, e)
  {
    DiffRecoversCandidate(base, candidate);
    DistinctConcat(protectedErrors, fieldErrors);
    if !SchemaValid(candidate) { DistinctConcat(protectedErrors + fieldErrors, [SchemaFailed]); }
    var errors := protectedErrors + fieldErrors + (if SchemaValid(candidate) then [] else [SchemaFailed]);
    forall e ensures e in errors <==> Violates(base, candidate, mutable, e) {
      assert e in errors <==>
        e in protectedErrors || e in fieldErrors || (e == SchemaFailed && !SchemaValid(candidate));
    }
  }

  lemma NoViolationIsAcceptance(base: Dict, candidate: Dict, mutable: set<string>)
    ensures (forall e :: !Violates(base, candidate, mutable, e)) <==> Accepted(base, candidate, mutable)
  {
    if forall e :: !Violates(base, candidate, mutable, e) {
      assert !Violates(base, candidate, mutable, SchemaFailed);
      forall key | key in PROTECTED_FIELDS ensures SameAt(base, candidate, key) {
        assert !Violates(base, candidate, mutable, ProtectedFieldChanged(key));
      }
      forall key | key !in EffectiveMutable(mutable) && key !in FREE_FIELDS ensures SameAt(base, candidate, key) {
        assert !Violates(base, candidate, mutable, FieldNotMutable(key));
      }
    }
  }

  // The fields that one change may touch: the mutable ones, by default the seven components, and three
  // more, but never the four protected ones.
  predicate MayChange(key: string, mutable: set<string>) {
    && key !in {"safety_policy_ref", "evaluator_suite_ref", "tenant_permissions", "knowledge_snapshot_ref"}
    && (key in {"version", "description", "metadata"} || key in mutable || (mutable == {} && key in COMPONENTS))
  }

  const COMPONENTS: set<string> := {
    "phase_policy", "action_policy", "retrieval_policy", "tool_policy", "response_policy", "memory_policy",
    "termination_policy"}

  // Main result: a change of one field of a valid document is accepted exactly when the result is valid
  // and the field may change, or reads as before.
  lemma OneChangeIsAccepted(base: Dict, key: string, value: Json, mutable: set<string>)
    requires SchemaValid(base)
    ensures Accepted(base, base[key := value], mutable) <==>
      SchemaValid(base[key := value]) && (MayChange(key, mutable) || PyEq(Get(base, key), value))
  {
    hide SchemaValid;
    var candidate := base[key := value];
    assert forall other | other != key :: SameAt(base, candidate, other);
    assert SameAt(base, candidate, key) <==> PyEq(Get(base, key), value);
    hide PyEq;
    assert MayChange(key, mutable) <==>
      key !in PROTECTED_FIELDS && (key in EffectiveMutable(mutable) || key in FREE_FIELDS);
  }

  // ---- Mutation of one component ----------------------------------------------------------------------

  datatype Raised = ComponentNotMutable(component: string) | NotAMapping(component: string)

  // A component of a document as a mapping; a missing one is empty.
  function Component(d: Dict, component: string): Dict
    requires OptionalObj(d, component)
  {
    if component in d then d[component].fields else map[]
  }

  function ApplyMutation(base: Dict, component: string, patch: Dict): Result<Dict, Raised> {
    if component !in ALLOWED_COMPONENTS then Err(ComponentNotMutable(component))
    else if !OptionalObj(base, component) then Err(NotAMapping(component))
    else Ok(base[component := Obj(Component(base, component) + patch)])
  }

  // Patching one component of a valid document gives an accepted candidate, and changes no other key.
  lemma MutationIsAccepted(base: Dict, component: string, patch: Dict)
    requires SchemaValid(base)
    ensures ApplyMutation(base, component, patch).Ok? <==> component in ALLOWED_COMPONENTS
    ensures ApplyMutation(base, component, patch).Ok? ==>
      var candidate := ApplyMutation(base, component, patch).value;
      && Accepted(base, candidate, {})
      && candidate.Keys == base.Keys + {component}
      && (forall key | key in base && key != component :: candidate[key] == base[key])
      && (forall key :: Get(Component(candidate, component), key) ==
            if key in patch then patch[key] else Get(Component(base, component), key))
  {
    if component in ALLOWED_COMPONENTS {
      assert OptionalObj(base, component);
      var candidate := ApplyMutation(base, component, patch).value;
      forall key | key in ALLOWED_COMPONENTS ensures OptionalObj(candidate, key) { assert OptionalObj(base, key); }
    }
  }

  // Every step of a chain of documents is accepted.
  ghost predicate AcceptedChain(docs: seq<Dict>, mutable: set<string>) {
    forall i | 0 <= i < |docs| - 1 :: Accepted(docs[i], docs[i + 1], mutable)
  }

  // Acceptance is reflexive on valid documents and carries over any chain of accepted steps.
  lemma {:induction false} ChainIsAccepted(docs: seq<Dict>, mutable: set<string>)
    requires docs != [] && SchemaValid(docs[0]) && AcceptedChain(docs, mutable)
    ensures Accepted(docs[0], docs[|docs| - 1], mutable)
  {
    if |docs| > 1 {
      ChainIsAccepted(docs[..|docs| - 1], mutable);
      assert Accepted(docs[|docs| - 2], docs[|docs| - 2 + 1], mutable);
    }
  }

  // Validation is blind to `true` against `1`, but the canonical text, and so the content hash,
  // is not: an accepted change of a protected field, with an empty diff, still changes the hash.
  lemma AcceptedMayChangeText(base: Dict)
    requires SchemaValid(base)
    ensures var before := base["tenant_permissions" := Obj(map["x" := Bool(true)])];
      var after := base["tenant_permissions" := Obj(map["x" := Int(1)])];
      && Accepted(before, after, {})
      && DiffOf(before, after) == map[]
      && Print(Obj(before)) != Print(Obj(after))
  {
    TrueReadsAsOne(base, "tenant_permissions");
    DifferentText(base, "tenant_permissions");
    DiffRecoversCandidate(base["tenant_permissions" := Obj(map["x" := Bool(true)])],
      base["tenant_permissions" := Obj(map["x" := Int(1)])]);
    StillValid(base, Obj(map["x" := Int(1)]));
  }

  // The component holds every entry of the patch already, up to `true` against `1`.
  predicate HoldsAlready(base: Dict, component: string, patch: Dict)
    requires OptionalObj(base, component)
  {
    && component in base
    && forall key | key in patch ::
      key in Component(base, component) && PyEq(Component(base, component)[key], patch[key])
  }

  // Some entry of the patch is not there literally.
  predicate Rewrites(base: Dict, component: string, patch: Dict)
    requires OptionalObj(base, component)
  {
    exists key | key in patch :: key !in Component(base, component) || Component(base, component)[key] != patch[key]
  }

  // Main result: a mutation has an empty diff and yet another text, and so another hash, exactly when
  // the component holds the patch already but for `true` against `1`.
  lemma SilentMutationExactly(base: Dict, component: string, patch: Dict)
    requires SchemaValid(base) && component in ALLOWED_COMPONENTS
    ensures OptionalObj(base, component)
    ensures var candidate := ApplyMutation(base, component, patch).value;
      && (DiffOf(base, candidate) == map[] <==> HoldsAlready(base, component, patch))
      && (HoldsAlready(base, component, patch) ==>
            (Print(Obj(candidate)) != Print(Obj(base)) <==> Rewrites(base, component, patch)))
  {
    assert OptionalObj(base, component);
    var candidate := ApplyMutation(base, component, patch).value;
    var next := Component(base, component) + patch;
    hide SchemaValid;
    DiffRecoversCandidate(base, candidate);
    PrintIsInjective(Obj(candidate), Obj(base));
    hide Print, DiffOf;
    ReadsAlikeExactly(base, component, patch);
    SameExactly(base, component, patch);
  }

  lemma ReadsAlikeExactly(base: Dict, component: string, patch: Dict)
    requires OptionalObj(base, component)
    ensures var candidate := base[component := Obj(Component(base, component) + patch)];
      ReadAlike(base, candidate) <==> HoldsAlready(base, component, patch)
  {
    var before, next := Component(base, component), Component(base, component) + patch;
    var candidate := base[component := Obj(next)];
    assert forall key | key != component :: SameAt(base, candidate, key);
    assert ReadAlike(base, candidate) <==> SameAt(base, candidate, component);
    if component in base {
      NormOfObj(before, next);
    }
  }

  lemma NormOfObj(a: Dict, b: Dict)
    ensures PyEq(Obj(a), Obj(b)) <==> a.Keys == b.Keys && forall key | key in a && key in b :: PyEq(a[key], b[key])
  {
    var na, nb := Norm(Obj(a)).fields, Norm(Obj(b)).fields;
    assert na.Keys == a.Keys && nb.Keys == b.Keys;
    if PyEq(Obj(a), Obj(b)) {
      assert na == nb;
      forall key | key in a && key in b ensures PyEq(a[key], b[key]) { assert na[key] == nb[key]; }
    }
  }

  lemma SameExactly(base: Dict, component: string, patch: Dict)
    requires OptionalObj(base, component)
    ensures var candidate := base[component := Obj(Component(base, component) + patch)];
      HoldsAlready(base, component, patch) ==> (candidate != base <==> Rewrites(base, component, patch))
  {
    var before, next := Component(base, component), Component(base, component) + patch;
    var candidate := base[component := Obj(next)];
    if HoldsAlready(base, component, patch) {
      if Rewrites(base, component, patch) {
        var key :| key in patch && (key !in before || before[key] != patch[key]);
        assert next[key] == patch[key];
        assert candidate[component].fields != base[component].fields;
      } else {
        assert next == before;
        assert candidate == base;
      }
    }
  }

  // A field that is null where it was missing also escapes: every document has an accepted one with
  // an empty diff and another text.
  lemma NullMayChangeText(base: Dict) returns (key: string)
    requires SchemaValid(base)
    ensures key !in base
    ensures var after := base[key := Null];
      Accepted(base, after, {}) && DiffOf(base, after) == map[] && Print(Obj(base)) != Print(Obj(after))
  {
    key := FreshKey(base.Keys + SCHEMA_FIELDS);
    var after := base[key := Null];
    assert ReadAlike(base, after);
    DiffRecoversCandidate(base, after);
    PrintIsInjective(Obj(base), Obj(after));
    forall component | component in ALLOWED_COMPONENTS ensures OptionalObj(after, component) {
      assert OptionalObj(base, component);
    }
  }

  const SCHEMA_FIELDS: set<string> :=
    PROTECTED_FIELDS + ALLOWED_COMPONENTS + FREE_FIELDS + {"id"}

  lemma FreshKey(keys: set<string>) returns (key: string)
    ensures key !in keys
  {
    var n := LongerThan(keys);
    key := seq(n, _ => 'x');
  }

  lemma {:induction false} LongerThan(keys: set<string>) returns (n: nat)
    ensures forall key | key in keys :: |key| < n
  {
    n := 0;
    if keys != {} {
      var key :| key in keys;
      n := LongerThan(keys - {key});
      if n <= |key| { n := |key| + 1; }
    }
  }

  lemma StillValid(base: Dict, permissions: Json)
    requires SchemaValid(base) && permissions.Obj?
    ensures SchemaValid(base["tenant_permissions" := permissions])
  {
  }

  lemma TrueReadsAsOne(base: Dict, field: string)
    ensures ReadAlike(base[field := Obj(map["x" := Bool(true)])], base[field := Obj(map["x" := Int(1)])])
  {
  }

  lemma DifferentText(base: Dict, field: string)
    ensures Print(Obj(base[field := Obj(map["x" := Bool(true)])])) != Print(Obj(base[field := Obj(map["x" := Int(1)])]))
  {
    var a, b := map["x" := Bool(true)], map["x" := Int(1)];
    assert a["x"] != b["x"];
    assert base[field := Obj(a)][field] != base[field := Obj(b)][field];
    PrintIsInjective(Obj(base[field := Obj(a)]), Obj(base[field := Obj(b)]));
  }
}
