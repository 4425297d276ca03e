// The closed JSON Schema walk that guards mapper snapshots.
module Schema {
  import opened Wire

  type Value = Json<string>
  type Object = map<string, Value>

  const MAXIMUM_DEPTH: nat := 64

  function ArrayAt(schema: Object, key: string): seq<Value> {
    if key in schema && schema[key].Arr? then schema[key].items else []
  }

  predicate FalseAt(schema: Object, key: string) { key in schema && schema[key] == Bool(false) }

  // ---- keywords that look at one value only ----

  predicate IsInteger(v: Value) { v.Int? && I64_MIN <= v.n <= U64_MAX }

  predicate TypeMatches(name: string, v: Value) {
    if name == "null" then v.Null?
    else if name == "boolean" then v.Bool?
    else if name == "string" then v.Str?
    else if name == "integer" then IsInteger(v)
    else if name == "object" then v.Obj?
    else if name == "array" then v.Arr?
    else false
  }

  predicate LowerHex(text: string) { forall i | 0 <= i < |text| :: '0' <= text[i] <= '9' || 'a' <= text[i] <= 'f' }

  predicate PatternMatches(pattern: string, text: string) {
    if pattern == "^[0-9a-f]+$" then text != "" && LowerHex(text)
    else if pattern == "^sha256:[0-9a-f]{64}$" then |text| == 71 && HasPrefix(text, "sha256:") && LowerHex(text[7..])
    else false
  }

  function NatAt(schema: Object, key: string): Option<int> {
    if key in schema && schema[key].Int? && 0 <= schema[key].n <= U64_MAX then Some(schema[key].n) else None
  }

  predicate StringBounds(schema: Object, text: string) {
    && (NatAt(schema, "minLength").Some? ==> NatAt(schema, "minLength").value <= |text|)
    && (NatAt(schema, "maxLength").Some? ==> |text| <= NatAt(schema, "maxLength").value)
    && (StrAt(schema, "pattern").Some? ==> PatternMatches(StrAt(schema, "pattern").value, text))
  }

  predicate NumberBounds(schema: Object, n: int) {
    && (IntAt(schema, "minimum").Some? ==> IntAt(schema, "minimum").value <= n)
    && (IntAt(schema, "maximum").Some? ==> n <= IntAt(schema, "maximum").value)
  }

  predicate RequiredPresent(schema: Object, fields: Object) {
    forall i | 0 <= i < |ArrayAt(schema, "required")| ::
      ArrayAt(schema, "required")[i].Str? && ArrayAt(schema, "required")[i].s in fields
  }

  predicate PropertiesClosed(schema: Object, fields: Object) {
    "properties" in schema && schema["properties"].Obj? && FalseAt(schema, "additionalProperties")
    ==> fields.Keys <= schema["properties"].fields.Keys
  }

  predicate ValueKeywords(schema: Object, v: Value) {
    && ("const" in schema ==> schema["const"] == v)
    && ("enum" in schema && schema["enum"].Arr? ==> v in schema["enum"].items)
    && (StrAt(schema, "type").Some? ==> TypeMatches(StrAt(schema, "type").value, v))
    && (v.Str? ==> StringBounds(schema, v.s))
    && (IsInteger(v) ==> NumberBounds(schema, v.n))
    && (v.Arr? && NatAt(schema, "maxItems").Some? ==> |v.items| <= NatAt(schema, "maxItems").value)
    && (v.Obj? ==> RequiredPresent(schema, v.fields) && PropertiesClosed(schema, v.fields))
  }

  // ---- the walk ----

  const REF_PREFIX := "#/$defs/"

  // The reference names something that cannot be resolved.
  predicate BrokenRef(root: Value, schema: Object) { StrAt(schema, "$ref").Some? && RefTarget(root, schema).None? }

  function RefTarget(root: Value, schema: Object): Option<Value> {
    var reference := StrAt(schema, "$ref");
    if reference.None? || !HasPrefix(reference.value, REF_PREFIX) || !root.Obj? then None
    else Get(ObjAt(root.fields, "$defs"), reference.value[|REF_PREFIX|..])
  }

  function Properties(schema: Object): Object { ObjAt(schema, "properties") }

  // Names evaluated by a node over a value; None is a rejected value.
  function Validate(root: Value, node: Value, v: Value, depth: nat): Option<set<string>>
    decreases MAXIMUM_DEPTH + 1 - depth, 1, 0
  {
    if depth > MAXIMUM_DEPTH || !node.Obj? then None
    else
      var schema := node.fields;
      var applied := Applied(root, schema, v, depth);
      if applied.None? || !ValueKeywords(schema, v) || !ItemsValid(root, schema, v, depth) || !MembersValid(root, schema, v, depth) then None
      else
        var evaluated := applied.value + OwnNames(schema, v);
        if v.Obj? && FalseAt(schema, "unevaluatedProperties") && !(v.fields.Keys <= evaluated) then None else Some(evaluated)
  }

  function OwnNames(schema: Object, v: Value): set<string> { if v.Obj? then Properties(schema).Keys else {} }

  // Names evaluated by the subschemas that apply to the same value.
  function Applied(root: Value, schema: Object, v: Value, depth: nat): Option<set<string>>
    requires depth <= MAXIMUM_DEPTH
    decreases MAXIMUM_DEPTH + 1 - depth, 0, 0
  {
    var target := RefTarget(root, schema);
    var referred := if target.Some? then Validate(root, target.value, v, depth + 1) else Some({});
    var all := ValidateAll(root, ArrayAt(schema, "allOf"), v, depth + 1);
    var one := Matching(root, ArrayAt(schema, "oneOf"), v, depth + 1);
    if BrokenRef(root, schema) || referred.None? || all.None? || (HasOneOf(schema) && |one| != 1) then None
    else Some(referred.value + all.value + (if HasOneOf(schema) then one[0] else {}))
  }

  predicate HasOneOf(schema: Object) { "oneOf" in schema && schema["oneOf"].Arr? }

  // allOf: every branch accepts; the names they evaluate together.
  function ValidateAll(root: Value, branches: seq<Value>, v: Value, depth: nat): Option<set<string>>
    requires depth <= MAXIMUM_DEPTH + 1
    decreases MAXIMUM_DEPTH + 1 - depth, 2, |branches|
  {
    if branches == [] then Some({})
    else
      var front := ValidateAll(root, branches[..|branches| - 1], v, depth);
      var last := Validate(root, branches[|branches| - 1], v, depth);
      if front.None? || last.None? then None else Some(front.value + last.value)
  }

  // oneOf: what each accepting branch evaluates.
  function Matching(root: Value, branches: seq<Value>, v: Value, depth: nat): seq<set<string>>
    requires depth <= MAXIMUM_DEPTH + 1
    decreases MAXIMUM_DEPTH + 1 - depth, 2, |branches|
  {
    if branches == [] then []
    else
      var front := Matching(root, branches[..|branches| - 1], v, depth);
      var last := Validate(root, branches[|branches| - 1], v, depth);
      if last.None? then front else front + [last.value]
  }

  predicate ItemsValid(root: Value, schema: Object, v: Value, depth: nat)
    requires depth <= MAXIMUM_DEPTH
    decreases MAXIMUM_DEPTH + 1 - depth, 0, 0
  {
    v.Arr? && "items" in schema ==> forall i | 0 <= i < |v.items| :: Validate(root, schema["items"], v.items[i], depth + 1).Some?
  }

  predicate MembersValid(root: Value, schema: Object, v: Value, depth: nat)
    requires depth <= MAXIMUM_DEPTH
    decreases MAXIMUM_DEPTH + 1 - depth, 0, 0
  {
    v.Obj? ==> forall k | k in Properties(schema) && k in v.fields :: Validate(root, Properties(schema)[k], v.fields[k], depth + 1).Some?
  }

  // ---- which subschemas apply to the same value ----

  datatype Hop = Ref | AllOf(i: nat) | OneOf(i: nat)

  // The subschema that a hop leads to.
  function Follow(root: Value, node: Value, hop: Hop): Option<Value> {
    if !node.Obj? then None
    else match hop
      case Ref => RefTarget(root, node.fields)
      case AllOf(i) => if i < |ArrayAt(node.fields, "allOf")| then Some(ArrayAt(node.fields, "allOf")[i]) else None
      case OneOf(i) => if i < |ArrayAt(node.fields, "oneOf")| then Some(ArrayAt(node.fields, "oneOf")[i]) else None
  }

  // A oneOf hop is taken only into the single branch that accepts the value.
  predicate Applies(root: Value, node: Value, v: Value, depth: nat, hop: Hop) {
    Follow(root, node, hop).Some? && (hop.OneOf? ==> Validate(root, Follow(root, node, hop).value, v, depth + 1).Some?)
  }

  // The node at the end of a path of hops, all applied to the same value.
  function Reach(root: Value, node: Value, v: Value, depth: nat, path: seq<Hop>): Option<Value>
    decreases |path|
  {
    if path == [] then Some(node)
    else if !Applies(root, node, v, depth, path[0]) then None
    else Reach(root, Follow(root, node, path[0]).value, v, depth + 1, path[1..])
  }

  ghost predicate DeclaredBy(root: Value, node: Value, v: Value, depth: nat, path: seq<Hop>, name: string) {
    var end := Reach(root, node, v, depth, path);
    end.Some? && end.value.Obj? && name in Properties(end.value.fields)
  }

  ghost predicate Declared(root: Value, node: Value, v: Value, depth: nat, name: string) {
    exists path :: DeclaredBy(root, node, v, depth, path, name)
  }

  // ---- evaluated names are exactly the declared ones ----

  lemma {:induction false} AllNames(root: Value, branches: seq<Value>, v: Value, depth: nat, name: string)
    requires depth <= MAXIMUM_DEPTH + 1 && ValidateAll(root, branches, v, depth).Some?
    ensures forall i | 0 <= i < |branches| :: Validate(root, branches[i], v, depth).Some?
    ensures name in ValidateAll(root, branches, v, depth).value <==>
            exists i :: 0 <= i < |branches| && name in Validate(root, branches[i], v, depth).value
  {
    hide Validate, Matching;
    if branches != [] {
      var front := branches[..|branches| - 1];
      AllNames(root, front, v, depth, name);
      assert forall i | 0 <= i < |front| :: front[i] == branches[i];
      if i :| 0 <= i < |front| && name in Validate(root, front[i], v, depth).value { assert name in Validate(root, branches[i], v, depth).value; }
    }
  }

  lemma {:induction false} NoneMatch(root: Value, branches: seq<Value>, v: Value, depth: nat)
    requires depth <= MAXIMUM_DEPTH + 1 && Matching(root, branches, v, depth) == []
    ensures forall i | 0 <= i < |branches| :: Validate(root, branches[i], v, depth).None?
  {
    if branches != [] {
      NoneMatch(root, branches[..|branches| - 1], v, depth);
      assert forall i | 0 <= i < |branches| - 1 :: branches[..|branches| - 1][i] == branches[i];
    }
  }

  // Exactly one branch matches, and it is the one whose names are taken.
  lemma {:induction false} OneMatch(root: Value, branches: seq<Value>, v: Value, depth: nat) returns (i: nat)
    requires depth <= MAXIMUM_DEPTH + 1 && |Matching(root, branches, v, depth)| == 1
    ensures i < |branches| && Validate(root, branches[i], v, depth) == Some(Matching(root, branches, v, depth)[0])
    ensures forall j | 0 <= j < |branches| && Validate(root, branches[j], v, depth).Some? :: j == i
  {
    var front := branches[..|branches| - 1];
    assert forall j | 0 <= j < |front| :: front[j] == branches[j];
    if Validate(root, branches[|front|], v, depth).Some? {
      NoneMatch(root, front, v, depth);
      i := |front|;
    } else {
      i := OneMatch(root, front, v, depth);
    }
  }

  lemma DeclaredThrough(root: Value, node: Value, v: Value, depth: nat, hop: Hop, name: string)
    requires Applies(root, node, v, depth, hop) && Declared(root, Follow(root, node, hop).value, v, depth + 1, name)
    ensures Declared(root, node, v, depth, name)
  {
    var path :| DeclaredBy(root, Follow(root, node, hop).value, v, depth + 1, path, name);
    assert ([hop] + path)[1..] == path;
    assert DeclaredBy(root, node, v, depth, [hop] + path, name);
  }

  // How a declared name can arise at a node: here, or through one hop.
  lemma DeclaredSplits(root: Value, node: Value, v: Value, depth: nat, name: string) returns (hop: Option<Hop>)
    requires Declared(root, node, v, depth, name)
    ensures hop.None? ==> node.Obj? && name in Properties(node.fields)
    ensures hop.Some? ==> Applies(root, node, v, depth, hop.value) && Declared(root, Follow(root, node, hop.value).value, v, depth + 1, name)
  {
    var path :| DeclaredBy(root, node, v, depth, path, name);
    if path == [] {
      hop := None;
    } else {
      hop := Some(path[0]);
      assert DeclaredBy(root, Follow(root, node, path[0]).value, v, depth + 1, path[1..], name);
    }
  }

  // The four sources of an evaluated name.
  lemma EvaluatedSplits(root: Value, node: Value, v: Value, depth: nat, name: string)
    requires Validate(root, node, v, depth).Some?
    ensures node.Obj? && depth <= MAXIMUM_DEPTH
    ensures var schema := node.fields;
            && !BrokenRef(root, schema)
            && (RefTarget(root, schema).Some? ==> Validate(root, RefTarget(root, schema).value, v, depth + 1).Some?)
            && ValidateAll(root, ArrayAt(schema, "allOf"), v, depth + 1).Some?
            && (HasOneOf(schema) ==> |Matching(root, ArrayAt(schema, "oneOf"), v, depth + 1)| == 1)
            && (name in Validate(root, node, v, depth).value <==>
                 || (RefTarget(root, schema).Some? && name in Validate(root, RefTarget(root, schema).value, v, depth + 1).value)
                 || name in ValidateAll(root, ArrayAt(schema, "allOf"), v, depth + 1).value
                 || (HasOneOf(schema) && name in Matching(root, ArrayAt(schema, "oneOf"), v, depth + 1)[0])
                 || (v.Obj? && name in Properties(schema)))
  {
  }

  lemma {:induction false} EvaluatedIsDeclared(root: Value, node: Value, v: Value, depth: nat, name: string)
    requires Validate(root, node, v, depth).Some? && name in Validate(root, node, v, depth).value
    ensures v.Obj? && Declared(root, node, v, depth, name)
    decreases MAXIMUM_DEPTH + 1 - depth
  {
    hide Validate, ValidateAll, Matching;
    EvaluatedSplits(root, node, v, depth, name);
    var schema := node.fields;
    var all, one := ArrayAt(schema, "allOf"), ArrayAt(schema, "oneOf");
    if RefTarget(root, schema).Some? && name in Validate(root, RefTarget(root, schema).value, v, depth + 1).value {
      EvaluatedIsDeclared(root, RefTarget(root, schema).value, v, depth + 1, name);
      DeclaredThrough(root, node, v, depth, Ref, name);
    } else if name in ValidateAll(root, all, v, depth + 1).value {
      AllNames(root, all, v, depth + 1, name);
      var i :| 0 <= i < |all| && name in Validate(root, all[i], v, depth + 1).value;
      EvaluatedIsDeclared(root, all[i], v, depth + 1, name);
      DeclaredThrough(root, node, v, depth, AllOf(i), name);
    } else if HasOneOf(schema) && name in Matching(root, one, v, depth + 1)[0] {
      var i := OneMatch(root, one, v, depth + 1);
      EvaluatedIsDeclared(root, one[i], v, depth + 1, name);
      DeclaredThrough(root, node, v, depth, OneOf(i), name);
    } else {
      assert DeclaredBy(root, node, v, depth, [], name);
    }
  }

  lemma {:induction false} DeclaredIsEvaluated(root: Value, node: Value, v: Value, depth: nat, name: string)
    requires Validate(root, node, v, depth).Some? && v.Obj? && Declared(root, node, v, depth, name)
    ensures name in Validate(root, node, v, depth).value
    decreases MAXIMUM_DEPTH + 1 - depth
  {
    hide Validate, ValidateAll, Matching;
    EvaluatedSplits(root, node, v, depth, name);
    var schema := node.fields;
    var hop := DeclaredSplits(root, node, v, depth, name);
    if hop.Some? {
      var next := Follow(root, node, hop.value).value;
      match hop.value
      case Ref => DeclaredIsEvaluated(root, next, v, depth + 1, name);
      case AllOf(i) =>
        AllNames(root, ArrayAt(schema, "allOf"), v, depth + 1, name);
        DeclaredIsEvaluated(root, next, v, depth + 1, name);
      case OneOf(i) =>
        DeclaredIsEvaluated(root, next, v, depth + 1, name);
        var j := OneMatch(root, ArrayAt(schema, "oneOf"), v, depth + 1);
    }
  }

  // When the walk accepts an object, a name is evaluated if and only if some subschema applied to
  // that same object, through $ref, allOf or the single matching oneOf branch, declares it.
  lemma EvaluatedIffDeclared(root: Value, node: Value, v: Value, depth: nat, name: string)
    requires Validate(root, node, v, depth).Some? && v.Obj?
    ensures name in Validate(root, node, v, depth).value <==> Declared(root, node, v, depth, name)
  {
    if name in Validate(root, node, v, depth).value { EvaluatedIsDeclared(root, node, v, depth, name); }
    if Declared(root, node, v, depth, name) { DeclaredIsEvaluated(root, node, v, depth, name); }
  }

  // ... so under `unevaluatedProperties: false` every key of an accepted object is declared.
  lemma ObjectsAreClosed(root: Value, node: Value, v: Value, depth: nat)
    requires Validate(root, node, v, depth).Some? && v.Obj? && node.Obj? && FalseAt(node.fields, "unevaluatedProperties")
    ensures forall key | key in v.fields :: Declared(root, node, v, depth, key)
  {
    forall key | key in v.fields ensures Declared(root, node, v, depth, key) { EvaluatedIffDeclared(root, node, v, depth, key); }
  }

  // ---- additionalProperties ----

  // The guard under which `additionalProperties: false` is looked at.
  predicate HasProperties(schema: Object) { "properties" in schema && schema["properties"].Obj? }

  function WithoutAdditional(schema: Object): Object { schema - {"additionalProperties"} }

  predicate SameAt(schema: Object, other: Object, key: string) { Get(schema, key) == Get(other, key) }

  lemma KeywordsSurvive(schema: Object)
    ensures var other := WithoutAdditional(schema);
            && SameAt(schema, other, "$ref") && SameAt(schema, other, "allOf") && SameAt(schema, other, "oneOf")
            && SameAt(schema, other, "const") && SameAt(schema, other, "enum") && SameAt(schema, other, "type")
            && SameAt(schema, other, "minLength") && SameAt(schema, other, "maxLength") && SameAt(schema, other, "pattern")
            && SameAt(schema, other, "minimum") && SameAt(schema, other, "maximum") && SameAt(schema, other, "maxItems")
            && SameAt(schema, other, "items") && SameAt(schema, other, "required") && SameAt(schema, other, "properties")
            && SameAt(schema, other, "unevaluatedProperties")
  {
    assert |"additionalProperties"| == 20 && |"unevaluatedProperties"| == 21;
  }

  lemma AppliedSurvives(root: Value, schema: Object, v: Value, depth: nat)
    requires depth <= MAXIMUM_DEPTH
    ensures Applied(root, schema, v, depth) == Applied(root, WithoutAdditional(schema), v, depth)
  {
    hide Validate, ValidateAll, Matching, WithoutAdditional;
    KeywordsSurvive(schema);
    assert RefTarget(root, schema) == RefTarget(root, WithoutAdditional(schema));
  }

  lemma ChildrenSurvive(root: Value, schema: Object, v: Value, depth: nat)
    requires depth <= MAXIMUM_DEPTH
    ensures var other := WithoutAdditional(schema);
            && ItemsValid(root, schema, v, depth) == ItemsValid(root, other, v, depth)
            && MembersValid(root, schema, v, depth) == MembersValid(root, other, v, depth)
            && OwnNames(schema, v) == OwnNames(other, v)
            && FalseAt(schema, "unevaluatedProperties") == FalseAt(other, "unevaluatedProperties")
  {
    hide Validate, WithoutAdditional;
    KeywordsSurvive(schema);
  }

  // The keys that `additionalProperties: false` refuses beside `properties`.
  predicate AdditionalRefused(schema: Object, v: Value) {
    FalseAt(schema, "additionalProperties") && HasProperties(schema) && v.Obj? && !(v.fields.Keys <= Properties(schema).Keys)
  }

  lemma BoundsSurvive(schema: Object, v: Value)
    ensures var other := WithoutAdditional(schema);
            && (v.Str? ==> StringBounds(schema, v.s) == StringBounds(other, v.s))
            && (v.Int? ==> NumberBounds(schema, v.n) == NumberBounds(other, v.n))
            && (v.Obj? ==> RequiredPresent(schema, v.fields) == RequiredPresent(other, v.fields))
  {
    hide WithoutAdditional, PatternMatches;
    KeywordsSurvive(schema);
    assert ArrayAt(schema, "required") == ArrayAt(WithoutAdditional(schema), "required");
  }

  lemma ClosureSurvives(schema: Object, v: Value)
    requires v.Obj?
    ensures PropertiesClosed(WithoutAdditional(schema), v.fields)
    ensures PropertiesClosed(schema, v.fields) <==> !AdditionalRefused(schema, v)
  {
  }

  lemma ValueKeywordsSurvive(schema: Object, v: Value)
    ensures ValueKeywords(schema, v) <==> ValueKeywords(WithoutAdditional(schema), v) && !AdditionalRefused(schema, v)
  {
    hide WithoutAdditional, StringBounds, NumberBounds, RequiredPresent, PropertiesClosed, TypeMatches;
    KeywordsSurvive(schema);
    BoundsSurvive(schema, v);
    if v.Obj? { ClosureSurvives(schema, v); }
  }

  // What `additionalProperties` does, exactly: beside a `properties` object the value false refuses
  // the keys outside it; in every other schema the keyword could as well be absent.
  lemma AdditionalPropertiesEffect(root: Value, schema: Object, v: Value, depth: nat)
    ensures Validate(root, Obj(schema), v, depth) ==
            if AdditionalRefused(schema, v) then None else Validate(root, Obj(WithoutAdditional(schema)), v, depth)
  {
    hide Applied, ItemsValid, MembersValid, ValueKeywords, OwnNames, WithoutAdditional, AdditionalRefused;
    if depth <= MAXIMUM_DEPTH {
      AppliedSurvives(root, schema, v, depth);
      ChildrenSurvive(root, schema, v, depth);
      ValueKeywordsSurvive(schema, v);
    }
  }

  // Under `additionalProperties: false` an accepted object stays inside the declared properties if
  // and only if the schema has a `properties` object, or the object is empty.
  lemma AdditionalCloses(root: Value, schema: Object, v: Value, depth: nat)
    requires FalseAt(schema, "additionalProperties") && v.Obj? && Validate(root, Obj(schema), v, depth).Some?
    ensures v.fields.Keys <= Properties(schema).Keys <==> HasProperties(schema) || v.fields == map[]
  {
    hide Validate;
    AdditionalPropertiesEffect(root, schema, v, depth);
  }

  lemma EmptySchemaAccepts(root: Value, v: Value, depth: nat)
    requires depth <= MAXIMUM_DEPTH
    ensures Validate(root, Obj(map[]), v, depth) == Some({})
  {
    assert ArrayAt(map[], "allOf") == [] && Properties(map[]) == map[];
    assert Applied(root, map[], v, depth) == Some({});
    assert ValueKeywords(map[], v) && ItemsValid(root, map[], v, depth) && MembersValid(root, map[], v, depth);
    assert OwnNames(map[], v) == {};
    assert {} + OwnNames(map[], v) == {};
  }

  // A schema that means to admit no key at all, and accepts one.
  lemma AdditionalWithoutProperties(root: Value)
    ensures Validate(root, Obj(map["additionalProperties" := Bool(false)]), Obj(map["x" := Null]), 0) == Some({})
  {
    var schema: Object := map["additionalProperties" := Bool(false)];
    assert WithoutAdditional(schema) == map[];
    assert !HasProperties(schema) by { assert |"properties"| == 10 && |"additionalProperties"| == 20; }
    AdditionalPropertiesEffect(root, schema, Obj(map["x" := Null]), 0);
    EmptySchemaAccepts(root, Obj(map["x" := Null]), 0);
  }

  // ---- termination on cycles ----

  // A path of hops whose targets must all accept: references and allOf branches.
  predicate Mandatory(path: seq<Hop>) { forall i | 0 <= i < |path| :: !path[i].OneOf? }

  lemma MandatoryHop(root: Value, node: Value, v: Value, depth: nat, hop: Hop)
    requires !hop.OneOf? && Follow(root, node, hop).Some? && Validate(root, node, v, depth).Some?
    ensures Validate(root, Follow(root, node, hop).value, v, depth + 1).Some? && depth <= MAXIMUM_DEPTH
  {
    hide Validate, ValidateAll, Matching;
    EvaluatedSplits(root, node, v, depth, "");
    AllNames(root, ArrayAt(node.fields, "allOf"), v, depth + 1, "");
  }

  // Acceptance travels along mandatory paths, and spends depth on each hop.
  lemma {:induction false} MandatoryPath(root: Value, node: Value, v: Value, depth: nat, path: seq<Hop>)
    requires Mandatory(path) && Reach(root, node, v, depth, path).Some? && Validate(root, node, v, depth).Some?
    ensures Validate(root, Reach(root, node, v, depth, path).value, v, depth + |path|).Some?
    ensures depth + |path| <= MAXIMUM_DEPTH
    decreases |path|
  {
    hide Validate;
    if path == [] {
      EvaluatedSplits(root, node, v, depth, "");
    } else {
      MandatoryHop(root, node, v, depth, path[0]);
      MandatoryPath(root, Follow(root, node, path[0]).value, v, depth + 1, path[1..]);
    }
  }

  // Mandatory paths do not depend on the depth at which they start.
  lemma {:induction false} ReachAtAnyDepth(root: Value, node: Value, v: Value, depth: nat, other: nat, path: seq<Hop>)
    requires Mandatory(path)
    ensures Reach(root, node, v, depth, path) == Reach(root, node, v, other, path)
    decreases |path|
  {
    hide Validate;
    if path != [] && Follow(root, node, path[0]).Some? {
      ReachAtAnyDepth(root, Follow(root, node, path[0]).value, v, depth + 1, other + 1, path[1..]);
    }
  }

  // A node that leads back to itself through references and allOf branches accepts no value.
  lemma {:induction false} CycleIsRefused(root: Value, node: Value, v: Value, depth: nat, path: seq<Hop>)
    requires Mandatory(path) && path != [] && Reach(root, node, v, depth, path) == Some(node)
    ensures Validate(root, node, v, depth).None?
    decreases MAXIMUM_DEPTH + 1 - depth
  {
    hide Validate, Reach;
    if Validate(root, node, v, depth).Some? {
      MandatoryPath(root, node, v, depth, path);
      ReachAtAnyDepth(root, node, v, depth, depth + |path|, path);
      CycleIsRefused(root, node, v, depth + |path|, path);
    }
  }

  // ---- the walk as it runs: one set of names that grows keyword by keyword ----

  method Walk(root: Value, node: Value, v: Value, depth: nat) returns (names: Option<set<string>>)
    ensures names == Validate(root, node, v, depth)
    decreases MAXIMUM_DEPTH + 1 - depth, 2
  {
    hide Applied, ItemsValid, MembersValid;
    if depth > MAXIMUM_DEPTH || !node.Obj? { return None; }
    var schema := node.fields;
    var applied := WalkApplied(root, schema, v, depth);
    if applied.None? || !ValueKeywords(schema, v) { return None; }
    var evaluated := applied.value;
    var items := WalkItems(root, schema, v, depth);
    var members := WalkMembers(root, schema, v, depth);
    if !items || !members { return None; }
    if v.Obj? {
      evaluated := evaluated + Properties(schema).Keys;
      if FalseAt(schema, "unevaluatedProperties") && !(v.fields.Keys <= evaluated) { return None; }
    }
    assert evaluated == applied.value + OwnNames(schema, v);
    return Some(evaluated);
  }

  method WalkApplied(root: Value, schema: Object, v: Value, depth: nat) returns (names: Option<set<string>>)
    requires depth <= MAXIMUM_DEPTH
    ensures names == Applied(root, schema, v, depth)
    decreases MAXIMUM_DEPTH + 1 - depth, 1
  {
    hide Validate, ValidateAll, Matching;
    var evaluated: set<string> := {};
    if StrAt(schema, "$ref").Some? {
      var target := RefTarget(root, schema);
      if target.None? { return None; }
      var inner := Walk(root, target.value, v, depth + 1);
      if inner.None? { return None; }
      evaluated := evaluated + inner.value;
    }
    var all := WalkAll(root, ArrayAt(schema, "allOf"), v, depth);
    if all.None? { return None; }
    evaluated := evaluated + all.value;
    if HasOneOf(schema) {
      var matches := WalkOne(root, ArrayAt(schema, "oneOf"), v, depth);
      if |matches| != 1 { return None; }
      evaluated := evaluated + matches[0];
    }
    assert evaluated == Applied(root, schema, v, depth).value;
    return Some(evaluated);
  }

  method WalkAll(root: Value, branches: seq<Value>, v: Value, depth: nat) returns (names: Option<set<string>>)
    requires depth <= MAXIMUM_DEPTH
    ensures names == ValidateAll(root, branches, v, depth + 1)
    decreases MAXIMUM_DEPTH + 1 - depth, 0
  {
    hide Validate;
    names := Some({});
    for i := 0 to |branches|
      invariant names == ValidateAll(root, branches[..i], v, depth + 1)
    {
      var inner := Walk(root, branches[i], v, depth + 1);
      assert branches[..i + 1][..i] == branches[..i];
      names := if names.Some? && inner.Some? then Some(names.value + inner.value) else None;
    }
    assert branches[..|branches|] == branches;
  }

  method WalkOne(root: Value, branches: seq<Value>, v: Value, depth: nat) returns (matches: seq<set<string>>)
    requires depth <= MAXIMUM_DEPTH
    ensures matches == Matching(root, branches, v, depth + 1)
    decreases MAXIMUM_DEPTH + 1 - depth, 0
  {
    hide Validate;
    matches := [];
    for i := 0 to |branches|
      invariant matches == Matching(root, branches[..i], v, depth + 1)
    {
      var inner := Walk(root, branches[i], v, depth + 1);
      assert branches[..i + 1][..i] == branches[..i];
      if inner.Some? { matches := matches + [inner.value]; }
    }
    assert branches[..|branches|] == branches;
  }

  method WalkItems(root: Value, schema: Object, v: Value, depth: nat) returns (ok: bool)
    requires depth <= MAXIMUM_DEPTH
    ensures ok == ItemsValid(root, schema, v, depth)
    decreases MAXIMUM_DEPTH + 1 - depth, 0
  {
    hide Validate;
    if v.Arr? && "items" in schema {
      for i := 0 to |v.items|
        invariant forall j | 0 <= j < i :: Validate(root, schema["items"], v.items[j], depth + 1).Some?
      {
        var inner := Walk(root, schema["items"], v.items[i], depth + 1);
        if inner.None? { return false; }
      }
    }
    return true;
  }

  method WalkMembers(root: Value, schema: Object, v: Value, depth: nat) returns (ok: bool)
    requires depth <= MAXIMUM_DEPTH
    ensures ok == MembersValid(root, schema, v, depth)
    decreases MAXIMUM_DEPTH + 1 - depth, 0
  {
    hide Validate;
    if v.Obj? {
      var left := Properties(schema).Keys * v.fields.Keys;
      while left != {}
        invariant left <= Properties(schema).Keys * v.fields.Keys
        invariant forall k | k in Properties(schema) && k in v.fields && k !in left ::
                    Validate(root, Properties(schema)[k], v.fields[k], depth + 1).Some?
        decreases |left|
      {
        var name :| name in left;
        var inner := Walk(root, Properties(schema)[name], v.fields[name], depth + 1);
        if inner.None? { return false; }
        left := left - {name};
      }
    }
    return true;
  }
}
