// What acceptance by the schema walk means, keyword by keyword, for every subschema that applies to
// the value.
module SchemaLaws {
  import opened Wire
  import opened Schema

  // ---- keywords of one node, read off the schema ----

  predicate IsWhole(v: Value) { v.Int? && I64_MIN <= v.n <= U64_MAX }

  predicate HasType(name: string, v: Value) {
    (name == "null" && v.Null?) || (name == "boolean" && v.Bool?) || (name == "string" && v.Str?) || (name == "integer" && IsWhole(v))
    || (name == "object" && v.Obj?) || (name == "array" && v.Arr?)
  }

  predicate TypeLaw(schema: Object, v: Value) {
    && ("const" in schema ==> v == schema["const"])
    && ("enum" in schema && schema["enum"].Arr? ==> v in schema["enum"].items)
    && ("type" in schema && schema["type"].Str? ==> HasType(schema["type"].s, v))
  }

  predicate HexDigit(c: char) { '0' <= c <= '9' || 'a' <= c <= 'f' }

  predicate StringLaw(schema: Object, text: string) {
    && ("minLength" in schema && schema["minLength"].Int? && 0 <= schema["minLength"].n <= U64_MAX ==> schema["minLength"].n <= |text|)
    && ("maxLength" in schema && schema["maxLength"].Int? && 0 <= schema["maxLength"].n <= U64_MAX ==> |text| <= schema["maxLength"].n)
    && ("pattern" in schema && schema["pattern"].Str? ==>
          || (schema["pattern"].s == "^[0-9a-f]+$" && text != "" && forall i | 0 <= i < |text| :: HexDigit(text[i]))
          || (schema["pattern"].s == "^sha256:[0-9a-f]{64}$" && |text| == 71 && text[..7] == "sha256:" && forall i | 7 <= i < 71 :: HexDigit(text[i])))
  }

  predicate NumberLaw(schema: Object, n: int) {
    && ("minimum" in schema && schema["minimum"].Int? && I64_MIN <= schema["minimum"].n <= I64_MAX ==> schema["minimum"].n <= n)
    && ("maximum" in schema && schema["maximum"].Int? && I64_MIN <= schema["maximum"].n <= I64_MAX ==> n <= schema["maximum"].n)
  }

  predicate ArrayLaw(schema: Object, items: seq<Value>) {
    "maxItems" in schema && schema["maxItems"].Int? && 0 <= schema["maxItems"].n <= U64_MAX ==> |items| <= schema["maxItems"].n
  }

  predicate ObjectLaw(schema: Object, fields: Object) {
    && ("required" in schema && schema["required"].Arr? ==>
          forall i | 0 <= i < |schema["required"].items| :: schema["required"].items[i].Str? && schema["required"].items[i].s in fields)
    && ("properties" in schema && schema["properties"].Obj? && "additionalProperties" in schema && schema["additionalProperties"] == Bool(false) ==>
          forall k | k in fields :: k in schema["properties"].fields)
  }

  // All keywords that look at the value alone.
  predicate NodeLaw(schema: Object, v: Value) {
    && TypeLaw(schema, v)
    && (v.Str? ==> StringLaw(schema, v.s))
    && (IsWhole(v) ==> NumberLaw(schema, v.n))
    && (v.Arr? ==> ArrayLaw(schema, v.items))
    && (v.Obj? ==> ObjectLaw(schema, v.fields))
  }

  lemma PatternIs(pattern: string, text: string)
    ensures PatternMatches(pattern, text) <==>
            || (pattern == "^[0-9a-f]+$" && text != "" && forall i | 0 <= i < |text| :: HexDigit(text[i]))
            || (pattern == "^sha256:[0-9a-f]{64}$" && |text| == 71 && text[..7] == "sha256:" && forall i | 7 <= i < 71 :: HexDigit(text[i]))
  {
    assert |"^[0-9a-f]+$"| == 11 && |"^sha256:[0-9a-f]{64}$"| == 21;
    if |text| == 71 {
      forall i | 7 <= i < 71 ensures text[i] == text[7..][i - 7] {}
      if forall i | 7 <= i < 71 :: HexDigit(text[i]) {
        forall i | 0 <= i < 64 ensures HexDigit(text[7..][i]) { assert text[7..][i] == text[i + 7]; }
      }
    }
  }

  lemma StringIs(schema: Object, text: string)
    ensures StringBounds(schema, text) <==> StringLaw(schema, text)
  {
    hide PatternMatches, HexDigit;
    if "pattern" in schema && schema["pattern"].Str? { PatternIs(schema["pattern"].s, text); }
  }

  lemma TypeIs(name: string, v: Value)
    ensures TypeMatches(name, v) <==> HasType(name, v)
  {
    assert |"null"| == 4 && |"boolean"| == 7 && |"string"| == 6 && |"integer"| == 7 && |"object"| == 6 && |"array"| == 5;
    assert "boolean"[0] != "integer"[0] && "string"[0] != "object"[0];
  }

  lemma ObjectIs(schema: Object, fields: Object)
    ensures RequiredPresent(schema, fields) && PropertiesClosed(schema, fields) <==> ObjectLaw(schema, fields)
  {
    var required := ArrayAt(schema, "required");
    if ObjectLaw(schema, fields) {
      forall i | 0 <= i < |required| ensures required[i].Str? && required[i].s in fields {}
    }
    if RequiredPresent(schema, fields) && "required" in schema && schema["required"].Arr? {
      assert required == schema["required"].items;
      forall i | 0 <= i < |schema["required"].items| ensures schema["required"].items[i].Str? && schema["required"].items[i].s in fields {
        assert required[i].Str? && required[i].s in fields;
      }
    }
  }

  lemma KeywordsAreLaws(schema: Object, v: Value)
    ensures ValueKeywords(schema, v) <==> NodeLaw(schema, v)
  {
    hide TypeMatches, HasType, StringBounds, StringLaw, RequiredPresent, PropertiesClosed, ObjectLaw;
    if v.Str? { StringIs(schema, v.s); }
    if v.Obj? { ObjectIs(schema, v.fields); }
    if "type" in schema && schema["type"].Str? { TypeIs(schema["type"].s, v); }
  }

  // ---- children ----

  // Every item and every declared member is accepted by its own subschema, one level deeper.
  ghost predicate ChildrenAccepted(root: Value, schema: Object, v: Value, depth: nat) {
    && (v.Arr? && "items" in schema ==> forall i | 0 <= i < |v.items| :: Validate(root, schema["items"], v.items[i], depth + 1).Some?)
    && (v.Obj? && "properties" in schema && schema["properties"].Obj? ==>
          forall k | k in schema["properties"].fields && k in v.fields :: Validate(root, schema["properties"].fields[k], v.fields[k], depth + 1).Some?)
  }

  lemma ChildrenAre(root: Value, schema: Object, v: Value, depth: nat)
    requires depth <= MAXIMUM_DEPTH
    ensures ItemsValid(root, schema, v, depth) && MembersValid(root, schema, v, depth) <==> ChildrenAccepted(root, schema, v, depth)
  {
    hide Validate;
  }

  // ---- acceptance along the paths that apply to one value ----

  lemma {:induction false} AcceptedAlong(root: Value, node: Value, v: Value, depth: nat, path: seq<Hop>)
    requires Validate(root, node, v, depth).Some? && Reach(root, node, v, depth, path).Some?
    ensures Validate(root, Reach(root, node, v, depth, path).value, v, depth + |path|).Some?
    decreases |path|
  {
    hide Validate;
    if path != [] {
      if !path[0].OneOf? { MandatoryHop(root, node, v, depth, path[0]); }
      AcceptedAlong(root, Follow(root, node, path[0]).value, v, depth + 1, path[1..]);
    }
  }

  // An accepted value obeys every keyword of every subschema that applies to it, through $ref, allOf or
  // the single matching oneOf branch, and so do its items and declared members.
  lemma AcceptedObeys(root: Value, node: Value, v: Value, depth: nat, path: seq<Hop>)
    requires Validate(root, node, v, depth).Some? && Reach(root, node, v, depth, path).Some?
    ensures var end := Reach(root, node, v, depth, path).value;
            end.Obj? && NodeLaw(end.fields, v) && ChildrenAccepted(root, end.fields, v, depth + |path|)
  {
    hide NodeLaw, ValueKeywords, ItemsValid, MembersValid, ChildrenAccepted, Applied, Reach;
    AcceptedAlong(root, node, v, depth, path);
    var end, deep := Reach(root, node, v, depth, path).value, depth + |path|;
    assert end.Obj? && deep <= MAXIMUM_DEPTH && ValueKeywords(end.fields, v) && ItemsValid(root, end.fields, v, deep) && MembersValid(root, end.fields, v, deep);
    KeywordsAreLaws(end.fields, v);
    ChildrenAre(root, end.fields, v, deep);
  }

  // ---- acceptance of one node ----

  // A schema whose subschemas all accept the value.
  ghost predicate SubschemasAccept(root: Value, schema: Object, v: Value, depth: nat) {
    && ("$ref" in schema && schema["$ref"].Str? ==>
          RefTarget(root, schema).Some? && Validate(root, RefTarget(root, schema).value, v, depth + 1).Some?)
    && ("allOf" in schema && schema["allOf"].Arr? ==>
          forall i | 0 <= i < |schema["allOf"].items| :: Validate(root, schema["allOf"].items[i], v, depth + 1).Some?)
    && ("oneOf" in schema && schema["oneOf"].Arr? ==>
          exists i :: OnlyBranch(root, schema["oneOf"].items, v, depth, i))
  }

  ghost predicate OnlyBranch(root: Value, branches: seq<Value>, v: Value, depth: nat, i: int) {
    0 <= i < |branches| && forall j | 0 <= j < |branches| :: Validate(root, branches[j], v, depth + 1).Some? <==> j == i
  }

  // A reference resolves exactly to the definition that it names in the root.
  lemma RefIs(root: Value, schema: Object, target: Value)
    ensures RefTarget(root, schema) == Some(target) <==>
            && "$ref" in schema && schema["$ref"].Str? && root.Obj? && "$defs" in root.fields && root.fields["$defs"].Obj?
            && exists name :: name in root.fields["$defs"].fields && schema["$ref"].s == "#/$defs/" + name && root.fields["$defs"].fields[name] == target
  {
    if "$ref" in schema && schema["$ref"].Str? {
      var text := schema["$ref"].s;
      if HasPrefix(text, "#/$defs/") { assert text == "#/$defs/" + text[8..]; }
      if root.Obj? && "$defs" in root.fields && root.fields["$defs"].Obj? {
        if name :| name in root.fields["$defs"].fields && text == "#/$defs/" + name { assert text[8..] == name && text[..8] == "#/$defs/"; }
      }
    }
  }

  lemma {:induction false} AllAccept(root: Value, branches: seq<Value>, v: Value, depth: nat)
    requires depth <= MAXIMUM_DEPTH + 1
    ensures ValidateAll(root, branches, v, depth).Some? <==> forall i | 0 <= i < |branches| :: Validate(root, branches[i], v, depth).Some?
  {
    hide Validate, Matching;
    if branches != [] {
      var front := branches[..|branches| - 1];
      AllAccept(root, front, v, depth);
      assert forall i | 0 <= i < |front| :: front[i] == branches[i];
      if forall i | 0 <= i < |front| :: Validate(root, front[i], v, depth).Some? {
        assert forall i | 0 <= i < |front| :: Validate(root, branches[i], v, depth).Some?;
      }
    }
  }

  lemma {:induction false} NobodyMatches(root: Value, branches: seq<Value>, v: Value, depth: nat)
    requires depth <= MAXIMUM_DEPTH && forall j | 0 <= j < |branches| :: Validate(root, branches[j], v, depth + 1).None?
    ensures Matching(root, branches, v, depth + 1) == []
  {
    hide Validate;
    if branches != [] { NobodyMatches(root, branches[..|branches| - 1], v, depth); }
  }

  lemma {:induction false} OnlyBranchMatches(root: Value, branches: seq<Value>, v: Value, depth: nat, i: int)
    requires depth <= MAXIMUM_DEPTH && OnlyBranch(root, branches, v, depth, i)
    ensures |Matching(root, branches, v, depth + 1)| == 1
  {
    hide Validate;
    var last := |branches| - 1;
    var front := branches[..last];
    assert forall j | 0 <= j < last :: front[j] == branches[j];
    if i == last {
      NobodyMatches(root, front, v, depth);
    } else {
      assert OnlyBranch(root, front, v, depth, i);
      OnlyBranchMatches(root, front, v, depth, i);
      assert Validate(root, branches[last], v, depth + 1).None?;
    }
  }

  lemma OneMatchesIff(root: Value, branches: seq<Value>, v: Value, depth: nat)
    requires depth <= MAXIMUM_DEPTH
    ensures |Matching(root, branches, v, depth + 1)| == 1 <==> exists i :: OnlyBranch(root, branches, v, depth, i)
  {
    hide Validate, Matching;
    if |Matching(root, branches, v, depth + 1)| == 1 {
      var i := OneMatch(root, branches, v, depth + 1);
      assert OnlyBranch(root, branches, v, depth, i);
    }
    if i :| OnlyBranch(root, branches, v, depth, i) { OnlyBranchMatches(root, branches, v, depth, i); }
  }

  lemma AppliedIff(root: Value, schema: Object, v: Value, depth: nat)
    requires depth <= MAXIMUM_DEPTH
    ensures Applied(root, schema, v, depth).Some? <==> SubschemasAccept(root, schema, v, depth)
  {
    hide Validate, ValidateAll, Matching, OnlyBranch;
    AllAccept(root, ArrayAt(schema, "allOf"), v, depth + 1);
    OneMatchesIff(root, ArrayAt(schema, "oneOf"), v, depth);
  }

  // The names that the subschemas and the node evaluate are the declared ones.
  lemma AppliedDeclares(root: Value, schema: Object, v: Value, depth: nat, name: string)
    requires depth <= MAXIMUM_DEPTH && v.Obj? && Applied(root, schema, v, depth).Some?
    ensures name in Applied(root, schema, v, depth).value + OwnNames(schema, v) <==> Declared(root, Obj(schema), v, depth, name)
  {
    hide Validate, ValidateAll, Matching;
    var node, all, one := Obj(schema), ArrayAt(schema, "allOf"), ArrayAt(schema, "oneOf");
    AllNames(root, all, v, depth + 1, name);
    if name in Applied(root, schema, v, depth).value + OwnNames(schema, v) {
      if RefTarget(root, schema).Some? && name in Validate(root, RefTarget(root, schema).value, v, depth + 1).value {
        EvaluatedIsDeclared(root, RefTarget(root, schema).value, v, depth + 1, name);
        DeclaredThrough(root, node, v, depth, Ref, name);
      } else if name in ValidateAll(root, all, v, depth + 1).value {
        var i :| 0 <= i < |all| && name in Validate(root, all[i], v, depth + 1).value;
        EvaluatedIsDeclared(root, all[i], v, depth + 1, name);
        DeclaredThrough(root, node, v, depth, AllOf(i), name);
      } else if HasOneOf(schema) && name in Matching(root, one, v, depth + 1)[0] {
        var i := OneMatch(root, one, v, depth + 1);
        EvaluatedIsDeclared(root, one[i], v, depth + 1, name);
        DeclaredThrough(root, node, v, depth, OneOf(i), name);
      } else {
        assert DeclaredBy(root, node, v, depth, [], name);
      }
    }
    if Declared(root, node, v, depth, name) { DeclaredApplies(root, schema, v, depth, name); }
  }

  lemma DeclaredApplies(root: Value, schema: Object, v: Value, depth: nat, name: string)
    requires depth <= MAXIMUM_DEPTH && v.Obj? && Applied(root, schema, v, depth).Some? && Declared(root, Obj(schema), v, depth, name)
    ensures name in Applied(root, schema, v, depth).value + OwnNames(schema, v)
  {
    hide Validate, ValidateAll, Matching;
    var node := Obj(schema);
    var hop := DeclaredSplits(root, node, v, depth, name);
    if hop.Some? {
      var next := Follow(root, node, hop.value).value;
      match hop.value
      case Ref => DeclaredIsEvaluated(root, next, v, depth + 1, name);
      case AllOf(i) =>
        AllNames(root, ArrayAt(schema, "allOf"), v, depth + 1, name);
        DeclaredIsEvaluated(root, next, v, depth + 1, name);
      case OneOf(i) =>
        DeclaredIsEvaluated(root, next, v, depth + 1, name);
        var j := OneMatch(root, ArrayAt(schema, "oneOf"), v, depth + 1);
    }
  }

  ghost predicate ClosedLaw(root: Value, schema: Object, v: Value, depth: nat) {
    v.Obj? && "unevaluatedProperties" in schema && schema["unevaluatedProperties"] == Bool(false) ==>
      forall k | k in v.fields :: Declared(root, Obj(schema), v, depth, k)
  }

  // ---- main result ----

  // A node accepts a value, within the depth limit, if and only if the value obeys its keywords, its
  // subschemas and the subschemas of its items and members accept, and no key is undeclared in a closed object.
  lemma AcceptsIff(root: Value, schema: Object, v: Value, depth: nat)
    ensures Validate(root, Obj(schema), v, depth).Some? <==>
            && depth <= MAXIMUM_DEPTH && NodeLaw(schema, v) && ChildrenAccepted(root, schema, v, depth)
            && SubschemasAccept(root, schema, v, depth) && ClosedLaw(root, schema, v, depth)
  {
    hide NodeLaw, ValueKeywords, ItemsValid, MembersValid, ChildrenAccepted, Applied, SubschemasAccept, Declared, OwnNames;
    if depth <= MAXIMUM_DEPTH {
      KeywordsAreLaws(schema, v);
      ChildrenAre(root, schema, v, depth);
      AppliedIff(root, schema, v, depth);
      if v.Obj? && Applied(root, schema, v, depth).Some? {
        forall k ensures k in Applied(root, schema, v, depth).value + OwnNames(schema, v) <==> Declared(root, Obj(schema), v, depth, k) {
          AppliedDeclares(root, schema, v, depth, k);
        }
      }
    }
  }

  // A leaf schema, with no subschemas and no closure, accepts exactly the values that obey its keywords.
  lemma LeafAcceptsIff(root: Value, schema: Object, v: Value, depth: nat)
    requires depth <= MAXIMUM_DEPTH
    requires "$ref" !in schema && "allOf" !in schema && "oneOf" !in schema && "items" !in schema && "properties" !in schema
    requires "unevaluatedProperties" !in schema
    ensures Validate(root, Obj(schema), v, depth).Some? <==> NodeLaw(schema, v)
  {
    hide NodeLaw, Validate;
    AcceptsIff(root, schema, v, depth);
  }
}
