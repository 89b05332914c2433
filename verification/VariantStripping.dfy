/** Removal of request and notification variants from a schema, and of the
    definitions that only they needed. */
module VariantStripping {
  import opened Json
  import opened RefRewriting
  import opened Worklists

  /** `string_literal`: the `const` string, else the first `enum` entry when that is a string. */
  function StringLiteral(v: Json): Option<string> {
    if GetStr(v, "const").Some? then GetStr(v, "const")
    else match Get(v, "enum")
      case Some(Arr(items)) => if items != [] && items[0].Str? then Some(items[0].s) else None
      case _ => None
  }

  /** `is_method_variant_in_set` */
  predicate IsMethodVariantIn(v: Json, methods: set<string>) {
    match GetObj(v, "properties")
    case Some(properties) =>
      "method" in properties && StringLiteral(properties["method"]).Some? &&
      StringLiteral(properties["method"]).value in methods
    case None => false
  }

  function WithoutVariants(variants: seq<Json>, methods: set<string>): seq<Json> {
    if variants == [] then []
    else
      (if IsMethodVariantIn(variants[0], methods) then [] else [variants[0]])
      + WithoutVariants(variants[1..], methods)
  }

  /** The member is a string with this text. */
  predicate HasText(members: map<string, Json>, key: string, text: string) {
    key in members && members[key] == Str(text)
  }

  /** The schema names this method: by its string `const`, or without one by the first of its `enum`. */
  predicate NamesMethod(schema: Json, m: string) {
    && schema.Obj?
    && if "const" in schema.members && schema.members["const"].Str? then HasText(schema.members, "const", m)
       else && "enum" in schema.members && schema.members["enum"].Arr?
            && schema.members["enum"].items != [] && schema.members["enum"].items[0] == Str(m)
  }

  /** The schema has a property `method` naming this method. */
  predicate IsVariantOf(v: Json, m: string) {
    && v.Obj? && "properties" in v.members && v.members["properties"].Obj?
    && "method" in v.members["properties"].members && NamesMethod(v.members["properties"].members["method"], m)
  }

  ghost predicate IsVariantAmong(v: Json, methods: set<string>) {
    exists m :: m in methods && IsVariantOf(v, m)
  }

  lemma LiteralMeans(schema: Json, m: string)
    ensures NamesMethod(schema, m) <==> StringLiteral(schema) == Some(m)
  {
  }

  lemma VariantMeans(v: Json, methods: set<string>)
    ensures IsMethodVariantIn(v, methods) <==> IsVariantAmong(v, methods)
  {
    if GetObj(v, "properties").Some? && "method" in GetObj(v, "properties").value {
      var schema := GetObj(v, "properties").value["method"];
      forall m { LiteralMeans(schema, m); }
      if IsMethodVariantIn(v, methods) { assert IsVariantOf(v, StringLiteral(schema).value); }
    }
  }

  /** One form of a variant, and the other. */
  lemma BothFormsAreVariants(m: string)
    ensures IsMethodVariantIn(VariantWith(Obj(map["const" := Str(m)])), {m})
    ensures IsMethodVariantIn(VariantWith(Obj(map["enum" := Arr([Str(m)])])), {m})
  {
    var constant, enumerated := Obj(map["const" := Str(m)]), Obj(map["enum" := Arr([Str(m)])]);
    assert NamesMethod(constant, m) && NamesMethod(enumerated, m);
    assert IsVariantOf(VariantWith(constant), m) && IsVariantOf(VariantWith(enumerated), m);
    VariantMeans(VariantWith(constant), {m});
    VariantMeans(VariantWith(enumerated), {m});
  }

  function VariantWith(schema: Json): Json {
    Obj(map["properties" := Obj(map["method" := schema])])
  }

  /** The items left are those that are no variant of the methods, in order. */
  ghost predicate KeepsOthers(variants: seq<Json>, methods: set<string>, kept: seq<Json>) {
    Picks(variants, seq(|variants|, i requires 0 <= i < |variants| => !IsVariantAmong(variants[i], methods)), kept)
  }

  lemma {:induction false} OthersKept(variants: seq<Json>, methods: set<string>)
    ensures KeepsOthers(variants, methods, WithoutVariants(variants, methods))
  {
    var wanted := seq(|variants|, i requires 0 <= i < |variants| => !IsVariantAmong(variants[i], methods));
    if variants == [] {
      PickNothing(variants, wanted);
    } else {
      OthersKept(variants[1..], methods);
      assert wanted[1..] ==
        seq(|variants[1..]|, i requires 0 <= i < |variants[1..]| => !IsVariantAmong(variants[1..][i], methods));
      VariantMeans(variants[0], methods);
      PickOneMore(variants, wanted, WithoutVariants(variants[1..], methods));
    }
  }

  /** Nothing but the variants and the definitions is touched, no variant of the methods is left, and the
      definitions that are left are as they were. */
  ghost predicate StripsOnly(schema: Json, methods: set<string>, stripped: Json) {
    if !(schema.Obj? && "oneOf" in schema.members && schema.members["oneOf"].Arr?) then stripped == schema
    else
      && stripped.Obj? && stripped.members.Keys == schema.members.Keys
      && (forall k :: k in schema.members && k != "oneOf" && k != "definitions" ==>
            stripped.members[k] == schema.members[k])
      && stripped.members["oneOf"].Arr?
      && KeepsOthers(schema.members["oneOf"].items, methods, stripped.members["oneOf"].items)
      && ("definitions" in schema.members ==>
            if !schema.members["definitions"].Obj? then stripped.members["definitions"] == schema.members["definitions"]
            else && stripped.members["definitions"].Obj?
                 && forall n :: n in stripped.members["definitions"].members ==>
                      && n in schema.members["definitions"].members
                      && stripped.members["definitions"].members[n] == schema.members["definitions"].members[n])
  }

  predicate HasVariantList(schema: Json) {
    match Get(schema, "oneOf") case Some(Arr(_)) => true case _ => false
  }

  /** The schema once its top-level variants are filtered. */
  function Filtered(schema: Json, methods: set<string>): Json
    requires HasVariantList(schema)
  {
    Obj(schema.members["oneOf" := Arr(WithoutVariants(schema.members["oneOf"].items, methods))])
  }

  /** `definitions.retain(...)` */
  function KeepDefinitions(schema: Json, keep: set<string>): Json {
    match GetObj(schema, "definitions")
    case Some(defs) => Obj(schema.members["definitions" := Obj(map n | n in defs && n in keep :: defs[n])])
    case None => schema
  }

  /** What is marked from the filtered schema. */
  ghost predicate Marks(root: Json, reachable: set<string>)
    requires GetObj(root, "definitions").Some?
  {
    LeastClosed(reachable, RootNames(root, "definitions"), LocalDeps(GetObj(root, "definitions").value, "definitions"))
  }

  /** What stripping makes of a schema. */
  ghost predicate Strips(schema: Json, methods: set<string>, stripped: Json) {
    if !HasVariantList(schema) then stripped == schema
    else
      var root := Filtered(schema, methods);
      if GetObj(root, "definitions").None? then stripped == root
      else exists reachable :: Marks(root, reachable) && stripped == KeepDefinitions(root, reachable)
  }

  lemma StrippingOnly(schema: Json, methods: set<string>, stripped: Json)
    requires Strips(schema, methods, stripped)
    ensures StripsOnly(schema, methods, stripped)
  {
    if HasVariantList(schema) {
      OthersKept(schema.members["oneOf"].items, methods);
      assert "oneOf" != "definitions";
    }
  }

  /** `strip_method_variants_from_json_schema`: with a single definition map no reference of the result
      dangles that resolved before, and a definition stays exactly if a chain of remaining references needs it. */
  method StripMethodVariants(schema: Json, methods: set<string>) returns (stripped: Json)
    ensures Strips(schema, methods, stripped) && StripsOnly(schema, methods, stripped)
    ensures HasVariantList(schema) && SingleMap(Filtered(schema, methods)) && GetObj(schema, "definitions").Some? ==>
      Exact(Filtered(schema, methods), stripped)
  {
    if !HasVariantList(schema) {
      StrippingOnly(schema, methods, schema);
      return schema;
    }
    var variants := schema.members["oneOf"].items;
    var kept: seq<Json> := [];
    for i := 0 to |variants|
      invariant kept + WithoutVariants(variants[i..], methods) == WithoutVariants(variants, methods)
    {
      if !IsMethodVariantIn(variants[i], methods) {
        kept := kept + [variants[i]];
      }
    }
    var root := Obj(schema.members["oneOf" := Arr(kept)]);
    assert variants[|variants|..] == [];
    assert kept == WithoutVariants(variants, methods);
    assert root == Filtered(schema, methods);
    assert GetObj(root, "definitions") == GetObj(schema, "definitions");
    var reachable := ReachableLocalDefinitions(root, "definitions");
    stripped := KeepDefinitions(root, reachable);
    if GetObj(schema, "definitions").Some? {
      assert Marks(root, reachable);
      if SingleMap(root) { KeepingIsExact(root, reachable); }
    }
    StrippingOnly(schema, methods, stripped);
  }

  /** Names referenced by the root outside its top-level definitions. */
  function OutsideNames(root: Json): set<string>
    requires root.Obj?
  {
    LocalNames(Obj(root.members - {"definitions"}), "definitions")
  }

  /** Every name referenced by the root or by one of its definitions. */
  function ReferencedNames(root: Json): set<string>
    requires root.Obj?
  {
    OutsideNames(root) +
    match GetObj(root, "definitions")
    case Some(defs) => set n, d | n in defs && d in LocalNames(defs[n], "definitions") :: d
    case None => {}
  }

  /** Every reference that resolved among `defs` resolves among the definitions of `root`. */
  ghost predicate KeepsResolving(root: Json, defs: map<string, Json>) {
    root.Obj? && GetObj(root, "definitions").Some? &&
    forall n :: n in ReferencedNames(root) && n in defs ==> n in GetObj(root, "definitions").value
  }

  /** Keeping the marked definitions leaves no reference dangling that resolved before,
      exactly when whatever the root mentions inside nested definition maps is marked too. */
  lemma KeepsResolvingIff(root: Json, reachable: set<string>)
    requires GetObj(root, "definitions").Some?
    requires LeastClosed(reachable, RootNames(root, "definitions"),
                         LocalDeps(GetObj(root, "definitions").value, "definitions"))
    ensures var defs := GetObj(root, "definitions").value;
            KeepsResolving(KeepDefinitions(root, reachable), defs) <==>
            forall n :: n in OutsideNames(root) && n in defs ==> n in reachable
  {
    var defs := GetObj(root, "definitions").value;
    var next := LocalDeps(defs, "definitions");
    var kept := KeepDefinitions(root, reachable);
    var keptDefs := GetObj(kept, "definitions").value;
    assert kept.members - {"definitions"} == root.members - {"definitions"};
    assert OutsideNames(kept) == OutsideNames(root);
    forall n, d | n in keptDefs && d in LocalNames(keptDefs[n], "definitions") ensures d in reachable {
      assert d in next(n);
    }
  }

  /** No member of the value, at any depth, is named like a definition map. */
  predicate NoMaps(v: Json) {
    match v
    case Arr(items) => forall i | 0 <= i < |items| :: NoMaps(items[i])
    case Obj(members) => forall k | k in members :: !IsMapKey(k, "definitions") && NoMaps(members[k])
    case _ => true
  }

  lemma {:induction false} NoMapsSeesAll(v: Json)
    requires NoMaps(v)
    ensures RefsOutsideMaps(v, "definitions") == Refs(v)
  {
    match v
    case Arr(items) =>
      forall i | 0 <= i < |items| { NoMapsSeesAll(items[i]); }
    case Obj(members) =>
      forall k | k in members { NoMapsSeesAll(members[k]); }
    case _ =>
  }

  /** Its only definition map is the top-level one. */
  predicate SingleMap(root: Json) {
    root.Obj? && NoMaps(Obj(root.members - {"definitions"}))
  }

  lemma SingleMapNames(root: Json)
    requires SingleMap(root)
    ensures RootNames(root, "definitions") == OutsideNames(root)
  {
    var outside := Obj(root.members - {"definitions"});
    NoMapsSeesAll(outside);
    assert RefHere(outside) == RefHere(root);
    forall r ensures r in RefsOutsideMaps(root, "definitions") <==> r in RefsOutsideMaps(outside, "definitions") {
      forall k | k in root.members && !IsMapKey(k, "definitions")
        ensures k in outside.members && outside.members[k] == root.members[k]
      {
      }
    }
  }

  /** No reference of the result dangles that resolved before, and it keeps just the definitions that some
      chain of references outside the definitions needs. */
  ghost predicate Exact(root: Json, stripped: Json)
    requires root.Obj? && GetObj(root, "definitions").Some?
  {
    var defs := GetObj(root, "definitions").value;
    && KeepsResolving(stripped, defs)
    && forall n :: n in GetObj(stripped, "definitions").value <==>
         n in defs && PathTo(n, OutsideNames(root), LocalDeps(defs, "definitions"))
  }

  lemma KeepingIsExact(root: Json, reachable: set<string>)
    requires SingleMap(root) && GetObj(root, "definitions").Some? && Marks(root, reachable)
    ensures Exact(root, KeepDefinitions(root, reachable))
  {
    SingleMapNames(root);
    KeepsResolvingIff(root, reachable);
    var defs := GetObj(root, "definitions").value;
    LeastClosedIsReachability(reachable, RootNames(root, "definitions"), LocalDeps(defs, "definitions"));
  }

  /** With a single definition map, whatever stripping returns is exact. */
  lemma StrippingIsExact(schema: Json, methods: set<string>, stripped: Json)
    requires HasVariantList(schema) && Strips(schema, methods, stripped)
    requires SingleMap(Filtered(schema, methods)) && GetObj(schema, "definitions").Some?
    ensures Exact(Filtered(schema, methods), stripped)
  {
    var root := Filtered(schema, methods);
    var reachable :| Marks(root, reachable) && stripped == KeepDefinitions(root, reachable);
    KeepingIsExact(root, reachable);
  }

  /** In general stripping keeps resolving what resolved exactly if each name the filtered schema mentions
      outside its definitions, even in another map, is needed by a chain that starts outside all maps. */
  lemma StrippingResolvesIff(schema: Json, methods: set<string>, stripped: Json)
    requires HasVariantList(schema) && Strips(schema, methods, stripped) && GetObj(schema, "definitions").Some?
    ensures var root, defs := Filtered(schema, methods), GetObj(schema, "definitions").value;
            KeepsResolving(stripped, defs) <==>
            forall n :: n in OutsideNames(root) && n in defs ==>
              PathTo(n, RootNames(root, "definitions"), LocalDeps(defs, "definitions"))
  {
    var root, defs := Filtered(schema, methods), GetObj(schema, "definitions").value;
    var reachable :| Marks(root, reachable) && stripped == KeepDefinitions(root, reachable);
    KeepsResolvingIff(root, reachable);
    LeastClosedIsReachability(reachable, RootNames(root, "definitions"), LocalDeps(defs, "definitions"));
  }

  const REF_TO_A := Obj(map["$ref" := Str("#/definitions/A")])
  const SECOND_MAP := Obj(map["$defs" := Obj(map["B" := REF_TO_A]),
                              "definitions" := Obj(map["A" := Null]),
                              "oneOf" := Arr([])])

  lemma LocalNameOfA()
    ensures LocalName("#/definitions/A", "definitions") == Some("A")
  {
    ShortSegments();
    assert "#/" + "definitions" + "/" == DEFS && DEFS + "A" == "#/definitions/A";
    assert (DEFS + "A")[|DEFS|..] == "A";
  }

  lemma SecondMapMentionsA()
    ensures "A" in OutsideNames(SECOND_MAP)
  {
    var outside := SECOND_MAP.members - {"definitions"};
    assert RefHere(REF_TO_A) == Some("#/definitions/A");
    RefsOfMember(map["B" := REF_TO_A], "B");
    assert "$defs" in outside;
    RefsOfMember(outside, "$defs");
    LocalNameOfA();
  }

  lemma SecondMapFiltered(methods: set<string>)
    ensures HasVariantList(SECOND_MAP) && Filtered(SECOND_MAP, methods) == SECOND_MAP
    ensures RootNames(SECOND_MAP, "definitions") == {}
  {
    assert SECOND_MAP.members["oneOf" := Arr([])] == SECOND_MAP.members;
    assert RefsOutsideMaps(SECOND_MAP, "definitions") == {};
  }

  /** A second map breaks it: a definition used only from `$defs` is dropped, whatever the methods. */
  lemma SecondMapDangles(methods: set<string>, stripped: Json)
    requires Strips(SECOND_MAP, methods, stripped)
    ensures var defs := GetObj(SECOND_MAP, "definitions").value;
            "A" in ReferencedNames(SECOND_MAP) && "A" in defs && !KeepsResolving(stripped, defs)
  {
    SecondMapFiltered(methods);
    SecondMapMentionsA();
    var defs := GetObj(SECOND_MAP, "definitions").value;
    StrippingResolvesIff(SECOND_MAP, methods, stripped);
  }
}
