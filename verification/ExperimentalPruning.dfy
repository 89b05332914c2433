/** Removal of experimental method variants from a schema, at every depth, and
    the exact condition under which one pass removes them all. */
module ExperimentalPruning {
  import opened Json

  /** `is_experimental_method_variant`: the method is given by a `const` string, else by a one-string `enum`. */
  predicate IsExperimental(v: Json, methods: set<string>) {
    match MethodSchema(v)
    case Some(schema) =>
      if GetStr(schema, "const").Some? then GetStr(schema, "const").value in methods
      else
        (match Get(schema, "enum")
         case Some(Arr(values)) => |values| == 1 && values[0].Str? && values[0].s in methods
         case _ => false)
    case None => false
  }

  /** `properties.method`, when both are objects. */
  function MethodSchema(v: Json): Option<Json> {
    match GetObj(v, "properties")
    case Some(properties) =>
      if "method" in properties && properties["method"].Obj? then Some(properties["method"]) else None
    case None => None
  }

  /** The schema names a single method: by its string `const`, or without one by an `enum` of just that. */
  predicate NamesMethod(schema: Json, m: string) {
    && schema.Obj?
    && if "const" in schema.members && schema.members["const"].Str? then schema.members["const"] == Str(m)
       else "enum" in schema.members && schema.members["enum"] == Arr([Str(m)])
  }

  predicate IsVariantOf(v: Json, m: string) {
    && v.Obj? && "properties" in v.members && v.members["properties"].Obj?
    && "method" in v.members["properties"].members && NamesMethod(v.members["properties"].members["method"], m)
  }

  /** A variant is experimental exactly if it has a property `method` naming one of the methods. */
  lemma ExperimentalMeans(v: Json, methods: set<string>)
    ensures IsExperimental(v, methods) <==> exists m :: m in methods && IsVariantOf(v, m)
  {
    if MethodSchema(v).Some? {
      var schema := MethodSchema(v).value;
      if IsExperimental(v, methods) {
        var m := if GetStr(schema, "const").Some? then GetStr(schema, "const").value
                 else schema.members["enum"].items[0].s;
        assert IsVariantOf(v, m);
      }
    }
  }

  /** `prune_experimental_methods_inner`: an item is tested before what is inside it is pruned. */
  function Prune(v: Json, methods: set<string>): Json
    decreases v, 1
  {
    match v
    case Arr(items) => Arr(PruneItems(items, methods))
    case Obj(members) => Obj(map k | k in members :: Prune(members[k], methods))
    case _ => v
  }

  function PruneItems(items: seq<Json>, methods: set<string>): seq<Json>
    decreases items, 0
  {
    if items == [] then []
    else
      (if IsExperimental(items[0], methods) then [] else [Prune(items[0], methods)])
      + PruneItems(items[1..], methods)
  }

  // ---------------------------------------------------------------- survivors

  /** The positions of the items that are not experimental, in order. */
  function Survivors(items: seq<Json>, methods: set<string>, n: nat): (kept: seq<nat>)
    requires n <= |items|
    ensures forall j :: 0 <= j < |kept| ==> kept[j] < n && !IsExperimental(items[kept[j]], methods)
    ensures forall i, j :: 0 <= i < j < |kept| ==> kept[i] < kept[j]
    ensures forall i :: 0 <= i < n && !IsExperimental(items[i], methods) ==> i in kept
  {
    if n == 0 then []
    else Survivors(items, methods, n - 1) + if IsExperimental(items[n - 1], methods) then [] else [n - 1]
  }

  lemma {:induction false} PruneItemsAppend(a: seq<Json>, b: seq<Json>, methods: set<string>)
    ensures PruneItems(a + b, methods) == PruneItems(a, methods) + PruneItems(b, methods)
  {
    if a == [] {
      assert a + b == b;
    } else {
      assert (a + b)[1..] == a[1..] + b;
      PruneItemsAppend(a[1..], b, methods);
    }
  }

  /** A pruned array is its surviving items, in their order, each with only its own pruning applied. */
  lemma {:induction false} PruneKeepsSurvivors(items: seq<Json>, methods: set<string>, n: nat)
    requires n <= |items|
    ensures var kept := Survivors(items, methods, n);
            && |PruneItems(items[..n], methods)| == |kept|
            && forall j :: 0 <= j < |kept| ==> PruneItems(items[..n], methods)[j] == Prune(items[kept[j]], methods)
  {
    if n > 0 {
      PruneKeepsSurvivors(items, methods, n - 1);
      assert items[..n] == items[..n - 1] + [items[n - 1]];
      PruneItemsAppend(items[..n - 1], [items[n - 1]], methods);
      PruneSingle([items[n - 1]], methods);
    }
  }

  // ---------------------------------------------------------------- exactness

  /** No array of the tree holds an experimental variant. */
  ghost predicate Clean(v: Json, methods: set<string>) {
    match v
    case Arr(items) => forall i | 0 <= i < |items| :: !IsExperimental(items[i], methods) && Clean(items[i], methods)
    case Obj(members) => forall k | k in members :: Clean(members[k], methods)
    case _ => true
  }

  lemma {:induction false} PruneFixesClean(v: Json, methods: set<string>)
    requires Clean(v, methods)
    ensures Prune(v, methods) == v
    decreases v, 1
  {
    match v
    case Arr(items) => PruneItemsFixesClean(items, methods);
    case Obj(members) =>
      forall k | k in members ensures Prune(members[k], methods) == members[k] { PruneFixesClean(members[k], methods); }
    case _ =>
  }

  lemma {:induction false} PruneItemsFixesClean(items: seq<Json>, methods: set<string>)
    requires forall i | 0 <= i < |items| :: !IsExperimental(items[i], methods) && Clean(items[i], methods)
    ensures PruneItems(items, methods) == items
    decreases items, 0
  {
    if items != [] {
      PruneFixesClean(items[0], methods);
      PruneItemsFixesClean(items[1..], methods);
    }
  }

  lemma {:induction false} PruneItemsShrinks(items: seq<Json>, methods: set<string>)
    ensures |PruneItems(items, methods)| <= |items|
    ensures |PruneItems(items, methods)| == |items| ==>
      forall i :: 0 <= i < |items| ==>
        !IsExperimental(items[i], methods) && PruneItems(items, methods)[i] == Prune(items[i], methods)
  {
    if items != [] {
      PruneItemsShrinks(items[1..], methods);
      if |PruneItems(items, methods)| == |items| {
        forall i | 0 < i < |items|
          ensures !IsExperimental(items[i], methods) && PruneItems(items, methods)[i] == Prune(items[i], methods)
        {
          assert items[i] == items[1..][i - 1];
        }
      }
    }
  }

  /** Pruning leaves alone exactly the clean trees. */
  lemma {:induction false} PruneFixedIffClean(v: Json, methods: set<string>)
    ensures Prune(v, methods) == v <==> Clean(v, methods)
    decreases v
  {
    if Clean(v, methods) {
      PruneFixesClean(v, methods);
    }
    if Prune(v, methods) == v {
      match v
      case Arr(items) =>
        PruneItemsShrinks(items, methods);
        forall i | 0 <= i < |items| ensures Clean(items[i], methods) { PruneFixedIffClean(items[i], methods); }
      case Obj(members) =>
        forall k | k in members ensures Clean(members[k], methods) {
          assert Prune(v, methods).members[k] == Prune(members[k], methods);
          PruneFixedIffClean(members[k], methods);
        }
      case _ =>
    }
  }

  /** A surviving item that its own pruning turns into a variant: of its several `enum`
      entries all but one experimental name are removed. */
  predicate Hazard(x: Json, methods: set<string>) {
    match MethodSchema(x)
    case Some(schema) =>
      GetStr(schema, "const").None? &&
      (match Get(schema, "enum")
       case Some(Arr(values)) =>
         var kept := PruneItems(values, methods);
         |values| != 1 && |kept| == 1 && kept[0].Str? && kept[0].s in methods
       case _ => false)
    case None => false
  }

  /** Pruning keeps every member of an object, pruned, and the kind of every value. */
  lemma PruneMember(v: Json, key: string, methods: set<string>)
    requires v.Obj?
    ensures Get(Prune(v, methods), key) ==
            match Get(v, key) case Some(m) => Some(Prune(m, methods)) case None => None
    ensures GetStr(Prune(v, methods), key) == GetStr(v, key)
    ensures GetObj(Prune(v, methods), key).Some? <==> GetObj(v, key).Some?
  {
  }

  lemma MethodSchemaPruned(x: Json, methods: set<string>)
    ensures MethodSchema(Prune(x, methods)) ==
            match MethodSchema(x) case Some(schema) => Some(Prune(schema, methods)) case None => None
  {
    if x.Obj? {
      PruneMember(x, "properties", methods);
      if GetObj(x, "properties").Some? {
        PruneMember(x.members["properties"], "method", methods);
      }
    }
  }

  lemma PruneSingle(values: seq<Json>, methods: set<string>)
    requires |values| == 1
    ensures PruneItems(values, methods) ==
            if IsExperimental(values[0], methods) then [] else [Prune(values[0], methods)]
  {
    assert values[1..] == [];
  }

  /** What pruning an item does to being a variant. */
  lemma ExperimentalAfterPruning(x: Json, methods: set<string>)
    ensures IsExperimental(Prune(x, methods), methods) <==> IsExperimental(x, methods) || Hazard(x, methods)
  {
    MethodSchemaPruned(x, methods);
    if MethodSchema(x).Some? {
      var schema := MethodSchema(x).value;
      PruneMember(schema, "const", methods);
      PruneMember(schema, "enum", methods);
      if Get(schema, "enum").Some? && Get(schema, "enum").value.Arr? {
        var values := Get(schema, "enum").value.items;
        if |values| == 1 { PruneSingle(values, methods); }
      }
    }
  }

  /** Somewhere that pruning keeps, an array has a hazardous item. */
  ghost predicate HasHazard(v: Json, methods: set<string>) {
    match v
    case Arr(items) =>
      exists i ::
        && 0 <= i < |items| && !IsExperimental(items[i], methods)
        && (Hazard(items[i], methods) || HasHazard(items[i], methods))
    case Obj(members) => exists k :: k in members && HasHazard(members[k], methods)
    case _ => false
  }

  /** One pass leaves no experimental variant, at any depth, exactly when there is no hazard. */
  lemma {:induction false} PruneCleanIff(v: Json, methods: set<string>)
    ensures Clean(Prune(v, methods), methods) <==> !HasHazard(v, methods)
    decreases v, 1
  {
    match v
    case Arr(items) =>
      PruneItemsCleanIff(items, methods);
      assert HasHazard(v, methods) <==> exists i :: 0 <= i < |items| && !Safe(items[i], methods);
    case Obj(members) =>
      forall k | k in members
        ensures Clean(Prune(v, methods).members[k], methods) <==> !HasHazard(members[k], methods)
      {
        PruneCleanIff(members[k], methods);
      }
    case _ =>
  }

  ghost predicate Safe(x: Json, methods: set<string>) {
    IsExperimental(x, methods) || (!Hazard(x, methods) && !HasHazard(x, methods))
  }

  lemma {:induction false} PruneItemsCleanIff(items: seq<Json>, methods: set<string>)
    ensures Clean(Arr(PruneItems(items, methods)), methods) <==>
            forall i :: 0 <= i < |items| ==> Safe(items[i], methods)
    decreases items, 0
  {
    if items != [] {
      PruneCleanIff(items[0], methods);
      ExperimentalAfterPruning(items[0], methods);
      PruneItemsCleanIff(items[1..], methods);
      var first := if IsExperimental(items[0], methods) then [] else [Prune(items[0], methods)];
      CleanAppend(first, PruneItems(items[1..], methods), methods);
      assert Clean(Arr(first), methods) <==> Safe(items[0], methods) by {
        if first != [] { assert Arr(first).items[0] == Prune(items[0], methods); }
      }
      assert forall i :: 0 < i < |items| ==> items[i] == items[1..][i - 1];
      assert forall i :: 0 <= i < |items| - 1 ==> items[1..][i] == items[i + 1];
    }
  }

  lemma CleanAppend(a: seq<Json>, b: seq<Json>, methods: set<string>)
    ensures Clean(Arr(a + b), methods) <==> Clean(Arr(a), methods) && Clean(Arr(b), methods)
  {
    assert forall i :: 0 <= i < |a| ==> (a + b)[i] == a[i];
    assert forall i :: 0 <= i < |b| ==> (a + b)[|a| + i] == b[i];
  }

  /** Pruning is idempotent exactly when there is no hazard. */
  lemma PruneIdempotentIff(v: Json, methods: set<string>)
    ensures Prune(Prune(v, methods), methods) == Prune(v, methods) <==> !HasHazard(v, methods)
  {
    PruneCleanIff(v, methods);
    PruneFixedIffClean(Prune(v, methods), methods);
  }

  /** The schemas the exporter meets: the `enum` of a method lists only scalars. */
  predicate ScalarEnums(v: Json) {
    match v
    case Arr(items) =>
      forall i | 0 <= i < |items| :: ScalarEnums(items[i])
    case Obj(members) =>
      && (forall k | k in members :: ScalarEnums(members[k]))
      && (match Get(v, "enum")
          case Some(Arr(values)) => forall i | 0 <= i < |values| :: !values[i].Obj? && !values[i].Arr?
          case _ => true)
    case _ => true
  }

  lemma {:induction false} ScalarsSurvive(values: seq<Json>, methods: set<string>)
    requires forall i | 0 <= i < |values| :: !values[i].Obj? && !values[i].Arr?
    ensures PruneItems(values, methods) == values
  {
    if values != [] {
      assert Prune(values[0], methods) == values[0] && MethodSchema(values[0]).None?;
      ScalarsSurvive(values[1..], methods);
    }
  }

  lemma {:induction false} ScalarEnumsNoHazard(v: Json, methods: set<string>)
    requires ScalarEnums(v)
    ensures !HasHazard(v, methods) && !Hazard(v, methods)
    decreases v
  {
    if MethodSchema(v).Some? {
      var schema := MethodSchema(v).value;
      assert ScalarEnums(v.members["properties"]) && ScalarEnums(schema);
      match Get(schema, "enum")
      case Some(Arr(values)) => ScalarsSurvive(values, methods);
      case _ =>
    }
    match v
    case Arr(items) =>
      forall i | 0 <= i < |items| { ScalarEnumsNoHazard(items[i], methods); }
    case Obj(members) =>
      forall k | k in members { ScalarEnumsNoHazard(members[k], methods); }
    case _ =>
  }

  /** With scalar enums one pass is exact and repeating it changes nothing. */
  lemma PruneExact(v: Json, methods: set<string>)
    requires ScalarEnums(v)
    ensures Clean(Prune(v, methods), methods)
    ensures Prune(Prune(v, methods), methods) == Prune(v, methods)
  {
    ScalarEnumsNoHazard(v, methods);
    PruneCleanIff(v, methods);
    PruneIdempotentIff(v, methods);
  }

  function Variant(schema: Json): Json {
    Obj(map["properties" := Obj(map["method" := schema])])
  }

  /** A variant hidden inside another one's `enum` makes the first pass miss the outer one. */
  lemma HiddenVariantMissed(m: string)
    ensures var inner := Variant(Obj(map["const" := Str(m)]));
            var outer := Variant(Obj(map["enum" := Arr([Str(m), inner])]));
            !Clean(Prune(Arr([outer]), {m}), {m})
  {
    var schema := Obj(map["const" := Str(m)]);
    var inner := Variant(schema);
    var outer := Variant(Obj(map["enum" := Arr([Str(m), inner])]));
    HiddenHazard(m, inner);
    assert Arr([outer]).items[0] == outer;
    PruneCleanIff(Arr([outer]), {m});
  }

  lemma HiddenHazard(m: string, inner: Json)
    requires IsExperimental(inner, {m})
    ensures var outer := Variant(Obj(map["enum" := Arr([Str(m), inner])]));
            Hazard(outer, {m}) && !IsExperimental(outer, {m})
  {
    var values := [Str(m), inner];
    assert values == [Str(m)] + [inner];
    PruneItemsAppend([Str(m)], [inner], {m});
    PruneSingle([Str(m)], {m});
    PruneSingle([inner], {m});
  }
}
