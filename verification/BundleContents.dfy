/** What stands where in the assembled bundle, told from the members of the generated schemas. */
module BundleContents {
  import opened Json
  import opened RefRewriting
  import opened SchemaBundle
  import opened FlatMeaning
  import opened BundleMeaning

  // ---------------------------------------------------------------- names

  /** The ignored and the special definition names. */
  predicate LeftOutName(d: string) {
    || d == "Option<()>"
    || d == "ClientNotification" || d == "ClientRequest"
    || d == "ServerNotification" || d == "ServerRequest"
  }

  lemma SkippedMeans(d: string)
    ensures Skipped(d) <==> LeftOutName(d)
    ensures d in IGNORED <==> d == "Option<()>"
  {
  }

  predicate DefinedIn(v: Json, key: string, n: string) {
    v.Obj? && key in v.members && v.members[key].Obj? && n in v.members[key].members
  }

  /** A namespaced schema claims its own name and those of its definitions, of both kinds. */
  predicate Claims(s: GeneratedSchema, n: string) {
    s.ns.Some? && (n == s.name || DefinedIn(s.value, "definitions", n) || DefinedIn(s.value, "$defs", n))
  }

  lemma ClaimsMean(s: GeneratedSchema, n: string)
    requires s.ns.Some?
    ensures Claims(s, n) <==> n in TypeNames(s)
  {
  }

  predicate FirstToClaim(schemas: seq<GeneratedSchema>, i: nat, n: string) {
    i < |schemas| && Claims(schemas[i], n) && forall j | 0 <= j < i :: !Claims(schemas[j], n)
  }

  lemma FirstToClaimStep(schemas: seq<GeneratedSchema>, n: string)
    requires schemas != []
    ensures var last := |schemas| - 1;
            forall i: nat :: i < last ==> (FirstToClaim(schemas, i, n) <==> FirstToClaim(schemas[..last], i, n))
    ensures var last := |schemas| - 1;
            FirstToClaim(schemas, last, n) <==>
              Claims(schemas[last], n) && forall i | 0 <= i < last :: !Claims(schemas[..last][i], n)
  {
  }

  lemma TypesStep(schemas: seq<GeneratedSchema>, n: string)
    requires schemas != []
    ensures var s, before := schemas[|schemas| - 1], NamespacedTypes(schemas[..|schemas| - 1]);
            && (n in NamespacedTypes(schemas) <==> n in before || Claims(s, n))
            && (n in NamespacedTypes(schemas) ==>
                  NamespacedTypes(schemas)[n] == if n in before then before[n] else s.ns.value)
  {
    if schemas[|schemas| - 1].ns.Some? { ClaimsMean(schemas[|schemas| - 1], n); }
  }

  /** Every claimed name, and no other, has a namespace: that of the first schema to claim it. */
  lemma {:induction false} TypesMean(schemas: seq<GeneratedSchema>, n: string)
    ensures n in NamespacedTypes(schemas) <==> exists i: nat :: i < |schemas| && Claims(schemas[i], n)
    ensures forall i: nat :: FirstToClaim(schemas, i, n) ==>
              n in NamespacedTypes(schemas) && NamespacedTypes(schemas)[n] == schemas[i].ns.value
  {
    if schemas != [] {
      var last := |schemas| - 1;
      TypesMean(schemas[..last], n);
      TypesStep(schemas, n);
      FirstToClaimStep(schemas, n);
      ClaimedBefore(schemas, n);
    }
  }

  lemma ClaimedBefore(schemas: seq<GeneratedSchema>, n: string)
    requires schemas != []
    ensures var last := |schemas| - 1;
            (exists i: nat :: i < |schemas| && Claims(schemas[i], n)) <==>
            (exists i: nat :: i < last && Claims(schemas[..last][i], n)) || Claims(schemas[last], n)
  {
    var before := schemas[..|schemas| - 1];
    forall i: nat | i < |before| ensures before[i] == schemas[i] { }
    if i: nat :| i < |schemas| && Claims(schemas[i], n) {
      if i < |before| { assert Claims(before[i], n); }
    }
    if i: nat :| i < |before| && Claims(before[i], n) {
      assert Claims(schemas[i], n);
    }
  }

  predicate AllDigits(s: string) {
    forall i | 0 <= i < |s| :: '0' <= s[i] <= '9'
  }

  /** A name is looked up by itself, else without the digits it ends in. */
  lemma NamespaceForMeans(stem: string, digits: string, types: map<string, string>)
    requires AllDigits(digits) && (stem != "" ==> !('0' <= stem[|stem| - 1] <= '9'))
    ensures NamespaceFor(stem + digits, types) ==
            if stem + digits in types then Some(types[stem + digits])
            else if digits != "" && stem in types then Some(types[stem])
            else None
  {
    DigitsTrimmed(stem, digits);
    if digits == "" { assert stem + digits == stem; } else { assert stem + digits != stem; }
  }

  lemma {:induction false} DigitsTrimmed(stem: string, digits: string)
    requires AllDigits(digits) && (stem != "" ==> !('0' <= stem[|stem| - 1] <= '9'))
    ensures TrimTrailingDigits(stem + digits) == stem
    decreases |digits|
  {
    if digits == "" {
      assert stem + digits == stem;
    } else {
      assert (stem + digits)[..|stem + digits| - 1] == stem + digits[..|digits| - 1];
      DigitsTrimmed(stem, digits[..|digits| - 1]);
    }
  }

  // ---------------------------------------------------------------- one schema

  /** A schema without its definitions, references rewritten. */
  function OwnSchema(v: Json, f: string -> string): Json {
    if v.Obj? then Obj(map k | k in v.members && k != "definitions" :: MemberRewritten(v.members, k, f))
    else MapRefs(v, f)
  }

  /** One of its definitions, references rewritten. */
  function OwnDefinition(v: Json, d: string, f: string -> string): Json
    requires DefinedIn(v, "definitions", d)
  {
    MemberRewritten(v.members["definitions"].members, d, f)
  }

  lemma OwnSchemaIs(v: Json, f: string -> string)
    ensures WithoutDefinitions(MapRefs(v, f)) == OwnSchema(v, f)
  {
    if v.Obj? {
      MapRefsIsMemberwise(v.members, f);
      assert WithoutDefinitions(MapRefs(v, f)).members == OwnSchema(v, f).members;
    }
  }

  lemma OwnDefinitionIs(v: Json, d: string, f: string -> string)
    ensures d in DefinitionsOf(MapRefs(v, f)) <==> DefinedIn(v, "definitions", d)
    ensures DefinedIn(v, "definitions", d) ==> DefinitionsOf(MapRefs(v, f))[d] == OwnDefinition(v, d, f)
  {
    if v.Obj? {
      MapRefsIsMemberwise(v.members, f);
      if "definitions" in v.members && v.members["definitions"].Obj? {
        MapRefsIsMemberwise(v.members["definitions"].members, f);
        assert MapRefs(v, f).members["definitions"] == MemberRewritten(v.members, "definitions", f);
      }
    }
  }

  // ---------------------------------------------------------------- the root

  /** A root schema puts itself at the root, and its definitions except those left out and, unless it is from
      the v1 directory, those with a known namespace. */
  predicate PutsAtRoot(s: GeneratedSchema, n: string, types: map<string, string>) {
    && s.ns.None? && s.name != "Option<()>"
    && (n == s.name ||
        (DefinedIn(s.value, "definitions", n) && !LeftOutName(n) && (NamespaceFor(n, types).None? || s.inV1Dir)))
  }

  /** What it puts there. */
  function PutThere(s: GeneratedSchema, n: string, types: map<string, string>, annotate: Annotate): Json
    requires PutsAtRoot(s, n, types)
  {
    if n == s.name then OwnSchema(s.value, ToKnownNamespace(types))
    else annotate(OwnDefinition(s.value, n, ToKnownNamespace(types)), n)
  }

  lemma AdditionsMean(s: GeneratedSchema, types: map<string, string>, annotate: Annotate, n: string)
    ensures n in RootAdditions(s, types, annotate) <==> PutsAtRoot(s, n, types)
    ensures PutsAtRoot(s, n, types) ==> RootAdditions(s, types, annotate)[n] == PutThere(s, n, types, annotate)
  {
    SkippedMeans(n);
    SkippedMeans(s.name);
    OwnSchemaIs(s.value, ToKnownNamespace(types));
    OwnDefinitionIs(s.value, n, ToKnownNamespace(types));
  }

  /** No schema after the `i`th puts anything under the name. */
  predicate LastToPut(schemas: seq<GeneratedSchema>, i: nat, n: string, types: map<string, string>) {
    i < |schemas| && PutsAtRoot(schemas[i], n, types) &&
    forall j | i < j < |schemas| :: !PutsAtRoot(schemas[j], n, types)
  }

  lemma LastToPutStep(schemas: seq<GeneratedSchema>, n: string, types: map<string, string>)
    requires schemas != []
    ensures var last := |schemas| - 1;
            forall i: nat :: LastToPut(schemas, i, n, types) <==>
              if PutsAtRoot(schemas[last], n, types) then i == last else LastToPut(schemas[..last], i, n, types)
  {
  }

  lemma RootPartStep(schemas: seq<GeneratedSchema>, types: map<string, string>, annotate: Annotate, n: string)
    requires schemas != []
    ensures var s, before := schemas[|schemas| - 1], RootPart(schemas[..|schemas| - 1], types, annotate);
            && (n in RootPart(schemas, types, annotate) <==> n in before || PutsAtRoot(s, n, types))
            && (n in RootPart(schemas, types, annotate) ==>
                  RootPart(schemas, types, annotate)[n] ==
                  if PutsAtRoot(s, n, types) then PutThere(s, n, types, annotate) else before[n])
  {
    AdditionsMean(schemas[|schemas| - 1], types, annotate, n);
  }

  lemma {:induction false} RootPartMeans(schemas: seq<GeneratedSchema>, types: map<string, string>, annotate: Annotate,
                                         n: string)
    ensures n in RootPart(schemas, types, annotate) <==> exists i: nat :: LastToPut(schemas, i, n, types)
    ensures forall i: nat :: LastToPut(schemas, i, n, types) ==>
              n in RootPart(schemas, types, annotate) &&
              RootPart(schemas, types, annotate)[n] == PutThere(schemas[i], n, types, annotate)
  {
    if schemas != [] {
      var last := |schemas| - 1;
      RootPartMeans(schemas[..last], types, annotate, n);
      RootPartStep(schemas, types, annotate, n);
      LastToPutStep(schemas, n, types);
      if PutsAtRoot(schemas[last], n, types) { assert LastToPut(schemas, last, n, types); }
    }
  }

  lemma RootsOf(definitions: map<string, Json>, names: set<string>, entries: set<Entry>, roots: map<string, Json>,
                n: string)
    requires Holds(definitions, names, entries, roots) && n !in names
    ensures n in definitions <==> n in roots
    ensures n in roots ==> definitions[n] == roots[n]
  {
    assert n in definitions <==> n in definitions - names;
  }

  /** The map has under this name what the last schema to put something there put. */
  ghost predicate HasLast(schemas: seq<GeneratedSchema>, types: map<string, string>, annotate: Annotate,
                          definitions: map<string, Json>, n: string)
  {
    && (n in definitions <==> exists i: nat :: LastToPut(schemas, i, n, types))
    && forall i: nat :: LastToPut(schemas, i, n, types) ==>
         n in definitions && definitions[n] == PutThere(schemas[i], n, types, annotate)
  }

  lemma SameLast(schemas: seq<GeneratedSchema>, types: map<string, string>, annotate: Annotate,
                 roots: map<string, Json>, definitions: map<string, Json>, n: string)
    requires HasLast(schemas, types, annotate, roots, n)
    requires (n in definitions <==> n in roots) && (n in roots ==> definitions[n] == roots[n])
    ensures HasLast(schemas, types, annotate, definitions, n)
  {
  }

  /** Outside the namespaces the bundle has exactly what root schemas put there, the last one counting. */
  lemma RootContents(schemas: seq<GeneratedSchema>, annotate: Annotate, definitions: map<string, Json>, n: string)
    requires Holds(definitions, Namespaces(schemas), AllContributions(schemas, annotate),
                   RootPart(schemas, NamespacedTypes(schemas), annotate))
    requires n !in Namespaces(schemas)
    ensures HasLast(schemas, NamespacedTypes(schemas), annotate, definitions, n)
  {
    var types := NamespacedTypes(schemas);
    var roots := RootPart(schemas, types, annotate);
    RootsOf(definitions, Namespaces(schemas), AllContributions(schemas, annotate), roots, n);
    RootPartMeans(schemas, types, annotate, n);
    SameLast(schemas, types, annotate, roots, definitions, n);
  }

  lemma {:induction false} LastExists(schemas: seq<GeneratedSchema>, n: string, types: map<string, string>, i: nat)
    returns (last: nat)
    requires i < |schemas| && PutsAtRoot(schemas[i], n, types)
    ensures i <= last && LastToPut(schemas, last, n, types)
    decreases |schemas| - i
  {
    if j :| i < j < |schemas| && PutsAtRoot(schemas[j], n, types) {
      last := LastExists(schemas, n, types, j);
    } else {
      last := i;
    }
  }

  // ---------------------------------------------------------------- the namespaces

  /** A namespaced schema places itself in its namespace, and its definitions except those left out. */
  predicate Places(s: GeneratedSchema, annotate: Annotate, ns: string, n: string, schema: Json) {
    && s.ns == Some(ns) && s.name != "Option<()>"
    && (|| (n == s.name && schema == OwnSchema(s.value, ToNamespace(ns)))
        || (&& DefinedIn(s.value, "definitions", n) && !LeftOutName(n)
            && schema == MapRefs(annotate(OwnDefinition(s.value, n, ToNamespace(ns)), n), ToNamespace(ns))))
  }

  /** The namespace has this schema under this name exactly if some schema placed it there. */
  ghost predicate HasJustPlaced(schemas: seq<GeneratedSchema>, annotate: Annotate, definitions: map<string, Json>,
                                ns: string, n: string, schema: Json)
  {
    DefinedIn(Obj(definitions), ns, n) && definitions[ns].members[n] == schema <==>
    exists i :: 0 <= i < |schemas| && Places(schemas[i], annotate, ns, n, schema)
  }

  lemma ContributionsMean(s: GeneratedSchema, annotate: Annotate, e: Entry)
    ensures e in Contributions(s, annotate) <==> Places(s, annotate, e.ns, e.name, e.schema)
  {
    SkippedMeans(e.name);
    SkippedMeans(s.name);
    OwnSchemaIs(s.value, ToNamespace(e.ns));
    OwnDefinitionIs(s.value, e.name, ToNamespace(e.ns));
  }

  /** A namespace holds exactly what its schemas place in it. */
  lemma NamespaceContents(schemas: seq<GeneratedSchema>, annotate: Annotate, definitions: map<string, Json>,
                          roots: map<string, Json>, ns: string, n: string, schema: Json)
    requires Holds(definitions, Namespaces(schemas), AllContributions(schemas, annotate), roots)
    requires ns in Namespaces(schemas)
    ensures HasJustPlaced(schemas, annotate, definitions, ns, n, schema)
  {
    var entries, e := AllContributions(schemas, annotate), Entry(ns, n, schema);
    forall s ensures e in Contributions(s, annotate) <==> Places(s, annotate, ns, n, schema) {
      ContributionsMean(s, annotate, e);
    }
    assert e in entries <==> exists i :: 0 <= i < |schemas| && Places(schemas[i], annotate, ns, n, schema);
    if ns in definitions {
      var x :| x in entries && x.ns == ns;
      assert IsGroup(definitions[ns].members, entries, ns);
    }
  }

  /** Building succeeds exactly if no two schemas place different things under one name of a namespace. */
  lemma ConsistentMeans(schemas: seq<GeneratedSchema>, annotate: Annotate)
    ensures Consistent(AllContributions(schemas, annotate)) <==>
            forall s, u, ns, n, a, b ::
              s in schemas && u in schemas && Places(s, annotate, ns, n, a) && Places(u, annotate, ns, n, b) ==> a == b
  {
    var entries := AllContributions(schemas, annotate);
    forall s, e: Entry ensures e in Contributions(s, annotate) <==> Places(s, annotate, e.ns, e.name, e.schema) {
      ContributionsMean(s, annotate, e);
    }
    if Consistent(entries) {
      forall s, u, ns, n, a, b |
        s in schemas && u in schemas && Places(s, annotate, ns, n, a) && Places(u, annotate, ns, n, b)
        ensures a == b
      {
        assert Entry(ns, n, a) in Contributions(s, annotate) && Entry(ns, n, a) in entries;
        assert Entry(ns, n, b) in Contributions(u, annotate) && Entry(ns, n, b) in entries;
      }
    }
  }

  // ---------------------------------------------------------------- the whole

  /** The definitions map has at the root and in each namespace what the schemas put there, and nothing else. */
  ghost predicate AsPlaced(schemas: seq<GeneratedSchema>, annotate: Annotate, definitions: map<string, Json>) {
    && (forall n :: n !in Namespaces(schemas) ==>
          HasLast(schemas, NamespacedTypes(schemas), annotate, definitions, n))
    && forall ns, n, schema :: ns in Namespaces(schemas) ==>
         HasJustPlaced(schemas, annotate, definitions, ns, n, schema)
  }

  lemma BuiltAsPlaced(schemas: seq<GeneratedSchema>, annotate: Annotate, definitions: map<string, Json>)
    requires Holds(definitions, Namespaces(schemas), AllContributions(schemas, annotate),
                   RootPart(schemas, NamespacedTypes(schemas), annotate))
    ensures AsPlaced(schemas, annotate, definitions)
  {
    forall n | n !in Namespaces(schemas)
      ensures HasLast(schemas, NamespacedTypes(schemas), annotate, definitions, n)
    {
      RootContents(schemas, annotate, definitions, n);
    }
    forall ns, n, schema | ns in Namespaces(schemas)
      ensures HasJustPlaced(schemas, annotate, definitions, ns, n, schema)
    {
      NamespaceContents(schemas, annotate, definitions, RootPart(schemas, NamespacedTypes(schemas), annotate), ns, n,
                        schema);
    }
  }

  /** Nothing a root schema puts at the root is lost, though a later one may take its place. */
  lemma NothingLost(schemas: seq<GeneratedSchema>, annotate: Annotate, definitions: map<string, Json>, i: nat,
                    n: string)
    requires NamesApart(schemas) && AsPlaced(schemas, annotate, definitions)
    requires i < |schemas| && PutsAtRoot(schemas[i], n, NamespacedTypes(schemas))
    ensures n !in Namespaces(schemas) && n in definitions
  {
    assert schemas[i] in schemas;
    var last := LastExists(schemas, n, NamespacedTypes(schemas), i);
    assert HasLast(schemas, NamespacedTypes(schemas), annotate, definitions, n);
  }

  /** A path at the root leads into the definition its first segment names. */
  lemma RootPath(definitions: map<string, Json>, path: string)
    ensures Follow(Bundle(definitions), DEFS + path) ==
            if FirstSegment(path) in definitions then Below(definitions[FirstSegment(path)], path) else None
  {
    FollowDefinition(Bundle(definitions), path);
  }

  lemma UnknownStays(path: string, types: map<string, string>)
    requires NamespaceFor(FirstSegment(path), types).None?
    ensures ToKnownNamespace(types)(DEFS + path) == DEFS + path
  {
    assert (DEFS + path)[|DEFS|..] == path;
  }

  /** A root schema's reference to a name without a known namespace stays as it is, and leads into what the
      last root schema to define that name put there. */
  lemma RootReferenceResolves(schemas: seq<GeneratedSchema>, annotate: Annotate, definitions: map<string, Json>,
                              path: string)
    requires AsPlaced(schemas, annotate, definitions)
    requires NamespaceFor(FirstSegment(path), NamespacedTypes(schemas)).None?
    requires FirstSegment(path) !in Namespaces(schemas)
    ensures var n, types := FirstSegment(path), NamespacedTypes(schemas);
            var found := Follow(Bundle(definitions), ToKnownNamespace(types)(DEFS + path));
            && ToKnownNamespace(types)(DEFS + path) == DEFS + path
            && (forall i: nat :: LastToPut(schemas, i, n, types) ==>
                  found == Below(PutThere(schemas[i], n, types, annotate), path))
            && ((forall i: nat :: !LastToPut(schemas, i, n, types)) ==> found == None)
  {
    UnknownStays(path, NamespacedTypes(schemas));
    RootPath(definitions, path);
    assert HasLast(schemas, NamespacedTypes(schemas), annotate, definitions, FirstSegment(path));
  }

  /** A plain reference to what a root schema put at the root leads to it, whether or not the name has a known
      namespace. */
  lemma RootNameResolves(schemas: seq<GeneratedSchema>, annotate: Annotate, definitions: map<string, Json>, n: string,
                         i: nat)
    requires NamesApart(schemas) && '/' !in n && AsPlaced(schemas, annotate, definitions)
    requires LastToPut(schemas, i, n, NamespacedTypes(schemas))
    ensures Follow(Bundle(definitions), DEFS + n) ==
            Some(PutThere(schemas[i], n, NamespacedTypes(schemas), annotate))
  {
    NothingLost(schemas, annotate, definitions, i, n);
    assert HasLast(schemas, NamespacedTypes(schemas), annotate, definitions, n);
    RootPath(definitions, n);
    WholeSegment(n);
  }

  /** What the bundle says of itself. */
  predicate Headed(bundle: Json) {
    && bundle.Obj? && bundle.members.Keys == {"$schema", "title", "type", "definitions"}
    && bundle.members["$schema"] == Str("http://json-schema.org/draft-07/schema#")
    && bundle.members["title"] == Str("DcodeAppServerProtocol")
    && bundle.members["type"] == Str("object")
  }

  lemma BundleHeaded(definitions: map<string, Json>)
    ensures Headed(Bundle(definitions)) && Bundle(definitions).members["definitions"] == Obj(definitions)
  {
  }
}
