/** From the generated schemas to the flat bundle: in what the builder makes, references mean the same after
    flattening, whenever flattening succeeds. */
module ExportMeaning {
  import opened Json
  import opened RefRewriting
  import opened Worklists
  import opened SchemaBundle
  import opened FlatSchema
  import opened FlatMeaning
  import opened BundleMeaning
  import opened BundleContents

  // ---------------------------------------------------------------- clean bundles

  /** Root references do not start from names that v2 has, and v2 has no shared root and no namespace among
      its names.  No definition is called `$ref`. */
  ghost predicate Clean(defs: map<string, Json>, v2: map<string, Json>) {
    && (forall m, r :: m in defs && r in Refs(defs[m]) && IsNonV2Ref(r) ==> FlatName(r) !in v2)
    && (forall n :: n in v2 ==> n !in SHARED && '/' !in n)
    && "v2" !in v2 && "$ref" !in v2 && "$ref" !in defs
  }

  /** What is pulled in was mentioned by a definition as a whole. */
  lemma PulledMentioned(defs: map<string, Json>, n: string) returns (m: string, r: string)
    requires Pulled(defs, n)
    ensures m in defs && r in Refs(defs[m]) && IsNonV2Ref(r) && r[|DEFS|..] == n
  {
    var p :| IsPath(p, SharedNames(defs), NonV2Deps(defs)) && p[|p| - 1] == n;
    if |p| == 1 {
      m :| m in SHARED && m in defs && n in NonV2Names(defs[m]);
    } else {
      m := p[|p| - 2];
      assert p[|p| - 1] in NonV2Deps(defs)(p[|p| - 2]);
    }
    r :| r in Refs(defs[m]) && IsNonV2Ref(r) && r[|DEFS|..] == n;
  }

  lemma HeadOfWhole(r: string)
    requires IsNonV2Ref(r) && '/' !in r[|DEFS|..]
    ensures FlatName(r) == r[|DEFS|..]
  {
    WholeSegment(r[|DEFS|..]);
  }

  lemma CleanRef(defs: map<string, Json>, v2: map<string, Json>, m: string, r: string)
    requires Clean(defs, v2) && m in defs && r in Refs(defs[m]) && IsNonV2Ref(r)
    ensures FlatName(r) !in v2 && r[|DEFS|..] !in v2
  {
    if r[|DEFS|..] in v2 { HeadOfWhole(r); }
  }

  lemma PulledNotInV2(defs: map<string, Json>, v2: map<string, Json>, n: string)
    requires Clean(defs, v2) && Pulled(defs, n)
    ensures n !in v2
  {
    var m, r := PulledMentioned(defs, n);
    CleanRef(defs, v2, m, r);
  }

  /** In a clean bundle no root definition that goes into the flat map is named like a v2 schema. */
  lemma CleanNoClash(defs: map<string, Json>, v2: map<string, Json>)
    requires Clean(defs, v2)
    ensures NoClash(defs, v2)
  {
    forall n | Pulled(defs, n) ensures n !in v2 { PulledNotInV2(defs, v2, n); }
  }

  lemma CleanHead(bundle: Json, seen: set<string>, r: string)
    requires HasShape(bundle) && Clean(RootDefs(bundle), V2Defs(bundle))
    requires Refs(Obj(bundle.members - {"definitions"})) == {}
    requires r in Refs(FlatSource(bundle, seen)) && IsNonV2Ref(r)
    ensures FlatName(r) !in V2Defs(bundle)
  {
    var defs, v2 := RootDefs(bundle), V2Defs(bundle);
    assert RefHere(Obj(FlatDefs(defs, v2, seen))).None?;
    var n := FlatSourceRefs(bundle, seen, r);
    FlatDefsAt(defs, v2, seen, n);
    if n in v2 && !(n in SHARED && n in defs) { RefsOfMember(v2, n); }
  }

  /** A reference into v2 by a name that v2 does not have, whose path a root definition has. */
  predicate Stray(bundle: Json, r: string)
    requires HasShape(bundle) && DEFS <= r
  {
    V2 <= r && FlatName(r) !in V2Defs(bundle) && Visit(Obj(RootDefs(bundle)), r[|V2|..]).Some?
  }

  lemma V2Target(bundle: Json, r: string)
    requires HasShape(bundle) && V2 <= r
    ensures Target(bundle, r) == Visit(Obj(V2Defs(bundle)), r[|V2|..])
  {
    assert r == DEFS + ("v2" + "/" + r[|V2|..]);
    FollowDefinition(bundle, "v2" + "/" + r[|V2|..]);
    VisitInto(Obj(RootDefs(bundle)), "v2", r[|V2|..]);
  }

  /** A v2 reference to a name that v2 lacks leads nowhere, and after flattening into the root definition
      of that name. */
  lemma StrayLeads(bundle: Json, seen: set<string>, r: string)
    requires HasShape(bundle) && OnlyAtStart(r) && DEFS <= r && Lands(bundle, seen, r)
    requires V2 <= r && FlatName(r) !in V2Defs(bundle)
    ensures Target(bundle, r) == None
    ensures Target(MapRefs(FlatSource(bundle, seen), Deprefix()), Deprefix()(r)) ==
            Rewritten(Visit(Obj(RootDefs(bundle)), r[|V2|..]), Deprefix())
  {
    var defs, v2 := RootDefs(bundle), V2Defs(bundle);
    V2Target(bundle, r);
    DeprefixIsIff(r);
    FlatTarget(bundle, seen, r[|V2|..]);
    FlatDefsAt(defs, v2, seen, FlatName(r));
    VisitAgrees(FlatDefs(defs, v2, seen), defs, r[|V2|..]);
  }

  /** In a clean bundle a reference that lands keeps its meaning exactly if it is not a stray one. */
  lemma CleanKeepsMeaningIff(bundle: Json, seen: set<string>, r: string)
    requires HasShape(bundle) && Clean(RootDefs(bundle), V2Defs(bundle))
    requires Refs(Obj(bundle.members - {"definitions"})) == {}
    requires r in Refs(FlatSource(bundle, seen)) && OnlyAtStart(r) && DEFS <= r && Lands(bundle, seen, r)
    ensures var flat := MapRefs(FlatSource(bundle, seen), Deprefix());
            Target(flat, Deprefix()(r)) == Rewritten(Target(bundle, r), Deprefix()) <==> !Stray(bundle, r)
  {
    if V2 <= r && FlatName(r) !in V2Defs(bundle) {
      StrayLeads(bundle, seen, r);
    } else {
      if !(V2 <= r) { CleanHead(bundle, seen, r); }
      FlatDefsAt(RootDefs(bundle), V2Defs(bundle), seen, FlatName(r));
      FlatteningPreservesMeaning(bundle, seen, r);
    }
  }

  /** The definition a reference starts from is found by its name in the flat map: a v2 schema for a v2
      reference, or a root definition that is shared or that a chain of whole references leads to. */
  ghost predicate HeadArrives(bundle: Json, r: string)
    requires HasShape(bundle) && DEFS <= r
  {
    var n := FlatName(r);
    || (V2 <= r && n in V2Defs(bundle))
    || (n in RootDefs(bundle) && n != "v2" && (n in SHARED || Pulled(RootDefs(bundle), n)))
  }

  lemma CleanLandsIff(bundle: Json, seen: set<string>, r: string)
    requires HasShape(bundle) && Clean(RootDefs(bundle), V2Defs(bundle))
    requires Refs(Obj(bundle.members - {"definitions"})) == {}
    requires LeastClosed(seen, SharedNames(RootDefs(bundle)), NonV2Deps(RootDefs(bundle)))
    requires r in Refs(FlatSource(bundle, seen)) && DEFS <= r
    ensures Lands(bundle, seen, r) <==> HeadArrives(bundle, r)
  {
    SeenIsPulled(RootDefs(bundle), seen);
    FlatDefsAt(RootDefs(bundle), V2Defs(bundle), seen, FlatName(r));
    if V2 <= r {
      NamedV2(r[|V2|..]);
    } else {
      CleanHead(bundle, seen, r);
    }
  }

  lemma NamedV2(path: string)
    ensures "v2/" <= path ==> FirstSegment(path) == "v2"
  {
    if "v2/" <= path {
      assert path == "v2" + path[2..];
      FirstSegmentOf("v2", path[2..]);
    }
  }

  // ---------------------------------------------------------------- what the builder makes

  /** Annotating a schema adds no reference to it. */
  ghost predicate AddsNoRefs(annotate: Annotate) {
    forall v, n :: Refs(annotate(v, n)) <= Refs(v)
  }

  /** Names the exporter generates: plain, no namespace looked up as a type, and no shared root namespaced. */
  ghost predicate NamesPlain(schemas: seq<GeneratedSchema>) {
    && NamesApart(schemas)
    && (forall ns :: ns in Namespaces(schemas) ==> ns != "$ref" && NamespaceFor(ns, NamespacedTypes(schemas)).None?)
    && (forall s, n :: s in schemas && s.ns.Some? && n in TypeNames(s) ==> '/' !in n && n != "$ref")
    && (forall s :: s in schemas && s.ns.Some? ==> s.name !in SHARED)
    && (forall s :: s in schemas && s.ns.None? ==> s.name != "$ref" && "$ref" !in KeysAt(s.value, "definitions"))
  }

  /** The definitions map that `build_schema_bundle` comes to. */
  ghost predicate Built(schemas: seq<GeneratedSchema>, annotate: Annotate, definitions: map<string, Json>) {
    Holds(definitions, Namespaces(schemas), AllContributions(schemas, annotate),
          RootPart(schemas, NamespacedTypes(schemas), annotate))
  }

  lemma {:induction false} TypesCover(schemas: seq<GeneratedSchema>, s: GeneratedSchema, n: string)
    requires s in schemas && s.ns.Some? && n in TypeNames(s)
    ensures n in NamespacedTypes(schemas)
  {
    var last := |schemas| - 1;
    if s != schemas[last] {
      assert s in schemas[..last];
      TypesCover(schemas[..last], s, n);
    }
  }

  /** An entry goes by a type name of its schema, not by that of a shared root. */
  lemma EntryNamed(schemas: seq<GeneratedSchema>, annotate: Annotate, e: Entry)
    requires NamesPlain(schemas) && e in AllContributions(schemas, annotate)
    ensures e.name in NamespacedTypes(schemas) && '/' !in e.name && e.name != "$ref" && e.name !in SHARED
  {
    var s :| s in schemas && e in Contributions(s, annotate);
    DefinitionNames(s.value, ToNamespace(s.ns.value));
    assert e.name in TypeNames(s);
    TypesCover(schemas, s, e.name);
  }

  /** Its schema is the schema itself without its definitions, or a definition, retargeted. */
  lemma ContributionIs(s: GeneratedSchema, annotate: Annotate, e: Entry) returns (before: Json)
    requires e in Contributions(s, annotate)
    ensures || e.schema == WithoutDefinitions(MapRefs(s.value, ToNamespace(e.ns)))
            || e.schema == MapRefs(before, ToNamespace(e.ns))
  {
    var defs := DefinitionsOf(MapRefs(s.value, ToNamespace(e.ns)));
    before := if e.name in defs then annotate(defs[e.name], e.name) else Null;
  }

  /** Its references are retargeted into its namespace. */
  lemma EntryRefs(schemas: seq<GeneratedSchema>, annotate: Annotate, e: Entry, r: string)
    requires e in AllContributions(schemas, annotate) && r in Refs(e.schema) && DEFS <= r
    ensures DEFS + e.ns + "/" <= r
  {
    var s :| s in schemas && e in Contributions(s, annotate);
    var before := ContributionIs(s, annotate, e);
    if e.schema == MapRefs(before, ToNamespace(e.ns)) {
      var original := ReferencesPointInside(before, e.ns, r);
    } else {
      WithoutDefinitionsRefs(MapRefs(s.value, ToNamespace(e.ns)), r);
      var original := ReferencesPointInside(s.value, e.ns, r);
    }
  }

  /** The name the reference starts from has no known namespace. */
  predicate Settled(r: string, types: map<string, string>) {
    DEFS <= r ==> NamespaceFor(FirstSegment(r[|DEFS|..]), types).None?
  }

  /** Namespaces are plain names and not looked up as types. */
  predicate NamespacesPlain(types: map<string, string>) {
    forall n | n in types :: '/' !in types[n] && NamespaceFor(types[n], types).None?
  }

  /** Rewriting into the known namespaces settles every reference. */
  lemma KnownSettles(before: string, types: map<string, string>)
    requires NamespacesPlain(types)
    ensures Settled(ToKnownNamespace(types)(before), types)
  {
    if KnownNamespaceOf(before, types).Some? {
      var ns := KnownNamespaceOf(before, types).value;
      var moved := KnownMoves(before, types);
      FirstSegmentPrefix(ns, before[|DEFS|..]);
      WholeSegment(ns);
    }
  }

  lemma DefinitionRefs(v: Json, d: string)
    requires d in DefinitionsOf(v)
    ensures Refs(DefinitionsOf(v)[d]) <= Refs(v)
  {
    RefsOfMember(DefinitionsOf(v), d);
    RefsOfMember(v.members, "definitions");
  }

  ghost predicate AllSettled(v: Json, types: map<string, string>) {
    forall r :: r in Refs(v) ==> Settled(r, types)
  }

  lemma RootValueSettled(s: GeneratedSchema, types: map<string, string>)
    requires NamespacesPlain(types)
    ensures AllSettled(RootValue(s, types), types)
  {
    forall r | r in Refs(RootValue(s, types)) ensures Settled(r, types) {
      var before := MapRefsBackward(s.value, ToKnownNamespace(types), r);
      KnownSettles(before, types);
    }
  }

  lemma AdditionSettled(s: GeneratedSchema, types: map<string, string>, annotate: Annotate, m: string)
    requires NamespacesPlain(types) && AddsNoRefs(annotate) && m in RootAdditions(s, types, annotate)
    ensures AllSettled(RootAdditions(s, types, annotate)[m], types)
    ensures m == s.name || m in KeysAt(s.value, "definitions")
  {
    var value := RootValue(s, types);
    RootValueSettled(s, types);
    if m == s.name {
      forall r | r in Refs(WithoutDefinitions(value)) ensures r in Refs(value) { WithoutDefinitionsRefs(value, r); }
    } else {
      DefinitionNames(s.value, ToKnownNamespace(types));
      DefinitionRefs(value, m);
      assert Refs(annotate(DefinitionsOf(value)[m], m)) <= Refs(DefinitionsOf(value)[m]);
    }
  }

  lemma {:induction false} RootSettled(schemas: seq<GeneratedSchema>, types: map<string, string>, annotate: Annotate,
                                       m: string) returns (s: GeneratedSchema)
    requires NamespacesPlain(types) && AddsNoRefs(annotate) && m in RootPart(schemas, types, annotate)
    ensures AllSettled(RootPart(schemas, types, annotate)[m], types)
    ensures s in schemas && s.ns.None? && (m == s.name || m in KeysAt(s.value, "definitions"))
  {
    var last := |schemas| - 1;
    if m in RootAdditions(schemas[last], types, annotate) {
      s := schemas[last];
      AdditionSettled(s, types, annotate, m);
    } else {
      s := RootSettled(schemas[..last], types, annotate, m);
      assert s in schemas;
    }
  }

  lemma TypesPlain(schemas: seq<GeneratedSchema>)
    requires NamesPlain(schemas)
    ensures NamespacesPlain(NamespacedTypes(schemas))
  {
    var types := NamespacedTypes(schemas);
    forall n | n in types ensures '/' !in types[n] && NamespaceFor(types[n], types).None? {
      TypesNameNamespaces(schemas, n);
    }
  }

  lemma GroupRefs(members: map<string, Json>, entries: set<Entry>, ns: string, r: string) returns (e: Entry)
    requires IsGroup(members, entries, ns) && "$ref" !in members && r in Refs(Obj(members))
    ensures e in entries && e.ns == ns && r in Refs(e.schema)
  {
    var n :| n in members && r in Refs(members[n]);
    e := Entry(ns, n, members[n]);
  }

  /** A namespace map of the bundle, and the names in it. */
  lemma NamespaceMap(schemas: seq<GeneratedSchema>, annotate: Annotate, definitions: map<string, Json>, ns: string)
    requires NamesPlain(schemas) && Built(schemas, annotate, definitions)
    requires ns in definitions && ns in Namespaces(schemas)
    ensures definitions[ns].Obj? && IsGroup(definitions[ns].members, AllContributions(schemas, annotate), ns)
    ensures forall n :: n in definitions[ns].members ==>
              n in NamespacedTypes(schemas) && '/' !in n && n != "$ref" && n !in SHARED
  {
    var x :| x in AllContributions(schemas, annotate) && x.ns == ns;
    var members := definitions[ns].members;
    forall n | n in members
      ensures n in NamespacedTypes(schemas) && '/' !in n && n != "$ref" && n !in SHARED
    {
      assert IsGroup(members, AllContributions(schemas, annotate), ns);
      EntryNamed(schemas, annotate, Entry(ns, n, members[n]));
    }
  }

  lemma FirstOfPath(prefix: string, ns: string, r: string)
    requires '/' !in ns && prefix + ns + "/" <= r
    ensures prefix <= r && FirstSegment(r[|prefix|..]) == ns
  {
    var rest := r[|prefix + ns + "/"|..];
    assert r == prefix + (ns + ("/" + rest)) && r[|prefix|..] == ns + ("/" + rest);
    FirstSegmentOf(ns, "/" + rest);
  }

  /** No root reference of the bundle starts from a name with a known namespace. */
  lemma BuiltSettled(schemas: seq<GeneratedSchema>, annotate: Annotate, definitions: map<string, Json>, m: string,
                     r: string)
    requires NamesPlain(schemas) && AddsNoRefs(annotate) && Built(schemas, annotate, definitions)
    requires m in definitions && r in Refs(definitions[m])
    ensures Settled(r, NamespacedTypes(schemas))
  {
    if DEFS <= r {
      if m in Namespaces(schemas) {
        NamespaceMap(schemas, annotate, definitions, m);
        var e := GroupRefs(definitions[m].members, AllContributions(schemas, annotate), m, r);
        EntryRefs(schemas, annotate, e, r);
        FirstOfPath(DEFS, m, r);
      } else {
        BuiltRoot(schemas, annotate, definitions, m);
      }
    }
  }

  lemma BuiltRoot(schemas: seq<GeneratedSchema>, annotate: Annotate, definitions: map<string, Json>, m: string)
    requires NamesPlain(schemas) && AddsNoRefs(annotate) && Built(schemas, annotate, definitions)
    requires m in definitions && m !in Namespaces(schemas)
    ensures AllSettled(definitions[m], NamespacedTypes(schemas)) && m != "$ref"
  {
    TypesPlain(schemas);
    assert m in definitions - Namespaces(schemas);
    var s := RootSettled(schemas, NamespacedTypes(schemas), annotate, m);
  }

  ghost predicate HasV2(schemas: seq<GeneratedSchema>, annotate: Annotate) {
    exists e :: e in AllContributions(schemas, annotate) && e.ns == "v2"
  }

  lemma ShapeOf(definitions: map<string, Json>)
    requires "v2" in definitions && definitions["v2"].Obj?
    ensures HasShape(Bundle(definitions)) && RootDefs(Bundle(definitions)) == definitions
    ensures V2Defs(Bundle(definitions)) == definitions["v2"].members
  {
    BundleDefinitions(definitions);
  }

  lemma BuiltShape(schemas: seq<GeneratedSchema>, annotate: Annotate, definitions: map<string, Json>, ns: string)
    requires Built(schemas, annotate, definitions)
    requires exists e :: e in AllContributions(schemas, annotate) && e.ns == ns
    ensures ns in definitions && ns in Namespaces(schemas) && definitions[ns].Obj?
  {
    var e :| e in AllContributions(schemas, annotate) && e.ns == ns;
  }

  lemma BundleOutside(definitions: map<string, Json>)
    ensures Bundle(definitions).Obj? && Refs(Obj(Bundle(definitions).members - {"definitions"})) == {}
  {
    var outside := Bundle(definitions).members - {"definitions"};
    assert "$ref" !in outside;
    forall k | k in outside ensures outside[k].Str? && Refs(outside[k]) == {} { }
  }

  /** What the builder makes is clean: each type it knows was sent into its namespace already. */
  lemma BuiltIsClean(schemas: seq<GeneratedSchema>, annotate: Annotate, definitions: map<string, Json>)
    requires NamesPlain(schemas) && AddsNoRefs(annotate) && Built(schemas, annotate, definitions)
    requires "v2" in definitions && "v2" in Namespaces(schemas) && definitions["v2"].Obj?
    ensures Clean(definitions, definitions["v2"].members)
  {
    var types, v2 := NamespacedTypes(schemas), definitions["v2"].members;
    NamespaceMap(schemas, annotate, definitions, "v2");
    forall m, r | m in definitions && r in Refs(definitions[m]) && IsNonV2Ref(r)
      ensures FlatName(r) !in v2
    {
      BuiltSettled(schemas, annotate, definitions, m, r);
    }
    if "$ref" in definitions && "$ref" !in Namespaces(schemas) {
      BuiltRoot(schemas, annotate, definitions, "$ref");
    }
  }

  /** The references of the flat source are references of the bundle. */
  lemma FlatSourceWithin(bundle: Json, seen: set<string>, r: string)
    requires HasShape(bundle) && Clean(RootDefs(bundle), V2Defs(bundle))
    requires Refs(Obj(bundle.members - {"definitions"})) == {}
    requires r in Refs(FlatSource(bundle, seen))
    ensures r in Refs(bundle)
  {
    var defs, v2 := RootDefs(bundle), V2Defs(bundle);
    assert RefHere(Obj(FlatDefs(defs, v2, seen))).None?;
    var n := FlatSourceRefs(bundle, seen, r);
    FlatDefsAt(defs, v2, seen, n);
    RefsOfMember(bundle.members, "definitions");
    if n in v2 && !(n in SHARED && n in defs) {
      RefsOfMember(v2, n);
      RefsOfMember(defs, "v2");
    } else {
      RefsOfMember(defs, n);
    }
  }

  // ---------------------------------------------------------------- both bundles

  /** A clean bundle is flattened exactly if the heads of all its references arrive, and then each reference
      keeps its meaning exactly if it is not a stray one. */
  lemma CleanFlattens(bundle: Json, seen: set<string>)
    requires HasShape(bundle) && Clean(RootDefs(bundle), V2Defs(bundle)) && AllOnlyAtStart(bundle)
    requires Refs(Obj(bundle.members - {"definitions"})) == {}
    requires LeastClosed(seen, SharedNames(RootDefs(bundle)), NonV2Deps(RootDefs(bundle)))
    ensures var source := FlatSource(bundle, seen);
            var flat := MapRefs(source, Deprefix());
            && (Accepted(flat) <==> forall r :: r in Refs(source) && DEFS <= r ==> HeadArrives(bundle, r))
            && (Accepted(flat) ==> forall r :: r in Refs(source) && DEFS <= r ==>
                  (Target(flat, Deprefix()(r)) == Rewritten(Target(bundle, r), Deprefix()) <==> !Stray(bundle, r)))
  {
    var source := FlatSource(bundle, seen);
    forall r | r in Refs(source) ensures OnlyAtStart(r) { FlatSourceWithin(bundle, seen, r); }
    AcceptedIff(bundle, seen);
    forall r | r in Refs(source) && DEFS <= r ensures Lands(bundle, seen, r) <==> HeadArrives(bundle, r) {
      CleanLandsIff(bundle, seen, r);
    }
    if Accepted(MapRefs(source, Deprefix())) {
      forall r | r in Refs(source) && DEFS <= r
        ensures Target(MapRefs(source, Deprefix()), Deprefix()(r)) == Rewritten(Target(bundle, r), Deprefix()) <==>
                !Stray(bundle, r)
      {
        CleanKeepsMeaningIff(bundle, seen, r);
      }
    }
  }

  /** So it is with every bundle the builder makes of plainly named schemas. */
  lemma BuiltFlattens(schemas: seq<GeneratedSchema>, annotate: Annotate, definitions: map<string, Json>,
                      seen: set<string>)
    requires NamesPlain(schemas) && AddsNoRefs(annotate) && Built(schemas, annotate, definitions)
    requires HasV2(schemas, annotate) && AllOnlyAtStart(Bundle(definitions))
    requires LeastClosed(seen, SharedNames(definitions), NonV2Deps(definitions))
    ensures var bundle := Bundle(definitions);
            && HasShape(bundle) && RootDefs(bundle) == definitions && NoClash(definitions, V2Defs(bundle))
            && var source := FlatSource(bundle, seen);
            var flat := MapRefs(source, Deprefix());
            && (Accepted(flat) <==> forall r :: r in Refs(source) && DEFS <= r ==> HeadArrives(bundle, r))
            && (Accepted(flat) ==> forall r :: r in Refs(source) && DEFS <= r ==>
                  (Target(flat, Deprefix()(r)) == Rewritten(Target(bundle, r), Deprefix()) <==> !Stray(bundle, r)))
  {
    BuiltShape(schemas, annotate, definitions, "v2");
    ShapeOf(definitions);
    BuiltIsClean(schemas, annotate, definitions);
    BundleOutside(definitions);
    CleanNoClash(definitions, definitions["v2"].members);
    CleanFlattens(Bundle(definitions), seen);
  }

  /** A stray reference led nowhere, so flattening never changes what a reference that leads somewhere means. */
  lemma StrayLedNowhere(bundle: Json, r: string)
    requires HasShape(bundle) && DEFS <= r && Stray(bundle, r)
    ensures Target(bundle, r) == None
  {
    V2Target(bundle, r);
  }

  datatype ExportError = NotBundled(collision: BundleError) | NotFlattened(reason: FlatError)

  /** The part of `generate_json_with_experimental` that makes the two bundles, nothing being filtered. */
  method GenerateBundles(schemas: seq<GeneratedSchema>, annotate: Annotate)
    returns (r: Result<(Json, Json), ExportError>, ghost seen: set<string>)
    ensures r.Ok? ==> var (bundle, flat) := r.value;
      && HasShape(bundle) && flat == MapRefs(FlatSource(bundle, seen), Deprefix()) && Accepted(flat)
      && (NamesPlain(schemas) && AddsNoRefs(annotate) && HasV2(schemas, annotate) && AllOnlyAtStart(bundle) ==>
            forall x :: x in Refs(FlatSource(bundle, seen)) && DEFS <= x && Target(bundle, x).Some? ==>
              Target(flat, Deprefix()(x)) == Rewritten(Target(bundle, x), Deprefix()))
    ensures r.Ok? ==> Headed(r.value.0) && KeepsRest(r.value.0, r.value.1) && Retitled(r.value.0, r.value.1)
    ensures r.Ok? && NamesApart(schemas) ==> AsPlaced(schemas, annotate, DefinitionsOf(r.value.0))
    ensures r.Ok? ==> HasDefinitions(RootDefs(r.value.0), V2Defs(r.value.0), seen, r.value.1)
    ensures NamesApart(schemas) ==>
      && ((r.Err? && r.error.NotBundled?) <==> !Consistent(AllContributions(schemas, annotate)))
      && (r.Err? && r.error.NotBundled? ==> Clash(AllContributions(schemas, annotate), r.error.collision))
  {
    seen := {};
    var built := BuildSchemaBundle(schemas, annotate);
    if built.Err? { return Err(NotBundled(built.error)), seen; }
    var flattened;
    flattened, seen := BuildFlatV2Schema(built.value);
    if flattened.Err? { return Err(NotFlattened(flattened.error)), seen; }
    r := Ok((built.value, flattened.value));
    BundleHeaded(DefinitionsOf(built.value));
    if NamesApart(schemas) { BuiltAsPlaced(schemas, annotate, DefinitionsOf(built.value)); }
    if NamesPlain(schemas) && AddsNoRefs(annotate) && HasV2(schemas, annotate) && AllOnlyAtStart(built.value) {
      ResolvingKept(schemas, annotate, DefinitionsOf(built.value), seen);
    }
  }

  lemma ResolvingKept(schemas: seq<GeneratedSchema>, annotate: Annotate, definitions: map<string, Json>,
                      seen: set<string>)
    requires NamesPlain(schemas) && AddsNoRefs(annotate) && Built(schemas, annotate, definitions)
    requires HasV2(schemas, annotate) && AllOnlyAtStart(Bundle(definitions))
    requires LeastClosed(seen, SharedNames(definitions), NonV2Deps(definitions))
    requires HasShape(Bundle(definitions)) && Accepted(MapRefs(FlatSource(Bundle(definitions), seen), Deprefix()))
    ensures var bundle := Bundle(definitions);
            var flat := MapRefs(FlatSource(bundle, seen), Deprefix());
            forall r :: r in Refs(FlatSource(bundle, seen)) && DEFS <= r && Target(bundle, r).Some? ==>
              Target(flat, Deprefix()(r)) == Rewritten(Target(bundle, r), Deprefix())
  {
    BuiltFlattens(schemas, annotate, definitions, seen);
    forall r | r in Refs(FlatSource(Bundle(definitions), seen)) && DEFS <= r && Target(Bundle(definitions), r).Some?
      ensures !Stray(Bundle(definitions), r)
    {
      if Stray(Bundle(definitions), r) { StrayLedNowhere(Bundle(definitions), r); }
    }
  }

  // ---------------------------------------------------------------- a stray reference

  /** A v2 schema with a special definition of its own, which it refers to, and a shared root of that name. */
  function StraySchemas(t: string, d: string): seq<GeneratedSchema> {
    OneNamespaced("v2", t, d) + [GeneratedSchema(None, d, Bool(true), false)]
  }

  function StrayDefinitions(t: string, d: string): map<string, Json> {
    map["v2" := Obj(map[t := PlacedAlone("v2", t, d).schema]), d := Bool(true)]
  }

  lemma OnlyRefMember(members: map<string, Json>, r: string)
    requires members.Keys == {"$ref"} && members["$ref"] == Str(r)
    ensures Refs(Obj(members)) == {r}
  {
  }

  lemma IntoV2(d: string)
    requires '/' !in d
    ensures ToNamespace("v2")(DEFS + d) == V2 + d
  {
    PlainOwnPath("v2", d);
    OwnPathMoves("v2", d);
    assert DEFS + ("v2" + "/" + d) == V2 + d;
  }

  lemma PlacedAloneRefs(t: string, d: string)
    requires '/' !in d
    ensures Refs(PlacedAlone("v2", t, d).schema) == {V2 + d}
  {
    var f := ToNamespace("v2");
    SelfReferringRewritten(d, f);
    MapRefsMembers(SelfReferring(d), f);
    IntoV2(d);
    OnlyRefMember(PlacedAlone("v2", t, d).schema.members, V2 + d);
  }

  lemma StrayTypes(t: string, d: string)
    requires t == "T" && d == "ClientRequest"
    ensures var schemas := StraySchemas(t, d);
            && Namespaces(schemas) == {"v2"} && NamespacedTypes(schemas) == map[t := "v2", d := "v2"]
  {
    var schemas := StraySchemas(t, d);
    assert schemas[..1] == [schemas[0]] && schemas[..1][..0] == [];
    assert NamespacedTypes(schemas[..1][..0]) == map[];
    assert TypeNames(schemas[0]) == {t, d};
    assert NamespacedTypes(schemas[..1]) == map[t := "v2", d := "v2"];
    assert schemas[0] in schemas && schemas[1] in schemas;
  }

  lemma StrayNamesPlain(t: string, d: string)
    requires '/' !in t && '/' !in d && "$ref" !in {t, d} && t !in SHARED && d != "v2"
    requires '/' !in "v2" && NamespaceFor("v2", map[t := "v2", d := "v2"]).None?
    requires var schemas := StraySchemas(t, d);
             Namespaces(schemas) == {"v2"} && NamespacedTypes(schemas) == map[t := "v2", d := "v2"]
    ensures NamesPlain(StraySchemas(t, d))
  {
    var schemas := StraySchemas(t, d);
    assert TypeNames(schemas[0]) == {t, d} && KeysAt(schemas[1].value, "definitions") == {};
    forall s | s in schemas ensures s == schemas[0] || s == schemas[1] { }
  }

  lemma StrayNames(t: string, d: string)
    requires t == "T" && d == "ClientRequest"
    ensures '/' !in t && '/' !in d && '/' !in "v2" && "$ref" !in {t, d} && t !in SHARED && d != "v2"
    ensures NamespaceFor("v2", map[t := "v2", d := "v2"]).None?
  {
    ShortSegments();
  }

  lemma StrayRoots(t: string, d: string, types: map<string, string>, annotate: Annotate)
    requires d == "ClientRequest"
    ensures RootPart(StraySchemas(t, d), types, annotate) == map[d := Bool(true)]
  {
    var schemas := StraySchemas(t, d);
    assert schemas[..1] == [schemas[0]] && schemas[..1][..0] == [];
    assert RootPart(schemas[..1], types, annotate) == map[];
    assert RootValue(schemas[1], types) == Bool(true);
    assert RootAdditions(schemas[1], types, annotate) == map[d := Bool(true)];
  }

  lemma StrayContributes(t: string, d: string, annotate: Annotate)
    requires t == "T" && d == "ClientRequest"
    ensures AllContributions(StraySchemas(t, d), annotate) == {PlacedAlone("v2", t, d)}
  {
    var schemas := StraySchemas(t, d);
    LeftOutContributes("v2", t, d, annotate);
    assert schemas[0] in schemas && schemas[0] == OneNamespaced("v2", t, d)[0];
    assert schemas[0] in OneNamespaced("v2", t, d);
    forall s | s in schemas ensures s == schemas[0] || Contributions(s, annotate) == {} { }
  }

  lemma OneEntryHolds(e: Entry, d: string, schema: Json)
    requires d != e.ns
    ensures Holds(map[e.ns := Obj(map[e.name := e.schema]), d := schema], {e.ns}, {e}, map[d := schema])
  {
    var definitions := map[e.ns := Obj(map[e.name := e.schema]), d := schema];
    assert IsGroup(definitions[e.ns].members, {e}, e.ns);
    assert definitions - {e.ns} == map[d := schema];
  }

  /** What the builder makes of these schemas. */
  lemma StrayIsBuilt(t: string, d: string, annotate: Annotate)
    requires t == "T" && d == "ClientRequest"
    ensures NamesPlain(StraySchemas(t, d)) && Built(StraySchemas(t, d), annotate, StrayDefinitions(t, d))
    ensures HasV2(StraySchemas(t, d), annotate)
  {
    StrayTypes(t, d);
    StrayNames(t, d);
    StrayNamesPlain(t, d);
    StrayContributes(t, d, annotate);
    StrayRoots(t, d, NamespacedTypes(StraySchemas(t, d)), annotate);
    OneEntryHolds(PlacedAlone("v2", t, d), d, Bool(true));
    assert PlacedAlone("v2", t, d) in AllContributions(StraySchemas(t, d), annotate);
  }

  lemma PairRefs(members: map<string, Json>, a: string, b: string)
    requires members.Keys == {a, b} && "$ref" !in members
    ensures Refs(Obj(members)) == Refs(members[a]) + Refs(members[b])
  {
    RefsOfMember(members, a);
    RefsOfMember(members, b);
  }

  /** The only reference in it. */
  lemma StrayRefs(t: string, d: string)
    requires '/' !in d && d != "v2" && d != "definitions" && "$ref" !in {t, d}
    ensures Refs(Bundle(StrayDefinitions(t, d))) == {V2 + d}
  {
    var definitions := StrayDefinitions(t, d);
    var group := map[t := PlacedAlone("v2", t, d).schema];
    PlacedAloneRefs(t, d);
    PairRefs(group, t, t);
    PairRefs(definitions, "v2", d);
    assert Refs(Bool(true)) == {};
    BundleRefs(definitions);
  }

  lemma BundleRefs(definitions: map<string, Json>)
    ensures Refs(Bundle(definitions)) == Refs(Obj(definitions))
  {
    var members := Bundle(definitions).members;
    assert "$ref" !in members;
    forall k | k in members && k != "definitions" ensures Refs(members[k]) == {} { }
    RefsOfMember(members, "definitions");
  }

  lemma StrayOnlyAtStart(r: string, d: string)
    requires r == V2 + d && '#' !in d
    ensures OnlyAtStart(r) && DEFS <= r && V2 <= r && r[|V2|..] == d
  {
    assert r[1..] == V2[1..] + d;
    OneHashOnlyAtStart(r);
  }

  lemma StrayAlone(bundle: Json, seen: set<string>, t: string, r: string)
    requires HasShape(bundle) && Clean(RootDefs(bundle), V2Defs(bundle)) && Refs(bundle) == {r}
    requires Refs(Obj(bundle.members - {"definitions"})) == {}
    requires t in V2Defs(bundle) && r in Refs(V2Defs(bundle)[t])
    ensures Refs(FlatSource(bundle, seen)) == {r}
  {
    FlatDefsAt(RootDefs(bundle), V2Defs(bundle), seen, t);
    FlatDefinitionRefs(bundle, seen, t);
    forall s | s in Refs(FlatSource(bundle, seen)) ensures s == r { FlatSourceWithin(bundle, seen, s); }
  }

  /** A shared root of the name is enough for a v2 reference to land. */
  lemma SharedRootLands(bundle: Json, seen: set<string>, d: string, r: string)
    requires HasShape(bundle) && d in SHARED && d in RootDefs(bundle) && d != "v2" && '/' !in d
    requires DEFS <= r && V2 <= r && r[|V2|..] == d
    ensures Lands(bundle, seen, r)
  {
    WholeSegment(d);
    NamedV2(d);
    FlatDefsAt(RootDefs(bundle), V2Defs(bundle), seen, d);
  }

  lemma LoneReferenceAccepted(bundle: Json, seen: set<string>, r: string)
    requires HasShape(bundle) && Refs(FlatSource(bundle, seen)) == {r} && OnlyAtStart(r)
    requires DEFS <= r && Lands(bundle, seen, r)
    ensures Accepted(MapRefs(FlatSource(bundle, seen), Deprefix()))
  {
    AcceptedIff(bundle, seen);
  }

  lemma BoolAt(defs: map<string, Json>, d: string, b: bool)
    requires '/' !in d && d in defs && defs[d] == Bool(b)
    ensures Rewritten(Visit(Obj(defs), d), Deprefix()) == Some(Place(Bool(b), false))
  {
    WholeSegment(d);
    FirstSegmentOf(d, "");
    assert d + "" == d;
  }

  lemma StrayFollow(bundle: Json, seen: set<string>, d: string, r: string)
    requires HasShape(bundle) && d !in V2Defs(bundle) && d in RootDefs(bundle) && RootDefs(bundle)[d] == Bool(true)
    requires OnlyAtStart(r) && DEFS <= r && V2 <= r && r[|V2|..] == d && '/' !in d && Lands(bundle, seen, r)
    ensures Follow(bundle, r) == None
    ensures Follow(MapRefs(FlatSource(bundle, seen), Deprefix()), Deprefix()(r)) == Some(Bool(true))
  {
    WholeSegment(d);
    StrayLeads(bundle, seen, r);
    BoolAt(RootDefs(bundle), d, true);
  }

  lemma StrayClean(t: string, d: string, annotate: Annotate)
    requires t == "T" && d == "ClientRequest" && AddsNoRefs(annotate)
    ensures var definitions := StrayDefinitions(t, d);
            "v2" in definitions && definitions["v2"].Obj? && Clean(definitions, definitions["v2"].members)
  {
    StrayIsBuilt(t, d, annotate);
    BuiltShape(StraySchemas(t, d), annotate, StrayDefinitions(t, d), "v2");
    BuiltIsClean(StraySchemas(t, d), annotate, StrayDefinitions(t, d));
  }

  lemma StrayMembers(t: string, d: string, r: string)
    requires t == "T" && d == "ClientRequest" && r == V2 + d
    ensures var definitions := StrayDefinitions(t, d);
            && Refs(Bundle(definitions)) == {r} && d in definitions && definitions[d] == Bool(true) && d in SHARED
            && "v2" in definitions && definitions["v2"].Obj? && t in definitions["v2"].members
            && r in Refs(definitions["v2"].members[t])
    ensures '/' !in d && d != "v2" && OnlyAtStart(r) && DEFS <= r && V2 <= r && r[|V2|..] == d
  {
    StrayNames(t, d);
    StrayRefs(t, d);
    StrayOnlyAtStart(r, d);
    PlacedAloneRefs(t, d);
  }

  /** The reference dangles in the bundle.  Flattening accepts it, and then it leads to the shared root. */
  lemma StrayReferenceArrives(t: string, d: string, r: string, annotate: Annotate, definitions: map<string, Json>,
                              seen: set<string>)
    requires t == "T" && d == "ClientRequest" && r == V2 + d && AddsNoRefs(annotate)
    requires definitions == StrayDefinitions(t, d)
    requires LeastClosed(seen, SharedNames(definitions), NonV2Deps(definitions))
    ensures NamesPlain(StraySchemas(t, d)) && Built(StraySchemas(t, d), annotate, definitions)
    ensures var bundle := Bundle(definitions);
            && HasShape(bundle) && r in Refs(FlatSource(bundle, seen)) && Follow(bundle, r) == None
            && var flat := MapRefs(FlatSource(bundle, seen), Deprefix());
            && Accepted(flat) && Follow(flat, Deprefix()(r)) == Some(Bool(true))
  {
    StrayIsBuilt(t, d, annotate);
    StrayClean(t, d, annotate);
    StrayMembers(t, d, r);
    StrayOutcome(definitions, seen, t, d, r);
  }

  lemma StrayOutcome(definitions: map<string, Json>, seen: set<string>, t: string, d: string, r: string)
    requires "v2" in definitions && definitions["v2"].Obj? && Clean(definitions, definitions["v2"].members)
    requires LeastClosed(seen, SharedNames(definitions), NonV2Deps(definitions))
    requires Refs(Bundle(definitions)) == {r} && d in definitions && definitions[d] == Bool(true) && d in SHARED
    requires t in definitions["v2"].members && r in Refs(definitions["v2"].members[t])
    requires '/' !in d && d != "v2" && OnlyAtStart(r) && DEFS <= r && V2 <= r && r[|V2|..] == d
    ensures var bundle := Bundle(definitions);
            && HasShape(bundle) && r in Refs(FlatSource(bundle, seen)) && Follow(bundle, r) == None
            && var flat := MapRefs(FlatSource(bundle, seen), Deprefix());
            && Accepted(flat) && Follow(flat, Deprefix()(r)) == Some(Bool(true))
  {
    ShapeOf(definitions);
    BundleOutside(definitions);
    StrayAlone(Bundle(definitions), seen, t, r);
    SharedRootLands(Bundle(definitions), seen, d, r);
    LoneReferenceAccepted(Bundle(definitions), seen, r);
    StrayFollow(Bundle(definitions), seen, d, r);
  }
}
