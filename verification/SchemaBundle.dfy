/** Assembly of the schema bundle: namespaced schemas are merged into one map per
    namespace, root schemas go into the definitions map itself. */
module SchemaBundle {
  import opened Json
  import opened RefRewriting

  datatype GeneratedSchema = GeneratedSchema(ns: Option<string>, name: string, value: Json, inV1Dir: bool)

  datatype BundleError = Collision(ns: string, name: string) | NamespaceNotAnObject(ns: string)

  /** Adds discriminator titles to a definition, given its name. */
  type Annotate = (Json, string) -> Json

  const IGNORED := {"Option<()>"}
  const SPECIAL := {"ClientNotification", "ClientRequest", "ServerNotification", "ServerRequest"}

  predicate Skipped(defName: string) {
    defName in IGNORED || defName in SPECIAL
  }

  // ---------------------------------------------------------------- the known types

  function KeysAt(v: Json, key: string): set<string> {
    match GetObj(v, key) case Some(defs) => defs.Keys case None => {}
  }

  function TypeNames(s: GeneratedSchema): set<string> {
    {s.name} + KeysAt(s.value, "definitions") + KeysAt(s.value, "$defs")
  }

  /** Which namespace first claimed each type name. */
  function NamespacedTypes(schemas: seq<GeneratedSchema>): map<string, string> {
    if schemas == [] then map[]
    else
      var s := schemas[|schemas| - 1];
      var before := NamespacedTypes(schemas[..|schemas| - 1]);
      if s.ns.None? then before
      else (map n | n in TypeNames(s) :: s.ns.value) + before
  }

  /** The names of one namespaced schema are added where they are not taken. */
  method ClaimNames(names: set<string>, ns: string, before: map<string, string>) returns (types: map<string, string>)
    ensures types == (map n | n in names :: ns) + before
  {
    types := before;
    var rest := names;
    while rest != {}
      invariant rest <= names
      invariant types == (map n | n in names - rest :: ns) + before
      decreases rest
    {
      var n :| n in rest;
      rest := rest - {n};
      if n !in types {
        types := types[n := ns];
      }
    }
  }

  /** `collect_namespaced_types` */
  method CollectNamespacedTypes(schemas: seq<GeneratedSchema>) returns (types: map<string, string>)
    ensures types == NamespacedTypes(schemas)
  {
    types := map[];
    for i := 0 to |schemas|
      invariant types == NamespacedTypes(schemas[..i])
    {
      assert schemas[..i + 1][..i] == schemas[..i];
      var s := schemas[i];
      if s.ns.Some? {
        types := ClaimNames(TypeNames(s), s.ns.value, types);
      }
    }
    assert schemas[..|schemas|] == schemas;
  }

  lemma {:induction false} TypesNameNamespaces(schemas: seq<GeneratedSchema>, n: string)
    requires n in NamespacedTypes(schemas)
    ensures NamespacedTypes(schemas)[n] in Namespaces(schemas)
  {
    var last := |schemas| - 1;
    assert forall s :: s in schemas[..last] ==> s in schemas;
    if n in NamespacedTypes(schemas[..last]) {
      TypesNameNamespaces(schemas[..last], n);
    } else {
      assert schemas[last] in schemas;
    }
  }

  // ---------------------------------------------------------------- what each schema contributes

  function Namespaces(schemas: seq<GeneratedSchema>): set<string> {
    set s | s in schemas && s.ns.Some? :: s.ns.value
  }

  function WithoutDefinitions(v: Json): Json {
    if v.Obj? then Obj(v.members - {"definitions"}) else v
  }

  function DefinitionsOf(v: Json): map<string, Json> {
    match GetObj(v, "definitions") case Some(defs) => defs case None => map[]
  }

  /** One schema placed under a name in a namespace. */
  datatype Entry = Entry(ns: string, name: string, schema: Json)

  function NamespacedDefinition(ns: string, def: Json, name: string, annotate: Annotate): Json {
    MapRefs(annotate(def, name), ToNamespace(ns))
  }

  /** All a schema puts into namespaces: itself and its definitions, references retargeted. */
  function Contributions(s: GeneratedSchema, annotate: Annotate): set<Entry> {
    if s.ns.None? || s.name in IGNORED then {}
    else
      var value := MapRefs(s.value, ToNamespace(s.ns.value));
      var defs := DefinitionsOf(value);
      {Entry(s.ns.value, s.name, WithoutDefinitions(value))} +
      set d | d in defs && !Skipped(d) :: Entry(s.ns.value, d, NamespacedDefinition(s.ns.value, defs[d], d, annotate))
  }

  function AllContributions(schemas: seq<GeneratedSchema>, annotate: Annotate): set<Entry> {
    set s, e | s in schemas && e in Contributions(s, annotate) :: e
  }

  /** Equal names in equal namespaces have equal schemas. */
  ghost predicate Consistent(entries: set<Entry>) {
    forall a, b :: a in entries && b in entries && a.ns == b.ns && a.name == b.name ==> a.schema == b.schema
  }

  /** The error names a place for which two entries have different schemas. */
  ghost predicate Clash(entries: set<Entry>, error: BundleError) {
    error.Collision? && exists a, b ::
      && a in entries && b in entries && a.ns == b.ns == error.ns && a.name == b.name == error.name
      && a.schema != b.schema
  }

  lemma ClashStays(entries: set<Entry>, more: set<Entry>, error: BundleError)
    requires entries <= more && Clash(entries, error)
    ensures Clash(more, error) && !Consistent(more)
  {
  }

  /** The map holds exactly the entries of one namespace. */
  ghost predicate IsGroup(m: map<string, Json>, entries: set<Entry>, ns: string) {
    forall name, schema :: (name in m && m[name] == schema) <==> Entry(ns, name, schema) in entries
  }

  /** Every namespace that has entries is a map of exactly these. */
  ghost predicate Grouped(definitions: map<string, Json>, entries: set<Entry>) {
    forall e :: e in entries ==>
      e.ns in definitions && definitions[e.ns].Obj? && IsGroup(definitions[e.ns].members, entries, e.ns)
  }

  /** What a root schema puts into the definitions map, given the types known. */
  predicate Routed(s: GeneratedSchema, defName: string, types: map<string, string>) {
    NamespaceFor(defName, types).Some? && !s.inV1Dir
  }

  function RootValue(s: GeneratedSchema, types: map<string, string>): Json {
    MapRefs(s.value, ToKnownNamespace(types))
  }

  /** Of the definitions named by `keys`, those kept at the root. */
  function KeptAtRoot(s: GeneratedSchema, defs: map<string, Json>, keys: set<string>, types: map<string, string>,
                      annotate: Annotate): map<string, Json>
  {
    map d | d in defs && d in keys && !Skipped(d) && !Routed(s, d, types) :: annotate(defs[d], d)
  }

  lemma KeptAtRootStep(s: GeneratedSchema, defs: map<string, Json>, keys: set<string>, d: string,
                       types: map<string, string>, annotate: Annotate, definitions: map<string, Json>)
    requires d in defs && d !in keys
    ensures definitions + KeptAtRoot(s, defs, keys + {d}, types, annotate) ==
            if Skipped(d) || Routed(s, d, types) then definitions + KeptAtRoot(s, defs, keys, types, annotate)
            else (definitions + KeptAtRoot(s, defs, keys, types, annotate))[d := annotate(defs[d], d)]
  {
  }

  function RootAdditions(s: GeneratedSchema, types: map<string, string>, annotate: Annotate): map<string, Json> {
    if s.ns.Some? || s.name in IGNORED then map[]
    else
      var defs := DefinitionsOf(RootValue(s, types));
      KeptAtRoot(s, defs, defs.Keys, types, annotate)[s.name := WithoutDefinitions(RootValue(s, types))]
  }

  /** Root definitions override earlier ones of the same name. */
  function RootPart(schemas: seq<GeneratedSchema>, types: map<string, string>, annotate: Annotate): map<string, Json> {
    if schemas == [] then map[]
    else RootPart(schemas[..|schemas| - 1], types, annotate) + RootAdditions(schemas[|schemas| - 1], types, annotate)
  }

  /** Names are plain, and no root schema or definition is named like a namespace. */
  predicate NamesApart(schemas: seq<GeneratedSchema>) {
    && (forall ns | ns in Namespaces(schemas) :: '/' !in ns)
    && forall s | s in schemas && s.ns.None? ::
         && s.name !in Namespaces(schemas)
         && forall d | d in KeysAt(s.value, "definitions") :: '/' !in d && d !in Namespaces(schemas)
  }

  // ---------------------------------------------------------------- building

  /** `insert_into_namespace` with `insert_definition` */
  function InsertIntoNamespace(definitions: map<string, Json>, ns: string, name: string, schema: Json)
    : Result<map<string, Json>, BundleError>
  {
    var entry := if ns in definitions then definitions[ns] else Obj(map[]);
    if !entry.Obj? then Err(NamespaceNotAnObject(ns))
    else if name !in entry.members then Ok(definitions[ns := Obj(entry.members[name := schema])])
    else if entry.members[name] == schema then Ok(definitions)
    else Err(Collision(ns, name))
  }

  /** The definitions map holds the given entries under the namespace names, and the given roots beside them. */
  ghost predicate Holds(definitions: map<string, Json>, names: set<string>, entries: set<Entry>,
                        roots: map<string, Json>)
  {
    && Consistent(entries)
    && Grouped(definitions, entries)
    && (forall e :: e in entries ==> e.ns in names)
    && (forall k :: k in definitions && k in names ==> exists e :: e in entries && e.ns == k)
    && definitions - names == roots
  }

  /** Inserting one entry fails only on a collision ... */
  lemma InsertFails(definitions: map<string, Json>, names: set<string>, entries: set<Entry>,
                    roots: map<string, Json>, e: Entry)
    requires Holds(definitions, names, entries, roots) && e.ns in names
    ensures var r := InsertIntoNamespace(definitions, e.ns, e.name, e.schema);
            r.Err? ==> Clash(entries + {e}, r.error)
  {
    if e.ns in definitions {
      var x :| x in entries && x.ns == e.ns;
      var m := definitions[e.ns].members;
      assert IsGroup(m, entries, e.ns);
      if e.name in m {
        var other := Entry(e.ns, e.name, m[e.name]);
        assert e in entries + {e} && other in entries + {e};
      }
    }
  }

  /** ... else the namespace's map stays exact ... */
  lemma InsertGroups(definitions: map<string, Json>, entries: set<Entry>, e: Entry)
    requires Consistent(entries) && Grouped(definitions, entries)
    requires e.ns in definitions ==> exists x :: x in entries && x.ns == e.ns
    requires InsertIntoNamespace(definitions, e.ns, e.name, e.schema).Ok?
    ensures var after := InsertIntoNamespace(definitions, e.ns, e.name, e.schema).value;
            && e.ns in after && after[e.ns].Obj? && IsGroup(after[e.ns].members, entries + {e}, e.ns)
            && after - {e.ns} == definitions - {e.ns}
            && Consistent(entries + {e})
  {
    if e.ns in definitions {
      var m := definitions[e.ns].members;
      assert IsGroup(m, entries, e.ns);
      assert e.name in m ==> Entry(e.ns, e.name, m[e.name]) in entries;
    }
    var after := InsertIntoNamespace(definitions, e.ns, e.name, e.schema).value;
    forall name, schema
      ensures (name in after[e.ns].members && after[e.ns].members[name] == schema) <==>
        Entry(e.ns, name, schema) in entries + {e}
    {
      if e.ns !in definitions {
        assert Entry(e.ns, name, schema) in entries ==> false;
      }
    }
  }

  /** ... and so do all. */
  lemma InsertEntry(definitions: map<string, Json>, names: set<string>, entries: set<Entry>,
                    roots: map<string, Json>, e: Entry)
    requires Holds(definitions, names, entries, roots) && e.ns in names
    ensures var r := InsertIntoNamespace(definitions, e.ns, e.name, e.schema);
            && (r.Ok? ==> Holds(r.value, names, entries + {e}, roots))
            && (r.Err? ==> Clash(entries + {e}, r.error))
  {
    InsertFails(definitions, names, entries, roots, e);
    var r := InsertIntoNamespace(definitions, e.ns, e.name, e.schema);
    if r.Ok? {
      InsertGroups(definitions, entries, e);
      forall a | a in entries && a.ns != e.ns
        ensures r.value[a.ns] == definitions[a.ns] && IsGroup(r.value[a.ns].members, entries + {e}, a.ns)
      {
        assert IsGroup(definitions[a.ns].members, entries, a.ns);
      }
      assert r.value - names == definitions - names;
    }
  }

  /** The part of the loop body for a namespaced schema. */
  method AddNamespaced(s: GeneratedSchema, definitions: map<string, Json>, annotate: Annotate,
                       ghost names: set<string>, ghost entries: set<Entry>, ghost roots: map<string, Json>)
    returns (r: Result<map<string, Json>, BundleError>)
    requires s.ns.Some? && s.name !in IGNORED && s.ns.value in names
    ensures Holds(definitions, names, entries, roots) ==>
      && (r.Ok? ==> Holds(r.value, names, entries + Contributions(s, annotate), roots))
      && (r.Err? ==> Clash(entries + Contributions(s, annotate), r.error))
  {
    var ns := s.ns.value;
    var value := MapRefs(s.value, ToNamespace(ns));
    var defs := DefinitionsOf(value);
    ghost var mine := Contributions(s, annotate);
    ghost var held := Holds(definitions, names, entries, roots);
    var current := definitions;
    ghost var done := entries;
    var rest := defs.Keys;
    while rest != {}
      invariant rest <= defs.Keys
      invariant done == entries +
        set d | d in defs.Keys - rest && !Skipped(d) :: Entry(ns, d, NamespacedDefinition(ns, defs[d], d, annotate))
      invariant held ==> Holds(current, names, done, roots)
      decreases rest
    {
      var d :| d in rest;
      rest := rest - {d};
      if Skipped(d) {
        continue;
      }
      var e := Entry(ns, d, NamespacedDefinition(ns, defs[d], d, annotate));
      if held { InsertEntry(current, names, done, roots, e); }
      done := done + {e};
      assert done <= entries + mine;
      var inserted := InsertIntoNamespace(current, ns, d, e.schema);
      if inserted.Err? {
        if held { ClashStays(done, entries + mine, inserted.error); }
        return Err(inserted.error);
      }
      current := inserted.value;
    }
    var own := Entry(ns, s.name, WithoutDefinitions(value));
    if held { InsertEntry(current, names, done, roots, own); }
    assert done + {own} == entries + mine;
    r := InsertIntoNamespace(current, ns, s.name, own.schema);
  }

  /** Retargeting the references that a root schema's own definitions sent into a namespace
      changes nothing: the rewriting into known namespaces has been there already. */
  lemma ForcedPassIdle(v: Json, ns: string, name: string, types: map<string, string>)
    requires '/' !in name && NamespaceFor(name, types).Some?
    requires forall n :: n in types ==> '/' !in types[n] && types[n] != name
    ensures var value := WithoutDefinitions(MapRefs(v, ToKnownNamespace(types)));
            MapRefs(value, NamedToNamespace(ns, name)) == value
  {
    var rewritten := MapRefs(v, ToKnownNamespace(types));
    var value := WithoutDefinitions(rewritten);
    forall r | r in Refs(value) ensures NamedToNamespace(ns, name)(r) == r {
      assert r in Refs(rewritten) by { WithoutDefinitionsRefs(rewritten, r); }
      var before := MapRefsBackward(v, ToKnownNamespace(types), r);
      ForcedReferenceIdle(before, ns, name, types);
    }
    MapRefsFixed(value, NamedToNamespace(ns, name));
  }

  lemma WithoutDefinitionsRefs(v: Json, r: string)
    requires r in Refs(WithoutDefinitions(v))
    ensures r in Refs(v)
  {
    if v.Obj? {
      var rest := WithoutDefinitions(v);
      if RefHere(rest) != Some(r) {
        var k :| k in rest.members && r in Refs(rest.members[k]);
        RefsOfMember(v.members, k);
      }
    }
  }

  lemma ForcedReferenceIdle(before: string, ns: string, name: string, types: map<string, string>)
    requires '/' !in name && NamespaceFor(name, types).Some?
    requires forall n :: n in types ==> '/' !in types[n] && types[n] != name
    ensures var r := ToKnownNamespace(types)(before); NamedToNamespace(ns, name)(r) == r
  {
    var r := ToKnownNamespace(types)(before);
    if DEFS <= r {
      KnownFirstSegment(before, name, types);
    }
    OtherNameUntouched(DEFS, r, name);
  }

  /** After the rewriting into known namespaces no reference starts with a type that has one. */
  lemma KnownFirstSegment(before: string, name: string, types: map<string, string>)
    requires '/' !in name && NamespaceFor(name, types).Some?
    requires forall n :: n in types ==> '/' !in types[n] && types[n] != name
    requires DEFS <= ToKnownNamespace(types)(before)
    ensures FirstSegment(ToKnownNamespace(types)(before)[|DEFS|..]) != name
  {
    if KnownNamespaceOf(before, types).Some? {
      var moved := KnownMoves(before, types);
      var owner := KnownNamespaceOf(before, types).value;
      FirstSegmentPrefix(owner, before[|DEFS|..]);
      WholeSegment(owner);
    }
  }

  /** Definitions not named like a namespace join the roots. */
  lemma AddRoots(definitions: map<string, Json>, names: set<string>, entries: set<Entry>, roots: map<string, Json>,
                 added: map<string, Json>)
    requires Holds(definitions, names, entries, roots) && added.Keys !! names
    ensures Holds(definitions + added, names, entries, roots + added)
  {
    var after := definitions + added;
    assert after - names == roots + added;
    forall e | e in entries
      ensures e.ns in after && after[e.ns].Obj? && IsGroup(after[e.ns].members, entries, e.ns)
    {
      assert after[e.ns] == definitions[e.ns];
    }
  }

  /** Names that keep a root schema clear of the namespaces. */
  ghost predicate RootApart(s: GeneratedSchema, types: map<string, string>, names: set<string>) {
    && s.name !in names
    && (forall d :: d in KeysAt(s.value, "definitions") ==> '/' !in d && d !in names)
    && (forall n :: n in types ==> types[n] in names && '/' !in types[n])
  }

  lemma DefinitionNames(v: Json, f: string -> string)
    ensures DefinitionsOf(MapRefs(v, f)).Keys <= KeysAt(v, "definitions")
  {
    if v.Obj? {
      MapRefsMembers(v, f);
      assert "definitions" != "$ref";
      if "definitions" in v.members && v.members["definitions"].Obj? {
        MapRefsMembers(v.members["definitions"], f);
      }
    }
  }

  /** Each pair is a definition name and the namespace known for it. */
  predicate AllRouted(pairs: seq<(string, string)>, names: set<string>, types: map<string, string>) {
    forall i | 0 <= i < |pairs| :: pairs[i].0 in names && NamespaceFor(pairs[i].0, types) == Some(pairs[i].1)
  }

  /** A root schema's definitions: routed ones are remembered, the others inserted. */
  method AddRootDefinitions(s: GeneratedSchema, defs: map<string, Json>, definitions: map<string, Json>,
                            types: map<string, string>, annotate: Annotate)
    returns (current: map<string, Json>, forced: seq<(string, string)>)
    ensures current == definitions + KeptAtRoot(s, defs, defs.Keys, types, annotate)
    ensures AllRouted(forced, defs.Keys, types)
  {
    forced := [];
    current := definitions;
    var rest := defs.Keys;
    ghost var done: set<string> := {};
    while rest != {}
      invariant rest !! done && rest + done == defs.Keys
      invariant AllRouted(forced, defs.Keys, types)
      invariant current == definitions + KeptAtRoot(s, defs, done, types, annotate)
      decreases rest
    {
      var d :| d in rest;
      KeptAtRootStep(s, defs, done, d, types, annotate, definitions);
      rest, done := rest - {d}, done + {d};
      if !Skipped(d) {
        if Routed(s, d, types) {
          var pair := (d, NamespaceFor(d, types).value);
          if pair !in forced {
            forced := forced + [pair];
          }
        } else {
          current := current[d := annotate(defs[d], d)];
        }
      }
    }
  }

  /** The forced pass over a root schema. */
  method ForcedPass(v: Json, forced: seq<(string, string)>, ghost defNames: set<string>, ghost original: Json,
                    ghost types: map<string, string>)
    returns (value: Json)
    requires v == WithoutDefinitions(MapRefs(original, ToKnownNamespace(types)))
    requires AllRouted(forced, defNames, types)
    ensures (forall d, n :: d in defNames && n in types ==> '/' !in d && '/' !in types[n] && types[n] != d) ==>
      value == v
  {
    value := v;
    ghost var plain := forall d, n :: d in defNames && n in types ==> '/' !in d && '/' !in types[n] && types[n] != d;
    for i := 0 to |forced|
      invariant plain ==> value == v
    {
      if plain {
        assert NamespaceFor(forced[i].0, types).Some?;
        ForcedPassIdle(original, forced[i].1, forced[i].0, types);
      }
      value := MapRefs(value, NamedToNamespace(forced[i].1, forced[i].0));
    }
  }

  /** The part of the loop body for a root schema. */
  method AddRoot(s: GeneratedSchema, definitions: map<string, Json>, types: map<string, string>, annotate: Annotate,
                 ghost names: set<string>)
    returns (current: map<string, Json>)
    requires s.ns.None? && s.name !in IGNORED
    ensures RootApart(s, types, names) ==> current == definitions + RootAdditions(s, types, annotate)
  {
    var value := RootValue(s, types);
    var defs := DefinitionsOf(value);
    ghost var kept := KeptAtRoot(s, defs, defs.Keys, types, annotate);
    value := WithoutDefinitions(value);
    ghost var unforced := value;
    var forced;
    current, forced := AddRootDefinitions(s, defs, definitions, types, annotate);
    value := ForcedPass(value, forced, defs.Keys, s.value, types);
    current := current[s.name := value];
    if RootApart(s, types, names) {
      RootNamesPlain(s, types, names);
      assert current == definitions + kept[s.name := unforced];
    }
  }

  lemma RootNamesPlain(s: GeneratedSchema, types: map<string, string>, names: set<string>)
    requires RootApart(s, types, names)
    ensures forall d, n :: d in DefinitionsOf(RootValue(s, types)) && n in types ==>
      '/' !in d && '/' !in types[n] && types[n] != d
  {
    DefinitionNames(s.value, ToKnownNamespace(types));
  }

  lemma RootAdditionsApart(s: GeneratedSchema, types: map<string, string>, annotate: Annotate, names: set<string>)
    requires RootApart(s, types, names)
    ensures RootAdditions(s, types, annotate).Keys !! names
  {
    DefinitionNames(s.value, ToKnownNamespace(types));
  }

  /** The loop body. */
  method AddSchema(s: GeneratedSchema, definitions: map<string, Json>, types: map<string, string>, annotate: Annotate,
                   ghost names: set<string>, ghost entries: set<Entry>, ghost roots: map<string, Json>)
    returns (r: Result<map<string, Json>, BundleError>)
    requires s.ns.Some? ==> s.ns.value in names
    ensures Holds(definitions, names, entries, roots) && (s.ns.None? ==> RootApart(s, types, names)) ==>
      && (r.Ok? ==>
            Holds(r.value, names, entries + Contributions(s, annotate), roots + RootAdditions(s, types, annotate)))
      && (r.Err? ==> Clash(entries + Contributions(s, annotate), r.error))
  {
    assert entries + {} == entries && roots + map[] == roots;
    if s.name in IGNORED {
      return Ok(definitions);
    }
    if s.ns.Some? {
      r := AddNamespaced(s, definitions, annotate, names, entries, roots);
    } else {
      var added := AddRoot(s, definitions, types, annotate, names);
      if RootApart(s, types, names) && Holds(definitions, names, entries, roots) {
        RootAdditionsApart(s, types, annotate, names);
        AddRoots(definitions, names, entries, roots, RootAdditions(s, types, annotate));
      }
      r := Ok(added);
    }
  }

  function Bundle(definitions: map<string, Json>): Json {
    Obj(map["$schema" := Str("http://json-schema.org/draft-07/schema#"),
            "title" := Str("DcodeAppServerProtocol"),
            "type" := Str("object"),
            "definitions" := Obj(definitions)])
  }

  lemma BundleDefinitions(definitions: map<string, Json>)
    ensures DefinitionsOf(Bundle(definitions)) == definitions
  {
  }

  lemma RootsApart(schemas: seq<GeneratedSchema>, s: GeneratedSchema, types: map<string, string>)
    requires NamesApart(schemas) && types == NamespacedTypes(schemas) && s in schemas && s.ns.None?
    ensures RootApart(s, types, Namespaces(schemas))
  {
    forall n | n in types ensures types[n] in Namespaces(schemas) { TypesNameNamespaces(schemas, n); }
  }

  /** `build_schema_bundle`: with names apart it succeeds exactly when all contributions agree, and
      then each namespace is the union of the contributions to it and the root holds the root schemas. */
  method BuildSchemaBundle(schemas: seq<GeneratedSchema>, annotate: Annotate)
    returns (r: Result<Json, BundleError>)
    ensures r.Ok? ==> r.value == Bundle(DefinitionsOf(r.value))
    ensures NamesApart(schemas) ==>
      && (r.Ok? <==> Consistent(AllContributions(schemas, annotate)))
      && (r.Err? ==> Clash(AllContributions(schemas, annotate), r.error))
      && (r.Ok? ==> Holds(DefinitionsOf(r.value), Namespaces(schemas), AllContributions(schemas, annotate),
                          RootPart(schemas, NamespacedTypes(schemas), annotate)))
  {
    var types := CollectNamespacedTypes(schemas);
    ghost var names := Namespaces(schemas);
    ghost var apart := NamesApart(schemas);
    var definitions: map<string, Json> := map[];
    for i := 0 to |schemas|
      invariant apart ==>
        Holds(definitions, names, AllContributions(schemas[..i], annotate), RootPart(schemas[..i], types, annotate))
    {
      var s := schemas[i];
      ghost var entries := AllContributions(schemas[..i], annotate);
      ghost var roots := RootPart(schemas[..i], types, annotate);
      assert s in schemas && schemas[..i + 1][..i] == schemas[..i];
      AllContributionsStep(schemas, i, annotate);
      if apart && s.ns.None? { RootsApart(schemas, s, types); }
      var added := AddSchema(s, definitions, types, annotate, names, entries, roots);
      if added.Err? {
        if apart {
          ClashStays(AllContributions(schemas[..i + 1], annotate), AllContributions(schemas, annotate), added.error);
        }
        return Err(added.error);
      }
      definitions := added.value;
    }
    assert schemas[..|schemas|] == schemas;
    r := Ok(Bundle(definitions));
    BundleDefinitions(definitions);
  }

  lemma AllContributionsStep(schemas: seq<GeneratedSchema>, i: nat, annotate: Annotate)
    requires i < |schemas|
    ensures AllContributions(schemas[..i + 1], annotate) ==
            AllContributions(schemas[..i], annotate) + Contributions(schemas[i], annotate)
    ensures AllContributions(schemas[..i + 1], annotate) <= AllContributions(schemas, annotate)
  {
    assert schemas[..i + 1] == schemas[..i] + [schemas[i]];
    assert forall s :: s in schemas[..i + 1] <==> s in schemas[..i] || s == schemas[i];
    assert forall s :: s in schemas[..i + 1] ==> s in schemas;
  }

  // ---------------------------------------------------------------- order does not matter

  /** Whatever the order of the schemas, the contributions are the same ... */
  lemma ContributionsOrderFree(a: seq<GeneratedSchema>, b: seq<GeneratedSchema>, annotate: Annotate)
    requires multiset(a) == multiset(b)
    ensures AllContributions(a, annotate) == AllContributions(b, annotate)
    ensures Namespaces(a) == Namespaces(b) && (NamesApart(a) <==> NamesApart(b))
  {
    forall s ensures s in a <==> s in b { assert s in multiset(a) <==> s in multiset(b); }
  }

  /** ... so both orders succeed or neither does, and the namespace maps come out equal. */
  lemma NamespacesOrderFree(a: seq<GeneratedSchema>, b: seq<GeneratedSchema>, annotate: Annotate,
                            builtA: map<string, Json>, builtB: map<string, Json>,
                            rootsA: map<string, Json>, rootsB: map<string, Json>, ns: string)
    requires multiset(a) == multiset(b) && ns in Namespaces(a)
    requires Holds(builtA, Namespaces(a), AllContributions(a, annotate), rootsA)
    requires Holds(builtB, Namespaces(b), AllContributions(b, annotate), rootsB)
    ensures ns in builtA <==> ns in builtB
    ensures ns in builtA ==> builtA[ns] == builtB[ns]
  {
    ContributionsOrderFree(a, b, annotate);
    if ns in builtA || ns in builtB {
      var entries := AllContributions(a, annotate);
      var e :| e in entries && e.ns == ns;
      GroupUnique(builtA[ns].members, builtB[ns].members, entries, ns);
    }
  }

  lemma GroupUnique(m: map<string, Json>, n: map<string, Json>, entries: set<Entry>, ns: string)
    requires IsGroup(m, entries, ns) && IsGroup(n, entries, ns)
    ensures m == n
  {
    forall k ensures k in m <==> k in n {
      if k in m { assert Entry(ns, k, m[k]) in entries; }
      if k in n { assert Entry(ns, k, n[k]) in entries; }
    }
    forall k | k in m ensures m[k] == n[k] { assert Entry(ns, k, m[k]) in entries; }
  }
}
