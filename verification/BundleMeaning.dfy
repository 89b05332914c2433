/** What references mean in the assembled bundle: after retargeting they lead to the
    schemas that were placed under their names. */
module BundleMeaning {
  import opened Json
  import opened RefRewriting
  import opened SchemaBundle
  import opened FlatMeaning

  /** A reference to a placed schema leads to it. */
  lemma EntryResolves(definitions: map<string, Json>, names: set<string>, entries: set<Entry>,
                      roots: map<string, Json>, e: Entry)
    requires Holds(definitions, names, entries, roots) && e in entries && '/' !in e.ns && '/' !in e.name
    ensures Follow(Bundle(definitions), DEFS + (e.ns + "/" + e.name)) == Some(e.schema)
  {
    var members := definitions[e.ns].members;
    assert IsGroup(members, entries, e.ns);
    FollowDefinition(Bundle(definitions), e.ns + "/" + e.name);
    VisitInto(Obj(definitions), e.ns, e.name);
    VisitName(Obj(members), e.name);
  }

  lemma VisitName(v: Json, name: string)
    requires '/' !in name
    ensures Visit(v, name).Some? <==> Step(v, name).Some?
    ensures Visit(v, name).Some? ==> Visit(v, name).value.value == Step(v, name).value
  {
    FirstSegmentOf(name, "");
    assert name + "" == name;
  }

  lemma NamespaceIsKnown(schemas: seq<GeneratedSchema>, name: string, ns: string)
    requires NamespaceFor(name, NamespacedTypes(schemas)) == Some(ns)
    ensures ns in Namespaces(schemas)
  {
    var types := NamespacedTypes(schemas);
    if name in types {
      TypesNameNamespaces(schemas, name);
    } else {
      TypesNameNamespaces(schemas, TrimTrailingDigits(name));
    }
  }

  /** A namespace map has a name exactly if an entry was placed under it. */
  lemma PlacedIff(definitions: map<string, Json>, names: set<string>, entries: set<Entry>, roots: map<string, Json>,
                  ns: string, name: string)
    requires Holds(definitions, names, entries, roots) && ns in names
    ensures var found := if ns in definitions then Step(definitions[ns], name) else None;
            && (found.Some? <==> exists e :: e in entries && e.ns == ns && e.name == name)
            && (found.Some? ==> Entry(ns, name, found.value) in entries)
  {
    if ns in definitions {
      var e :| e in entries && e.ns == ns;
      assert IsGroup(definitions[ns].members, entries, ns);
      if name in definitions[ns].members {
        assert Entry(ns, name, definitions[ns].members[name]) in entries;
      }
    }
    forall e | e in entries && e.ns == ns && e.name == name
      ensures ns in definitions && definitions[ns].Obj? && name in definitions[ns].members
    {
      assert IsGroup(definitions[ns].members, entries, ns);
      assert Entry(ns, name, e.schema) in entries;
    }
  }

  /** What the rest of a path finds in a schema standing under its first segment. */
  function Below(schema: Json, path: string): Option<Json> {
    if AfterFirst(path) == "" then Some(schema)
    else match Visit(schema, AfterFirst(path)[1..]) case Some(place) => Some(place.value) case None => None
  }

  /** What a path finds in the assembled bundle under a namespace. */
  lemma NamespacedPath(definitions: map<string, Json>, ns: string, path: string)
    requires '/' !in ns
    ensures Follow(Bundle(definitions), DEFS + (ns + "/" + path)) ==
            match (if ns in definitions then Step(definitions[ns], FirstSegment(path)) else None)
            case Some(schema) => Below(schema, path)
            case None => None
  {
    FollowDefinition(Bundle(definitions), ns + "/" + path);
    VisitInto(Obj(definitions), ns, path);
  }

  /** The entry is the one a path into its namespace starts from. */
  predicate StartsAt(e: Entry, ns: string, path: string) {
    e.ns == ns && e.name == FirstSegment(path)
  }

  /** A path into a namespace resolves exactly if a schema was placed under its first segment and has something
      under the rest of the path, and then leads to that. */
  lemma PathResolvesIff(definitions: map<string, Json>, names: set<string>, entries: set<Entry>,
                        roots: map<string, Json>, ns: string, path: string)
    requires Holds(definitions, names, entries, roots) && ns in names && '/' !in ns
    ensures var found := Follow(Bundle(definitions), DEFS + (ns + "/" + path));
            && (found.Some? <==> exists e :: e in entries && StartsAt(e, ns, path) && Below(e.schema, path).Some?)
            && (forall e :: e in entries && StartsAt(e, ns, path) ==> found == Below(e.schema, path))
  {
    var name := FirstSegment(path);
    NamespacedPath(definitions, ns, path);
    PlacedIff(definitions, names, entries, roots, ns, name);
    if ns in definitions && Step(definitions[ns], name).Some? {
      assert StartsAt(Entry(ns, name, Step(definitions[ns], name).value), ns, path);
    }
  }

  /** For a path of one name: exactly if something was placed under that name. */
  lemma NameResolvesIff(definitions: map<string, Json>, names: set<string>, entries: set<Entry>,
                        roots: map<string, Json>, ns: string, name: string)
    requires Holds(definitions, names, entries, roots) && ns in names && '/' !in ns && '/' !in name
    ensures var found := Follow(Bundle(definitions), DEFS + (ns + "/" + name));
            && (found.Some? <==> exists e :: e in entries && e.ns == ns && e.name == name)
            && (found.Some? ==> Entry(ns, name, found.value) in entries)
  {
    WholeSegment(name);
    NamespacedPath(definitions, ns, name);
    PlacedIff(definitions, names, entries, roots, ns, name);
  }

  /** With one entry in a namespace no other name is found there. */
  lemma OtherNameAbsent(definitions: map<string, Json>, e: Entry, roots: map<string, Json>, name: string)
    requires Holds(definitions, {e.ns}, {e}, roots) && '/' !in e.ns && '/' !in name && name != e.name
    ensures Follow(Bundle(definitions), DEFS + (e.ns + "/" + name)) == None
  {
    NameResolvesIff(definitions, {e.ns}, {e}, roots, e.ns, name);
  }

  lemma OwnPathMoves(ns: string, path: string)
    ensures ToNamespace(ns)(DEFS + path) == DEFS + (ns + "/" + OwnPath(ns, path))
  {
    assert (DEFS + path)[|DEFS|..] == path;
    assert DEFS + ns + "/" + path == DEFS + (ns + "/" + path);
  }

  /** The path below the namespace, whether or not it says so already. */
  function OwnPath(ns: string, path: string): string {
    if ns + "/" <= path then path[|ns + "/"|..] else path
  }

  /** A reference in a namespaced schema is always sent into the namespace.  It resolves exactly if a schema was
      placed there under the name it starts with, and has something at the rest of its path. */
  lemma OwnReferenceResolvesIff(schemas: seq<GeneratedSchema>, annotate: Annotate, definitions: map<string, Json>,
                                roots: map<string, Json>, path: string, ns: string)
    requires ns in Namespaces(schemas) && '/' !in ns
    requires Holds(definitions, Namespaces(schemas), AllContributions(schemas, annotate), roots)
    ensures var found := Follow(Bundle(definitions), ToNamespace(ns)(DEFS + path));
            var own, entries := OwnPath(ns, path), AllContributions(schemas, annotate);
            && (found.Some? <==> exists e :: e in entries && StartsAt(e, ns, own) && Below(e.schema, own).Some?)
            && (forall e :: e in entries && StartsAt(e, ns, own) ==> found == Below(e.schema, own))
  {
    OwnPathMoves(ns, path);
    PathResolvesIff(definitions, Namespaces(schemas), AllContributions(schemas, annotate), roots, ns,
                    OwnPath(ns, path));
  }

  lemma OwnDefinitionPlaced(schemas: seq<GeneratedSchema>, annotate: Annotate, s: GeneratedSchema, d: string)
    returns (e: Entry)
    requires s in schemas && s.ns.Some? && s.name !in IGNORED && !Skipped(d)
    requires d in DefinitionsOf(MapRefs(s.value, ToNamespace(s.ns.value)))
    ensures var placed := DefinitionsOf(MapRefs(s.value, ToNamespace(s.ns.value)))[d];
            e == Entry(s.ns.value, d, NamespacedDefinition(s.ns.value, placed, d, annotate))
    ensures e in AllContributions(schemas, annotate)
  {
    var placed := DefinitionsOf(MapRefs(s.value, ToNamespace(s.ns.value)))[d];
    e := Entry(s.ns.value, d, NamespacedDefinition(s.ns.value, placed, d, annotate));
    assert e in Contributions(s, annotate);
  }

  /** A reference to a schema's own definition leads to that definition as it was placed, if it was placed; an
      ignored or special one was not, and the reference is sent into the namespace all the same. */
  lemma OwnReferenceResolves(schemas: seq<GeneratedSchema>, annotate: Annotate, definitions: map<string, Json>,
                             roots: map<string, Json>, s: GeneratedSchema, d: string)
    requires Holds(definitions, Namespaces(schemas), AllContributions(schemas, annotate), roots)
    requires s in schemas && s.ns.Some? && s.name !in IGNORED && '/' !in s.ns.value && '/' !in d
    requires d in DefinitionsOf(MapRefs(s.value, ToNamespace(s.ns.value)))
    ensures var placed := DefinitionsOf(MapRefs(s.value, ToNamespace(s.ns.value)))[d];
            var found := Follow(Bundle(definitions), ToNamespace(s.ns.value)(DEFS + d));
            && (!Skipped(d) ==> found == Some(NamespacedDefinition(s.ns.value, placed, d, annotate)))
            && (found.Some? <==>
                exists e :: e in AllContributions(schemas, annotate) && e.ns == s.ns.value && e.name == d)
  {
    var ns := s.ns.value;
    var entries := AllContributions(schemas, annotate);
    PlainOwnPath(ns, d);
    OwnPathMoves(ns, d);
    NameResolvesIff(definitions, Namespaces(schemas), entries, roots, ns, d);
    if !Skipped(d) {
      var e := OwnDefinitionPlaced(schemas, annotate, s, d);
      EntryResolves(definitions, Namespaces(schemas), entries, roots, e);
    }
  }

  lemma PlainOwnPath(ns: string, d: string)
    requires '/' !in d
    ensures OwnPath(ns, d) == d
  {
    assert (ns + "/")[|ns|] == '/';
  }

  lemma KnownPathMoves(path: string, ns: string, types: map<string, string>)
    requires NamespaceFor(FirstSegment(path), types) == Some(ns)
    ensures ToKnownNamespace(types)(DEFS + path) == DEFS + (ns + "/" + path)
  {
    assert (DEFS + path)[|DEFS|..] == path;
    var moved := KnownMoves(DEFS + path, types);
  }

  /** A reference from a root schema to a name with a known namespace is always sent there, tail and all.  It
      resolves exactly if a schema was placed there under that very name, and has something at the tail. */
  lemma KnownReferenceResolvesIff(schemas: seq<GeneratedSchema>, annotate: Annotate, definitions: map<string, Json>,
                                  roots: map<string, Json>, path: string, ns: string)
    requires NamesApart(schemas)
    requires Holds(definitions, Namespaces(schemas), AllContributions(schemas, annotate), roots)
    requires NamespaceFor(FirstSegment(path), NamespacedTypes(schemas)) == Some(ns)
    ensures var found := Follow(Bundle(definitions), ToKnownNamespace(NamespacedTypes(schemas))(DEFS + path));
            var entries := AllContributions(schemas, annotate);
            && (found.Some? <==> exists e :: e in entries && StartsAt(e, ns, path) && Below(e.schema, path).Some?)
            && (forall e :: e in entries && StartsAt(e, ns, path) ==> found == Below(e.schema, path))
  {
    KnownPathMoves(path, ns, NamespacedTypes(schemas));
    NamespaceIsKnown(schemas, FirstSegment(path), ns);
    PathResolvesIff(definitions, Namespaces(schemas), AllContributions(schemas, annotate), roots, ns, path);
  }

  /** After retargeting a schema into a namespace, every definition reference in it points there,
      keeping the rest of its path. */
  lemma ReferencesPointInside(v: Json, ns: string, r: string) returns (original: string)
    requires r in Refs(MapRefs(v, ToNamespace(ns))) && DEFS <= r
    ensures DEFS + ns + "/" <= r
    ensures original in Refs(v) && (original == r || original == DEFS + r[|DEFS + ns + "/"|..])
  {
    original := MapRefsBackward(v, ToNamespace(ns), r);
  }

  // ---------------------------------------------------------------- numbered names

  /** A schema that refers to the one definition it has. */
  function SelfReferring(d: string): Json {
    Obj(map["$ref" := Str(DEFS + d), "definitions" := Obj(map[d := Bool(true)])])
  }

  /** A type of a namespace, and a root schema with a definition of its own under a numbered name of that type. */
  function Numbered(ns: string, name: string, numbered: string, root: string): seq<GeneratedSchema> {
    [GeneratedSchema(Some(ns), name, Null, false), GeneratedSchema(None, root, SelfReferring(numbered), false)]
  }

  lemma NumberedTypes(ns: string, name: string, numbered: string, root: string)
    ensures var schemas := Numbered(ns, name, numbered, root);
            && NamespacedTypes(schemas) == map[name := ns] && Namespaces(schemas) == {ns}
            && (root != ns && numbered != ns && '/' !in ns && '/' !in numbered ==> NamesApart(schemas))
  {
    var schemas := Numbered(ns, name, numbered, root);
    assert schemas[..1] == [schemas[0]] && schemas[..1][..0] == [];
    assert TypeNames(schemas[0]) == {name};
    assert NamespacedTypes(schemas[..1][..0]) == map[];
    assert NamespacedTypes(schemas[..1]) == map[name := ns];
    assert schemas[0] in schemas && schemas[1] in schemas;
    assert KeysAt(schemas[1].value, "definitions") == {numbered};
  }

  lemma NumberedContributions(ns: string, name: string, numbered: string, root: string, annotate: Annotate)
    requires name !in IGNORED
    ensures AllContributions(Numbered(ns, name, numbered, root), annotate) == {Entry(ns, name, Null)}
  {
    var schemas := Numbered(ns, name, numbered, root);
    assert schemas[0] in schemas && schemas[1] in schemas;
    assert Contributions(schemas[0], annotate) == {Entry(ns, name, Null)};
  }

  lemma SelfReferenceResolves(d: string)
    requires '/' !in d
    ensures Follow(SelfReferring(d), DEFS + d) == Some(Bool(true))
  {
    FollowDefinition(SelfReferring(d), d);
    VisitName(Obj(map[d := Bool(true)]), d);
  }

  /** Such schemas meet the conditions for being bundled, and the reference resolves where it stands. */
  lemma NumberedIsBundled(ns: string, name: string, numbered: string, root: string, annotate: Annotate)
    requires '/' !in ns && '/' !in numbered && ns !in {root, numbered} && name !in IGNORED
    ensures var schemas := Numbered(ns, name, numbered, root);
            && NamesApart(schemas) && Consistent(AllContributions(schemas, annotate))
            && Follow(SelfReferring(numbered), DEFS + numbered) == Some(Bool(true))
  {
    NumberedTypes(ns, name, numbered, root);
    NumberedContributions(ns, name, numbered, root, annotate);
    SelfReferenceResolves(numbered);
  }

  lemma NumberedNamespace(numbered: string, name: string, ns: string)
    requires numbered != name && TrimTrailingDigits(numbered) == name
    ensures NamespaceFor(numbered, map[name := ns]) == Some(ns)
  {
  }

  lemma NumberedMoves(ns: string, name: string, numbered: string)
    requires '/' !in numbered && numbered != name && TrimTrailingDigits(numbered) == name
    ensures ToKnownNamespace(map[name := ns])(DEFS + numbered) == DEFS + (ns + "/" + numbered)
  {
    WholeSegment(numbered);
    NumberedNamespace(numbered, name, ns);
    KnownPathMoves(numbered, ns, map[name := ns]);
  }

  /** The bundle builder can make a reference dangle: the numbered name is looked up as the type, so the root
      schema's definition is routed away and its reference sent into the namespace, where nothing has that name. */
  lemma NumberedReferenceDangles(ns: string, name: string, numbered: string, root: string, annotate: Annotate,
                                 definitions: map<string, Json>, roots: map<string, Json>)
    requires '/' !in ns && '/' !in numbered && ns !in {root, numbered} && name !in IGNORED
    requires numbered != name && TrimTrailingDigits(numbered) == name
    requires var schemas := Numbered(ns, name, numbered, root);
             Holds(definitions, Namespaces(schemas), AllContributions(schemas, annotate), roots)
    ensures var types := NamespacedTypes(Numbered(ns, name, numbered, root));
            Follow(Bundle(definitions), ToKnownNamespace(types)(DEFS + numbered)) == None
  {
    NumberedTypes(ns, name, numbered, root);
    NumberedContributions(ns, name, numbered, root, annotate);
    NumberedMoves(ns, name, numbered);
    OtherNameAbsent(definitions, Entry(ns, name, Null), roots, numbered);
  }

  lemma SelfReferringRewritten(d: string, f: string -> string)
    ensures var value := MapRefs(SelfReferring(d), f);
            && value.Obj? && RefHere(WithoutDefinitions(value)) == Some(f(DEFS + d))
            && DefinitionsOf(value).Keys == {d}
  {
    var v := SelfReferring(d);
    MapRefsMembers(v, f);
    MapRefsMembers(v.members["definitions"], f);
    assert RefHere(v) == Some(DEFS + d);
    assert "definitions" != "$ref";
  }

  /** ... and the dangling reference stands in the bundle, in what became of the root schema. */
  lemma NumberedReferenceStands(ns: string, name: string, numbered: string, root: string, annotate: Annotate)
    requires root !in IGNORED && numbered != name && TrimTrailingDigits(numbered) == name
    ensures var schemas := Numbered(ns, name, numbered, root);
            var types := NamespacedTypes(schemas);
            var added := RootAdditions(schemas[1], types, annotate);
            added.Keys == {root} && ToKnownNamespace(types)(DEFS + numbered) in Refs(added[root])
  {
    NumberedTypes(ns, name, numbered, root);
    NumberedNamespace(numbered, name, ns);
    SelfReferringRewritten(numbered, ToKnownNamespace(map[name := ns]));
    assert Routed(Numbered(ns, name, numbered, root)[1], numbered, map[name := ns]);
  }

  /** For instance the type `Foo` of `v2` and a root definition `Foo2`. */
  lemma FooTwo()
    ensures TrimTrailingDigits("Foo2") == "Foo" && '/' !in "v2" && '/' !in "Foo2" && "v2" !in {"Root", "Foo2"}
  {
    assert "Foo2"[..3] == "Foo";
  }

  // ---------------------------------------------------------------- definitions left out

  /** A namespaced schema that refers to its own definition `d`. */
  function OneNamespaced(ns: string, name: string, d: string): seq<GeneratedSchema> {
    [GeneratedSchema(Some(ns), name, SelfReferring(d), false)]
  }

  /** What the builder places of it if the definition is one it leaves out. */
  function PlacedAlone(ns: string, name: string, d: string): Entry {
    Entry(ns, name, WithoutDefinitions(MapRefs(SelfReferring(d), ToNamespace(ns))))
  }

  lemma SkippedPlain(d: string)
    requires Skipped(d)
    ensures '/' !in d
  {
    assert '/' !in "Option<()>";
    assert '/' !in "ClientNotification" && '/' !in "ClientRequest";
    assert '/' !in "ServerNotification" && '/' !in "ServerRequest";
  }

  lemma LeftOutContributes(ns: string, name: string, d: string, annotate: Annotate)
    requires name !in IGNORED && Skipped(d)
    ensures Namespaces(OneNamespaced(ns, name, d)) == {ns}
    ensures AllContributions(OneNamespaced(ns, name, d), annotate) == {PlacedAlone(ns, name, d)}
  {
    var schemas := OneNamespaced(ns, name, d);
    SelfReferringRewritten(d, ToNamespace(ns));
    assert schemas[0] in schemas;
    assert Contributions(schemas[0], annotate) == {PlacedAlone(ns, name, d)};
  }

  /** Such a schema meets the conditions for being bundled, its reference resolves in the schema alone, and it
      stands in the bundle, retargeted. */
  lemma LeftOutIsBundled(ns: string, name: string, d: string, annotate: Annotate)
    requires '/' !in ns && name !in IGNORED && Skipped(d)
    ensures var schemas := OneNamespaced(ns, name, d);
            && NamesApart(schemas) && Consistent(AllContributions(schemas, annotate))
            && Namespaces(schemas) == {ns} && AllContributions(schemas, annotate) == {PlacedAlone(ns, name, d)}
    ensures Follow(SelfReferring(d), DEFS + d) == Some(Bool(true))
    ensures ToNamespace(ns)(DEFS + d) in Refs(PlacedAlone(ns, name, d).schema)
  {
    SkippedPlain(d);
    SelfReferenceResolves(d);
    LeftOutContributes(ns, name, d, annotate);
    SelfReferringRewritten(d, ToNamespace(ns));
  }

  /** An ignored or special definition is left out, but references to it are sent into the namespace, where
      nothing has its name. */
  lemma LeftOutReferenceDangles(ns: string, name: string, d: string, annotate: Annotate,
                                definitions: map<string, Json>, roots: map<string, Json>)
    requires '/' !in ns && name !in IGNORED && Skipped(d) && name != d
    requires var schemas := OneNamespaced(ns, name, d);
             Holds(definitions, Namespaces(schemas), AllContributions(schemas, annotate), roots)
    ensures Follow(Bundle(definitions), ToNamespace(ns)(DEFS + d)) == None
  {
    SkippedPlain(d);
    LeftOutIsBundled(ns, name, d, annotate);
    PlainOwnPath(ns, d);
    OwnPathMoves(ns, d);
    OtherNameAbsent(definitions, PlacedAlone(ns, name, d), roots, d);
  }
}
