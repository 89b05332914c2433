/** Flattening of the schema bundle: the `v2` namespace becomes the one definitions
    map, joined by the shared roots and by whatever root definitions these need. */
module FlatSchema {
  import opened Json
  import opened RefRewriting
  import opened Worklists

  const SHARED := {"ClientRequest", "ServerNotification"}

  datatype FlatError =
    | NotAnObject
    | NoDefinitions
    | NoV2Namespace
    | StillNamespaced(reference: string)
    | MissingDefinitions(names: set<string>)

  /** `rewrite_ref_prefix(_, "#/definitions/v2/", "#/definitions/")` on one reference. */
  function Deprefix(): string -> string {
    (r: string) => ReplaceAll(r, V2, DEFS)
  }

  // ---------------------------------------------------------------- the construction

  predicate HasShape(bundle: Json) {
    GetObj(bundle, "definitions").Some? && GetObj(Obj(GetObj(bundle, "definitions").value), "v2").Some?
  }

  function RootDefs(bundle: Json): map<string, Json>
    requires HasShape(bundle)
  {
    GetObj(bundle, "definitions").value
  }

  function V2Defs(bundle: Json): map<string, Json>
    requires HasShape(bundle)
  {
    GetObj(Obj(RootDefs(bundle)), "v2").value
  }

  /** The non-v2 names the shared roots mention. */
  function SharedNames(defs: map<string, Json>): set<string> {
    set s, n | s in SHARED && s in defs && n in NonV2Names(defs[s]) :: n
  }

  /** The v2 map and the root definitions of these names that it leaves room for. */
  function Overlay(defs: map<string, Json>, v2: map<string, Json>, names: set<string>): map<string, Json> {
    v2 + (map n | n in names && n != "v2" && n !in v2 && n in defs :: defs[n])
  }

  /** The definitions of the flat bundle before references are rewritten:
      the v2 map, the root definitions pulled in under unused names, and over both the shared roots. */
  function FlatDefs(defs: map<string, Json>, v2: map<string, Json>, seen: set<string>): map<string, Json> {
    Overlay(defs, v2, seen) + (map n | n in SHARED && n in defs :: defs[n])
  }

  function FlatTitle(bundle: Json): string {
    (match GetStr(bundle, "title") case Some(t) => t case None => "DcodeAppServerProtocol") + "V2"
  }

  /** The flat bundle before references are rewritten. */
  function FlatSource(bundle: Json, seen: set<string>): Json
    requires HasShape(bundle)
  {
    Obj(bundle.members["title" := Str(FlatTitle(bundle))]
                      ["definitions" := Obj(FlatDefs(RootDefs(bundle), V2Defs(bundle), seen))])
  }

  /** `ensure_referenced_definitions_present`: the names it reports. */
  function Missing(flat: Json, defs: map<string, Json>): set<string> {
    LocalNames(flat, "definitions") - defs.Keys
  }

  lemma OverlayOneMore(defs: map<string, Json>, v2: map<string, Json>, names: set<string>, name: string)
    ensures var flat := Overlay(defs, v2, names);
            Overlay(defs, v2, names + {name}) ==
            if name != "v2" && name !in flat && name in defs then flat[name := defs[name]] else flat
  {
  }

  method PullDependencies(defs: map<string, Json>, v2: map<string, Json>, seen: set<string>)
    returns (flat: map<string, Json>)
    ensures flat == Overlay(defs, v2, seen)
  {
    flat := v2;
    var rest := seen;
    while rest != {}
      invariant rest <= seen
      invariant flat == Overlay(defs, v2, seen - rest)
      decreases rest
    {
      var name :| name in rest;
      OverlayOneMore(defs, v2, seen - rest, name);
      assert seen - (rest - {name}) == seen - rest + {name};
      rest := rest - {name};
      if name != "v2" && name !in flat && name in defs {
        flat := flat[name := defs[name]];
      }
    }
  }

  /** Rewriting references renames no definition. */
  lemma DefinitionNamesSurvive(source: Json, f: string -> string)
    requires GetObj(source, "definitions").Some?
    ensures GetObj(MapRefs(source, f), "definitions").Some?
    ensures GetObj(MapRefs(source, f), "definitions").value.Keys == GetObj(source, "definitions").value.Keys
  {
    MapRefsMembers(source, f);
    MapRefsMembers(source.members["definitions"], f);
  }

  /** The two closing checks pass. */
  ghost predicate Accepted(flat: Json) {
    && (forall s :: s in Refs(flat) ==> !(V2 <= s))
    && GetObj(flat, "definitions").Some? && Missing(flat, GetObj(flat, "definitions").value) == {}
  }

  /** `ensure_no_ref_prefix`, then `ensure_referenced_definitions_present` */
  method CheckFlat(flat: Json) returns (r: Result<Json, FlatError>)
    requires GetObj(flat, "definitions").Some?
    ensures r.Ok? <==> Accepted(flat)
    ensures r.Ok? ==> r.value == flat
    ensures r.Err? ==>
      || (r.error.StillNamespaced? && r.error.reference in Refs(flat) && V2 <= r.error.reference)
      || (r.error.MissingDefinitions? && r.error.names == Missing(flat, GetObj(flat, "definitions").value) != {})
  {
    var namespaced := set s | s in Refs(flat) && V2 <= s;
    if namespaced != {} {
      var s :| s in namespaced;
      return Err(StillNamespaced(s));
    }
    assert forall s :: s in Refs(flat) && V2 <= s ==> s in namespaced;
    var missing := Missing(flat, flat.members["definitions"].members);
    if missing != {} {
      return Err(MissingDefinitions(missing));
    }
    r := Ok(flat);
  }

  /** Everything of the bundle is kept but its title and definitions, with references rewritten. */
  ghost predicate KeepsRest(bundle: Json, flat: Json) {
    && bundle.Obj? && flat.Obj? && flat.members.Keys == bundle.members.Keys + {"title"}
    && forall k :: k in bundle.members && k != "title" && k != "definitions" ==>
         flat.members[k] == MemberRewritten(bundle.members, k, Deprefix())
  }

  /** The title is the bundle's, or else the default one, with `V2` appended. */
  ghost predicate Retitled(bundle: Json, flat: Json) {
    && bundle.Obj? && flat.Obj? && "title" in flat.members
    && (if "title" in bundle.members && bundle.members["title"].Str?
        then flat.members["title"] == Str(bundle.members["title"].s + "V2")
        else flat.members["title"] == Str("DcodeAppServerProtocolV2"))
  }

  /** The definitions are v2's, those reached under names free there, and the two shared roots over both. */
  ghost predicate HasDefinitions(defs: map<string, Json>, v2: map<string, Json>, seen: set<string>, flat: Json) {
    && GetObj(flat, "definitions").Some?
    && var flatDefs := GetObj(flat, "definitions").value;
    forall n ::
      && (n in flatDefs <==>
          n in v2 || (n in defs && (n == "ClientRequest" || n == "ServerNotification" || (n in seen && n != "v2"))))
      && (n in flatDefs ==>
          flatDefs[n] ==
          if n in v2 && !(n in defs && (n == "ClientRequest" || n == "ServerNotification"))
          then MemberRewritten(v2, n, Deprefix()) else MemberRewritten(defs, n, Deprefix()))
  }

  lemma FlatRest(bundle: Json, seen: set<string>)
    requires HasShape(bundle)
    ensures KeepsRest(bundle, MapRefs(FlatSource(bundle, seen), Deprefix()))
  {
    MapRefsIsMemberwise(FlatSource(bundle, seen).members, Deprefix());
    assert "definitions" in bundle.members;
  }

  lemma FlatRetitled(bundle: Json, seen: set<string>)
    requires HasShape(bundle)
    ensures Retitled(bundle, MapRefs(FlatSource(bundle, seen), Deprefix()))
  {
    var source := FlatSource(bundle, seen);
    MapRefsIsMemberwise(source.members, Deprefix());
    assert "title" != "$ref" && "title" != "definitions";
    assert source.members["title"] == Str(FlatTitle(bundle));
    assert "DcodeAppServerProtocol" + "V2" == "DcodeAppServerProtocolV2";
  }

  lemma FlatHasDefinitions(bundle: Json, seen: set<string>)
    requires HasShape(bundle)
    ensures HasDefinitions(RootDefs(bundle), V2Defs(bundle), seen, MapRefs(FlatSource(bundle, seen), Deprefix()))
  {
    var source := FlatSource(bundle, seen);
    var flatDefs := FlatDefs(RootDefs(bundle), V2Defs(bundle), seen);
    MapRefsIsMemberwise(source.members, Deprefix());
    assert "definitions" != "$ref" && source.members["definitions"] == Obj(flatDefs);
    MapRefsIsMemberwise(flatDefs, Deprefix());
    forall n ensures n in SHARED <==> n == "ClientRequest" || n == "ServerNotification" { }
  }

  /** The member is an object. */
  predicate HasObject(members: map<string, Json>, key: string) {
    key in members && members[key].Obj?
  }

  /** What the names are that the flattener collects: those of the root definitions that the two shared roots
      refer to, and that these refer to, what follows the name included. */
  lemma CollectedMeans(defs: map<string, Json>, v: Json, n: string)
    ensures n in NonV2Names(v) <==> "#/definitions/" + n in Refs(v) && !("v2/" <= n)
    ensures n in SharedNames(defs) <==>
            || ("ClientRequest" in defs && n in NonV2Names(defs["ClientRequest"]))
            || ("ServerNotification" in defs && n in NonV2Names(defs["ServerNotification"]))
  {
    NonV2RefMeans("#/definitions/" + n, n);
    if n in NonV2Names(v) {
      var r :| r in Refs(v) && IsNonV2Ref(r) && r[|DEFS|..] == n;
      assert r == DEFS + r[|DEFS|..];
    }
    forall s ensures s in SHARED <==> s == "ClientRequest" || s == "ServerNotification" { }
  }

  lemma NonV2RefMeans(r: string, n: string)
    requires r == "#/definitions/" + n
    ensures r[|DEFS|..] == n && (IsNonV2Ref(r) <==> !("v2/" <= n))
  {
    assert V2 == DEFS + "v2/" && r[|DEFS|..] == n;
    if V2 <= r { assert r == V2 + r[|V2|..] == DEFS + ("v2/" + r[|V2|..]); }
    if "v2/" <= n { assert r == DEFS + ("v2/" + n[|"v2/"|..]) == V2 + n[|"v2/"|..]; }
  }

  /** `build_flat_v2_schema` */
  method BuildFlatV2Schema(bundle: Json) returns (r: Result<Json, FlatError>, ghost seen: set<string>)
    ensures !bundle.Obj? <==> r == Err(NotAnObject)
    ensures bundle.Obj? && !HasObject(bundle.members, "definitions") <==> r == Err(NoDefinitions)
    ensures bundle.Obj? && HasObject(bundle.members, "definitions") ==>
      (!HasObject(bundle.members["definitions"].members, "v2") <==> r == Err(NoV2Namespace))
    ensures HasShape(bundle) ==>
      && LeastClosed(seen, SharedNames(RootDefs(bundle)), NonV2Deps(RootDefs(bundle)))
      && (r.Ok? <==> Accepted(MapRefs(FlatSource(bundle, seen), Deprefix())))
      && (r.Ok? ==> r.value == MapRefs(FlatSource(bundle, seen), Deprefix()))
    ensures r.Ok? ==> HasShape(bundle)
    ensures r.Ok? ==> KeepsRest(bundle, r.value) && Retitled(bundle, r.value)
    ensures r.Ok? ==>
      var definitions := bundle.members["definitions"].members;
      HasDefinitions(definitions, definitions["v2"].members, seen, r.value)
  {
    seen := {};
    if !bundle.Obj? {
      return Err(NotAnObject), seen;
    }
    if GetObj(bundle, "definitions").None? {
      return Err(NoDefinitions), seen;
    }
    var definitions := GetObj(bundle, "definitions").value;
    if GetObj(Obj(definitions), "v2").None? {
      return Err(NoV2Namespace), seen;
    }
    var v2 := definitions["v2"].members;
    var reached := CollectDefinitionDependencies(definitions, SharedNames(definitions));
    seen := reached;
    var flatDefs := PullDependencies(definitions, v2, reached);
    flatDefs := flatDefs + (map n | n in SHARED && n in definitions :: definitions[n]);
    var source := Obj(bundle.members["title" := Str(FlatTitle(bundle))]["definitions" := Obj(flatDefs)]);
    assert source == FlatSource(bundle, seen);
    DefinitionNamesSurvive(source, Deprefix());
    FlatRest(bundle, seen);
    FlatRetitled(bundle, seen);
    FlatHasDefinitions(bundle, seen);
    r := CheckFlat(MapRefs(source, Deprefix()));
  }
}
