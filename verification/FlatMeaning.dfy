/** What a reference points at, and when flattening the bundle changes it. */
module FlatMeaning {
  import opened Json
  import opened RefRewriting
  import opened Worklists
  import opened FlatSchema

  // ---------------------------------------------------------------- following a reference

  predicate IsDigits(s: string) {
    forall i | 0 <= i < |s| :: '0' <= s[i] <= '9'
  }

  function DecimalValue(s: string): nat
    requires IsDigits(s)
  {
    if s == "" then 0 else 10 * DecimalValue(s[..|s| - 1]) + (s[|s| - 1] as int - '0' as int)
  }

  /** One pointer step: an object member, or an array element by an index without leading zeros. */
  function Step(v: Json, seg: string): Option<Json> {
    match v
    case Obj(members) => if seg in members then Some(members[seg]) else None
    case Arr(items) =>
      if seg != "" && IsDigits(seg) && (seg[0] != '0' || seg == "0") && DecimalValue(seg) < |items|
      then Some(items[DecimalValue(seg)]) else None
    case _ => None
  }

  /** Where a pointer leads; `isRef` if that is the string of a `$ref` member, itself a reference. */
  datatype Place = Place(value: Json, isRef: bool)

  /** Walks a slash-separated pointer (section 4 of RFC 6901, without `~` escapes). */
  function Visit(v: Json, path: string): Option<Place>
    decreases |path|
  {
    match Step(v, FirstSegment(path))
    case None => None
    case Some(child) =>
      if AfterFirst(path) == "" then Some(Place(child, v.Obj? && FirstSegment(path) == "$ref" && child.Str?))
      else Visit(child, AfterFirst(path)[1..])
  }

  /** Where a local reference leads in a document. */
  function Target(root: Json, r: string): Option<Place> {
    if "#/" <= r then Visit(root, r[2..]) else None
  }

  /** What a local reference denotes in a document. */
  function Follow(root: Json, r: string): Option<Json> {
    match Target(root, r) case Some(place) => Some(place.value) case None => None
  }

  /** A place after all references of the document were rewritten. */
  function Rewritten(place: Option<Place>, f: string -> string): Option<Place> {
    match place
    case Some(Place(Str(s), true)) => Some(Place(Str(f(s)), true))
    case Some(Place(v, isRef)) => Some(Place(MapRefs(v, f), isRef))
    case None => None
  }

  /** One step commutes with rewriting, except into the string of a `$ref`, which is rewritten as a whole. */
  lemma StepRewritten(v: Json, seg: string, f: string -> string)
    ensures Step(MapRefs(v, f), seg) ==
            match Step(v, seg)
            case Some(child) =>
              Some(if v.Obj? && seg == "$ref" && child.Str? then Str(f(child.s)) else MapRefs(child, f))
            case None => None
  {
    if v.Obj? { MapRefsMembers(v, f); }
  }

  /** Walking commutes with rewriting, on every path. */
  lemma {:induction false} VisitRewritten(v: Json, path: string, f: string -> string)
    ensures Visit(MapRefs(v, f), path) == Rewritten(Visit(v, path), f)
    decreases |path|
  {
    StepRewritten(v, FirstSegment(path), f);
    if Step(v, FirstSegment(path)).Some? && AfterFirst(path) != "" {
      VisitRewritten(Step(v, FirstSegment(path)).value, AfterFirst(path)[1..], f);
    }
  }

  /** Walking a path that starts with a given segment. */
  lemma VisitInto(v: Json, seg: string, path: string)
    requires '/' !in seg
    ensures Visit(v, seg + "/" + path) == match Step(v, seg) case Some(c) => Visit(c, path) case None => None
  {
    assert seg + "/" + path == seg + ("/" + path);
    FirstSegmentOf(seg, "/" + path);
    assert ("/" + path)[1..] == path;
  }

  /** A reference under `#/definitions/` is looked up in the definitions map. */
  lemma FollowDefinition(root: Json, suffix: string)
    ensures Target(root, DEFS + suffix) ==
            match Get(root, "definitions") case Some(defs) => Visit(defs, suffix) case None => None
  {
    assert (DEFS + suffix)[2..] == "definitions" + "/" + suffix;
    VisitInto(root, "definitions", suffix);
    if !root.Obj? {
      assert !IsDigits("definitions") by { assert "definitions"[0] == 'd'; }
    }
  }

  /** Two definition maps agreeing on the name a path starts with give it the same meaning. */
  lemma VisitAgrees(a: map<string, Json>, b: map<string, Json>, path: string)
    requires FirstSegment(path) in a <==> FirstSegment(path) in b
    requires FirstSegment(path) in a ==> a[FirstSegment(path)] == b[FirstSegment(path)]
    ensures Visit(Obj(a), path) == Visit(Obj(b), path)
  {
  }

  // ---------------------------------------------------------------- flattening

  /** `#/definitions/v2/` stands in it at the very start or nowhere. */
  predicate OnlyAtStart(r: string) {
    r == "" || !Occurs(V2, r[1..])
  }

  lemma OneHashOnlyAtStart(r: string)
    requires r != "" ==> '#' !in r[1..]
    ensures OnlyAtStart(r)
  {
    if r != "" { AbsentNowhere(V2, r[1..]); }
  }

  /** These are exactly the references of which only the prefix is rewritten. */
  lemma DeprefixIsIff(r: string)
    ensures Deprefix()(r) == (if V2 <= r then DEFS + r[|V2|..] else r) <==> OnlyAtStart(r)
  {
    assert '#' !in V2[1..];
    ReplaceAllIsPrefixRewriteIff(r, V2, DEFS);
  }

  /** A reference into another document, which does not have the prefix, is rewritten all the same. */
  lemma ForeignReferenceRewritten(document: string, name: string)
    requires document != "" && '#' !in document && '#' !in name
    ensures !(V2 <= document + (V2 + name))
    ensures Deprefix()(document + (V2 + name)) == document + (DEFS + name)
  {
    assert V2[0] == '#' && (document + (V2 + name))[0] == document[0];
    assert document[0] in document;
    ReplaceAllSkips(document, V2 + name, V2, DEFS);
    assert (V2 + name)[|V2|..] == name;
    AbsentNowhere(V2, name);
    ReplaceAllShortens(name, V2, DEFS);
  }

  /** The name under which the flat definitions are asked for a reference's target. */
  function FlatName(r: string): string
    requires DEFS <= r
  {
    if V2 <= r then FirstSegment(r[|V2|..]) else FirstSegment(r[|DEFS|..])
  }

  /** The definition a reference is about is the same one after flattening: a v2 definition
      not displaced by a different shared root, or a root definition not shadowed by a different v2 one. */
  predicate SameTarget(bundle: Json, seen: set<string>, r: string)
    requires HasShape(bundle) && DEFS <= r
  {
    var defs, v2, n := RootDefs(bundle), V2Defs(bundle), FlatName(r);
    var flat := FlatDefs(defs, v2, seen);
    if V2 <= r then n in v2 && n in flat && flat[n] == v2[n]
    else n in defs && n in flat && flat[n] == defs[n]
  }

  /** The target is the same exactly unless one of the two name clashes happens
      or the root definition was not pulled in. */
  lemma SameTargetIff(bundle: Json, seen: set<string>, r: string)
    requires HasShape(bundle) && DEFS <= r
    ensures var defs, v2, n := RootDefs(bundle), V2Defs(bundle), FlatName(r);
            SameTarget(bundle, seen, r) <==>
              if V2 <= r then n in v2 && (n in SHARED && n in defs ==> defs[n] == v2[n])
              else n in defs && (n in SHARED || (if n in v2 then v2[n] == defs[n] else n in seen && n != "v2"))
  {
  }

  /** In the flat bundle a path under `#/definitions/` leads to the rewriting of what it finds in the flat map. */
  lemma FlatTarget(bundle: Json, seen: set<string>, path: string)
    requires HasShape(bundle)
    ensures Target(MapRefs(FlatSource(bundle, seen), Deprefix()), DEFS + path) ==
            Rewritten(Visit(Obj(FlatDefs(RootDefs(bundle), V2Defs(bundle), seen)), path), Deprefix())
  {
    assert "#/" <= DEFS + path;
    VisitRewritten(FlatSource(bundle, seen), (DEFS + path)[2..], Deprefix());
    FollowDefinition(FlatSource(bundle, seen), path);
  }

  /** Flattening preserves reference meaning: the rewritten reference leads, in the flat bundle, to the
      rewriting of the place the original one led to in the nested bundle. */
  lemma FlatteningPreservesMeaning(bundle: Json, seen: set<string>, r: string)
    requires HasShape(bundle) && OnlyAtStart(r) && DEFS <= r
    requires SameTarget(bundle, seen, r)
    ensures var flat := MapRefs(FlatSource(bundle, seen), Deprefix());
            Target(flat, Deprefix()(r)) == Rewritten(Target(bundle, r), Deprefix())
  {
    var path := if V2 <= r then r[|V2|..] else r[|DEFS|..];
    DeprefixIsIff(r);
    assert Deprefix()(r) == DEFS + path;
    FlatTarget(bundle, seen, path);
    FollowsIntoFlat(bundle, FlatDefs(RootDefs(bundle), V2Defs(bundle), seen), r);
  }

  /** What a reference means in the nested bundle is what its path means in a flat map having its target. */
  lemma FollowsIntoFlat(bundle: Json, flatDefs: map<string, Json>, r: string)
    requires HasShape(bundle) && DEFS <= r && FlatName(r) in flatDefs
    requires if V2 <= r then FlatName(r) in V2Defs(bundle) && flatDefs[FlatName(r)] == V2Defs(bundle)[FlatName(r)]
             else FlatName(r) in RootDefs(bundle) && flatDefs[FlatName(r)] == RootDefs(bundle)[FlatName(r)]
    ensures Visit(Obj(flatDefs), if V2 <= r then r[|V2|..] else r[|DEFS|..]) == Target(bundle, r)
  {
    var defs, v2 := RootDefs(bundle), V2Defs(bundle);
    if V2 <= r {
      var path := r[|V2|..];
      assert r == DEFS + ("v2" + "/" + path);
      FollowDefinition(bundle, "v2" + "/" + path);
      VisitInto(Obj(defs), "v2", path);
      VisitAgrees(flatDefs, v2, path);
    } else {
      var path := r[|DEFS|..];
      assert r == DEFS + path;
      FollowDefinition(bundle, path);
      VisitAgrees(flatDefs, defs, path);
    }
  }

  // ---------------------------------------------------------------- success

  /** The rewritten reference carries no v2 prefix and its definition is in the flat map. */
  predicate Lands(bundle: Json, seen: set<string>, r: string)
    requires HasShape(bundle) && DEFS <= r
  {
    FlatName(r) in FlatDefs(RootDefs(bundle), V2Defs(bundle), seen) && !(V2 <= r && "v2/" <= r[|V2|..])
  }

  /** What the closing checks ask of one reference. */
  predicate Fine(s: string, names: set<string>) {
    !(V2 <= s) && (LocalName(s, "definitions").Some? ==> LocalName(s, "definitions").value in names)
  }

  lemma PrefixUnder(a: string, b: string, path: string)
    ensures a + b <= a + path <==> b <= path
  {
    if b <= path { assert a + path == a + b + path[|b|..]; }
    if a + b <= a + path { assert (a + path)[|a|..] == path && (a + b)[|a|..] == b; }
  }

  lemma LocalDefinition(s: string, key: string)
    requires key == "definitions"
    ensures LocalName(s, key) == if DEFS <= s then Some(FirstSegment(s[|DEFS|..])) else None
  {
    assert "#/" + key + "/" == DEFS;
  }

  lemma LandsIff(bundle: Json, seen: set<string>, r: string)
    requires HasShape(bundle) && OnlyAtStart(r)
    ensures var s := Deprefix()(r);
            var flatDefs := FlatDefs(RootDefs(bundle), V2Defs(bundle), seen);
            Fine(s, flatDefs.Keys) <==> (DEFS <= r ==> Lands(bundle, seen, r))
  {
    DeprefixIsIff(r);
    assert V2 == DEFS + "v2/";
    if V2 <= r {
      PrefixUnder(DEFS, "v2/", r[|V2|..]);
      assert (DEFS + r[|V2|..])[|DEFS|..] == r[|V2|..] && DEFS <= r;
    }
    LocalDefinition(Deprefix()(r), "definitions");
  }

  lemma AcceptedMeans(flat: Json, names: set<string>)
    requires GetObj(flat, "definitions").Some? && GetObj(flat, "definitions").value.Keys == names
    ensures Accepted(flat) <==> forall s :: s in Refs(flat) ==> Fine(s, names)
  {
    var missing := Missing(flat, GetObj(flat, "definitions").value);
    assert missing == LocalNames(flat, "definitions") - names;
    if missing == {} {
      forall s | s in Refs(flat) && LocalName(s, "definitions").Some?
        ensures LocalName(s, "definitions").value in names
      {
        assert LocalName(s, "definitions").value in LocalNames(flat, "definitions");
        assert LocalName(s, "definitions").value !in missing;
      }
    }
    if forall s :: s in Refs(flat) ==> Fine(s, names) {
      forall n | n in LocalNames(flat, "definitions")
        ensures n in names
      {
        var s :| s in Refs(flat) && LocalName(s, "definitions") == Some(n);
        assert Fine(s, names);
      }
    }
  }

  /** The closing checks pass exactly when every reference of the flat source lands. */
  lemma AcceptedIff(bundle: Json, seen: set<string>)
    requires HasShape(bundle)
    requires forall r :: r in Refs(FlatSource(bundle, seen)) ==> OnlyAtStart(r)
    ensures Accepted(MapRefs(FlatSource(bundle, seen), Deprefix())) <==>
            forall r :: r in Refs(FlatSource(bundle, seen)) && DEFS <= r ==> Lands(bundle, seen, r)
  {
    var source := FlatSource(bundle, seen);
    var flat := MapRefs(source, Deprefix());
    var flatDefs := FlatDefs(RootDefs(bundle), V2Defs(bundle), seen);
    DefinitionNamesSurvive(source, Deprefix());
    AcceptedMeans(flat, flatDefs.Keys);
    if Accepted(flat) {
      forall r | r in Refs(source) && DEFS <= r ensures Lands(bundle, seen, r) {
        MapRefsForward(source, Deprefix(), r);
        LandsIff(bundle, seen, r);
        assert Fine(Deprefix()(r), flatDefs.Keys);
      }
    }
    if forall r :: r in Refs(source) && DEFS <= r ==> Lands(bundle, seen, r) {
      forall s | s in Refs(flat)
        ensures Fine(s, flatDefs.Keys)
      {
        var r := MapRefsBackward(source, Deprefix(), s);
        LandsIff(bundle, seen, r);
      }
    }
  }

  // ---------------------------------------------------------------- tidy bundles

  /** v2 schemas refer only into v2. */
  ghost predicate TidyV2(v2: map<string, Json>) {
    "v2" !in v2 &&
    forall n, r :: n in v2 && r in Refs(v2[n]) && DEFS <= r ==> V2 <= r && FlatName(r) in v2
  }

  /** Some chain of references, each naming a root definition as a whole, leads from a shared root to the name. */
  ghost predicate Pulled(defs: map<string, Json>, n: string) {
    PathTo(n, SharedNames(defs), NonV2Deps(defs))
  }

  /** A root definition that goes into the flat map. */
  ghost predicate Carried(defs: map<string, Json>, v2: map<string, Json>, n: string) {
    n in defs && (n in SHARED || (Pulled(defs, n) && n != "v2" && n !in v2))
  }

  /** A root schema refers to existing v2 schemas, and to or into existing root definitions. */
  ghost predicate TidyRoot(schema: Json, defs: map<string, Json>, v2: map<string, Json>) {
    forall r :: r in Refs(schema) && DEFS <= r ==>
      if V2 <= r then FlatName(r) in v2 else FlatName(r) in defs && FlatName(r) != "v2"
  }

  ghost predicate AllOnlyAtStart(v: Json) {
    forall r :: r in Refs(v) ==> OnlyAtStart(r)
  }

  /** What the exporter relies on: v2 is closed in itself, and references from the shared roots and from
      what these pull in resolve.  References are well formed, and none stands outside the definitions. */
  ghost predicate Resolving(bundle: Json)
    requires HasShape(bundle)
  {
    var defs, v2 := RootDefs(bundle), V2Defs(bundle);
    && TidyV2(v2)
    && (forall n :: Carried(defs, v2, n) ==> TidyRoot(defs[n], defs, v2) && AllOnlyAtStart(defs[n]))
    && (forall n :: n in v2 ==> AllOnlyAtStart(v2[n]))
    && Refs(Obj(bundle.members - {"definitions"})) == {}
    && RefHere(Obj(defs)).None? && RefHere(Obj(v2)).None?
  }

  /** No root definition that goes into the flat map is named like a different v2 schema. */
  ghost predicate NoClash(defs: map<string, Json>, v2: map<string, Json>) {
    forall n :: (n in SHARED || Pulled(defs, n)) && n in defs && n in v2 ==> defs[n] == v2[n]
  }

  /** The definition a root reference starts from will be in the flat map. */
  ghost predicate HeadIncluded(bundle: Json, r: string)
    requires HasShape(bundle) && DEFS <= r
  {
    FlatName(r) in V2Defs(bundle) || FlatName(r) in SHARED || Pulled(RootDefs(bundle), FlatName(r))
  }

  /** Every root reference that goes into the flat map starts from a definition that does so too. */
  ghost predicate HeadsIncluded(bundle: Json)
    requires HasShape(bundle)
  {
    forall n, r :: Carried(RootDefs(bundle), V2Defs(bundle), n) && r in Refs(RootDefs(bundle)[n]) && IsNonV2Ref(r) ==>
      HeadIncluded(bundle, r)
  }

  /** The references of the flat source come from its definitions, when the rest of the root has none. */
  lemma FlatSourceRefs(bundle: Json, seen: set<string>, r: string) returns (n: string)
    requires HasShape(bundle)
    requires Refs(Obj(bundle.members - {"definitions"})) == {}
    requires RefHere(Obj(FlatDefs(RootDefs(bundle), V2Defs(bundle), seen))).None?
    requires r in Refs(FlatSource(bundle, seen))
    ensures var flatDefs := FlatDefs(RootDefs(bundle), V2Defs(bundle), seen);
            n in flatDefs && r in Refs(flatDefs[n])
  {
    var source := FlatSource(bundle, seen);
    var flatDefs := FlatDefs(RootDefs(bundle), V2Defs(bundle), seen);
    var outside := Obj(bundle.members - {"definitions"});
    assert "title" != "definitions" && "title" != "$ref" && "$ref" != "definitions";
    assert source.members["definitions"] == Obj(flatDefs);
    assert RefHere(source) == RefHere(outside);
    var k :| k in source.members && r in Refs(source.members[k]);
    if k == "definitions" {
      n :| n in flatDefs && r in Refs(flatDefs[n]);
    } else {
      assert k != "title";
      RefsOfMember(outside.members, k);
      assert false;
    }
  }

  /** ... and conversely each of its definitions' references is one of the flat source. */
  lemma FlatDefinitionRefs(bundle: Json, seen: set<string>, n: string)
    requires HasShape(bundle) && n in FlatDefs(RootDefs(bundle), V2Defs(bundle), seen)
    ensures Refs(FlatDefs(RootDefs(bundle), V2Defs(bundle), seen)[n]) <= Refs(FlatSource(bundle, seen))
  {
    var flatDefs := FlatDefs(RootDefs(bundle), V2Defs(bundle), seen);
    RefsOfMember(flatDefs, n);
    RefsOfMember(FlatSource(bundle, seen).members, "definitions");
  }

  /** What was computed as pulled in is what chains of references lead to. */
  lemma SeenIsPulled(defs: map<string, Json>, seen: set<string>)
    requires LeastClosed(seen, SharedNames(defs), NonV2Deps(defs))
    ensures forall n :: n in seen <==> Pulled(defs, n)
  {
    LeastClosedIsReachability(seen, SharedNames(defs), NonV2Deps(defs));
  }

  /** What stands in the flat map under a name. */
  lemma FlatDefsAt(defs: map<string, Json>, v2: map<string, Json>, seen: set<string>, n: string)
    ensures n in FlatDefs(defs, v2, seen) <==> n in v2 || (n in defs && (n in SHARED || (n in seen && n != "v2")))
    ensures n in FlatDefs(defs, v2, seen) ==>
      FlatDefs(defs, v2, seen)[n] == if n in v2 && !(n in SHARED && n in defs) then v2[n] else defs[n]
  {
  }

  /** A definition of the flat map is a v2 schema or a carried root definition. */
  lemma FlatDefinitionIs(defs: map<string, Json>, v2: map<string, Json>, seen: set<string>, n: string)
    requires LeastClosed(seen, SharedNames(defs), NonV2Deps(defs)) && n in FlatDefs(defs, v2, seen)
    ensures if Carried(defs, v2, n) then FlatDefs(defs, v2, seen)[n] == defs[n]
            else n in v2 && FlatDefs(defs, v2, seen)[n] == v2[n]
  {
    SeenIsPulled(defs, seen);
  }

  lemma CarriedIsFlat(defs: map<string, Json>, v2: map<string, Json>, seen: set<string>, n: string)
    requires LeastClosed(seen, SharedNames(defs), NonV2Deps(defs)) && Carried(defs, v2, n)
    ensures n in FlatDefs(defs, v2, seen) && FlatDefs(defs, v2, seen)[n] == defs[n]
  {
    SeenIsPulled(defs, seen);
    FlatDefsAt(defs, v2, seen, n);
  }

  /** Where a reference of the flat source comes from: a v2 schema, or a carried root definition. */
  lemma Origin(bundle: Json, seen: set<string>, r: string) returns (n: string)
    requires HasShape(bundle) && Resolving(bundle) && r in Refs(FlatSource(bundle, seen))
    requires LeastClosed(seen, SharedNames(RootDefs(bundle)), NonV2Deps(RootDefs(bundle)))
    ensures OnlyAtStart(r)
    ensures DEFS <= r && V2 <= r ==> FlatName(r) in V2Defs(bundle)
    ensures DEFS <= r && !(V2 <= r) ==>
      && Carried(RootDefs(bundle), V2Defs(bundle), n) && r in Refs(RootDefs(bundle)[n])
      && FlatName(r) in RootDefs(bundle) && FlatName(r) != "v2"
  {
    NoRefAmongFlat(bundle, seen);
    n := FlatSourceRefs(bundle, seen, r);
    FlatDefinitionIs(RootDefs(bundle), V2Defs(bundle), seen, n);
  }

  lemma NoRefAmongFlat(bundle: Json, seen: set<string>)
    requires HasShape(bundle) && RefHere(Obj(RootDefs(bundle))).None? && RefHere(Obj(V2Defs(bundle))).None?
    ensures RefHere(Obj(FlatDefs(RootDefs(bundle), V2Defs(bundle), seen))).None?
  {
  }

  /** A v2 reference of a resolving bundle lands. */
  lemma V2Lands(bundle: Json, seen: set<string>, r: string)
    requires HasShape(bundle) && DEFS <= r && V2 <= r && FlatName(r) in V2Defs(bundle) && "v2" !in V2Defs(bundle)
    ensures Lands(bundle, seen, r)
  {
    var path := r[|V2|..];
    if "v2/" <= path {
      assert path == "v2" + path[2..];
      FirstSegmentOf("v2", path[2..]);
    }
  }

  /** A root reference lands exactly if its head goes into the flat map. */
  lemma RootLandsIff(bundle: Json, seen: set<string>, r: string)
    requires HasShape(bundle) && DEFS <= r && !(V2 <= r)
    requires FlatName(r) in RootDefs(bundle) && FlatName(r) != "v2"
    requires LeastClosed(seen, SharedNames(RootDefs(bundle)), NonV2Deps(RootDefs(bundle)))
    ensures Lands(bundle, seen, r) <==> HeadIncluded(bundle, r)
  {
    SeenIsPulled(RootDefs(bundle), seen);
  }

  /** A resolving bundle is flattened successfully exactly if every root reference starts from a definition
      that is in v2, is shared, or is reached by a chain of references naming definitions as a whole: a
      reference into a definition pulls nothing in by itself. */
  lemma ResolvingAcceptedIff(bundle: Json, seen: set<string>)
    requires HasShape(bundle) && Resolving(bundle)
    requires LeastClosed(seen, SharedNames(RootDefs(bundle)), NonV2Deps(RootDefs(bundle)))
    ensures Accepted(MapRefs(FlatSource(bundle, seen), Deprefix())) <==> HeadsIncluded(bundle)
  {
    var defs, v2 := RootDefs(bundle), V2Defs(bundle);
    var source := FlatSource(bundle, seen);
    forall r | r in Refs(source) ensures OnlyAtStart(r) { var _ := Origin(bundle, seen, r); }
    AcceptedIff(bundle, seen);
    if forall r :: r in Refs(source) && DEFS <= r ==> Lands(bundle, seen, r) {
      forall n, r | Carried(defs, v2, n) && r in Refs(defs[n]) && IsNonV2Ref(r) ensures HeadIncluded(bundle, r) {
        CarriedReferenceLands(bundle, seen, n, r);
      }
    }
    if HeadsIncluded(bundle) {
      forall r | r in Refs(source) && DEFS <= r ensures Lands(bundle, seen, r) {
        var n := Origin(bundle, seen, r);
        if V2 <= r { V2Lands(bundle, seen, r); } else { RootLandsIff(bundle, seen, r); }
      }
    }
  }

  /** If everything lands, so does what a carried definition refers to. */
  lemma CarriedReferenceLands(bundle: Json, seen: set<string>, n: string, r: string)
    requires HasShape(bundle) && Resolving(bundle)
    requires LeastClosed(seen, SharedNames(RootDefs(bundle)), NonV2Deps(RootDefs(bundle)))
    requires Carried(RootDefs(bundle), V2Defs(bundle), n) && r in Refs(RootDefs(bundle)[n]) && IsNonV2Ref(r)
    requires forall s :: s in Refs(FlatSource(bundle, seen)) && DEFS <= s ==> Lands(bundle, seen, s)
    ensures HeadIncluded(bundle, r)
  {
    CarriedIsFlat(RootDefs(bundle), V2Defs(bundle), seen, n);
    FlatDefinitionRefs(bundle, seen, n);
    RootLandsIff(bundle, seen, r);
  }

  /** The definition a reference starts from keeps its place in the flat map. */
  ghost predicate HeadKept(bundle: Json, r: string)
    requires HasShape(bundle) && DEFS <= r
  {
    V2 <= r || FlatName(r) in SHARED || Pulled(RootDefs(bundle), FlatName(r))
  }

  /** Where the path of a root reference leads in a map of definitions, references rewritten. */
  function PathIn(defs: map<string, Json>, r: string): Option<Place>
    requires DEFS <= r
  {
    Rewritten(Visit(Obj(defs), r[|DEFS|..]), Deprefix())
  }

  lemma NotKeptIsV2(defs: map<string, Json>, v2: map<string, Json>, seen: set<string>, path: string)
    requires FirstSegment(path) !in SHARED && FirstSegment(path) !in seen
    ensures Visit(Obj(FlatDefs(defs, v2, seen)), path) == Visit(Obj(v2), path)
  {
    FlatDefsAt(defs, v2, seen, FirstSegment(path));
    VisitAgrees(FlatDefs(defs, v2, seen), v2, path);
  }

  /** A reference whose head does not keep its place leads, in the flat bundle, into the v2 schema of that
      name, and nowhere if there is none. */
  lemma DisplacedLeadsIntoV2(bundle: Json, seen: set<string>, r: string)
    requires HasShape(bundle) && OnlyAtStart(r) && DEFS <= r && !HeadKept(bundle, r)
    requires LeastClosed(seen, SharedNames(RootDefs(bundle)), NonV2Deps(RootDefs(bundle)))
    ensures Target(MapRefs(FlatSource(bundle, seen), Deprefix()), Deprefix()(r)) == PathIn(V2Defs(bundle), r)
  {
    DeprefixIsIff(r);
    assert r == DEFS + r[|DEFS|..];
    FlatTarget(bundle, seen, r[|DEFS|..]);
    SeenIsPulled(RootDefs(bundle), seen);
    NotKeptIsV2(RootDefs(bundle), V2Defs(bundle), seen, r[|DEFS|..]);
  }

  lemma RootReferenceMeans(bundle: Json, r: string)
    requires HasShape(bundle) && DEFS <= r
    ensures Rewritten(Target(bundle, r), Deprefix()) == PathIn(RootDefs(bundle), r)
  {
    assert r == DEFS + r[|DEFS|..];
    FollowDefinition(bundle, r[|DEFS|..]);
  }

  /** On a tidy bundle flattening succeeds exactly if the heads are included.  A reference it carries keeps its
      meaning exactly if its head keeps its place, or the v2 schemas hold the same at its path. */
  lemma TidyFlattens(bundle: Json, seen: set<string>)
    requires HasShape(bundle) && Resolving(bundle) && NoClash(RootDefs(bundle), V2Defs(bundle))
    requires LeastClosed(seen, SharedNames(RootDefs(bundle)), NonV2Deps(RootDefs(bundle)))
    ensures var flat := MapRefs(FlatSource(bundle, seen), Deprefix());
            && (Accepted(flat) <==> HeadsIncluded(bundle))
            && forall r :: r in Refs(FlatSource(bundle, seen)) && DEFS <= r ==>
                 (Target(flat, Deprefix()(r)) == Rewritten(Target(bundle, r), Deprefix()) <==>
                  HeadKept(bundle, r) || PathIn(V2Defs(bundle), r) == PathIn(RootDefs(bundle), r))
  {
    ResolvingAcceptedIff(bundle, seen);
    forall r | r in Refs(FlatSource(bundle, seen)) && DEFS <= r
      ensures Target(MapRefs(FlatSource(bundle, seen), Deprefix()), Deprefix()(r)) ==
              Rewritten(Target(bundle, r), Deprefix()) <==>
              HeadKept(bundle, r) || PathIn(V2Defs(bundle), r) == PathIn(RootDefs(bundle), r)
    {
      var n := Origin(bundle, seen, r);
      if HeadKept(bundle, r) {
        SeenIsPulled(RootDefs(bundle), seen);
        SameTargetIff(bundle, seen, r);
        FlatteningPreservesMeaning(bundle, seen, r);
      } else {
        DisplacedLeadsIntoV2(bundle, seen, r);
        RootReferenceMeans(bundle, r);
      }
    }
  }

  /** References that name root definitions as a whole pull them in, so without references into root
      definitions a tidy bundle is flattened successfully and every reference keeps its meaning. */
  lemma WholeReferencesFlatten(bundle: Json, seen: set<string>)
    requires HasShape(bundle) && Resolving(bundle) && NoClash(RootDefs(bundle), V2Defs(bundle))
    requires LeastClosed(seen, SharedNames(RootDefs(bundle)), NonV2Deps(RootDefs(bundle)))
    requires forall n, r ::
      Carried(RootDefs(bundle), V2Defs(bundle), n) && r in Refs(RootDefs(bundle)[n]) && IsNonV2Ref(r) ==>
               '/' !in r[|DEFS|..]
    ensures var flat := MapRefs(FlatSource(bundle, seen), Deprefix());
            && Accepted(flat)
            && forall r :: r in Refs(FlatSource(bundle, seen)) && DEFS <= r ==>
                 Target(flat, Deprefix()(r)) == Rewritten(Target(bundle, r), Deprefix())
  {
    TidyFlattens(bundle, seen);
    forall n, r | Carried(RootDefs(bundle), V2Defs(bundle), n) && r in Refs(RootDefs(bundle)[n]) && IsNonV2Ref(r)
      ensures HeadIncluded(bundle, r)
    {
      WholeReferencePulls(RootDefs(bundle), seen, n, r);
    }
    forall r | r in Refs(FlatSource(bundle, seen)) && DEFS <= r ensures HeadKept(bundle, r) {
      if !(V2 <= r) {
        var n := Origin(bundle, seen, r);
        WholeReferencePulls(RootDefs(bundle), seen, n, r);
      }
    }
  }

  lemma WholeReferencePulls(defs: map<string, Json>, seen: set<string>, n: string, r: string)
    requires LeastClosed(seen, SharedNames(defs), NonV2Deps(defs))
    requires n in defs && (n in SHARED || Pulled(defs, n)) && r in Refs(defs[n]) && IsNonV2Ref(r) && '/' !in r[|DEFS|..]
    ensures Pulled(defs, FlatName(r))
  {
    SeenIsPulled(defs, seen);
    var name := r[|DEFS|..];
    FirstSegmentOf(name, "");
    assert name + "" == name;
    assert name in NonV2Names(defs[n]);
    if n in seen {
      assert NonV2Deps(defs)(n) <= seen;
    } else {
      assert name in SharedNames(defs);
    }
  }

  // ---------------------------------------------------------------- a reference into a definition

  function HasP(b: bool): Json {
    Obj(map["properties" := Obj(map["p" := Bool(b)])])
  }

  /** A bundle whose shared root refers into the definition `X`. */
  function TailedDefs(r: string, v2: map<string, Json>): map<string, Json> {
    map["ClientRequest" := Obj(map["$ref" := Str(r)]), "X" := HasP(true), "v2" := Obj(v2)]
  }

  function Tailed(r: string, v2: map<string, Json>): Json {
    Obj(map["definitions" := Obj(TailedDefs(r, v2))])
  }

  /** Its v2 has no schema but perhaps another `X`. */
  predicate AnotherX(v2: map<string, Json>) {
    v2 == map[] || v2 == map["X" := HasP(false)]
  }

  predicate IntoX(r: string) {
    r == DEFS + ("X" + "/" + ("properties" + "/" + "p"))
  }

  /** A reference to something that is not `v2`, of definitions without a hash. */
  lemma PlainReference(r: string, tail: string)
    requires r == DEFS + tail && tail != "" && tail[0] != 'v' && '#' !in tail
    ensures IsNonV2Ref(r) && OnlyAtStart(r) && r[|DEFS|..] == tail
  {
    assert r[|DEFS|] == tail[0] && V2[|DEFS|] == 'v';
    assert '#' !in r[1..] by { assert r[1..] == DEFS[1..] + tail; }
    OneHashOnlyAtStart(r);
  }

  /** The first segment of a path, the slash after it, and no hash. */
  lemma XTail(tail: string, x: string, rest: string)
    requires x == "X" && tail == x + rest && rest == "/" + ("properties" + "/" + "p")
    ensures tail[0] == 'X' && tail[1] == '/' && '#' !in tail && FirstSegment(tail) == x
  {
    FirstSegmentOf(x, rest);
  }

  lemma IntoXIs(r: string)
    requires IntoX(r)
    ensures IsNonV2Ref(r) && OnlyAtStart(r) && FlatName(r) == "X" && '/' in r[|DEFS|..]
  {
    var rest := "/" + ("properties" + "/" + "p");
    var tail := "X" + rest;
    assert tail == "X" + "/" + ("properties" + "/" + "p");
    XTail(tail, "X", rest);
    PlainReference(r, tail);
    assert r[|DEFS|..][1] == '/';
  }

  lemma PathIntoX(defs: map<string, Json>, b: bool)
    requires "X" in defs && defs["X"] == HasP(b)
    ensures Visit(Obj(defs), "X" + "/" + ("properties" + "/" + "p")) == Some(Place(Bool(b), false))
  {
    VisitInto(Obj(defs), "X", "properties" + "/" + "p");
    VisitInto(HasP(b), "properties", "p");
    FirstSegmentOf("p", "");
    assert "p" + "" == "p";
  }

  lemma TailedFollow(r: string, v2: map<string, Json>)
    requires IntoX(r)
    ensures Follow(Tailed(r, v2), r) == Some(Bool(true))
  {
    FollowDefinition(Tailed(r, v2), "X" + "/" + ("properties" + "/" + "p"));
    PathIntoX(TailedDefs(r, v2), true);
  }

  lemma IsIntoX(r: string)
    requires r == "#/definitions/X/properties/p"
    ensures IntoX(r)
  {
  }

  lemma PRefs(b: bool)
    ensures Refs(HasP(b)) == {}
  {
    assert Refs(Bool(b)) == {} && Refs(HasP(b).members["properties"]) == {};
  }

  lemma TailedShape(r: string, v2: map<string, Json>)
    ensures HasShape(Tailed(r, v2)) && RootDefs(Tailed(r, v2)) == TailedDefs(r, v2) && V2Defs(Tailed(r, v2)) == v2
    ensures Refs(TailedDefs(r, v2)["ClientRequest"]) == {r}
  {
    var use := TailedDefs(r, v2)["ClientRequest"];
    assert RefHere(use) == Some(r) && Refs(use.members["$ref"]) == {};
  }

  /** If the shared roots mention one name, and nothing is defined under it, it is all that is pulled in. */
  lemma OnlyPulled(defs: map<string, Json>, name: string, n: string)
    requires SharedNames(defs) <= {name} && name !in defs && Pulled(defs, n)
    ensures n == name
  {
    var p :| IsPath(p, SharedNames(defs), NonV2Deps(defs)) && p[|p| - 1] == n;
    assert Closed({name}, SharedNames(defs), NonV2Deps(defs));
    PathStaysInside(p, {name}, SharedNames(defs), NonV2Deps(defs));
  }

  lemma NoSlashes(r: string, v2: map<string, Json>, x: string)
    requires x in TailedDefs(r, v2)
    ensures '/' !in x
  {
    assert '/' !in "ClientRequest" && '/' !in "X" && '/' !in "v2";
  }

  lemma TailedShared(r: string, v2: map<string, Json>)
    requires IntoX(r)
    ensures SharedNames(TailedDefs(r, v2)) <= {r[|DEFS|..]} && r[|DEFS|..] !in TailedDefs(r, v2)
  {
    IntoXIs(r);
    TailedShape(r, v2);
    var defs := TailedDefs(r, v2);
    if r[|DEFS|..] in defs {
      NoSlashes(r, v2, r[|DEFS|..]);
      assert false;
    }
    forall s, n | s in SHARED && s in defs && n in NonV2Names(defs[s]) ensures n == r[|DEFS|..] {
      assert s == "ClientRequest" || s == "ServerNotification";
      assert Refs(defs[s]) == {r};
    }
  }

  lemma TailedPulls(r: string, v2: map<string, Json>, n: string)
    requires IntoX(r) && n in TailedDefs(r, v2)
    ensures !Pulled(TailedDefs(r, v2), n)
  {
    TailedShared(r, v2);
    if Pulled(TailedDefs(r, v2), n) {
      OnlyPulled(TailedDefs(r, v2), r[|DEFS|..], n);
      assert false;
    }
  }

  lemma TailedCarries(r: string, v2: map<string, Json>, n: string)
    requires IntoX(r) && Carried(TailedDefs(r, v2), v2, n)
    ensures n == "ClientRequest" && Refs(TailedDefs(r, v2)[n]) == {r}
  {
    TailedShape(r, v2);
    TailedPulls(r, v2, n);
  }

  lemma TailedHead(r: string, v2: map<string, Json>)
    requires IntoX(r) && HasShape(Tailed(r, v2))
    ensures DEFS <= r && IsNonV2Ref(r) && (HeadIncluded(Tailed(r, v2), r) <==> "X" in v2)
    ensures var defs := TailedDefs(r, v2);
            Carried(defs, v2, "ClientRequest") && Refs(defs["ClientRequest"]) == {r}
  {
    IntoXIs(r);
    TailedShape(r, v2);
    TailedPulls(r, v2, "X");
    assert "ClientRequest" in SHARED && "X" !in SHARED;
  }

  /** Such a bundle is accepted exactly if the v2 schemas have another `X`. */
  lemma TailedHeads(r: string, v2: map<string, Json>)
    requires IntoX(r) && HasShape(Tailed(r, v2))
    ensures HeadsIncluded(Tailed(r, v2)) <==> "X" in v2
  {
    var n := "ClientRequest";
    TailedShape(r, v2);
    TailedHead(r, v2);
    assert Carried(TailedDefs(r, v2), v2, n) && r in Refs(TailedDefs(r, v2)[n]);
    forall m, s | Carried(TailedDefs(r, v2), v2, m) && s in Refs(TailedDefs(r, v2)[m]) ensures s == r {
      TailedCarries(r, v2, m);
    }
  }

  lemma TailedOutside(r: string, v2: map<string, Json>)
    ensures Refs(Obj(Tailed(r, v2).members - {"definitions"})) == {}
    ensures RefHere(Obj(TailedDefs(r, v2))).None?
  {
    assert Tailed(r, v2).members - {"definitions"} == map[];
    assert "$ref" !in TailedDefs(r, v2);
  }

  lemma AnotherXIsTidy(v2: map<string, Json>)
    requires AnotherX(v2)
    ensures TidyV2(v2) && RefHere(Obj(v2)).None? && forall n :: n in v2 ==> n == "X" && AllOnlyAtStart(v2[n])
  {
    PRefs(false);
  }

  lemma TailedResolving(r: string, v2: map<string, Json>)
    requires IntoX(r) && AnotherX(v2)
    ensures HasShape(Tailed(r, v2)) && Resolving(Tailed(r, v2))
  {
    IntoXIs(r);
    TailedShape(r, v2);
    TailedOutside(r, v2);
    AnotherXIsTidy(v2);
    forall n | Carried(TailedDefs(r, v2), v2, n)
      ensures TidyRoot(TailedDefs(r, v2)[n], TailedDefs(r, v2), v2) && AllOnlyAtStart(TailedDefs(r, v2)[n])
    {
      TailedCarries(r, v2, n);
      assert "X" in TailedDefs(r, v2) && "X" != "v2";
    }
  }

  lemma TailedNoClash(r: string, v2: map<string, Json>)
    requires IntoX(r) && AnotherX(v2)
    ensures NoClash(TailedDefs(r, v2), v2)
  {
    TailedPulls(r, v2, "X");
    assert "X" !in SHARED;
  }

  /** A reference into a root definition can resolve and yet get the bundle refused: the bundle below is tidy,
      its shared root's reference leads somewhere, and flattening fails. */
  lemma TailedReferenceRefused(r: string, seen: set<string>)
    requires r == "#/definitions/X/properties/p"
    requires LeastClosed(seen, SharedNames(TailedDefs(r, map[])), NonV2Deps(TailedDefs(r, map[])))
    ensures var bundle := Tailed(r, map[]);
            && HasShape(bundle) && Resolving(bundle) && NoClash(RootDefs(bundle), V2Defs(bundle))
            && Follow(bundle, r) == Some(Bool(true))
            && !Accepted(MapRefs(FlatSource(bundle, seen), Deprefix()))
  {
    IsIntoX(r);
    TailedFollow(r, map[]);
    TailedShape(r, map[]);
    TailedResolving(r, map[]);
    TailedNoClash(r, map[]);
    TailedHeads(r, map[]);
    ResolvingAcceptedIff(Tailed(r, map[]), seen);
  }

  /** Worse, with a v2 schema of the same name the bundle is accepted, and the reference means something else. */
  lemma TailedReferenceChangesMeaning(r: string, v2: map<string, Json>, seen: set<string>)
    requires r == "#/definitions/X/properties/p" && v2 == map["X" := HasP(false)]
    requires LeastClosed(seen, SharedNames(TailedDefs(r, v2)), NonV2Deps(TailedDefs(r, v2)))
    ensures var bundle := Tailed(r, v2);
            && HasShape(bundle) && Resolving(bundle) && NoClash(RootDefs(bundle), V2Defs(bundle))
            && var flat := MapRefs(FlatSource(bundle, seen), Deprefix());
            && Accepted(flat) && Deprefix()(r) == r
            && Follow(bundle, r) == Some(Bool(true)) && Follow(flat, r) == Some(Bool(false))
  {
    IsIntoX(r);
    TailedFollow(r, v2);
    TailedShape(r, v2);
    TailedResolving(r, v2);
    TailedNoClash(r, v2);
    TailedHeads(r, v2);
    ResolvingAcceptedIff(Tailed(r, v2), seen);
    TailedDisplaced(r, v2, seen);
  }

  lemma TailedNotKept(r: string, v2: map<string, Json>)
    requires IntoX(r) && HasShape(Tailed(r, v2))
    ensures DEFS <= r && !HeadKept(Tailed(r, v2), r)
  {
    IntoXIs(r);
    TailedShape(r, v2);
    TailedPulls(r, v2, "X");
    assert "X" !in SHARED;
  }

  lemma TailedPath(r: string, v2: map<string, Json>)
    requires IntoX(r) && v2 == map["X" := HasP(false)]
    ensures DEFS <= r && PathIn(v2, r) == Some(Place(Bool(false), false))
  {
    assert r[|DEFS|..] == "X" + "/" + ("properties" + "/" + "p");
    PathIntoX(v2, false);
  }

  lemma TailedDisplaced(r: string, v2: map<string, Json>, seen: set<string>)
    requires IntoX(r) && v2 == map["X" := HasP(false)] && HasShape(Tailed(r, v2))
    requires LeastClosed(seen, SharedNames(TailedDefs(r, v2)), NonV2Deps(TailedDefs(r, v2)))
    ensures Deprefix()(r) == r
    ensures Follow(MapRefs(FlatSource(Tailed(r, v2), seen), Deprefix()), r) == Some(Bool(false))
  {
    IntoXIs(r);
    TailedShape(r, v2);
    TailedNotKept(r, v2);
    DeprefixIsIff(r);
    DisplacedLeadsIntoV2(Tailed(r, v2), seen, r);
    TailedPath(r, v2);
  }
}
