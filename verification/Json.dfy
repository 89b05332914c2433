/** JSON values as the schema exporter sees them, and the generic tree walks
    that its passes over `$ref` members are instances of. */
module Json {
  datatype Option<+T> = None | Some(value: T)

  datatype Result<+T, +E> = Ok(value: T) | Err(error: E)

  /** `serde_json::Value`.  Two objects are equal when they have the same members,
      in whatever order, so an object is a map.  A number is its printed text. */
  datatype Json =
    | Null
    | Bool(b: bool)
    | Num(text: string)
    | Str(s: string)
    | Arr(items: seq<Json>)
    | Obj(members: map<string, Json>)

  /** `Value::get` with a string key: `None` unless the value is an object having the key. */
  function Get(v: Json, key: string): Option<Json> {
    if v.Obj? && key in v.members then Some(v.members[key]) else None
  }

  /** `get(key).and_then(Value::as_str)` */
  function GetStr(v: Json, key: string): Option<string> {
    if v.Obj? && key in v.members && v.members[key].Str? then Some(v.members[key].s) else None
  }

  /** `get(key).and_then(Value::as_object)` */
  function GetObj(v: Json, key: string): Option<map<string, Json>> {
    if v.Obj? && key in v.members && v.members[key].Obj? then Some(v.members[key].members) else None
  }

  /** The `$ref` string of this very value, if it has one. */
  function RefHere(v: Json): Option<string> {
    GetStr(v, "$ref")
  }

  /** Every string found under a `$ref` member anywhere in the value. */
  function Refs(v: Json): (refs: set<string>) {
    (match RefHere(v) case Some(r) => {r} case None => {}) +
    match v
    case Arr(items) => set i, r | 0 <= i < |items| && r in Refs(items[i]) :: r
    case Obj(members) => set k, r | k in members && r in Refs(members[k]) :: r
    case _ => {}
  }

  lemma RefsOfMember(members: map<string, Json>, k: string)
    requires k in members
    ensures Refs(members[k]) <= Refs(Obj(members))
  {
  }

  /** Rewrites every `$ref` string of the tree with `f`: the shape shared by all
      the exporter's reference rewriters. */
  function MapRefs(v: Json, f: string -> string): Json
    decreases v
  {
    match v
    case Arr(items) => Arr(seq(|items|, i requires 0 <= i < |items| => MapRefs(items[i], f)))
    case Obj(members) =>
      var walked := map k | k in members :: MapRefs(members[k], f);
      (match RefHere(v)
       case Some(r) => Obj(walked["$ref" := Str(f(r))])
       case None => Obj(walked))
    case _ => v
  }

  /** Rewriting maps the set of references: forwards ... */
  lemma {:induction false} MapRefsForward(v: Json, f: string -> string, r: string)
    requires r in Refs(v)
    ensures f(r) in Refs(MapRefs(v, f))
    decreases v
  {
    var w := MapRefs(v, f);
    if RefHere(v) == Some(r) {
      assert RefHere(w) == Some(f(r));
    } else {
      match v
      case Arr(items) =>
        var i :| 0 <= i < |items| && r in Refs(items[i]);
        MapRefsForward(items[i], f, r);
        assert w.items[i] == MapRefs(items[i], f);
      case Obj(members) =>
        var k :| k in members && r in Refs(members[k]);
        MapRefsForward(members[k], f, r);
        assert k in w.members;
        assert !(RefHere(v).Some? && k == "$ref");
        assert w.members[k] == MapRefs(members[k], f);
    }
  }

  /** ... and backwards. */
  lemma {:induction false} MapRefsBackward(v: Json, f: string -> string, s: string) returns (r: string)
    requires s in Refs(MapRefs(v, f))
    ensures r in Refs(v) && f(r) == s
    decreases v
  {
    var w := MapRefs(v, f);
    if RefHere(w) == Some(s) {
      r := v.members["$ref"].s;
      assert RefHere(v) == Some(r);
    } else {
      match v
      case Arr(items) =>
        var i :| 0 <= i < |items| && s in Refs(w.items[i]);
        assert w.items[i] == MapRefs(items[i], f);
        r := MapRefsBackward(items[i], f, s);
      case Obj(members) =>
        var k :| k in w.members && s in Refs(w.members[k]);
        assert k in members;
        assert !(RefHere(v).Some? && k == "$ref");
        assert w.members[k] == MapRefs(members[k], f);
        r := MapRefsBackward(members[k], f, s);
      case _ =>
    }
  }

  /** Rewriting twice is rewriting once with the composition. */
  lemma {:induction false} MapRefsCompose(v: Json, f: string -> string, g: string -> string, h: string -> string)
    requires forall r :: r in Refs(v) ==> h(r) == g(f(r))
    ensures MapRefs(MapRefs(v, f), g) == MapRefs(v, h)
    decreases v
  {
    match v
    case Arr(items) =>
      forall i | 0 <= i < |items| ensures MapRefs(MapRefs(items[i], f), g) == MapRefs(items[i], h) {
        assert Refs(items[i]) <= Refs(v);
        MapRefsCompose(items[i], f, g, h);
      }
      assert MapRefs(MapRefs(v, f), g).items == MapRefs(v, h).items;
    case Obj(members) =>
      forall k | k in members && !(RefHere(v).Some? && k == "$ref")
        ensures MapRefs(MapRefs(members[k], f), g) == MapRefs(members[k], h)
      {
        assert Refs(members[k]) <= Refs(v);
        MapRefsCompose(members[k], f, g, h);
      }
      MapRefsComposeMembers(v, f, g, h);
    case _ =>
  }

  lemma MapRefsComposeMembers(v: Json, f: string -> string, g: string -> string, h: string -> string)
    requires v.Obj? && (RefHere(v).Some? ==> h(RefHere(v).value) == g(f(RefHere(v).value)))
    requires forall k :: k in v.members && !(RefHere(v).Some? && k == "$ref") ==>
               MapRefs(MapRefs(v.members[k], f), g) == MapRefs(v.members[k], h)
    ensures MapRefs(MapRefs(v, f), g) == MapRefs(v, h)
  {
    var w := MapRefs(v, f);
    MapRefsMembers(v, f);
    MapRefsMembers(w, g);
    MapRefsMembers(v, h);
    assert RefHere(w) == match RefHere(v) case Some(r) => Some(f(r)) case None => None;
    forall k | k in v.members
      ensures MapRefs(w, g).members[k] == MapRefs(v, h).members[k]
    {
    }
  }

  /** What a rewriter does to each member of an object. */
  lemma MapRefsMembers(v: Json, f: string -> string)
    requires v.Obj?
    ensures var w := MapRefs(v, f);
            && w.Obj? && w.members.Keys == v.members.Keys
            && (RefHere(v).Some? ==> w.members["$ref"] == Str(f(RefHere(v).value)))
            && (forall k :: k in v.members && !(RefHere(v).Some? && k == "$ref") ==>
                  w.members[k] == MapRefs(v.members[k], f))
            && (RefHere(v).None? ==> RefHere(w).None?)
  {
    if RefHere(v).None? && "$ref" in v.members {
      assert MapRefs(v, f).members["$ref"] == MapRefs(v.members["$ref"], f);
    }
  }

  /** What becomes of one member of an object: the string of a `$ref` is rewritten, in all else the
      references are. */
  function MemberRewritten(members: map<string, Json>, k: string, f: string -> string): Json
    requires k in members
  {
    if k == "$ref" && members[k].Str? then Str(f(members[k].s)) else MapRefs(members[k], f)
  }

  lemma MapRefsIsMemberwise(members: map<string, Json>, f: string -> string)
    ensures MapRefs(Obj(members), f) == Obj(map k | k in members :: MemberRewritten(members, k, f))
  {
    MapRefsMembers(Obj(members), f);
    assert MapRefs(Obj(members), f).members == map k | k in members :: MemberRewritten(members, k, f);
  }

  /** The picked items are those at the wanted places, in order. */
  ghost predicate Picks<T(!new)>(items: seq<T>, wanted: seq<bool>, picked: seq<T>)
    requires |items| == |wanted|
  {
    exists places: seq<nat> :: PicksAt(items, wanted, picked, places)
  }

  ghost predicate PicksAt<T(!new)>(items: seq<T>, wanted: seq<bool>, picked: seq<T>, places: seq<nat>)
    requires |items| == |wanted|
  {
    && |places| == |picked|
    && (forall k :: 0 <= k < |places| ==> places[k] < |items| && picked[k] == items[places[k]])
    && (forall j, k :: 0 <= j < k < |places| ==> places[j] < places[k])
    && (forall i: nat :: i < |items| ==> (wanted[i] <==> i in places))
  }

  /** Going through the items from the last to the first. */
  lemma PickOneMore<T(!new)>(items: seq<T>, wanted: seq<bool>, picked: seq<T>)
    requires |items| == |wanted| && items != [] && Picks(items[1..], wanted[1..], picked)
    ensures Picks(items, wanted, (if wanted[0] then [items[0]] else []) + picked)
  {
    var places: seq<nat> :| PicksAt(items[1..], wanted[1..], picked, places);
    if wanted[0] {
      PickFirst(items, wanted, picked, places);
    } else {
      SkipFirst(items, wanted, picked, places);
      assert [] + picked == picked;
    }
  }

  lemma PickFirst<T(!new)>(items: seq<T>, wanted: seq<bool>, picked: seq<T>, places: seq<nat>)
    requires |items| == |wanted| && items != [] && PicksAt(items[1..], wanted[1..], picked, places) && wanted[0]
    ensures PicksAt(items, wanted, [items[0]] + picked, [0] + Later(places))
  {
    forall i: nat | i < |items| ensures wanted[i] <==> i in [0] + Later(places) { InLater(places, i); }
  }

  lemma SkipFirst<T(!new)>(items: seq<T>, wanted: seq<bool>, picked: seq<T>, places: seq<nat>)
    requires |items| == |wanted| && items != [] && PicksAt(items[1..], wanted[1..], picked, places) && !wanted[0]
    ensures PicksAt(items, wanted, picked, Later(places))
  {
    forall i: nat | i < |items| ensures wanted[i] <==> i in Later(places) { InLater(places, i); }
  }

  function Later(places: seq<nat>): seq<nat> {
    seq(|places|, k requires 0 <= k < |places| => places[k] + 1)
  }

  lemma InLater(places: seq<nat>, i: nat)
    ensures i in Later(places) <==> i > 0 && i - 1 in places
  {
    if i > 0 && i - 1 in places {
      var k :| 0 <= k < |places| && places[k] == i - 1;
      assert Later(places)[k] == i;
    }
  }

  lemma PickNothing<T(!new)>(items: seq<T>, wanted: seq<bool>)
    requires items == [] && wanted == []
    ensures Picks(items, wanted, [])
  {
    assert PicksAt(items, wanted, [], []);
  }

  /** A rewriter leaves a tree alone exactly when it fixes each reference in it. */
  lemma {:induction false} MapRefsFixed(v: Json, f: string -> string)
    ensures MapRefs(v, f) == v <==> forall r :: r in Refs(v) ==> f(r) == r
    decreases v
  {
    if forall r :: r in Refs(v) ==> f(r) == r {
      MapRefsIdentity(v, f);
    } else {
      var r :| r in Refs(v) && f(r) != r;
      MapRefsMoves(v, f, r);
    }
  }

  lemma {:induction false} MapRefsIdentity(v: Json, f: string -> string)
    requires forall r :: r in Refs(v) ==> f(r) == r
    ensures MapRefs(v, f) == v
    decreases v
  {
    var w := MapRefs(v, f);
    match v
    case Arr(items) =>
      forall i | 0 <= i < |items| ensures w.items[i] == items[i] {
        assert Refs(items[i]) <= Refs(v);
        MapRefsIdentity(items[i], f);
      }
      assert w.items == items;
    case Obj(members) =>
      forall k | k in members ensures w.members[k] == members[k] {
        assert Refs(members[k]) <= Refs(v);
        MapRefsIdentity(members[k], f);
      }
      assert w.members == members;
    case _ =>
  }

  lemma {:induction false} MapRefsMoves(v: Json, f: string -> string, r: string)
    requires r in Refs(v) && f(r) != r
    ensures MapRefs(v, f) != v
    decreases v
  {
    var w := MapRefs(v, f);
    if RefHere(v) == Some(r) {
      assert RefHere(w) == Some(f(r));
    } else {
      match v
      case Arr(items) =>
        var i :| 0 <= i < |items| && r in Refs(items[i]);
        MapRefsMoves(items[i], f, r);
        assert w.items[i] == MapRefs(items[i], f);
      case Obj(members) =>
        var k :| k in members && r in Refs(members[k]);
        MapRefsMoves(members[k], f, r);
        assert !(RefHere(v).Some? && k == "$ref");
        assert w.members[k] == MapRefs(members[k], f);
    }
  }

  /** A rewriter is idempotent on a tree exactly when it is so on each reference in the tree. */
  lemma MapRefsIdempotent(v: Json, f: string -> string)
    ensures MapRefs(MapRefs(v, f), f) == MapRefs(v, f) <==> forall r :: r in Refs(v) ==> f(f(r)) == f(r)
  {
    var w := MapRefs(v, f);
    MapRefsFixed(w, f);
    if forall s :: s in Refs(w) ==> f(s) == s {
      forall r | r in Refs(v) ensures f(f(r)) == f(r) { MapRefsForward(v, f, r); }
    }
    if forall r :: r in Refs(v) ==> f(f(r)) == f(r) {
      forall s | s in Refs(w) ensures f(s) == s { var r := MapRefsBackward(v, f, s); }
    }
  }
}
