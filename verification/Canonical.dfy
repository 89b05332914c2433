/** Canonicalisation of schema files for comparison: it decides equality up to the order
    of object members and of arrays whose every item has a sort key. */
module Canonical {
  import opened Json
  import opened Sorting

  datatype Member = Member(key: string, value: Tree)

  /** A parsed file, with the order of object members still visible. */
  datatype Tree =
    | TNull
    | TBool(b: bool)
    | TNum(text: string)
    | TStr(s: string)
    | TArr(items: seq<Tree>)
    | TObj(entries: seq<Member>)

  function Keys(entries: seq<Member>): set<string> {
    set i | 0 <= i < |entries| :: entries[i].key
  }

  /** Member names are distinct, at every depth. */
  ghost predicate WellFormed(v: Tree) {
    match v
    case TArr(items) => forall i | 0 <= i < |items| :: WellFormed(items[i])
    case TObj(entries) =>
      && (forall i, j | 0 <= i < j < |entries| :: entries[i].key != entries[j].key)
      && (forall i | 0 <= i < |entries| :: WellFormed(entries[i].value))
    case _ => true
  }

  /** `map.get(key)` when that is a string. */
  function TextAt(entries: seq<Member>, key: string): Option<string> {
    if entries == [] then None
    else if entries[0].key == key then (if entries[0].value.TStr? then Some(entries[0].value.s) else None)
    else TextAt(entries[1..], key)
  }

  /** `schema_array_item_sort_key` */
  function SortKey(v: Tree): Option<string> {
    match v
    case TNull => Some("null")
    case TBool(b) => Some("b:" + if b then "true" else "false")
    case TNum(text) => Some("n:" + text)
    case TStr(s) => Some("s:" + s)
    case TObj(entries) =>
      if TextAt(entries, "$ref").Some? then Some("ref:" + TextAt(entries, "$ref").value)
      else if TextAt(entries, "title").Some? then Some("title:" + TextAt(entries, "title").value)
      else None
    case TArr(_) => None
  }

  predicate AllKeyed(items: seq<Tree>) {
    forall i | 0 <= i < |items| :: SortKey(items[i]).Some?
  }

  /** The serialiser used for ties. */
  type Serialise = Tree -> string

  ghost predicate Injective(ser: Serialise) {
    forall x, y :: ser(x) == ser(y) ==> x == y
  }

  function ItemRank(ser: Serialise): Tree -> Rank {
    (v: Tree) => Rank(match SortKey(v) case Some(k) => k case None => "", ser(v))
  }

  function MemberRank(): Member -> Rank {
    (e: Member) => Rank(e.key, "")
  }

  /** `canonicalize_json` */
  function Canonicalize(v: Tree, ser: Serialise): Tree
    decreases v, 1
  {
    match v
    case TArr(items) =>
      var walked := WalkItems(items, ser);
      TArr(if AllKeyed(walked) then Sort(walked, ItemRank(ser)) else walked)
    case TObj(entries) => TObj(Sort(WalkEntries(entries, ser), MemberRank()))
    case _ => v
  }

  function WalkItems(items: seq<Tree>, ser: Serialise): seq<Tree>
    decreases items, 0
  {
    seq(|items|, i requires 0 <= i < |items| => Canonicalize(items[i], ser))
  }

  function WalkEntries(entries: seq<Member>, ser: Serialise): seq<Member>
    decreases entries, 0
  {
    seq(|entries|, i requires 0 <= i < |entries| => Member(entries[i].key, Canonicalize(entries[i].value, ser)))
  }

  // ---------------------------------------------------------------- the equivalence

  function Without<T>(s: seq<T>, j: nat): seq<T>
    requires j < |s|
  {
    s[..j] + s[j + 1..]
  }

  /** Some member of that name is a string. */
  predicate HasText(entries: seq<Member>, key: string) {
    exists i | 0 <= i < |entries| :: entries[i].key == key && entries[i].value.TStr?
  }

  /** Scalars, and objects that are named by a reference or a title. */
  predicate Nameable(v: Tree) {
    match v
    case TObj(entries) => HasText(entries, "$ref") || HasText(entries, "title")
    case TArr(_) => false
    case _ => true
  }

  /** Every item is a scalar or a named object. */
  predicate AnyOrder(items: seq<Tree>) {
    forall i | 0 <= i < |items| :: Nameable(items[i])
  }

  /** Equal up to the order of members and of arrays of scalars and named objects. */
  ghost predicate Equivalent(a: Tree, b: Tree)
    decreases a, 1
  {
    if a.TArr? && b.TArr? then
      if AnyOrder(a.items) then PairedOff(a.items, b.items)
      else |a.items| == |b.items| && forall i | 0 <= i < |a.items| :: Equivalent(a.items[i], b.items[i])
    else if a.TObj? && b.TObj? then
      && Keys(a.entries) == Keys(b.entries)
      && forall i, j | 0 <= i < |a.entries| && 0 <= j < |b.entries| && a.entries[i].key == b.entries[j].key ::
           Equivalent(a.entries[i].value, b.entries[j].value)
    else a == b
  }

  /** The items can be paired off, each with an equivalent one. */
  ghost predicate PairedOff(xs: seq<Tree>, ys: seq<Tree>)
    decreases xs, 0
  {
    if xs == [] then ys == []
    else exists j :: 0 <= j < |ys| && Equivalent(xs[0], ys[j]) && PairedOff(xs[1..], Without(ys, j))
  }

  // ---------------------------------------------------------------- distinctness

  ghost predicate Distinct<T>(s: seq<T>) {
    forall i, j :: 0 <= i < j < |s| ==> s[i] != s[j]
  }

  ghost predicate DistinctKeys(entries: seq<Member>) {
    forall i, j :: 0 <= i < j < |entries| ==> entries[i].key != entries[j].key
  }

  lemma {:induction false} DistinctIffSingle<T>(s: seq<T>)
    ensures Distinct(s) <==> forall x :: x in s ==> multiset(s)[x] == 1
  {
    if s != [] {
      var t := s[..|s| - 1];
      var last := s[|s| - 1];
      assert s == t + [last];
      DistinctIffSingle(t);
      if Distinct(s) {
        assert Distinct(t) && last !in t;
        forall x | x in s ensures multiset(s)[x] == 1 {
          assert x in t || x == last;
          assert x !in t ==> x !in multiset(t);
        }
      }
      if forall x :: x in s ==> multiset(s)[x] == 1 {
        assert last in s && last !in multiset(t);
        forall x | x in t ensures multiset(t)[x] == 1 {
          assert x in s && x in multiset(t);
        }
      }
    }
  }

  lemma DistinctPermutes<T>(s: seq<T>, t: seq<T>)
    requires multiset(s) == multiset(t) && Distinct(s)
    ensures Distinct(t)
  {
    DistinctIffSingle(s);
    DistinctIffSingle(t);
    forall x | x in t ensures multiset(t)[x] == 1 { assert x in multiset(t) && x in multiset(s); }
  }

  lemma SameDistinctItems<T>(s: seq<T>, t: seq<T>)
    requires Distinct(s) && Distinct(t) && forall x :: x in s <==> x in t
    ensures multiset(s) == multiset(t)
  {
    DistinctIffSingle(s);
    DistinctIffSingle(t);
    forall x ensures multiset(s)[x] == multiset(t)[x] {
      if x in s {
        assert x in t;
      } else {
        assert x !in multiset(s) && x !in multiset(t);
      }
    }
  }

  lemma DistinctKeysPermute(s: seq<Member>, t: seq<Member>)
    requires multiset(s) == multiset(t) && DistinctKeys(s)
    ensures DistinctKeys(t)
  {
    assert Distinct(s);
    DistinctPermutes(s, t);
    forall i, j | 0 <= i < j < |t| ensures t[i].key != t[j].key {
      assert t[i] in multiset(s) && t[j] in multiset(s);
    }
  }

  // ---------------------------------------------------------------- sort keys survive

  lemma {:induction false} TextAtIs(entries: seq<Member>, key: string, text: string)
    requires DistinctKeys(entries)
    ensures TextAt(entries, key) == Some(text) <==> Member(key, TStr(text)) in entries
  {
    if entries != [] {
      TextAtIs(entries[1..], key, text);
      assert entries == [entries[0]] + entries[1..];
    }
  }

  lemma TextMeans(entries: seq<Member>, key: string)
    requires DistinctKeys(entries)
    ensures TextAt(entries, key).Some? <==> HasText(entries, key)
  {
    forall i | 0 <= i < |entries| && entries[i].key == key && entries[i].value.TStr?
      ensures TextAt(entries, key).Some?
    {
      TextAtIs(entries, key, entries[i].value.s);
    }
    if TextAt(entries, key).Some? {
      TextAtIs(entries, key, TextAt(entries, key).value);
    }
  }

  /** Scalars and named objects have a sort key, and nothing else does. */
  lemma NameableMeans(v: Tree)
    requires WellFormed(v)
    ensures SortKey(v).Some? <==> Nameable(v)
  {
    if v.TObj? {
      TextMeans(v.entries, "$ref");
      TextMeans(v.entries, "title");
    }
  }

  lemma AnyOrderMeans(items: seq<Tree>)
    requires forall i | 0 <= i < |items| :: WellFormed(items[i])
    ensures AllKeyed(items) <==> AnyOrder(items)
  {
    forall i | 0 <= i < |items| ensures SortKey(items[i]).Some? <==> Nameable(items[i]) { NameableMeans(items[i]); }
  }

  /** The sort key of a scalar is its text after a letter for its kind. */
  lemma ScalarKeys(b: bool, text: string)
    ensures SortKey(TNull) == Some("null")
    ensures SortKey(TBool(true)) == Some("b:true") && SortKey(TBool(false)) == Some("b:false")
    ensures SortKey(TNum(text)) == Some("n:" + text) && SortKey(TStr(text)) == Some("s:" + text)
  {
    assert "b:" + "true" == "b:true" && "b:" + "false" == "b:false";
  }

  /** The sort key of an object is its reference, or without one its title. */
  lemma ObjectKeys(entries: seq<Member>, text: string)
    requires DistinctKeys(entries)
    ensures Member("$ref", TStr(text)) in entries ==> SortKey(TObj(entries)) == Some("ref:" + text)
    ensures !HasText(entries, "$ref") && Member("title", TStr(text)) in entries ==>
      SortKey(TObj(entries)) == Some("title:" + text)
  {
    TextAtIs(entries, "$ref", text);
    TextAtIs(entries, "title", text);
    TextMeans(entries, "$ref");
  }

  lemma TextCanonical(v: Tree, text: string, ser: Serialise)
    ensures Canonicalize(v, ser) == TStr(text) <==> v == TStr(text)
  {
    match v case TArr(_) => case TObj(_) => case _ =>
  }

  lemma TextAtCanonical(entries: seq<Member>, key: string, ser: Serialise)
    requires DistinctKeys(entries)
    ensures TextAt(Sort(WalkEntries(entries, ser), MemberRank()), key) == TextAt(entries, key)
  {
    var walked := WalkEntries(entries, ser);
    var sorted := Sort(walked, MemberRank());
    SortSorts(walked, MemberRank());
    DistinctKeysPermute(walked, sorted);
    forall text ensures TextAt(sorted, key) == Some(text) <==> TextAt(entries, key) == Some(text) {
      TextAtIs(entries, key, text);
      TextAtIs(sorted, key, text);
      var m := Member(key, TStr(text));
      assert m in sorted <==> m in walked by { assert m in multiset(sorted) <==> m in multiset(walked); }
      if m in entries {
        var i :| 0 <= i < |entries| && entries[i] == m;
        TextCanonical(entries[i].value, text, ser);
        assert walked[i] == m;
      }
      if m in walked {
        var i :| 0 <= i < |walked| && walked[i] == m;
        TextCanonical(entries[i].value, text, ser);
        assert entries[i] == m;
      }
    }
    assert TextAt(entries, key).Some? ==> TextAt(sorted, key) == Some(TextAt(entries, key).value);
    assert TextAt(sorted, key).Some? ==> TextAt(entries, key) == Some(TextAt(sorted, key).value);
  }

  lemma SortKeySurvives(v: Tree, ser: Serialise)
    requires WellFormed(v)
    ensures SortKey(Canonicalize(v, ser)) == SortKey(v)
  {
    if v.TObj? {
      TextAtCanonical(v.entries, "$ref", ser);
      TextAtCanonical(v.entries, "title", ser);
    }
  }

  lemma KeyedSurvives(items: seq<Tree>, ser: Serialise)
    requires forall i | 0 <= i < |items| :: WellFormed(items[i])
    ensures AllKeyed(WalkItems(items, ser)) <==> AllKeyed(items)
  {
    var walked := WalkItems(items, ser);
    forall i | 0 <= i < |items| ensures SortKey(walked[i]) == SortKey(items[i]) { SortKeySurvives(items[i], ser); }
  }

  lemma KeyedPermutes(xs: seq<Tree>, ys: seq<Tree>)
    requires multiset(xs) == multiset(ys) && AllKeyed(xs)
    ensures AllKeyed(ys)
  {
    forall i | 0 <= i < |ys| ensures SortKey(ys[i]).Some? {
      assert ys[i] in multiset(xs);
      assert ys[i] in xs;
    }
  }

  /** Canonicalisation preserves each array's multiset of canonical items. */
  lemma ArrayItemsKept(items: seq<Tree>, ser: Serialise)
    ensures multiset(Canonicalize(TArr(items), ser).items) == multiset(WalkItems(items, ser))
  {
    SortSorts(WalkItems(items, ser), ItemRank(ser));
  }

  // ---------------------------------------------------------------- equivalent trees have one canonical form

  lemma {:induction false} EquivalentSameForm(a: Tree, b: Tree, ser: Serialise)
    requires WellFormed(a) && WellFormed(b) && Injective(ser) && Equivalent(a, b)
    ensures Canonicalize(a, ser) == Canonicalize(b, ser)
    decreases a, 1
  {
    if a.TArr? && b.TArr? {
      var xs, ys := WalkItems(a.items, ser), WalkItems(b.items, ser);
      KeyedSurvives(a.items, ser);
      AnyOrderMeans(a.items);
      if AllKeyed(a.items) {
        PairedOffSameItems(a.items, b.items, ser);
        KeyedPermutes(xs, ys);
        SortOrderFree(xs, ys, ItemRank(ser));
      } else {
        forall i | 0 <= i < |a.items| ensures xs[i] == ys[i] { EquivalentSameForm(a.items[i], b.items[i], ser); }
        assert xs == ys;
      }
    } else if a.TObj? && b.TObj? {
      var xs, ys := WalkEntries(a.entries, ser), WalkEntries(b.entries, ser);
      forall i, j | 0 <= i < |xs| && 0 <= j < |ys| && xs[i].key == ys[j].key ensures xs[i] == ys[j] {
        EquivalentSameForm(a.entries[i].value, b.entries[j].value, ser);
      }
      SameMembers(a.entries, b.entries, xs, ys);
      SortOrderFree(xs, ys, MemberRank());
    }
  }

  lemma SameMembers(ae: seq<Member>, be: seq<Member>, xs: seq<Member>, ys: seq<Member>)
    requires DistinctKeys(ae) && DistinctKeys(be) && Keys(ae) == Keys(be)
    requires |xs| == |ae| && |ys| == |be|
    requires forall i :: 0 <= i < |xs| ==> xs[i].key == ae[i].key
    requires forall i :: 0 <= i < |ys| ==> ys[i].key == be[i].key
    requires forall i, j :: 0 <= i < |xs| && 0 <= j < |ys| && xs[i].key == ys[j].key ==> xs[i] == ys[j]
    ensures multiset(xs) == multiset(ys) && Separates(MemberRank(), xs)
  {
    forall m ensures m in xs <==> m in ys {
      if m in xs {
        var i :| 0 <= i < |xs| && xs[i] == m;
        assert ae[i].key in Keys(be);
        var j :| 0 <= j < |be| && be[j].key == ae[i].key;
        assert ys[j] == m;
      }
      if m in ys {
        var j :| 0 <= j < |ys| && ys[j] == m;
        assert be[j].key in Keys(ae);
        var i :| 0 <= i < |ae| && ae[i].key == be[j].key;
        assert xs[i] == m;
      }
    }
    SameDistinctItems(xs, ys);
  }

  lemma {:induction false} PairedOffSameItems(xs: seq<Tree>, ys: seq<Tree>, ser: Serialise)
    requires Injective(ser) && PairedOff(xs, ys)
    requires forall i | 0 <= i < |xs| :: WellFormed(xs[i])
    requires forall i | 0 <= i < |ys| :: WellFormed(ys[i])
    ensures multiset(WalkItems(xs, ser)) == multiset(WalkItems(ys, ser))
    decreases xs, 0
  {
    if xs != [] {
      var j :| 0 <= j < |ys| && Equivalent(xs[0], ys[j]) && PairedOff(xs[1..], Without(ys, j));
      EquivalentSameForm(xs[0], ys[j], ser);
      PairedOffSameItems(xs[1..], Without(ys, j), ser);
      WalkSplit(xs, 0, ser);
      WalkSplit(ys, j, ser);
      assert Without(xs, 0) == xs[1..];
    }
  }

  lemma WithoutItems<T>(s: seq<T>, j: nat)
    requires j < |s|
    ensures multiset(s) == multiset(Without(s, j)) + multiset{s[j]}
  {
    assert s == s[..j] + [s[j]] + s[j + 1..];
  }

  lemma WithoutAt<T>(s: seq<T>, j: nat, k: nat)
    requires j < |s| && k < |s| - 1
    ensures Without(s, j)[k] == s[if k < j then k else k + 1]
  {
  }

  lemma WalkWithout(xs: seq<Tree>, j: nat, ser: Serialise)
    requires j < |xs|
    ensures WalkItems(Without(xs, j), ser) == Without(WalkItems(xs, ser), j)
  {
    var left, right := WalkItems(Without(xs, j), ser), Without(WalkItems(xs, ser), j);
    forall k | 0 <= k < |left|
      ensures left[k] == right[k]
    {
      WithoutAt(xs, j, k);
      WithoutAt(WalkItems(xs, ser), j, k);
    }
  }

  lemma WalkSplit(xs: seq<Tree>, j: nat, ser: Serialise)
    requires j < |xs|
    ensures multiset(WalkItems(xs, ser)) ==
            multiset(WalkItems(Without(xs, j), ser)) + multiset{Canonicalize(xs[j], ser)}
  {
    WalkWithout(xs, j, ser);
    WithoutItems(WalkItems(xs, ser), j);
  }

  // ---------------------------------------------------------------- one canonical form means equivalent

  lemma {:induction false} SameFormEquivalent(a: Tree, b: Tree, ser: Serialise)
    requires WellFormed(a) && WellFormed(b) && Canonicalize(a, ser) == Canonicalize(b, ser)
    ensures Equivalent(a, b)
    decreases a, 1
  {
    if a.TArr? {
      var xs, ys := WalkItems(a.items, ser), WalkItems(b.items, ser);
      KeyedSurvives(a.items, ser);
      KeyedSurvives(b.items, ser);
      ArrayItemsKept(a.items, ser);
      ArrayItemsKept(b.items, ser);
      AnyOrderMeans(a.items);
      if AllKeyed(a.items) {
        SameItemsPairedOff(a.items, b.items, ser);
      } else {
        if AllKeyed(ys) { KeyedPermutes(ys, xs); }
        assert xs == ys && |xs| == |ys|;
        forall i | 0 <= i < |a.items| ensures Equivalent(a.items[i], b.items[i]) {
          assert xs[i] == ys[i];
          SameFormEquivalent(a.items[i], b.items[i], ser);
        }
      }
    } else if a.TObj? {
      var xs, ys := WalkEntries(a.entries, ser), WalkEntries(b.entries, ser);
      SortSorts(xs, MemberRank());
      SortSorts(ys, MemberRank());
      MembersMatch(a.entries, b.entries, xs, ys);
      forall i, j | 0 <= i < |a.entries| && 0 <= j < |b.entries| && a.entries[i].key == b.entries[j].key
        ensures Equivalent(a.entries[i].value, b.entries[j].value)
      {
        assert xs[i] == ys[j];
        SameFormEquivalent(a.entries[i].value, b.entries[j].value, ser);
      }
    }
  }

  lemma ItemsMatch<T>(xs: seq<T>, ys: seq<T>, i: nat) returns (j: nat)
    requires multiset(xs) == multiset(ys) && i < |xs|
    ensures j < |ys| && ys[j] == xs[i]
  {
    assert xs[i] in multiset(ys);
    assert xs[i] in ys;
    j :| j < |ys| && ys[j] == xs[i];
  }

  lemma KeysMatch(ae: seq<Member>, be: seq<Member>, xs: seq<Member>, ys: seq<Member>)
    requires multiset(xs) == multiset(ys) && |xs| == |ae| && |ys| == |be|
    requires forall i :: 0 <= i < |xs| ==> xs[i].key == ae[i].key
    requires forall i :: 0 <= i < |ys| ==> ys[i].key == be[i].key
    ensures Keys(ae) <= Keys(be)
  {
    forall i | 0 <= i < |ae| ensures ae[i].key in Keys(be) {
      var j := ItemsMatch(xs, ys, i);
      assert be[j].key == ae[i].key;
    }
  }

  lemma MembersMatch(ae: seq<Member>, be: seq<Member>, xs: seq<Member>, ys: seq<Member>)
    requires DistinctKeys(be) && multiset(xs) == multiset(ys)
    requires |xs| == |ae| && |ys| == |be|
    requires forall i :: 0 <= i < |xs| ==> xs[i].key == ae[i].key
    requires forall i :: 0 <= i < |ys| ==> ys[i].key == be[i].key
    ensures Keys(ae) == Keys(be)
    ensures forall i, j :: 0 <= i < |ae| && 0 <= j < |be| && ae[i].key == be[j].key ==> xs[i] == ys[j]
  {
    KeysMatch(ae, be, xs, ys);
    KeysMatch(be, ae, ys, xs);
    forall i, j | 0 <= i < |ae| && 0 <= j < |be| && ae[i].key == be[j].key ensures xs[i] == ys[j] {
      var m := ItemsMatch(xs, ys, i);
      assert be[m].key == be[j].key;
    }
  }

  lemma {:induction false} SameItemsPairedOff(xs: seq<Tree>, ys: seq<Tree>, ser: Serialise)
    requires multiset(WalkItems(xs, ser)) == multiset(WalkItems(ys, ser))
    requires forall i | 0 <= i < |xs| :: WellFormed(xs[i])
    requires forall i | 0 <= i < |ys| :: WellFormed(ys[i])
    ensures PairedOff(xs, ys)
    decreases xs, 0
  {
    var wx, wy := WalkItems(xs, ser), WalkItems(ys, ser);
    assert |multiset(wx)| == |xs| && |multiset(wy)| == |ys|;
    if xs != [] {
      var j := ItemsMatch(wx, wy, 0);
      SameFormEquivalent(xs[0], ys[j], ser);
      RestMatches(xs, ys, j, ser);
      SameItemsPairedOff(xs[1..], Without(ys, j), ser);
    }
  }

  lemma RestMatches(xs: seq<Tree>, ys: seq<Tree>, j: nat, ser: Serialise)
    requires multiset(WalkItems(xs, ser)) == multiset(WalkItems(ys, ser))
    requires xs != [] && j < |ys| && Canonicalize(xs[0], ser) == Canonicalize(ys[j], ser)
    ensures multiset(WalkItems(xs[1..], ser)) == multiset(WalkItems(Without(ys, j), ser))
  {
    var one := multiset{Canonicalize(xs[0], ser)};
    WalkSplit(xs, 0, ser);
    WalkSplit(ys, j, ser);
    assert Without(xs, 0) == xs[1..];
    assert multiset(WalkItems(xs[1..], ser)) == multiset(WalkItems(xs, ser)) - one;
    assert multiset(WalkItems(Without(ys, j), ser)) == multiset(WalkItems(ys, ser)) - one;
  }

  /** Canonicalisation decides the equivalence. */
  lemma CanonicalizeDecides(a: Tree, b: Tree, ser: Serialise)
    requires WellFormed(a) && WellFormed(b) && Injective(ser)
    ensures Canonicalize(a, ser) == Canonicalize(b, ser) <==> Equivalent(a, b)
  {
    if Equivalent(a, b) { EquivalentSameForm(a, b, ser); }
    if Canonicalize(a, ser) == Canonicalize(b, ser) { SameFormEquivalent(a, b, ser); }
  }

  function Titled(title: string): Tree {
    TObj([Member("title", TStr(title))])
  }

  /** For instance two titled objects may come in either order. */
  lemma TitledEitherWay(a: string, b: string, ser: Serialise)
    requires Injective(ser)
    ensures Canonicalize(TArr([Titled(a), Titled(b)]), ser) == Canonicalize(TArr([Titled(b), Titled(a)]), ser)
  {
    var xs, ys := [Titled(a), Titled(b)], [Titled(b), Titled(a)];
    assert HasText(Titled(a).entries, "title") by { assert Titled(a).entries[0] == Member("title", TStr(a)); }
    assert HasText(Titled(b).entries, "title") by { assert Titled(b).entries[0] == Member("title", TStr(b)); }
    assert Equivalent(Titled(a), Titled(a)) && Equivalent(Titled(b), Titled(b));
    assert xs[1..] == [Titled(b)] && Without(ys, 1) == [Titled(b)];
    assert [Titled(b)][1..] == [] && Without([Titled(b)], 0) == [];
    assert Equivalent([Titled(b)][0], [Titled(b)][0]) && PairedOff([Titled(b)], [Titled(b)]);
    assert Equivalent(xs[0], ys[1]) && PairedOff(xs, ys);
    CanonicalizeDecides(TArr(xs), TArr(ys), ser);
  }

  /** Sorted arrays are in the order of their sort keys, and of their texts where these are equal. */
  lemma ItemsInOrder(items: seq<Tree>, ser: Serialise, i: nat, j: nat)
    requires AllKeyed(WalkItems(items, ser)) && i < j < |items|
    ensures var c := Canonicalize(TArr(items), ser).items;
            && |c| == |items| && SortKey(c[i]).Some? && SortKey(c[j]).Some?
            && StringLe(SortKey(c[i]).value, SortKey(c[j]).value)
            && (SortKey(c[i]) == SortKey(c[j]) ==> StringLe(ser(c[i]), ser(c[j])))
  {
    var walked := WalkItems(items, ser);
    var c := Canonicalize(TArr(items), ser).items;
    SortInOrder(walked, ItemRank(ser), i, j);
    ArrayItemsKept(items, ser);
    KeyedPermutes(walked, c);
    RanksAre(c[i], c[j], ser);
  }

  lemma RanksAre(a: Tree, b: Tree, ser: Serialise)
    requires SortKey(a).Some? && SortKey(b).Some? && RankLe(ItemRank(ser)(a), ItemRank(ser)(b))
    ensures StringLe(SortKey(a).value, SortKey(b).value)
    ensures SortKey(a) == SortKey(b) ==> StringLe(ser(a), ser(b))
  {
    StringLeTotal(SortKey(a).value, SortKey(b).value);
  }

  /** Members are in the order of their names. */
  lemma MembersInOrder(entries: seq<Member>, ser: Serialise, i: nat, j: nat)
    requires i < j < |entries|
    ensures var c := Canonicalize(TObj(entries), ser).entries;
            |c| == |entries| && StringLe(c[i].key, c[j].key)
  {
    SortInOrder(WalkEntries(entries, ser), MemberRank(), i, j);
    var c := Canonicalize(TObj(entries), ser).entries;
    StringLeTotal(c[i].key, c[j].key);
  }

  // ---------------------------------------------------------------- idempotence

  lemma {:induction false} CanonicalizeIdempotent(v: Tree, ser: Serialise)
    requires WellFormed(v) && Injective(ser)
    ensures WellFormed(Canonicalize(v, ser))
    ensures Canonicalize(Canonicalize(v, ser), ser) == Canonicalize(v, ser)
    decreases v
  {
    match v
    case TArr(items) =>
      forall i | 0 <= i < |items| { CanonicalizeIdempotent(items[i], ser); }
      ArrayIdempotent(items, ser);
    case TObj(entries) =>
      forall i | 0 <= i < |entries| { CanonicalizeIdempotent(entries[i].value, ser); }
      ObjectIdempotent(entries, ser);
    case _ =>
  }

  /** The value is in canonical form already. */
  ghost predicate Settled(v: Tree, ser: Serialise) {
    WellFormed(v) && Canonicalize(v, ser) == v
  }

  lemma ArrayIdempotent(items: seq<Tree>, ser: Serialise)
    requires Injective(ser)
    requires forall i | 0 <= i < |items| :: Settled(Canonicalize(items[i], ser), ser)
    ensures Settled(Canonicalize(TArr(items), ser), ser)
  {
    var walked := WalkItems(items, ser);
    var c := Canonicalize(TArr(items), ser).items;
    SortSorts(walked, ItemRank(ser));
    forall i | 0 <= i < |c| ensures Settled(c[i], ser) {
      var j := ItemsMatch(c, walked, i);
      assert Settled(Canonicalize(items[j], ser), ser);
    }
    assert WalkItems(c, ser) == c;
    if AllKeyed(walked) {
      SortSorted(c, ItemRank(ser));
    }
  }

  lemma ObjectIdempotent(entries: seq<Member>, ser: Serialise)
    requires DistinctKeys(entries)
    requires forall i | 0 <= i < |entries| :: Settled(Canonicalize(entries[i].value, ser), ser)
    ensures Settled(Canonicalize(TObj(entries), ser), ser)
  {
    var walked := WalkEntries(entries, ser);
    var c := Canonicalize(TObj(entries), ser).entries;
    SortSorts(walked, MemberRank());
    DistinctKeysPermute(walked, c);
    forall i | 0 <= i < |c| ensures Settled(c[i].value, ser) {
      var j := ItemsMatch(c, walked, i);
      assert Settled(Canonicalize(entries[j].value, ser), ser);
    }
    SortedSettledObject(c, ser);
  }

  lemma SortedSettledObject(c: seq<Member>, ser: Serialise)
    requires DistinctKeys(c) && Sorted(c, MemberRank())
    requires forall i | 0 <= i < |c| :: Settled(c[i].value, ser)
    ensures Settled(TObj(c), ser)
  {
    assert WalkEntries(c, ser) == c;
    SortSorted(c, MemberRank());
  }
}
