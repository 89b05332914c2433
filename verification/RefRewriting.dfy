/** The reference rewriters of the schema exporter: what each does to one
    `$ref` string, and when applying it to a whole tree twice changes nothing more. */
module RefRewriting {
  import opened Json

  const DEFS := "#/definitions/"

  function StripPrefix(s: string, prefix: string): Option<string> {
    if prefix <= s then Some(s[|prefix|..]) else None
  }

  /** `split('/').next()`: the text before the first slash, or all of it. */
  function FirstSegment(s: string): (seg: string)
    ensures seg <= s && '/' !in seg
    ensures |seg| < |s| ==> s[|seg|] == '/'
  {
    if s == "" || s[0] == '/' then "" else [s[0]] + FirstSegment(s[1..])
  }

  /** `split_once('/')` seen as a name and the rest, the rest with its slash. */
  function AfterFirst(s: string): string {
    s[|FirstSegment(s)|..]
  }

  /** The first segment is determined by where the first slash is. */
  lemma {:induction false} FirstSegmentOf(name: string, rest: string)
    requires '/' !in name
    requires rest == "" || rest[0] == '/'
    ensures FirstSegment(name + rest) == name && AfterFirst(name + rest) == rest
  {
    if name == "" {
    } else {
      assert (name + rest)[1..] == name[1..] + rest;
      FirstSegmentOf(name[1..], rest);
    }
  }

  /** Appending after a slash does not change the first segment. */
  lemma FirstSegmentPrefix(ns: string, tail: string)
    ensures FirstSegment(ns + "/" + tail) == FirstSegment(ns)
  {
    var seg := FirstSegment(ns);
    assert ns + "/" + tail == seg + (ns[|seg|..] + "/" + tail);
    FirstSegmentOf(seg, ns[|seg|..] + "/" + tail);
  }

  function TrimTrailingDigits(name: string): string {
    if name != "" && '0' <= name[|name| - 1] <= '9' then TrimTrailingDigits(name[..|name| - 1]) else name
  }

  /** `namespace_for_definition`: by the name itself, else by the name without its trailing digits. */
  function NamespaceFor(name: string, types: map<string, string>): Option<string> {
    if name in types then Some(types[name])
    else
      var trimmed := TrimTrailingDigits(name);
      if trimmed != name && trimmed in types then Some(types[trimmed]) else None
  }

  /** `rewrite_refs_to_namespace` on one reference. */
  function ToNamespace(ns: string): string -> string {
    (r: string) =>
      match StripPrefix(r, DEFS)
      case Some(suffix) => if ns + "/" <= suffix then r else DEFS + ns + "/" + suffix
      case None => r
  }

  /** `rewrite_refs_to_known_namespaces` on one reference. */
  function ToKnownNamespace(types: map<string, string>): string -> string {
    (r: string) =>
      match StripPrefix(r, DEFS)
      case Some(suffix) =>
        (match NamespaceFor(FirstSegment(suffix), types)
         case Some(ns) => DEFS + ns + "/" + FirstSegment(suffix) + AfterFirst(suffix)
         case None => r)
      case None => r
  }

  /** `rewrite_named_ref_to_namespace` on one reference. */
  function NamedToNamespace(ns: string, name: string): string -> string {
    (r: string) =>
      if r == DEFS + name then DEFS + ns + "/" + name
      else match StripPrefix(r, DEFS + name + "/")
      case Some(rest) => DEFS + ns + "/" + name + "/" + rest
      case None => r
  }

  /** A reference under a prefix whose first segment is another name is neither the name nor below it. */
  lemma OtherNameUntouched(prefix: string, r: string, name: string)
    requires '/' !in name
    requires prefix <= r ==> FirstSegment(r[|prefix|..]) != name
    ensures r != prefix + name && !(prefix + name + "/" <= r)
  {
    WholeSegment(name);
    assert (prefix + name)[|prefix|..] == name;
    if prefix + name + "/" <= r {
      var rest := r[|prefix + name + "/"|..];
      assert r[|prefix|..] == name + ("/" + rest);
      FirstSegmentOf(name, "/" + rest);
      assert false;
    }
  }

  lemma WholeSegment(name: string)
    requires '/' !in name
    ensures FirstSegment(name) == name
  {
    FirstSegmentOf(name, "");
    assert name + "" == name;
  }

  /** References to the name or below it, and no others, get the namespace in front. */
  lemma NamedMoves(ns: string, name: string, r: string)
    requires '/' !in name
    ensures if DEFS <= r && FirstSegment(r[|DEFS|..]) == name
            then NamedToNamespace(ns, name)(r) == DEFS + ns + "/" + r[|DEFS|..]
            else NamedToNamespace(ns, name)(r) == r
  {
    if DEFS <= r {
      var suffix := r[|DEFS|..];
      assert r == DEFS + suffix;
      var tail := AfterFirst(suffix);
      assert suffix == FirstSegment(suffix) + tail;
      if FirstSegment(suffix) == name {
        NamedMovesTail(ns, name, tail);
      } else {
        OtherNameUntouched(DEFS, r, name);
      }
    }
  }

  lemma NamedMovesTail(ns: string, name: string, tail: string)
    requires '/' !in name && (tail == "" || tail[0] == '/')
    ensures NamedToNamespace(ns, name)(DEFS + (name + tail)) == DEFS + ns + "/" + (name + tail)
  {
    var r := DEFS + (name + tail);
    if tail == "" {
      assert name + tail == name;
    } else {
      assert tail == "/" + tail[1..];
      assert r == DEFS + name + "/" + tail[1..];
      assert r[|DEFS + name|] == '/' && |r| > |DEFS + name|;
      assert DEFS + ns + "/" + name + "/" + tail[1..] == DEFS + ns + "/" + (name + tail);
    }
  }

  /** `str::replace`: every occurrence, left to right, without overlap. */
  function ReplaceAll(s: string, pattern: string, replacement: string): string
    requires pattern != ""
  {
    if s == "" then ""
    else if pattern <= s then replacement + ReplaceAll(s[|pattern|..], pattern, replacement)
    else [s[0]] + ReplaceAll(s[1..], pattern, replacement)
  }

  predicate Occurs(pattern: string, s: string) {
    exists i | 0 <= i <= |s| :: pattern <= s[i..]
  }

  lemma OccursStep(pattern: string, s: string)
    requires pattern != ""
    ensures Occurs(pattern, s) <==> s != "" && (pattern <= s || Occurs(pattern, s[1..]))
  {
    if s != "" && Occurs(pattern, s) && !(pattern <= s) {
      var i :| 0 <= i <= |s| && pattern <= s[i..];
      assert i > 0 && s[i..] == s[1..][i - 1..];
    }
    if s != "" && Occurs(pattern, s[1..]) {
      var i :| 0 <= i <= |s[1..]| && pattern <= s[1..][i..];
      assert s[1..][i..] == s[i + 1..];
    }
    if s != "" && pattern <= s { assert s[0..] == s; }
  }

  lemma {:induction false} AbsentNowhere(pattern: string, s: string)
    requires pattern != "" && pattern[0] !in s
    ensures !Occurs(pattern, s)
  {
    OccursStep(pattern, s);
    if s != "" {
      assert s[0] in s;
      forall c | c in s[1..] ensures c in s { }
      AbsentNowhere(pattern, s[1..]);
    }
  }

  /** Replacing by something shorter changes a text exactly if the pattern occurs in it. */
  lemma {:induction false} ReplaceAllShortens(s: string, pattern: string, replacement: string)
    requires pattern != "" && |replacement| < |pattern|
    ensures if Occurs(pattern, s) then |ReplaceAll(s, pattern, replacement)| < |s|
            else ReplaceAll(s, pattern, replacement) == s
    decreases |s|
  {
    OccursStep(pattern, s);
    if s != "" {
      if pattern <= s {
        ReplaceAllShortens(s[|pattern|..], pattern, replacement);
      } else {
        ReplaceAllShortens(s[1..], pattern, replacement);
      }
    }
  }

  /** Replacing only at the start. */
  function PrefixRewrite(r: string, pattern: string, replacement: string): string {
    match StripPrefix(r, pattern) case Some(rest) => replacement + rest case None => r
  }

  /** A pattern whose first character does not come again has no occurrence overlapping one at the start. */
  lemma NoOverlap(r: string, pattern: string)
    requires pattern != "" && pattern[0] !in pattern[1..] && pattern <= r
    ensures Occurs(pattern, r[1..]) <==> Occurs(pattern, r[|pattern|..])
  {
    if Occurs(pattern, r[1..]) {
      var i :| 0 <= i <= |r[1..]| && pattern <= r[1..][i..];
      assert r[1..][i..] == r[i + 1..] && r[i + 1] == pattern[0];
      if i + 1 < |pattern| { assert false; }
      assert r[|pattern|..][i + 1 - |pattern|..] == r[i + 1..];
    }
    if Occurs(pattern, r[|pattern|..]) {
      var i :| 0 <= i <= |r[|pattern|..]| && pattern <= r[|pattern|..][i..];
      assert r[|pattern|..][i..] == r[i + |pattern|..] == r[1..][i + |pattern| - 1..];
    }
  }

  lemma SameAfter(lead: string, a: string, b: string)
    ensures lead + a == lead + b <==> a == b
  {
    assert (lead + a)[|lead|..] == a && (lead + b)[|lead|..] == b;
  }

  /** Replacing everywhere is replacing the prefix exactly if the pattern does not occur after the first character. */
  lemma ReplaceAllIsPrefixRewriteIff(r: string, pattern: string, replacement: string)
    requires pattern != "" && pattern[0] !in pattern[1..] && |replacement| < |pattern|
    ensures ReplaceAll(r, pattern, replacement) == PrefixRewrite(r, pattern, replacement) <==>
            r == "" || !Occurs(pattern, r[1..])
  {
    if r != "" {
      if pattern <= r {
        var rest := r[|pattern|..];
        NoOverlap(r, pattern);
        ReplaceAllShortens(rest, pattern, replacement);
        SameAfter(replacement, ReplaceAll(rest, pattern, replacement), rest);
      } else {
        ReplaceAllShortens(r[1..], pattern, replacement);
        SameAfter([r[0]], ReplaceAll(r[1..], pattern, replacement), r[1..]);
        assert r == [r[0]] + r[1..];
      }
    }
  }

  /** Nothing is replaced in text that lacks the pattern's first character. */
  lemma {:induction false} ReplaceAllSkips(lead: string, s: string, pattern: string, replacement: string)
    requires pattern != "" && pattern[0] !in lead
    ensures ReplaceAll(lead + s, pattern, replacement) == lead + ReplaceAll(s, pattern, replacement)
  {
    if lead == "" {
      assert lead + s == s;
    } else {
      assert lead[0] in lead && (lead + s)[0] == lead[0] && (lead + s)[1..] == lead[1..] + s;
      forall c | c in lead[1..] ensures c in lead { }
      ReplaceAllSkips(lead[1..], s, pattern, replacement);
    }
  }

  /** Rewriting into one namespace is idempotent on every tree, whatever the names. */
  lemma ToNamespaceIdempotent(v: Json, ns: string)
    ensures var f := ToNamespace(ns); MapRefs(MapRefs(v, f), f) == MapRefs(v, f)
  {
    var f := ToNamespace(ns);
    forall r ensures f(f(r)) == f(r) { }
    MapRefsIdempotent(v, f);
  }

  /** The namespace a reference is rewritten into, if it is rewritten. */
  function KnownNamespaceOf(r: string, types: map<string, string>): Option<string> {
    if DEFS <= r then NamespaceFor(FirstSegment(r[|DEFS|..]), types) else None
  }

  lemma Regroup(a: string, b: string, c: string, d: string, e: string)
    ensures a + b + c + d + e == a + (b + c + (d + e)) && (a + (b + c + (d + e)))[|a|..] == b + c + (d + e)
  {
  }

  /** A reference with a known namespace gets that namespace in front of its name and tail. */
  lemma KnownMoves(r: string, types: map<string, string>) returns (moved: string)
    requires KnownNamespaceOf(r, types).Some?
    ensures moved == KnownNamespaceOf(r, types).value + "/" + r[|DEFS|..]
    ensures ToKnownNamespace(types)(r) == DEFS + moved
    ensures DEFS <= DEFS + moved && (DEFS + moved)[|DEFS|..] == moved
  {
    var suffix := r[|DEFS|..];
    assert FirstSegment(suffix) + AfterFirst(suffix) == suffix;
    moved := KnownNamespaceOf(r, types).value + "/" + suffix;
    Regroup(DEFS, KnownNamespaceOf(r, types).value, "/", FirstSegment(suffix), AfterFirst(suffix));
  }

  lemma KnownOnce(r: string, types: map<string, string>)
    ensures var f := ToKnownNamespace(types);
            f(f(r)) == f(r) <==>
            KnownNamespaceOf(r, types).Some? ==>
            NamespaceFor(FirstSegment(KnownNamespaceOf(r, types).value), types).None?
  {
    if KnownNamespaceOf(r, types).Some? {
      var ns := KnownNamespaceOf(r, types).value;
      var moved := KnownMoves(r, types);
      FirstSegmentPrefix(ns, r[|DEFS|..]);
      if KnownNamespaceOf(DEFS + moved, types).Some? {
        var again := KnownMoves(DEFS + moved, types);
        assert |DEFS + again| > |DEFS + moved|;
      }
    }
  }

  /** Rewriting into the known namespaces is idempotent on a tree exactly when no
      reference in it goes to a namespace whose own name is looked up as a type.
      Trailing digits count: a type `v` makes the namespace `v2` such a name. */
  lemma ToKnownNamespaceIdempotent(v: Json, types: map<string, string>)
    ensures var f := ToKnownNamespace(types);
            MapRefs(MapRefs(v, f), f) == MapRefs(v, f) <==>
            forall r :: r in Refs(v) && KnownNamespaceOf(r, types).Some? ==>
              NamespaceFor(FirstSegment(KnownNamespaceOf(r, types).value), types).None?
  {
    var f := ToKnownNamespace(types);
    MapRefsIdempotent(v, f);
    forall r ensures f(f(r)) == f(r) <==>
      (KnownNamespaceOf(r, types).Some? ==> NamespaceFor(FirstSegment(KnownNamespaceOf(r, types).value), types).None?)
    {
      KnownOnce(r, types);
    }
  }

  /** The type `v` is enough to break it for the namespace `v2`. */
  lemma ToKnownNamespaceNotIdempotent()
    ensures var types := map["v" := "v2", "A" := "v2"];
            var f := ToKnownNamespace(types);
            var v := Obj(map["$ref" := Str("#/definitions/A")]);
            MapRefs(MapRefs(v, f), f) != MapRefs(v, f)
  {
    var types := map["v" := "v2", "A" := "v2"];
    var v := Obj(map["$ref" := Str("#/definitions/A")]);
    assert RefHere(v) == Some("#/definitions/A");
    assert "#/definitions/A"[|DEFS|..] == "A";
    ShortSegments();
    assert KnownNamespaceOf("#/definitions/A", types) == Some("v2");
    assert NamespaceFor("v2", types) == Some("v2");
    ToKnownNamespaceIdempotent(v, types);
  }

  lemma ShortSegments()
    ensures FirstSegment("A") == "A" && FirstSegment("v2") == "v2" && TrimTrailingDigits("v2") == "v"
  {
    FirstSegmentOf("A", "");
    FirstSegmentOf("v2", "");
    assert "v2" + "" == "v2" && "A" + "" == "A";
    assert "v2"[..1] == "v" && TrimTrailingDigits("v") == "v";
  }
}
