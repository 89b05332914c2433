/** Splitting at top level, selecting parts and joining them again loses nothing:
    splitting the result gives back exactly the selection. */
module TypeScriptRoundTrip {
  import opened Json
  import opened Text
  import opened TypeScriptFilter

  /** Delimiters that are neither blank nor meaningful to the scanner. */
  ghost predicate PlainDelims(delims: set<char>) {
    forall d :: d in delims ==> !IsWhitespace(d) && Advance(INIT, d) == INIT
  }

  /** A separator is a delimiter between blanks. */
  ghost predicate IsSeparator(sep: string, delims: set<char>) {
    exists k :: 0 <= k < |sep| && sep[k] in delims && Blank(sep[..k]) && Blank(sep[k + 1..])
  }

  /** Scanning the text from `s` meets no split point. */
  predicate NoSplit(s: Scan, t: string, delims: set<char>)
    decreases |t|
  {
    t != "" ==> !SplitsAt(s, t[0], delims) && NoSplit(Advance(s, t[0]), t[1..], delims)
  }

  lemma {:induction false} RunAppend(s: Scan, a: string, b: string, delims: set<char>)
    ensures Run(s, a + b) == Run(Run(s, a), b)
    ensures NoSplit(s, a + b, delims) <==> NoSplit(s, a, delims) && NoSplit(Run(s, a), b, delims)
    decreases |a|
  {
    if a == "" {
      assert a + b == b;
    } else {
      assert (a + b)[1..] == a[1..] + b;
      RunAppend(Advance(s, a[0]), a[1..], b, delims);
    }
  }

  /** What every scan from the start satisfies. */
  predicate Reachable(s: Scan) {
    && (s.quote.None? ==> !s.escape)
    && (s.quote.Some? ==> s.quote.value == '"' || s.quote.value == '\'')
  }

  lemma {:induction false} RunReachable(s: Scan, t: string)
    requires Reachable(s)
    ensures Reachable(Run(s, t))
    decreases |t|
  {
    if t != "" { RunReachable(Advance(s, t[0]), t[1..]); }
  }

  /** Outside strings blanks change nothing; inside them they leave the string open. */
  lemma {:induction false} RunBlank(s: Scan, w: string, delims: set<char>)
    requires Reachable(s) && Blank(w) && PlainDelims(delims)
    ensures s.quote.None? ==> Run(s, w) == s
    ensures s.quote.Some? ==> Run(s, w).quote == s.quote
    ensures NoSplit(s, w, delims)
    decreases |w|
  {
    if w != "" {
      assert IsWhitespace(w[0]);
      RunBlank(Advance(s, w[0]), w[1..], delims);
    }
  }

  // ---------------------------------------------------------------- what the split produces

  /** A part: trimmed, not empty, without a split point inside. */
  ghost predicate IsPart(p: string, delims: set<char>) {
    p != "" && Trimmed(p) && NoSplit(INIT, p, delims)
  }

  /** All are parts, and each one before the last leaves the scanner where it started. */
  ghost predicate Chain(parts: seq<string>, delims: set<char>) {
    parts != [] ==>
      && IsPart(parts[0], delims)
      && (|parts| > 1 ==> Run(INIT, parts[0]) == INIT)
      && Chain(parts[1..], delims)
  }

  /** The trimmed core of a stretch without split point is a part, and as closed as the stretch. */
  lemma TrimmedCore(current: string, delims: set<char>)
    requires NoSplit(INIT, current, delims) && PlainDelims(delims) && Trim(current) != ""
    ensures IsPart(Trim(current), delims)
    ensures Run(INIT, current) == INIT ==> Run(INIT, Trim(current)) == INIT
  {
    var lead, trail := TrimSplits(current);
    var core := Trim(current);
    assert current == lead + (core + trail);
    RunAppend(INIT, lead, core + trail, delims);
    RunBlank(INIT, lead, delims);
    RunAppend(INIT, core, trail, delims);
    RunReachable(INIT, core);
    RunBlank(Run(INIT, core), trail, delims);
  }

  lemma {:induction false} PartsChain(s: Scan, current: string, rest: string, delims: set<char>)
    requires s == Run(INIT, current) && NoSplit(INIT, current, delims) && PlainDelims(delims)
    ensures Chain(Parts(s, current, rest, delims), delims)
    decreases |rest|
  {
    if Trim(current) != "" { TrimmedCore(current, delims); }
    if rest == "" {
    } else {
      RunReachable(INIT, current);
      RunAppend(INIT, current, [rest[0]], delims);
      assert [rest[0]][1..] == "";
      if SplitsAt(s, rest[0], delims) {
        assert s == INIT;
        PartsChain(INIT, "", rest[1..], delims);
        var tail := Parts(INIT, "", rest[1..], delims);
        assert Keep(current) != [] ==> ([Trim(current)] + tail)[1..] == tail;
        assert [] + tail == tail;
      } else {
        PartsChain(Advance(s, rest[0]), current + [rest[0]], rest[1..], delims);
      }
    }
  }

  // ---------------------------------------------------------------- selecting and joining

  /** The parts whose flag is set, in order. */
  function Select(parts: seq<string>, chosen: seq<bool>): seq<string>
    requires |parts| == |chosen|
  {
    if parts == [] then []
    else (if chosen[0] then [parts[0]] else []) + Select(parts[1..], chosen[1..])
  }

  lemma {:induction false} SelectChain(parts: seq<string>, chosen: seq<bool>, delims: set<char>)
    requires |parts| == |chosen| && Chain(parts, delims)
    ensures Chain(Select(parts, chosen), delims)
    ensures Select(parts, chosen) != [] ==> parts != []
  {
    if parts != [] {
      SelectChain(parts[1..], chosen[1..], delims);
      var tail := Select(parts[1..], chosen[1..]);
      assert ([parts[0]] + tail)[1..] == tail;
      assert [] + tail == tail;
    }
  }

  /** `join` */
  function Join(parts: seq<string>, sep: string): string {
    if parts == [] then "" else if |parts| == 1 then parts[0] else parts[0] + sep + Join(parts[1..], sep)
  }

  /** One separator stands between each two parts, none before the first or after the last. */
  lemma {:induction false} JoinOneMore(parts: seq<string>, last: string, sep: string)
    ensures Join(parts + [last], sep) == if parts == [] then last else Join(parts, sep) + sep + last
  {
    if |parts| > 1 {
      assert (parts + [last])[1..] == parts[1..] + [last];
      JoinOneMore(parts[1..], last, sep);
      var rest := Join(parts[1..], sep);
      assert parts[0] + sep + (rest + sep + last) == (parts[0] + sep + rest) + sep + last;
    } else if parts != [] {
      assert (parts + [last])[1..] == [last];
    }
  }

  lemma {:induction false} PartsSkip(s: Scan, current: string, t: string, rest: string, delims: set<char>)
    requires NoSplit(s, t, delims)
    ensures Parts(s, current, t + rest, delims) == Parts(Run(s, t), current + t, rest, delims)
    decreases |t|
  {
    if t == "" {
      assert t + rest == rest && current + t == current;
    } else {
      assert (t + rest)[1..] == t[1..] + rest;
      assert (current + [t[0]]) + t[1..] == current + t;
      PartsSkip(Advance(s, t[0]), current + [t[0]], t[1..], rest, delims);
    }
  }

  /** Leading blanks of the current part do not matter. */
  lemma {:induction false} PartsLead(s: Scan, w: string, current: string, rest: string, delims: set<char>)
    requires Blank(w)
    ensures Parts(s, w + current, rest, delims) == Parts(s, current, rest, delims)
    decreases |rest|
  {
    var lead, trail := TrimSplits(current);
    assert w + current == (w + lead) + Trim(current) + trail;
    TrimOf(w + lead, Trim(current), trail);
    if rest != "" && !SplitsAt(s, rest[0], delims) {
      assert w + current + [rest[0]] == w + (current + [rest[0]]);
      PartsLead(Advance(s, rest[0]), w, current + [rest[0]], rest[1..], delims);
    }
  }

  lemma KeepTrimmed(core: string, trail: string)
    requires Trimmed(core) && core != "" && Blank(trail)
    ensures Keep(core + trail) == [core]
  {
    TrimOf("", core, trail);
    assert "" + core + trail == core + trail;
  }

  lemma SplitLead(w: string, rest: string, delims: set<char>)
    requires PlainDelims(delims) && Blank(w)
    ensures Split(w + rest, delims) == Split(rest, delims)
  {
    RunBlank(INIT, w, delims);
    PartsSkip(INIT, "", w, rest, delims);
    PartsLead(INIT, w, "", rest, delims);
    assert "" + w == w + "";
  }

  lemma SplitAtDelimiter(p: string, pre: string, d: char, after: string, delims: set<char>)
    requires PlainDelims(delims) && d in delims && Blank(pre)
    requires IsPart(p, delims) && Run(INIT, p) == INIT
    ensures Split((p + pre) + ([d] + after), delims) == [p] + Split(after, delims)
  {
    RunAppend(INIT, p, pre, delims);
    RunBlank(INIT, pre, delims);
    PartsSkip(INIT, "", p + pre, [d] + after, delims);
    assert "" + (p + pre) == p + pre;
    assert ([d] + after)[1..] == after;
    KeepTrimmed(p, pre);
  }

  lemma Regroup(p: string, sep: string, k: nat, rest: string)
    requires k < |sep|
    ensures p + sep + rest == (p + sep[..k]) + ([sep[k]] + (sep[k + 1..] + rest))
  {
    assert sep == sep[..k] + [sep[k]] + sep[k + 1..];
  }

  /** A closed part before a separator is split off. */
  lemma SplitOff(p: string, sep: string, rest: string, delims: set<char>)
    requires PlainDelims(delims) && IsSeparator(sep, delims)
    requires IsPart(p, delims) && Run(INIT, p) == INIT
    ensures Split(p + sep + rest, delims) == [p] + Split(rest, delims)
  {
    var k :| 0 <= k < |sep| && sep[k] in delims && Blank(sep[..k]) && Blank(sep[k + 1..]);
    Regroup(p, sep, k, rest);
    SplitAtDelimiter(p, sep[..k], sep[k], sep[k + 1..] + rest, delims);
    SplitLead(sep[k + 1..], rest, delims);
  }

  lemma {:induction false} SplitJoin(parts: seq<string>, sep: string, delims: set<char>)
    requires PlainDelims(delims) && IsSeparator(sep, delims) && Chain(parts, delims)
    ensures Split(Join(parts, sep), delims) == parts
  {
    if parts == [] {
      assert Trim("") == "";
    } else if |parts| == 1 {
      var p := parts[0];
      assert p + "" == p && "" + p == p;
      PartsSkip(INIT, "", p, "", delims);
      KeepTrimmed(p, "");
    } else {
      SplitJoin(parts[1..], sep, delims);
      SplitOff(parts[0], sep, Join(parts[1..], sep), delims);
    }
  }

  /** For every text: joining any in-order selection of its parts and splitting again
      returns exactly that selection. */
  lemma SplitSelectJoin(input: string, chosen: seq<bool>, sep: string, delims: set<char>)
    requires PlainDelims(delims) && IsSeparator(sep, delims) && |chosen| == |Split(input, delims)|
    ensures Split(Join(Select(Split(input, delims), chosen), sep), delims) == Select(Split(input, delims), chosen)
  {
    PartsChain(INIT, "", input, delims);
    SelectChain(Split(input, delims), chosen, delims);
    SplitJoin(Select(Split(input, delims), chosen), sep, delims);
  }

  // ---------------------------------------------------------------- the filters

  function Filter(parts: seq<string>, keep: string -> bool): seq<string> {
    if parts == [] then [] else (if keep(parts[0]) then [parts[0]] else []) + Filter(parts[1..], keep)
  }

  function Flags(parts: seq<string>, keep: string -> bool): seq<bool> {
    seq(|parts|, i requires 0 <= i < |parts| => keep(parts[i]))
  }

  lemma {:induction false} FilterIsSelect(parts: seq<string>, keep: string -> bool)
    ensures Filter(parts, keep) == Select(parts, Flags(parts, keep))
    ensures Filter(Filter(parts, keep), keep) == Filter(parts, keep)
  {
    if parts != [] {
      assert Flags(parts, keep)[1..] == Flags(parts[1..], keep);
      FilterIsSelect(parts[1..], keep);
      var tail := Filter(parts[1..], keep);
      assert ([parts[0]] + tail)[1..] == tail && [] + tail == tail;
    }
  }

  /** What the filter keeps: the parts wanted, each at its place, in order. */
  lemma {:induction false} FilterPicks(parts: seq<string>, keep: string -> bool)
    ensures Picks(parts, Flags(parts, keep), Filter(parts, keep))
  {
    if parts == [] {
      PickNothing(parts, Flags(parts, keep));
    } else {
      FilterPicks(parts[1..], keep);
      assert Flags(parts, keep)[1..] == Flags(parts[1..], keep);
      PickOneMore(parts, Flags(parts, keep), Filter(parts[1..], keep));
    }
  }

  /** Both content filters rewrite a body this way. */
  function FilterBody(body: string, keep: string -> bool, sep: string, delims: set<char>): string {
    Join(Filter(Split(body, delims), keep), sep)
  }

  /** A rewritten body holds precisely the surviving parts, and rewriting it again changes nothing. */
  lemma FilterBodyExact(body: string, keep: string -> bool, sep: string, delims: set<char>)
    requires PlainDelims(delims) && IsSeparator(sep, delims)
    ensures Split(FilterBody(body, keep, sep, delims), delims) == Filter(Split(body, delims), keep)
    ensures FilterBody(FilterBody(body, keep, sep, delims), keep, sep, delims) == FilterBody(body, keep, sep, delims)
  {
    FilterIsSelect(Split(body, delims), keep);
    SplitSelectJoin(body, Flags(Split(body, delims), keep), sep, delims);
  }

  /** The delimiters and separators of the two filters qualify. */
  lemma FiltersQualify()
    ensures PlainDelims({'|'}) && IsSeparator(" | ", {'|'})
    ensures PlainDelims({',', ';'}) && IsSeparator(", ", {',', ';'})
  {
    assert " | "[1] in {'|'} && Blank(" | "[..1]) && Blank(" | "[2..]);
    assert ", "[0] in {',', ';'} && Blank(", "[..0]) && Blank(", "[1..]);
  }

  // ---------------------------------------------------------------- the request union file

  function FindFirst(s: string, c: char): Option<nat> {
    if s == "" then None
    else if s[0] == c then Some(0)
    else match FindFirst(s[1..], c) case Some(i) => Some(i + 1) case None => None
  }

  function FindLast(s: string, c: char): Option<nat> {
    if s == "" then None
    else if s[|s| - 1] == c then Some(|s| - 1)
    else FindLast(s[..|s| - 1], c)
  }

  lemma {:induction false} FindFirstIs(a: string, c: char, b: string)
    requires c !in a
    ensures FindFirst(a + [c] + b, c) == Some(|a|)
  {
    if a == "" {
      assert a + [c] + b == [c] + b;
    } else {
      assert (a + [c] + b)[1..] == a[1..] + [c] + b;
      FindFirstIs(a[1..], c, b);
    }
  }

  lemma {:induction false} FindLastIs(a: string, c: char, b: string)
    requires c !in b
    ensures FindLast(a + [c] + b, c) == Some(|a|)
  {
    var s := a + [c] + b;
    if b == "" {
      assert s == a + [c];
    } else {
      assert s[..|s| - 1] == a + [c] + b[..|b| - 1];
      FindLastIs(a, c, b[..|b| - 1]);
    }
  }

  lemma {:induction false} FindFirstFinds(s: string, c: char)
    ensures match FindFirst(s, c) case Some(i) => i < |s| && s[i] == c && c !in s[..i] case None => c !in s
  {
    if s != "" {
      FindFirstFinds(s[1..], c);
      assert s == [s[0]] + s[1..];
      if FindFirst(s, c).Some? && s[0] != c {
        var i := FindFirst(s, c).value;
        assert s[..i] == [s[0]] + s[1..][..i - 1];
      }
    }
  }

  lemma {:induction false} FindLastFinds(s: string, c: char)
    ensures match FindLast(s, c) case Some(i) => i < |s| && s[i] == c && c !in s[i + 1..] case None => c !in s
  {
    if s != "" {
      var t := s[..|s| - 1];
      FindLastFinds(t, c);
      assert s == t + [s[|s| - 1]];
      if FindLast(s, c).Some? && s[|s| - 1] != c {
        var i := FindLast(s, c).value;
        assert s[i + 1..] == t[i + 1..] + [s[|s| - 1]];
      }
    }
  }

  datatype Alias = Alias(prefix: string, body: string, suffix: string)

  /** `split_type_alias`: between the first `=` and the last `;`. */
  function SplitTypeAlias(content: string): Option<Alias> {
    FindFirstFinds(content, '=');
    FindLastFinds(content, ';');
    match (FindFirst(content, '='), FindLast(content, ';'))
    case (Some(eq), Some(semi)) =>
      if semi <= eq then None
      else Some(Alias(content[..eq + 1], content[eq + 1..semi], content[semi..]))
    case _ => None
  }

  /** A text with a `=` and a `;` after it is cut at the first `=` and the last `;`. */
  lemma AliasIs(before: string, body: string, after: string)
    requires '=' !in before && ';' !in after
    ensures SplitTypeAlias(before + "=" + body + (";" + after)) == Some(Alias(before + "=", body, ";" + after))
  {
    var text := before + "=" + body + (";" + after);
    assert text == before + ['='] + (body + (";" + after));
    assert text == (before + "=" + body) + [';'] + after;
    FindFirstIs(before, '=', body + (";" + after));
    FindLastIs(before + "=" + body, ';', after);
    assert text[..|before| + 1] == before + "=";
    assert text[|before| + 1..|before| + 1 + |body|] == body;
    assert text[|before| + 1 + |body|..] == ";" + after;
  }

  /** `filter_client_request_ts_contents` up to the pruning of imports, for any test of an arm. */
  function FilterClientRequest(content: string, keep: string -> bool): string {
    match SplitTypeAlias(content)
    case Some(alias) => alias.prefix + FilterBody(alias.body, keep, " | ", {'|'}) + alias.suffix
    case None => content
  }

  /** Replacing the body does not move the cut: the first `=` ends the prefix, the last `;` starts the suffix. */
  lemma AliasStable(content: string, body: string)
    requires SplitTypeAlias(content).Some?
    ensures var alias := SplitTypeAlias(content).value;
            SplitTypeAlias(alias.prefix + body + alias.suffix) == Some(Alias(alias.prefix, body, alias.suffix))
  {
    FindFirstFinds(content, '=');
    FindLastFinds(content, ';');
    var alias := SplitTypeAlias(content).value;
    var eq, semi := FindFirst(content, '=').value, FindLast(content, ';').value;
    var before, after := content[..eq], content[semi + 1..];
    assert alias.prefix == before + ['='] && alias.suffix == [';'] + after;
    var text := alias.prefix + body + alias.suffix;
    assert text == before + ['='] + (body + alias.suffix);
    FindFirstIs(before, '=', body + alias.suffix);
    assert text == (alias.prefix + body) + [';'] + after;
    FindLastIs(alias.prefix + body, ';', after);
    assert text[..eq + 1] == alias.prefix;
    assert text[eq + 1..|alias.prefix + body|] == body;
    assert text[|alias.prefix + body|..] == alias.suffix;
  }

  /** The filtered file's union holds precisely the surviving arms, its surroundings are kept,
      and filtering it again changes nothing. */
  lemma FilterClientRequestExact(content: string, keep: string -> bool)
    ensures match SplitTypeAlias(content)
            case Some(alias) =>
              var again := SplitTypeAlias(FilterClientRequest(content, keep));
              && again.Some? && again.value.prefix == alias.prefix && again.value.suffix == alias.suffix
              && Split(again.value.body, {'|'}) == Filter(Split(alias.body, {'|'}), keep)
            case None => FilterClientRequest(content, keep) == content
    ensures FilterClientRequest(FilterClientRequest(content, keep), keep) == FilterClientRequest(content, keep)
  {
    if SplitTypeAlias(content).Some? {
      var alias := SplitTypeAlias(content).value;
      FiltersQualify();
      AliasStable(content, FilterBody(alias.body, keep, " | ", {'|'}));
      FilterBodyExact(alias.body, keep, " | ", {'|'});
    }
  }
}
