/** Locating the lines of a patch: four passes of decreasing strictness that
    amount to one lexicographic minimum. */
module SeekSequence {
  import opened Json
  import opened Text

  function NormaliseChar(c: char): char {
    if '\U{2010}' <= c <= '\U{2015}' || c == '\U{2212}' then '-'
    else if '\U{2018}' <= c <= '\U{201B}' then '\''
    else if '\U{201C}' <= c <= '\U{201F}' then '"'
    else if c == '\U{00A0}' || '\U{2002}' <= c <= '\U{200A}' then ' '
    else if c == '\U{202F}' || c == '\U{205F}' || c == '\U{3000}' then ' '
    else c
  }

  function Normalise(s: string): string {
    var t := Trim(s);
    seq(|t|, i requires 0 <= i < |t| => NormaliseChar(t[i]))
  }

  /** The characters that are made alike, written out; every other one stays as it is. */
  lemma NormaliseCharMeans(c: char)
    ensures NormaliseChar(c) ==
            if c in {'\U{2010}', '\U{2011}', '\U{2012}', '\U{2013}', '\U{2014}', '\U{2015}', '\U{2212}'} then '-'
            else if c in {'\U{2018}', '\U{2019}', '\U{201A}', '\U{201B}'} then '\''
            else if c in {'\U{201C}', '\U{201D}', '\U{201E}', '\U{201F}'} then '"'
            else if c in {'\U{00A0}', '\U{2002}', '\U{2003}', '\U{2004}', '\U{2005}', '\U{2006}', '\U{2007}',
                          '\U{2008}', '\U{2009}', '\U{200A}', '\U{202F}', '\U{205F}', '\U{3000}'} then ' '
            else c
  {
  }

  /** From the strictest pass to the most permissive one. */
  datatype Level = Exact | RightTrimmed | FullyTrimmed | Normalised

  function Order(level: Level): nat {
    match level case Exact => 0 case RightTrimmed => 1 case FullyTrimmed => 2 case Normalised => 3
  }

  predicate LineMatches(level: Level, line: string, pat: string) {
    match level
    case Exact => line == pat
    case RightTrimmed => TrimEnd(line) == TrimEnd(pat)
    case FullyTrimmed => Trim(line) == Trim(pat)
    case Normalised => Normalise(line) == Normalise(pat)
  }

  /** The line is this core, with blanks around it. */
  predicate Around(line: string, lead: string, core: string, trail: string) {
    line == lead + core + trail && Blank(lead) && Blank(trail)
  }

  /** The line is this core, with blanks after it. */
  predicate Before(line: string, core: string, trail: string) {
    line == core + trail && Blank(trail)
  }

  /** The two lines differ in blanks after them only. */
  ghost predicate SameBeforeBlanks(line: string, pat: string) {
    exists core: string, a: string, b: string :: Before(line, core, a) && Before(pat, core, b)
  }

  /** The two lines differ in blanks around them only. */
  ghost predicate SameBetweenBlanks(line: string, pat: string) {
    exists core: string, a: string, b: string, a': string, b': string ::
      Around(line, a, core, b) && Around(pat, a', core, b')
  }

  /** The cores look alike, character by character. */
  predicate LookAlike(core: string, core': string) {
    && |core| == |core'| && Trimmed(core) && Trimmed(core')
    && forall i :: 0 <= i < |core| ==> NormaliseChar(core[i]) == NormaliseChar(core'[i])
  }

  ghost predicate AlikeBetweenBlanks(line: string, pat: string) {
    exists core: string, core': string, a: string, b: string, a': string, b': string ::
      Around(line, a, core, b) && Around(pat, a', core', b') && LookAlike(core, core')
  }

  lemma TrimEndIgnores(line: string, core: string, trail: string)
    requires Before(line, core, trail)
    ensures TrimEnd(line) == TrimEnd(core)
  {
    var inner := TrimEndSplits(core);
    assert line == TrimEnd(core) + (inner + trail);
    TrimEndOf(TrimEnd(core), inner + trail);
  }

  lemma TrimIgnores(line: string, lead: string, core: string, trail: string)
    requires Around(line, lead, core, trail)
    ensures Trim(line) == Trim(core)
  {
    var a, b := TrimSplits(core);
    assert line == (lead + a) + Trim(core) + (b + trail);
    TrimOf(lead + a, Trim(core), b + trail);
  }

  lemma SameBeforeBlanksIff(line: string, pat: string)
    ensures TrimEnd(line) == TrimEnd(pat) <==> SameBeforeBlanks(line, pat)
  {
    if TrimEnd(line) == TrimEnd(pat) {
      var a := TrimEndSplits(line);
      var b := TrimEndSplits(pat);
      assert Before(line, TrimEnd(line), a) && Before(pat, TrimEnd(line), b);
    } else if SameBeforeBlanks(line, pat) {
      var core: string, a: string, b: string :| Before(line, core, a) && Before(pat, core, b);
      TrimEndIgnores(line, core, a);
      TrimEndIgnores(pat, core, b);
      assert false;
    }
  }

  lemma SameBetweenBlanksIff(line: string, pat: string)
    ensures Trim(line) == Trim(pat) <==> SameBetweenBlanks(line, pat)
  {
    if Trim(line) == Trim(pat) {
      var a, b := TrimSplits(line);
      var a', b' := TrimSplits(pat);
      assert Around(line, a, Trim(line), b) && Around(pat, a', Trim(line), b');
    } else if SameBetweenBlanks(line, pat) {
      var core: string, a: string, b: string, a': string, b': string :|
        Around(line, a, core, b) && Around(pat, a', core, b');
      TrimIgnores(line, a, core, b);
      TrimIgnores(pat, a', core, b');
      assert false;
    }
  }

  lemma AlikeCores(core: string, core': string)
    requires Trimmed(core) && Trimmed(core')
    ensures Normalise(core) == Normalise(core') <==> LookAlike(core, core')
  {
    TrimOf("", core, "");
    TrimOf("", core', "");
    assert "" + core + "" == core && "" + core' + "" == core';
    if Normalise(core) == Normalise(core') {
      forall i | 0 <= i < |core| ensures NormaliseChar(core[i]) == NormaliseChar(core'[i]) {
        assert Normalise(core)[i] == Normalise(core')[i];
      }
    }
  }

  lemma NormaliseTrims(line: string, lead: string, core: string, trail: string)
    requires Around(line, lead, core, trail)
    ensures Normalise(line) == Normalise(core)
  {
    TrimIgnores(line, lead, core, trail);
  }

  lemma AlikeBetweenBlanksIff(line: string, pat: string)
    ensures Normalise(line) == Normalise(pat) <==> AlikeBetweenBlanks(line, pat)
  {
    if Normalise(line) == Normalise(pat) {
      var a, b := TrimSplits(line);
      var a', b' := TrimSplits(pat);
      assert Around(line, a, Trim(line), b) && Around(pat, a', Trim(pat), b');
      NormaliseTrims(line, a, Trim(line), b);
      NormaliseTrims(pat, a', Trim(pat), b');
      AlikeCores(Trim(line), Trim(pat));
    } else if AlikeBetweenBlanks(line, pat) {
      var core: string, core': string, a: string, b: string, a': string, b': string :|
        Around(line, a, core, b) && Around(pat, a', core', b') && LookAlike(core, core');
      NormaliseTrims(line, a, core, b);
      NormaliseTrims(pat, a', core', b');
      AlikeCores(core, core');
      assert false;
    }
  }

  /** What each pass takes for the same line. */
  lemma LineMatchesMeans(level: Level, line: string, pat: string)
    ensures LineMatches(level, line, pat) <==>
            match level
            case Exact => line == pat
            case RightTrimmed => SameBeforeBlanks(line, pat)
            case FullyTrimmed => SameBetweenBlanks(line, pat)
            case Normalised => AlikeBetweenBlanks(line, pat)
  {
    SameBeforeBlanksIff(line, pat);
    SameBetweenBlanksIff(line, pat);
    AlikeBetweenBlanksIff(line, pat);
  }

  predicate MatchesAt(level: Level, lines: seq<string>, pattern: seq<string>, i: nat) {
    i + |pattern| <= |lines| && forall p | 0 <= p < |pattern| :: LineMatches(level, lines[i + p], pattern[p])
  }

  lemma TrimIgnoresEnd(s: string)
    ensures Trim(TrimEnd(s)) == Trim(s)
  {
    var trail := TrimEndSplits(s);
    var lead, tail := TrimSplits(TrimEnd(s));
    assert s == lead + Trim(TrimEnd(s)) + (tail + trail);
    TrimOf(lead, Trim(TrimEnd(s)), tail + trail);
  }

  /** Each level accepts what the stricter ones accept. */
  lemma LevelsWiden(a: Level, b: Level, line: string, pat: string)
    requires Order(a) <= Order(b) && LineMatches(a, line, pat)
    ensures LineMatches(b, line, pat)
  {
    TrimIgnoresEnd(line);
    TrimIgnoresEnd(pat);
  }

  lemma MatchesWiden(a: Level, b: Level, lines: seq<string>, pattern: seq<string>, i: nat)
    requires Order(a) <= Order(b) && MatchesAt(a, lines, pattern, i)
    ensures MatchesAt(b, lines, pattern, i)
  {
    forall p | 0 <= p < |pattern| { LevelsWiden(a, b, lines[i + p], pattern[p]); }
  }

  /** The indices a search looks at. */
  predicate InWindow(lines: seq<string>, pattern: seq<string>, start: nat, eof: bool, i: nat) {
    i + |pattern| <= |lines| && (if eof then i == |lines| - |pattern| else start <= i)
  }

  /** The (level, index) pair is a match, and no pair before it in lexicographic order is. */
  ghost predicate LeastMatch(lines: seq<string>, pattern: seq<string>, start: nat, eof: bool, level: Level, i: nat) {
    && InWindow(lines, pattern, start, eof, i) && MatchesAt(level, lines, pattern, i)
    && forall l, j :: InWindow(lines, pattern, start, eof, j) && MatchesAt(l, lines, pattern, j) ==>
         Order(level) < Order(l) || (level == l && i <= j)
  }

  ghost predicate NoMatch(lines: seq<string>, pattern: seq<string>, start: nat, eof: bool) {
    forall j :: InWindow(lines, pattern, start, eof, j) ==> !MatchesAt(Normalised, lines, pattern, j)
  }

  /** One pass: the first match at a level from `from` on. */
  method Pass(level: Level, lines: seq<string>, pattern: seq<string>, from: nat) returns (r: Option<nat>)
    requires |pattern| <= |lines|
    ensures r.Some? ==> from <= r.value && MatchesAt(level, lines, pattern, r.value)
    ensures r.Some? ==> forall j :: from <= j < r.value ==> !MatchesAt(level, lines, pattern, j)
    ensures r.None? ==> forall j :: from <= j ==> !MatchesAt(level, lines, pattern, j)
  {
    var i := from;
    while i <= |lines| - |pattern|
      invariant from <= i
      invariant forall j :: from <= j < i ==> !MatchesAt(level, lines, pattern, j)
      decreases |lines| - i
    {
      var ok := true;
      var p := 0;
      while p < |pattern|
        invariant 0 <= p <= |pattern|
        invariant ok ==> forall q :: 0 <= q < p ==> LineMatches(level, lines[i + q], pattern[q])
        invariant !ok ==> !MatchesAt(level, lines, pattern, i)
        decreases |pattern| - p, ok
      {
        if !LineMatches(level, lines[i + p], pattern[p]) {
          ok := false;
          break;
        }
        p := p + 1;
      }
      if ok {
        return Some(i);
      }
      i := i + 1;
    }
    r := None;
  }

  /** The result of a search for a non-empty pattern: the least match over the window, or none. */
  ghost predicate Found(lines: seq<string>, pattern: seq<string>, start: nat, eof: bool, r: Option<nat>) {
    match r
    case Some(i) => exists level :: LeastMatch(lines, pattern, start, eof, level, i)
    case None => NoMatch(lines, pattern, start, eof)
  }

  /** `seek_sequence` */
  method Seek(lines: seq<string>, pattern: seq<string>, start: nat, eof: bool) returns (r: Option<nat>)
    ensures pattern == [] ==> r == Some(start)
    ensures pattern != [] ==> Found(lines, pattern, start, eof, r)
  {
    if pattern == [] {
      return Some(start);
    }
    if |pattern| > |lines| {
      return None;
    }
    var searchStart := if eof && |lines| >= |pattern| then |lines| - |pattern| else start;
    assert forall j: nat :: InWindow(lines, pattern, start, eof, j) <==> searchStart <= j && j + |pattern| <= |lines|;
    r := Pass(Exact, lines, pattern, searchStart);
    if r.Some? {
      assert LeastMatch(lines, pattern, start, eof, Exact, r.value);
      MatchesWiden(Exact, Normalised, lines, pattern, r.value);
      return;
    }
    r := Pass(RightTrimmed, lines, pattern, searchStart);
    if r.Some? {
      assert LeastMatch(lines, pattern, start, eof, RightTrimmed, r.value);
      MatchesWiden(RightTrimmed, Normalised, lines, pattern, r.value);
      return;
    }
    r := Pass(FullyTrimmed, lines, pattern, searchStart);
    if r.Some? {
      assert LeastMatch(lines, pattern, start, eof, FullyTrimmed, r.value);
      MatchesWiden(FullyTrimmed, Normalised, lines, pattern, r.value);
      return;
    }
    r := Pass(Normalised, lines, pattern, searchStart);
    if r.Some? {
      assert LeastMatch(lines, pattern, start, eof, Normalised, r.value);
    }
  }

  /** The answer is determined: the least match is one, and it exists unless nothing matches. */
  lemma LeastMatchUnique(lines: seq<string>, pattern: seq<string>, start: nat, eof: bool,
                         l: Level, i: nat, m: Level, j: nat)
    requires LeastMatch(lines, pattern, start, eof, l, i) && LeastMatch(lines, pattern, start, eof, m, j)
    ensures l == m && i == j
  {
  }

  lemma FoundUnique(lines: seq<string>, pattern: seq<string>, start: nat, eof: bool, r: Option<nat>, q: Option<nat>)
    requires Found(lines, pattern, start, eof, r) && Found(lines, pattern, start, eof, q)
    ensures r == q
  {
    if r.Some? && q.None? { SomeIsNotNone(lines, pattern, start, eof, r.value); }
    if q.Some? && r.None? { SomeIsNotNone(lines, pattern, start, eof, q.value); }
  }

  lemma SomeIsNotNone(lines: seq<string>, pattern: seq<string>, start: nat, eof: bool, i: nat)
    requires Found(lines, pattern, start, eof, Some(i))
    ensures InWindow(lines, pattern, start, eof, i) && MatchesAt(Normalised, lines, pattern, i)
  {
    var level :| LeastMatch(lines, pattern, start, eof, level, i);
    MatchesWiden(level, Normalised, lines, pattern, i);
  }

  // ---------------------------------------------------------------- what is documented

  /** The match is at the very end of the lines. */
  predicate EndMatches(lines: seq<string>, pattern: seq<string>) {
    |pattern| <= |lines| && MatchesAt(Normalised, lines, pattern, |lines| - |pattern|)
  }

  /** What the documentation promises of a search: a match at or after `start`, one whenever there is one,
      and with `eof` the one at the end of the lines if that matches. */
  ghost predicate Documented(lines: seq<string>, pattern: seq<string>, start: nat, eof: bool, r: Option<nat>) {
    && (r.Some? ==> start <= r.value && MatchesAt(Normalised, lines, pattern, r.value))
    && (r.None? ==> NoMatch(lines, pattern, start, false))
    && (eof && EndMatches(lines, pattern) && start <= |lines| - |pattern| ==> r == Some(|lines| - |pattern|))
  }

  /** A match is at or after `start` exactly if the search does not look at the end only, or the end is. */
  lemma FoundAfterStartIff(lines: seq<string>, pattern: seq<string>, start: nat, eof: bool, i: nat)
    requires Found(lines, pattern, start, eof, Some(i))
    ensures start <= i <==> !eof || start <= |lines| - |pattern|
  {
    SomeIsNotNone(lines, pattern, start, eof, i);
  }

  /** With `eof` there is no fallback from the end of the lines to `start`, and `start` is not minded: the
      result is the documented one exactly if the lines at the end match and are not before `start`, or
      do not match and nothing from `start` on does either.  Without `eof` it always is. */
  lemma DocumentedIff(lines: seq<string>, pattern: seq<string>, start: nat, eof: bool, r: Option<nat>)
    requires pattern != [] && Found(lines, pattern, start, eof, r)
    ensures Documented(lines, pattern, start, eof, r) <==>
            !eof ||
            if EndMatches(lines, pattern) then start <= |lines| - |pattern| else NoMatch(lines, pattern, start, false)
  {
    if r.Some? { SomeIsNotNone(lines, pattern, start, eof, r.value); }
    if eof && EndMatches(lines, pattern) {
      assert InWindow(lines, pattern, start, true, |lines| - |pattern|);
    }
  }

  lemma OneLine(a: string, b: string)
    requires |a| == 1 && |b| == 1 && a != b && !IsWhitespace(a[0]) && !IsWhitespace(b[0])
    requires NormaliseChar(a[0]) == a[0] && NormaliseChar(b[0]) == b[0]
    ensures LineMatches(Exact, a, a) && LineMatches(Normalised, a, a) && !LineMatches(Normalised, b, a)
  {
    TrimOf("", a, "");
    TrimOf("", b, "");
    assert "" + a + "" == a && "" + b + "" == b;
    assert Normalise(a)[0] == a[0] && Normalise(b)[0] == b[0];
  }

  /** The first of two lines is looked for from the first one on, with `eof`: nothing is found. */
  lemma EofHasNoFallback(a: string, b: string, r: Option<nat>)
    requires a == "a" && b == "b" && Found([a, b], [a], 0, true, r)
    ensures r == None && MatchesAt(Exact, [a, b], [a], 0) && !Documented([a, b], [a], 0, true, r)
  {
    OneLine(a, b);
    assert !LineMatches(Normalised, [a, b][1 + 0], [a][0]);
    if r.Some? { SomeIsNotNone([a, b], [a], 0, true, r.value); }
    assert MatchesAt(Exact, [a, b], [a], 0);
    MatchesWiden(Exact, Normalised, [a, b], [a], 0);
    assert InWindow([a, b], [a], 0, false, 0);
  }

  /** The only line is looked for after it, with `eof`: it is found, before `start`. */
  lemma EofIgnoresStart(a: string, r: Option<nat>)
    requires a == "a" && Found([a], [a], 1, true, r)
    ensures r == Some(0) && !Documented([a], [a], 1, true, r)
  {
    assert MatchesAt(Exact, [a], [a], 0);
    MatchesWiden(Exact, Normalised, [a], [a], 0);
    assert InWindow([a], [a], 1, true, 0);
    if r.Some? { SomeIsNotNone([a], [a], 1, true, r.value); }
  }
}
