/** Filtering the fields of a generated type: finding the braces of its body, and when
    rewriting what is between them leaves them where they are. */
module TypeScriptFields {
  import opened Json
  import opened Text
  import opened TypeScriptFilter
  import opened TypeScriptRoundTrip

  const FIELD_DELIMS := {',', ';'}
  const FIELD_SEP := ", "

  /** One step deeper in braces than the start of a scan. */
  const BRACED := INIT.(brace := 1)

  // ---------------------------------------------------------------- the brace span

  predicate Opens(s: Scan, c: char) {
    !s.InString() && c == '{' && s.TopLevel()
  }

  /** The character was a brace after which the scan is back at the top. */
  predicate Closes(after: Scan, c: char) {
    !after.InString() && c == '}' && after.TopLevel()
  }

  /** `find_top_level_brace_span` on what is left at `index`. */
  function SpanFrom(s: Scan, open: Option<nat>, rest: string, index: nat): Option<(nat, nat)>
    decreases |rest|
  {
    if rest == "" then None
    else
      var from := if Opens(s, rest[0]) then Some(index) else open;
      var after := Advance(s, rest[0]);
      if Closes(after, rest[0]) && from.Some? then Some((from.value, index))
      else SpanFrom(after, from, rest[1..], index + 1)
  }

  function Span(input: string): Option<(nat, nat)> {
    SpanFrom(INIT, None, input, 0)
  }

  /** `find_top_level_brace_span` */
  method FindTopLevelBraceSpan(input: string) returns (span: Option<(nat, nat)>)
    ensures span == Span(input)
  {
    var state := new ScanState();
    ghost var scan := INIT;
    var openIndex: Option<nat> := None;
    for index := 0 to |input|
      invariant state.Valid() && fresh(state) && state.Value() == scan
      invariant Span(input) == SpanFrom(scan, openIndex, input[index..], index)
    {
      var ch := input[index];
      assert input[index..][0] == ch && input[index..][1..] == input[index + 1..];
      if !state.InString() && ch == '{' && state.TopLevel() {
        openIndex := Some(index);
      }
      state.Observe(ch);
      scan := Advance(scan, ch);
      if !state.InString() && ch == '}' && state.TopLevel() && openIndex.Some? {
        return Some((openIndex.value, index));
      }
    }
    span := None;
  }

  /** What has been scanned when a span is found: it was opened at the top, and nothing
      between its braces opens or closes at the top. */
  ghost predicate Enclosed(s: Scan, t: string)
    decreases |t|
  {
    t != "" ==> !Opens(s, t[0]) && !Closes(Advance(s, t[0]), t[0]) && Enclosed(Advance(s, t[0]), t[1..])
  }

  /** Scanning the text finds no span, and leaves this opening behind. */
  ghost predicate NoSpan(s: Scan, open: Option<nat>, t: string, index: nat)
    decreases |t|
  {
    t != "" ==>
      var from := if Opens(s, t[0]) then Some(index) else open;
      !(Closes(Advance(s, t[0]), t[0]) && from.Some?) && NoSpan(Advance(s, t[0]), from, t[1..], index + 1)
  }

  lemma {:induction false} EnclosedSkips(s: Scan, open: nat, t: string, rest: string, index: nat)
    requires Enclosed(s, t)
    ensures SpanFrom(s, Some(open), t + rest, index) == SpanFrom(Run(s, t), Some(open), rest, index + |t|)
    decreases |t|
  {
    if t == "" {
      assert t + rest == rest;
    } else {
      assert (t + rest)[1..] == t[1..] + rest;
      EnclosedSkips(Advance(s, t[0]), open, t[1..], rest, index + 1);
    }
  }

  /** Put between braces at the top, the text stays between them. */
  ghost predicate GoodBody(body: string) {
    Enclosed(BRACED, body) && Closes(Advance(Run(BRACED, body), '}'), '}')
  }

  /** Text without a span, an opening at the top, an enclosed body and its closing brace make a span. */
  lemma {:induction false} SpanIs(s: Scan, open: Option<nat>, pre: string, body: string, post: string, index: nat)
    requires NoSpan(s, open, pre, index) && Run(s, pre) == INIT
    requires GoodBody(body)
    ensures SpanFrom(s, open, pre + ("{" + (body + ("}" + post))), index) ==
      Some((index + |pre|, index + |pre| + 1 + |body|))
    decreases |pre|
  {
    var rest := "{" + (body + ("}" + post));
    if pre == "" {
      assert pre + rest == rest && rest[0] == '{' && rest[1..] == body + ("}" + post);
      EnclosedSkips(BRACED, index, body, "}" + post, index + 1);
      assert ("}" + post)[0] == '}';
    } else {
      assert (pre + rest)[1..] == pre[1..] + rest && (pre + rest)[0] == pre[0];
      SpanIs(Advance(s, pre[0]), if Opens(s, pre[0]) then Some(index) else open, pre[1..], body, post, index + 1);
    }
  }

  lemma {:induction false} SpanStart(s: Scan, open: Option<nat>, input: string, index: nat)
    requires SpanFrom(s, open, input, index).Some?
    ensures var (o, c) := SpanFrom(s, open, input, index).value;
            (Some(o) == open || o >= index) && index <= c
    decreases |input|
  {
    var from := if Opens(s, input[0]) then Some(index) else open;
    if !(Closes(Advance(s, input[0]), input[0]) && from.Some?) {
      SpanStart(Advance(s, input[0]), from, input[1..], index + 1);
    }
  }

  /** From its opening on, a span is an enclosed body and its closing brace. */
  lemma {:induction false} SpanBody(s: Scan, o: nat, c: nat, input: string, index: nat)
    returns (body: string, post: string)
    requires o < index && SpanFrom(s, Some(o), input, index) == Some((o, c))
    ensures input == body + ("}" + post) && c == index + |body|
    ensures Enclosed(s, body) && Closes(Advance(Run(s, body), '}'), '}')
    decreases |input|
  {
    var ch := input[0];
    assert input == [ch] + input[1..];
    if Closes(Advance(s, ch), ch) {
      body, post := "", input[1..];
    } else {
      SpanStart(Advance(s, ch), if Opens(s, ch) then Some(index) else Some(o), input[1..], index + 1);
      body, post := SpanBody(Advance(s, ch), o, c, input[1..], index + 1);
      var more := [ch] + body;
      assert more[1..] == body && input == more + ("}" + post);
      body := more;
    }
  }

  /** A span found from here on starts with text that has none. */
  lemma {:induction false} SpanParts(s: Scan, open: Option<nat>, o: nat, c: nat, input: string, index: nat)
    returns (pre: string, body: string, post: string)
    requires (open.Some? ==> open.value < index) && o >= index && SpanFrom(s, open, input, index) == Some((o, c))
    ensures input == pre + ("{" + (body + ("}" + post)))
    ensures o == index + |pre| && c == o + 1 + |body|
    ensures NoSpan(s, open, pre, index) && Opens(Run(s, pre), '{')
    ensures Enclosed(Advance(Run(s, pre), '{'), body)
    ensures Closes(Advance(Run(Advance(Run(s, pre), '{'), body), '}'), '}')
    decreases |input|
  {
    var ch := input[0];
    var after := Advance(s, ch);
    assert input == [ch] + input[1..];
    if Opens(s, ch) && o == index {
      body, post := SpanBody(after, o, c, input[1..], index + 1);
      pre := "";
    } else {
      SpanStart(after, if Opens(s, ch) then Some(index) else open, input[1..], index + 1);
      pre, body, post := SpanParts(after, if Opens(s, ch) then Some(index) else open, o, c, input[1..], index + 1);
      var more := [ch] + pre;
      assert more[1..] == pre && input == more + ("{" + (body + ("}" + post)));
      pre := more;
    }
  }

  // ---------------------------------------------------------------- balanced bodies

  /** The scan never leaves the braces it started in. */
  predicate Inside(s: Scan, t: string)
    decreases |t|
  {
    s.brace >= 1 && (t != "" ==> Inside(Advance(s, t[0]), t[1..]))
  }

  lemma {:induction false} InsideAppend(s: Scan, a: string, b: string)
    ensures Inside(s, a + b) <==> Inside(s, a) && Inside(Run(s, a), b)
    decreases |a|
  {
    if a == "" {
      assert a + b == b;
      if b != "" { assert Inside(s, b) ==> s.brace >= 1; }
    } else {
      assert (a + b)[1..] == a[1..] + b;
      InsideAppend(Advance(s, a[0]), a[1..], b);
    }
  }

  lemma {:induction false} InsideEncloses(s: Scan, t: string)
    requires Inside(s, t)
    ensures Enclosed(s, t)
    decreases |t|
  {
    if t != "" { InsideEncloses(Advance(s, t[0]), t[1..]); }
  }

  /** One brace deeper. */
  function Deeper(s: Scan): Scan {
    s.(brace := s.brace + 1)
  }

  /** A scan that stays inside is the scan of the body by itself, one brace deeper. */
  lemma {:induction false} RunDeeper(s: Scan, t: string)
    requires Inside(Deeper(s), t)
    ensures Run(Deeper(s), t) == Deeper(Run(s, t))
    decreases |t|
  {
    if t != "" {
      assert Inside(Advance(Deeper(s), t[0]), t[1..]);
      assert Advance(Deeper(s), t[0]) == Deeper(Advance(s, t[0]));
      RunDeeper(Advance(s, t[0]), t[1..]);
    }
  }

  /** Parts that are balanced by themselves, inside the braces. */
  ghost predicate Balanced(parts: seq<string>) {
    forall i :: 0 <= i < |parts| ==> Inside(BRACED, parts[i]) && Run(INIT, parts[i]) == INIT
  }

  /** Blanks on both sides leave a text inside the braces. */
  lemma CoreInside(lead: string, core: string, trail: string)
    requires Blank(lead) && Inside(BRACED, lead + (core + trail))
    ensures Inside(BRACED, core)
  {
    InsideAppend(BRACED, lead, core + trail);
    RunBlank(BRACED, lead, FIELD_DELIMS);
    InsideAppend(BRACED, core, trail);
  }

  lemma TrimBalanced(current: string)
    requires Inside(BRACED, current) && Run(INIT, current) == INIT && NoSplit(INIT, current, FIELD_DELIMS)
    ensures Balanced(Keep(current))
  {
    if Trim(current) != "" {
      var core := Trim(current);
      TrimmedCore(current, FIELD_DELIMS);
      var lead, trail := TrimSplits(current);
      assert current == lead + (core + trail);
      CoreInside(lead, core, trail);
      assert Keep(current) == [core];
    }
  }

  /** A stretch grows by a character that is no split point. */
  lemma StretchGrows(s: Scan, current: string, c: char)
    requires s == Run(INIT, current) && NoSplit(INIT, current, FIELD_DELIMS) && !SplitsAt(s, c, FIELD_DELIMS)
    requires Inside(BRACED, current)
    requires Advance(Deeper(s), c) == Deeper(Advance(s, c)) && Advance(Deeper(s), c).brace >= 1
    ensures Run(INIT, current + [c]) == Advance(s, c) && NoSplit(INIT, current + [c], FIELD_DELIMS)
    ensures Inside(BRACED, current + [c])
  {
    assert [c][1..] == "";
    RunAppend(INIT, current, [c], FIELD_DELIMS);
    RunDeeper(INIT, current);
    InsideAppend(BRACED, current, [c]);
  }

  lemma StepDeeper(s: Scan, rest: string)
    requires rest != "" && Inside(Deeper(s), rest)
    ensures Advance(Deeper(s), rest[0]) == Deeper(Advance(s, rest[0])) && Inside(Deeper(Advance(s, rest[0])), rest[1..])
  {
    assert Inside(Advance(Deeper(s), rest[0]), rest[1..]);
  }

  lemma {:induction false} PartsBalanced(s: Scan, current: string, rest: string)
    requires s == Run(INIT, current) && NoSplit(INIT, current, FIELD_DELIMS)
    requires Inside(BRACED, current) && Inside(Deeper(s), rest) && Run(s, rest) == INIT
    ensures Balanced(Parts(s, current, rest, FIELD_DELIMS))
    decreases |rest|
  {
    if rest == "" {
      TrimBalanced(current);
    } else {
      var c := rest[0];
      StepDeeper(s, rest);
      if SplitsAt(s, c, FIELD_DELIMS) {
        RunReachable(INIT, current);
        assert s == INIT;
        TrimBalanced(current);
        PartsBalanced(INIT, "", rest[1..]);
      } else {
        StretchGrows(s, current, c);
        PartsBalanced(Advance(s, c), current + [c], rest[1..]);
      }
    }
  }

  lemma {:induction false} FilterBalanced(parts: seq<string>, keep: string -> bool)
    requires Balanced(parts)
    ensures Balanced(Filter(parts, keep))
  {
    if parts != [] {
      assert forall i :: 0 <= i < |parts| - 1 ==> parts[1..][i] == parts[i + 1];
      FilterBalanced(parts[1..], keep);
    }
  }

  lemma {:induction false} JoinBalanced(parts: seq<string>)
    requires Balanced(parts)
    ensures Inside(BRACED, Join(parts, FIELD_SEP)) && Run(BRACED, Join(parts, FIELD_SEP)) == BRACED
  {
    if parts != [] {
      var first := parts[0];
      RunDeeper(INIT, first);
      if |parts| > 1 {
        assert forall i :: 0 <= i < |parts| - 1 ==> parts[1..][i] == parts[i + 1];
        JoinBalanced(parts[1..]);
        var tail := Join(parts[1..], FIELD_SEP);
        InsideAppend(BRACED, first, FIELD_SEP + tail);
        RunAppend(BRACED, first, FIELD_SEP + tail, FIELD_DELIMS);
        assert first + FIELD_SEP + tail == first + (FIELD_SEP + tail);
      }
    }
  }

  // ---------------------------------------------------------------- the filter

  function Fields(body: string, keep: string -> bool): string {
    FilterBody(body, keep, FIELD_SEP, FIELD_DELIMS)
  }

  function Replaced(input: string, o: nat, c: nat, inner: string): string
    requires o < c < |input|
  {
    input[..o + 1] + inner + input[c..]
  }

  /** `filter_experimental_type_fields_ts_contents` on the text after the `=` or the interface marker,
      up to the pruning of imports, for any test of a field. */
  function FilterFields(input: string, keep: string -> bool): string {
    match Span(input)
    case Some((o, c)) => if o < c < |input| then Replaced(input, o, c, Fields(input[o + 1..c], keep)) else input
    case None => input
  }

  /** The braces are found and the text between them is balanced by itself. */
  ghost predicate BalancedBody(input: string) {
    match Span(input)
    case Some((o, c)) => o < c < |input| && Inside(BRACED, input[o + 1..c])
    case None => false
  }

  lemma BodyReturns(body: string)
    requires GoodBody(body)
    ensures Run(BRACED, body) == INIT || Run(BRACED, body) == BRACED
    ensures Inside(BRACED, body) ==> Run(BRACED, body) == BRACED && Run(INIT, body) == INIT
  {
    RunReachable(BRACED, body);
    if Inside(BRACED, body) { RunDeeper(INIT, body); }
  }

  /** The text around a body and its braces. */
  function Around(pre: string, body: string, post: string): string {
    pre + ("{" + (body + ("}" + post)))
  }

  lemma AroundSlices(pre: string, body: string, post: string)
    ensures var t, o := Around(pre, body, post), |pre|;
            && o + 1 + |body| < |t|
            && t[..o + 1] == pre + "{" && t[o + 1..o + 1 + |body|] == body && t[o + 1 + |body|..] == "}" + post
  {
  }

  lemma ReplacedAround(pre: string, body: string, post: string, inner: string)
    ensures |pre| + 1 + |body| < |Around(pre, body, post)|
    ensures Replaced(Around(pre, body, post), |pre|, |pre| + 1 + |body|, inner) == Around(pre, inner, post)
  {
    AroundSlices(pre, body, post);
    assert (pre + "{") + inner + ("}" + post) == Around(pre, inner, post);
  }

  lemma SameCut(pre: string, body: string, post: string, pre': string, body': string, post': string)
    requires Around(pre, body, post) == Around(pre', body', post') && |pre| == |pre'| && |body| == |body'|
    ensures pre == pre' && body == body'
  {
    AroundSlices(pre, body, post);
    AroundSlices(pre', body', post');
    assert pre == (pre + "{")[..|pre|] == (pre' + "{")[..|pre|] == pre';
  }

  lemma SpanAroundGood(pre: string, body: string, post: string)
    requires Run(INIT, pre) == INIT && Span(Around(pre, body, post)) == Some((|pre|, |pre| + 1 + |body|))
    ensures GoodBody(body)
  {
    var pre', body', post' := SpanParts(INIT, None, |pre|, |pre| + 1 + |body|, Around(pre, body, post), 0);
    SameCut(pre, body, post, pre', body', post');
    assert Advance(INIT, '{') == BRACED;
  }

  /** The braces are found around the body put between them. */
  predicate FoundAround(pre: string, body: string, post: string) {
    Span(Around(pre, body, post)) == Some((|pre|, |pre| + 1 + |body|))
  }

  lemma SpanAround(s: Scan, input: string, pre: string, body: string, post: string, index: nat)
    requires NoSpan(s, None, pre, index) && Run(s, pre) == INIT && GoodBody(body)
    requires input == pre + ("{" + (body + ("}" + post)))
    ensures SpanFrom(s, None, input, index) == Some((index + |pre|, index + |pre| + 1 + |body|))
  {
    SpanIs(s, None, pre, body, post, index);
  }

  lemma SpanAroundFound(pre: string, body: string, post: string)
    requires NoSpan(INIT, None, pre, 0) && Run(INIT, pre) == INIT && GoodBody(body)
    ensures FoundAround(pre, body, post)
  {
    SpanAround(INIT, Around(pre, body, post), pre, body, post, 0);
  }

  /** A body put between the braces has its span there exactly if it stays between them. */
  lemma SpanAroundIff(pre: string, body: string, post: string)
    requires NoSpan(INIT, None, pre, 0) && Run(INIT, pre) == INIT
    ensures FoundAround(pre, body, post) <==> GoodBody(body)
  {
    if GoodBody(body) {
      SpanAroundFound(pre, body, post);
    } else if FoundAround(pre, body, post) {
      SpanAroundGood(pre, body, post);
    }
  }

  /** What the filter makes of a body in its place. */
  lemma FilterAround(pre: string, body: string, post: string, inner: string, keep: string -> bool)
    requires NoSpan(INIT, None, pre, 0) && Run(INIT, pre) == INIT && GoodBody(body) && inner == Fields(body, keep)
    ensures FilterFields(Around(pre, body, post), keep) == Around(pre, inner, post)
  {
    SpanAroundFound(pre, body, post);
    AroundSlices(pre, body, post);
    ReplacedAround(pre, body, post, inner);
  }

  /** A text with a span, taken apart. */
  lemma TakeApart(input: string) returns (pre: string, body: string, post: string)
    requires Span(input).Some?
    ensures var (o, c) := Span(input).value;
            && input == Around(pre, body, post) && o == |pre| && c == |pre| + 1 + |body| && c < |input|
            && input[o + 1..c] == body
    ensures NoSpan(INIT, None, pre, 0) && Run(INIT, pre) == INIT && GoodBody(body)
  {
    var (o, c) := Span(input).value;
    SpanStart(INIT, None, input, 0);
    pre, body, post := SpanParts(INIT, None, o, c, input, 0);
    AroundSlices(pre, body, post);
    RunReachable(INIT, pre);
  }

  /** The filtered text holds precisely the surviving fields where the body was.  Its braces are found again
      in their places exactly if these fields stay between them, and then filtering again changes nothing. */
  lemma FilterFieldsExact(input: string, keep: string -> bool)
    requires Span(input).Some?
    ensures var (o, c) := Span(input).value;
            && o < c < |input|
            && var inner := Fields(input[o + 1..c], keep);
            var result := FilterFields(input, keep);
            && result == Replaced(input, o, c, inner)
            && Split(inner, FIELD_DELIMS) == Filter(Split(input[o + 1..c], FIELD_DELIMS), keep)
            && (Span(result) == Some((o, o + 1 + |inner|)) <==> GoodBody(inner))
            && (GoodBody(inner) ==> FilterFields(result, keep) == result)
  {
    var pre, body, post := TakeApart(input);
    var inner := Fields(body, keep);
    FiltersQualify();
    FilterBodyExact(body, keep, FIELD_SEP, FIELD_DELIMS);
    ReplacedAround(pre, body, post, inner);
    FilterAround(pre, body, post, inner, keep);
    SpanAroundIff(pre, inner, post);
    if GoodBody(inner) { FilterAround(pre, inner, post, inner, keep); }
  }

  /** So it is whenever the body is balanced by itself, as in generated types. */
  lemma BalancedStaysGood(input: string, keep: string -> bool)
    requires BalancedBody(input)
    ensures var (o, c) := Span(input).value; GoodBody(Fields(input[o + 1..c], keep))
  {
    var pre, body, post := TakeApart(input);
    BodyReturns(body);
    PartsBalanced(INIT, "", body);
    FilterBalanced(Split(body, FIELD_DELIMS), keep);
    JoinBalanced(Filter(Split(body, FIELD_DELIMS), keep));
    InsideEncloses(BRACED, Fields(body, keep));
  }

  // ---------------------------------------------------------------- every selection of the fields

  /** The same for text put after a body that has closed the braces already. */
  ghost predicate GoodAfter(text: string) {
    Enclosed(INIT, text) && Closes(Advance(Run(INIT, text), '}'), '}')
  }

  lemma {:induction false} EnclosedAppend(s: Scan, a: string, b: string)
    ensures Enclosed(s, a + b) <==> Enclosed(s, a) && Enclosed(Run(s, a), b)
    decreases |a|
  {
    if a == "" {
      assert a + b == b;
    } else {
      assert (a + b)[1..] == a[1..] + b;
      EnclosedAppend(Advance(s, a[0]), a[1..], b);
    }
  }

  /** A first part and what follows it. */
  lemma JoinSplits(s: Scan, first: string, tail: string)
    requires Run(s, first) == INIT || Run(s, first) == BRACED
    ensures Run(s, first + FIELD_SEP + tail) == Run(Run(s, first), tail)
    ensures Enclosed(s, first + FIELD_SEP + tail) <==> Enclosed(s, first) && Enclosed(Run(s, first), tail)
  {
    assert first + FIELD_SEP + tail == first + (FIELD_SEP + tail);
    RunAppend(s, first, FIELD_SEP + tail, FIELD_DELIMS);
    EnclosedAppend(s, first, FIELD_SEP + tail);
  }

  /** Each part stays between the braces, alone and after any one part before it. */
  ghost predicate PairsGood(parts: seq<string>) {
    parts != [] ==>
      && GoodBody(parts[0])
      && (forall p :: p in parts[1..] ==> GoodBody(Join([parts[0], p], FIELD_SEP)))
      && PairsGood(parts[1..])
  }

  /** After a part that closed the braces, a part is good in the pair exactly if it is good from there. */
  lemma PairAfterClosing(p: string, q: string)
    requires GoodBody(p) && Run(BRACED, p) == INIT
    ensures GoodBody(Join([p, q], FIELD_SEP)) <==> GoodAfter(q)
  {
    JoinSplits(BRACED, p, q);
  }

  lemma {:induction false} JoinAfter(parts: seq<string>)
    requires Chain(parts, FIELD_DELIMS) && forall p :: p in parts ==> GoodAfter(p)
    ensures GoodAfter(Join(parts, FIELD_SEP))
  {
    if |parts| > 1 {
      assert forall p :: p in parts[1..] ==> p in parts;
      assert parts[0] in parts;
      JoinAfter(parts[1..]);
      JoinSplits(INIT, parts[0], Join(parts[1..], FIELD_SEP));
    } else if |parts| == 1 {
      assert parts[0] in parts;
    }
  }

  lemma {:induction false} JoinGood(parts: seq<string>)
    requires Chain(parts, FIELD_DELIMS) && PairsGood(parts)
    ensures GoodBody(Join(parts, FIELD_SEP))
  {
    if |parts| > 1 {
      var first, tail := parts[0], parts[1..];
      BodyReturns(first);
      if Run(BRACED, first) == BRACED {
        JoinGood(tail);
      } else {
        forall p | p in tail ensures GoodAfter(p) { PairAfterClosing(first, p); }
        JoinAfter(tail);
      }
      JoinSplits(BRACED, first, Join(tail, FIELD_SEP));
    }
  }

  lemma {:induction false} SelectSubset(parts: seq<string>, chosen: seq<bool>)
    requires |parts| == |chosen|
    ensures forall p :: p in Select(parts, chosen) ==> p in parts
  {
    if parts != [] { SelectSubset(parts[1..], chosen[1..]); }
  }

  lemma {:induction false} SelectPairsGood(parts: seq<string>, chosen: seq<bool>)
    requires |parts| == |chosen| && PairsGood(parts)
    ensures PairsGood(Select(parts, chosen))
  {
    if parts != [] {
      var tail := Select(parts[1..], chosen[1..]);
      SelectPairsGood(parts[1..], chosen[1..]);
      SelectSubset(parts[1..], chosen[1..]);
      if chosen[0] {
        assert Select(parts, chosen) == [parts[0]] + tail && ([parts[0]] + tail)[1..] == tail;
      } else {
        assert Select(parts, chosen) == [] + tail == tail;
      }
    }
  }

  ghost predicate SelectionsGood(parts: seq<string>) {
    forall chosen: seq<bool> :: |chosen| == |parts| ==> GoodBody(Join(Select(parts, chosen), FIELD_SEP))
  }

  lemma {:induction false} SelectNone(parts: seq<string>, chosen: seq<bool>)
    requires |parts| == |chosen| && forall i :: 0 <= i < |chosen| ==> !chosen[i]
    ensures Select(parts, chosen) == []
  {
    if parts != [] { SelectNone(parts[1..], chosen[1..]); }
  }

  lemma {:induction false} SelectOne(parts: seq<string>, p: string) returns (chosen: seq<bool>)
    requires p in parts
    ensures |chosen| == |parts| && Select(parts, chosen) == [p]
  {
    if parts[0] == p {
      var none := seq(|parts| - 1, _ => false);
      SelectNone(parts[1..], none);
      chosen := [true] + none;
      assert chosen[1..] == none && [p] + [] == [p];
    } else {
      var rest := SelectOne(parts[1..], p);
      chosen := [false] + rest;
      assert chosen[1..] == rest && [] + [p] == [p];
    }
  }

  lemma {:induction false} SelectionsGivePairs(parts: seq<string>)
    requires SelectionsGood(parts)
    ensures PairsGood(parts)
  {
    if parts != [] {
      var one := SelectOne(parts, parts[0]);
      assert GoodBody(Join(Select(parts, one), FIELD_SEP));
      forall p | p in parts[1..]
        ensures GoodBody(Join([parts[0], p], FIELD_SEP))
      {
        var rest := SelectOne(parts[1..], p);
        var two := [true] + rest;
        assert two[1..] == rest && Select(parts, two) == [parts[0]] + [p] == [parts[0], p];
      }
      forall chosen: seq<bool> | |chosen| == |parts| - 1
        ensures GoodBody(Join(Select(parts[1..], chosen), FIELD_SEP))
      {
        var more := [false] + chosen;
        var rest := Select(parts[1..], chosen);
        assert more[1..] == chosen && Select(parts, more) == [] + rest == rest;
      }
      SelectionsGivePairs(parts[1..]);
    }
  }

  lemma PairsGiveSelections(body: string)
    requires PairsGood(Split(body, FIELD_DELIMS))
    ensures SelectionsGood(Split(body, FIELD_DELIMS))
  {
    var parts := Split(body, FIELD_DELIMS);
    PartsChain(INIT, "", body, FIELD_DELIMS);
    forall chosen: seq<bool> | |chosen| == |parts|
      ensures GoodBody(Join(Select(parts, chosen), FIELD_SEP))
    {
      SelectChain(parts, chosen, FIELD_DELIMS);
      SelectPairsGood(parts, chosen);
      JoinGood(Select(parts, chosen));
    }
  }

  lemma PairsDecide(body: string)
    ensures PairsGood(Split(body, FIELD_DELIMS)) <==> SelectionsGood(Split(body, FIELD_DELIMS))
  {
    if SelectionsGood(Split(body, FIELD_DELIMS)) {
      SelectionsGivePairs(Split(body, FIELD_DELIMS));
    } else if PairsGood(Split(body, FIELD_DELIMS)) {
      PairsGiveSelections(body);
    }
  }

  /** With `inner` put between the braces, they are found again in their places. */
  ghost predicate KeepsBraces(input: string, o: nat, c: nat, inner: string)
    requires o < c < |input|
  {
    Span(Replaced(input, o, c, inner)) == Some((o, o + 1 + |inner|))
  }

  lemma KeepsBracesIff(input: string, o: nat, c: nat, inner: string)
    requires Span(input) == Some((o, c))
    ensures o < c < |input| && (KeepsBraces(input, o, c, inner) <==> GoodBody(inner))
  {
    var pre, body, post := TakeApart(input);
    ReplacedAround(pre, body, post, inner);
    SpanAroundIff(pre, inner, post);
  }

  /** Whatever fields are dropped, the braces stay in their places exactly if each field stays between them,
      alone and after any one field before it. */
  lemma EverySelectionKeepsBracesIff(input: string, o: nat, c: nat, parts: seq<string>)
    requires Span(input) == Some((o, c))
    requires o < c < |input| ==> parts == Split(input[o + 1..c], FIELD_DELIMS)
    ensures o < c < |input|
    ensures PairsGood(parts) <==>
            forall chosen: seq<bool> :: |chosen| == |parts| ==>
              KeepsBraces(input, o, c, Join(Select(parts, chosen), FIELD_SEP))
  {
    KeepsBracesIff(input, o, c, "");
    PairsDecide(input[o + 1..c]);
    forall chosen: seq<bool> | |chosen| == |parts|
      ensures KeepsBraces(input, o, c, Join(Select(parts, chosen), FIELD_SEP)) <==>
              GoodBody(Join(Select(parts, chosen), FIELD_SEP))
    {
      KeepsBracesIff(input, o, c, Join(Select(parts, chosen), FIELD_SEP));
    }
  }

  // ---------------------------------------------------------------- an unbalanced body

  /** One character of the search for a span. */
  lemma SpanStep(s: Scan, open: Option<nat>, c: char, rest: string, index: nat)
    ensures var from := if Opens(s, c) then Some(index) else open;
            SpanFrom(s, open, [c] + rest, index) ==
            if Closes(Advance(s, c), c) && from.Some? then Some((from.value, index))
            else SpanFrom(Advance(s, c), from, rest, index + 1)
  {
    assert ([c] + rest)[1..] == rest;
  }

  /** An opening brace, then `(})` or `[{]`. */
  lemma SpanRound(open: Option<nat>, rest: string, index: nat)
    ensures SpanFrom(BRACED, open, ['('] + (['}'] + ([')'] + rest)), index) == SpanFrom(INIT, open, rest, index + 3)
  {
    var one, two := BRACED.(paren := 1), INIT.(paren := 1);
    SpanStep(BRACED, open, '(', ['}'] + ([')'] + rest), index);
    SpanStep(one, open, '}', [')'] + rest, index + 1);
    SpanStep(two, open, ')', rest, index + 2);
  }

  lemma SpanSquare(s: Scan, open: Option<nat>, rest: string, index: nat)
    requires s == INIT || s == BRACED
    ensures SpanFrom(s, open, ['['] + (['{'] + ([']'] + rest)), index) == SpanFrom(Deeper(s), open, rest, index + 3)
  {
    var one := s.(bracket := 1);
    SpanStep(s, open, '[', ['{'] + ([']'] + rest), index);
    SpanStep(one, open, '{', [']'] + rest, index + 1);
    SpanStep(Deeper(one), open, ']', rest, index + 2);
  }

  const ROUND := "(})"
  const SQUARE := "[{]"

  lemma PartRuns()
    ensures Run(INIT, ROUND) == INIT && IsPart(ROUND, FIELD_DELIMS)
    ensures IsPart(SQUARE, FIELD_DELIMS)
  {
    assert ROUND[1..] == "})" && "})"[1..] == ")" && ")"[1..] == "";
    assert SQUARE[1..] == "{]" && "{]"[1..] == "]" && "]"[1..] == "";
    assert Run(INIT, ROUND) == Run(Advance(INIT, '('), "})") == Run(Advance(Advance(INIT, '('), '}'), ")");
  }

  lemma RoundSquareSplits()
    ensures Split(ROUND + "," + SQUARE, FIELD_DELIMS) == [ROUND, SQUARE]
  {
    PartRuns();
    assert "," == [','] && ","[..0] == "" && ","[0] in FIELD_DELIMS && ","[1..] == "";
    SplitOff(ROUND, ",", SQUARE, FIELD_DELIMS);
    PartsSkip(INIT, "", SQUARE, "", FIELD_DELIMS);
    assert SQUARE + "" == SQUARE && "" + SQUARE == SQUARE;
    KeepTrimmed(SQUARE, "");
  }

  lemma LongSpan(text: string, round: string, square: string, end: string)
    requires end == ['}'] + "" && square == ['['] + (['{'] + ([']'] + end))
    requires round == ['('] + (['}'] + ([')'] + ([','] + square))) && text == ['{'] + round
    ensures Span(text) == Some((0, 8))
  {
    SpanStep(INIT, None, '{', round, 0);
    SpanRound(Some(0), [','] + square, 1);
    SpanStep(INIT, Some(0), ',', square, 4);
    SpanSquare(INIT, Some(0), end, 5);
    SpanStep(BRACED, Some(0), '}', "", 8);
  }

  lemma ShortSpan(text: string, square: string, end: string)
    requires end == ['}'] + "" && square == ['['] + (['{'] + ([']'] + end)) && text == ['{'] + square
    ensures Span(text) == None
  {
    SpanStep(INIT, None, '{', square, 0);
    SpanSquare(BRACED, Some(0), end, 1);
    SpanStep(Deeper(BRACED), Some(0), '}', "", 4);
  }

  lemma RoundDropped(body: string, keep: string -> bool)
    requires body == ROUND + "," + SQUARE && !keep(ROUND) && keep(SQUARE)
    ensures Fields(body, keep) == SQUARE
  {
    RoundSquareSplits();
    DropFirst(ROUND, SQUARE, keep);
  }

  lemma DropFirst(a: string, b: string, keep: string -> bool)
    requires !keep(a) && keep(b)
    ensures Filter([a, b], keep) == [b]
  {
    assert [a, b][1..] == [b] && [b][1..] == [];
    assert Filter([b], keep) == [b] + Filter([], keep) == [b];
  }

  /** Without balance the braces can get lost: here dropping one field leaves a text without a span. */
  lemma UnbalancedBodyLosesBraces(input: string, keep: string -> bool)
    requires input == "{(}),[{]}" && !keep("(})") && keep("[{]")
    ensures Span(input) == Some((0, 8)) && Span(FilterFields(input, keep)) == None
  {
    var end := ['}'] + "";
    var square := ['['] + (['{'] + ([']'] + end));
    LongSpan(input, ['('] + (['}'] + ([')'] + ([','] + square))), square, end);
    var body := input[1..8];
    assert body == ROUND + "," + SQUARE;
    RoundDropped(body, keep);
    var result := Replaced(input, 0, 8, SQUARE);
    assert result == ['{'] + square;
    ShortSpan(result, square, end);
  }
}
