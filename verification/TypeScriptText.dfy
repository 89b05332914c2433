/** The texts the scanner is for, written down as a grammar of their own: brackets that match, strings
    with escapes, and other characters.  What the split and the brace search do is stated on them. */
module TypeScriptText {
  import opened Json
  import opened Text
  import opened TypeScriptFilter
  import opened TypeScriptRoundTrip
  import opened TypeScriptFields

  /** What a string is made of. */
  datatype Unit = Single(c: char) | Escaped(c: char)

  datatype Piece =
    | Other(c: char)
    | Quoted(quote: char, units: seq<Unit>)
    | Group(open: char, inside: seq<Piece>, close: char)

  predicate Pair(open: char, close: char) {
    || (open == '{' && close == '}') || (open == '[' && close == ']')
    || (open == '(' && close == ')') || (open == '<' && close == '>')
  }

  const CLOSERS := {'}', ']', ')', '>'}

  predicate Formed(p: Piece)
    decreases p
  {
    match p
    case Other(c) => c !in {'{', '}', '[', ']', '(', ')', '<', '>', '"', '\''}
    case Quoted(q, units) =>
      && (q == '"' || q == '\'')
      && forall i :: 0 <= i < |units| && units[i].Single? ==> units[i].c != q && units[i].c != '\\'
    case Group(open, inside, close) => Pair(open, close) && AllFormed(inside)
  }

  predicate AllFormed(ps: seq<Piece>)
    decreases ps
  {
    ps != [] ==> Formed(ps[0]) && AllFormed(ps[1..])
  }

  function UnitText(u: Unit): string {
    match u case Single(c) => [c] case Escaped(c) => ['\\', c]
  }

  function UnitsText(units: seq<Unit>): string {
    if units == [] then "" else UnitText(units[0]) + UnitsText(units[1..])
  }

  function PieceText(p: Piece): string
    decreases p
  {
    match p
    case Other(c) => [c]
    case Quoted(q, units) => [q] + (UnitsText(units) + [q])
    case Group(open, inside, close) => [open] + (Written(inside) + [close])
  }

  /** The text written by pieces one after the other. */
  function Written(ps: seq<Piece>): string
    decreases ps
  {
    if ps == [] then "" else PieceText(ps[0]) + Written(ps[1..])
  }

  /** None of the characters outside brackets and strings is one of these. */
  predicate Without(ps: seq<Piece>, chars: set<char>) {
    forall i :: 0 <= i < |ps| && ps[i].Other? ==> ps[i].c !in chars
  }

  // ---------------------------------------------------------------- scanning them

  lemma OneMore(s: Scan, c: char, t: string, delims: set<char>)
    ensures Run(s, [c] + t) == Run(Advance(s, c), t)
    ensures NoSplit(s, [c] + t, delims) <==> !SplitsAt(s, c, delims) && NoSplit(Advance(s, c), t, delims)
  {
    assert ([c] + t)[0] == c && ([c] + t)[1..] == t;
  }

  lemma JustOne(s: Scan, c: char, delims: set<char>)
    ensures Run(s, [c]) == Advance(s, c) && (NoSplit(s, [c], delims) <==> !SplitsAt(s, c, delims))
  {
    OneMore(s, c, "", delims);
    assert [c] + "" == [c];
  }

  /** Inside a string only its own quote, unescaped, ends it. */
  lemma {:induction false} UnitsStay(s: Scan, units: seq<Unit>, delims: set<char>)
    requires s.quote.Some? && !s.escape && s.quote.value != '\\'
    requires forall i :: 0 <= i < |units| && units[i].Single? ==> units[i].c != s.quote.value && units[i].c != '\\'
    ensures Run(s, UnitsText(units)) == s && NoSplit(s, UnitsText(units), delims)
  {
    if units != [] {
      UnitsStay(s, units[1..], delims);
      RunAppend(s, UnitText(units[0]), UnitsText(units[1..]), delims);
      match units[0]
      case Single(c) => JustOne(s, c, delims);
      case Escaped(c) =>
        OneMore(s, '\\', [c], delims);
        JustOne(s.(escape := true), c, delims);
        assert ['\\'] + [c] == ['\\', c];
    }
  }

  lemma QuotedReturns(s: Scan, q: char, units: seq<Unit>, delims: set<char>)
    requires s.quote.None? && !s.escape && Formed(Quoted(q, units)) && PlainDelims(delims)
    ensures Run(s, PieceText(Quoted(q, units))) == s && NoSplit(s, PieceText(Quoted(q, units)), delims)
  {
    var within := s.(quote := Some(q));
    assert q !in delims by { assert Advance(INIT, q) != INIT; }
    OneMore(s, q, UnitsText(units) + [q], delims);
    UnitsStay(within, units, delims);
    RunAppend(within, UnitsText(units), [q], delims);
    JustOne(within, q, delims);
  }

  /** The brackets of a pair undo each other, and the first is no delimiter. */
  lemma PairReturns(s: Scan, open: char, close: char, delims: set<char>)
    requires s.quote.None? && Pair(open, close) && PlainDelims(delims)
    ensures var t := Advance(s, open);
            && t.quote == s.quote && t.escape == s.escape && !t.TopLevel() && Advance(t, close) == s
    ensures open !in delims
  {
    assert Advance(INIT, open) != INIT;
  }

  /** Every piece leaves the scanner as it was; between brackets, and in a string, nothing splits. */
  lemma {:induction false} PieceReturns(s: Scan, p: Piece, delims: set<char>)
    requires s.quote.None? && !s.escape && Formed(p) && PlainDelims(delims)
    ensures Run(s, PieceText(p)) == s
    ensures !s.TopLevel() || !p.Other? || p.c !in delims ==> NoSplit(s, PieceText(p), delims)
    decreases p
  {
    match p
    case Other(c) => JustOne(s, c, delims);
    case Quoted(q, units) => QuotedReturns(s, q, units, delims);
    case Group(open, inside, close) =>
      var within := Advance(s, open);
      PairReturns(s, open, close, delims);
      OneMore(s, open, Written(inside) + [close], delims);
      PiecesReturn(within, inside, delims);
      RunAppend(within, Written(inside), [close], delims);
      JustOne(within, close, delims);
  }

  lemma {:induction false} PiecesReturn(s: Scan, ps: seq<Piece>, delims: set<char>)
    requires s.quote.None? && !s.escape && AllFormed(ps) && PlainDelims(delims)
    ensures Run(s, Written(ps)) == s
    ensures !s.TopLevel() || Without(ps, delims) ==> NoSplit(s, Written(ps), delims)
    decreases ps
  {
    if ps != [] {
      PieceReturns(s, ps[0], delims);
      PiecesReturn(s, ps[1..], delims);
      RunAppend(s, PieceText(ps[0]), Written(ps[1..]), delims);
    }
  }

  // ---------------------------------------------------------------- what splits

  function AllWritten(fields: seq<seq<Piece>>): seq<string> {
    seq(|fields|, i requires 0 <= i < |fields| => Written(fields[i]))
  }

  /** A field as the generator writes it: no blank at its ends, its delimiters within brackets or strings. */
  predicate Field(ps: seq<Piece>, delims: set<char>) {
    AllFormed(ps) && Written(ps) != "" && Trimmed(Written(ps)) && Without(ps, delims)
  }

  lemma {:induction false} FieldsChain(fields: seq<seq<Piece>>, delims: set<char>)
    requires PlainDelims(delims) && forall i :: 0 <= i < |fields| ==> Field(fields[i], delims)
    ensures Chain(AllWritten(fields), delims)
  {
    if fields != [] {
      assert Field(fields[0], delims);
      PiecesReturn(INIT, fields[0], delims);
      FieldsChain(fields[1..], delims);
      assert AllWritten(fields)[1..] == AllWritten(fields[1..]);
    }
  }

  /** Fields joined by a separator are split into precisely these fields: no delimiter within `{}`, `[]`, `()`,
      `<>` or a string splits, and every other one does. */
  lemma FieldsSplit(fields: seq<seq<Piece>>, sep: string, delims: set<char>)
    requires PlainDelims(delims) && IsSeparator(sep, delims)
    requires forall i :: 0 <= i < |fields| ==> Field(fields[i], delims)
    ensures Split(Join(AllWritten(fields), sep), delims) == AllWritten(fields)
  {
    FieldsChain(fields, delims);
    SplitJoin(AllWritten(fields), sep, delims);
  }

  /** A text without split point is one part. */
  lemma Unsplit(t: string, delims: set<char>)
    requires NoSplit(INIT, t, delims)
    ensures Split(t, delims) == Keep(t)
  {
    PartsSkip(INIT, "", t, "", delims);
    assert t + "" == t && "" + t == t;
  }

  /** A bracket that only a closing bracket of another kind follows stays open: nothing after it splits. */
  lemma OnlyItsOwnCloses(open: char, inside: seq<Piece>, wrong: char, after: seq<Piece>, delims: set<char>)
    requires PlainDelims(delims) && AllFormed(inside) && AllFormed(after)
    requires open in {'{', '[', '(', '<'} && wrong in CLOSERS && !Pair(open, wrong)
    ensures var t := [open] + (Written(inside) + ([wrong] + Written(after)));
            Split(t, delims) == if Trim(t) == "" then [] else [Trim(t)]
  {
    var within := Advance(INIT, open);
    assert Advance(INIT, open) != INIT && !within.TopLevel() && Advance(within, wrong) == within;
    OneMore(INIT, open, Written(inside) + ([wrong] + Written(after)), delims);
    PiecesReturn(within, inside, delims);
    RunAppend(within, Written(inside), [wrong] + Written(after), delims);
    OneMore(within, wrong, Written(after), delims);
    PiecesReturn(within, after, delims);
    Unsplit([open] + (Written(inside) + ([wrong] + Written(after))), delims);
  }

  /** A closing bracket with nothing to close changes nothing: what follows is split as by itself. */
  lemma StrayCloserIgnored(close: char, sep: string, rest: string, delims: set<char>)
    requires PlainDelims(delims) && IsSeparator(sep, delims) && close in CLOSERS && close !in delims
    ensures Split([close] + sep + rest, delims) == [[close]] + Split(rest, delims)
  {
    JustOne(INIT, close, delims);
    SplitOff([close], sep, rest, delims);
  }

  // ---------------------------------------------------------------- the braces of a body

  predicate Braced(p: Piece) {
    p.Group? && p.open == '{'
  }

  /** No group in braces, except within others. */
  predicate NoBraces(ps: seq<Piece>) {
    forall i :: 0 <= i < |ps| ==> !Braced(ps[i])
  }

  /** A piece is not taken for the body, unless it is a group in braces at the top. */
  lemma {:induction false} PieceEnclosed(s: Scan, p: Piece)
    requires s.quote.None? && !s.escape && Formed(p) && (s.TopLevel() ==> !Braced(p))
    ensures Enclosed(s, PieceText(p))
    decreases p
  {
    match p
    case Other(c) => EnclosedOne(s, c);
    case Quoted(q, units) =>
      var within := s.(quote := Some(q));
      UnitsEnclosed(within, units);
      UnitsStay(within, units, {});
      EnclosedOne(within, q);
      EnclosedAppend(within, UnitsText(units), [q]);
      EnclosedOne(s, q);
      EnclosedAppend(s, [q], UnitsText(units) + [q]);
      JustOne(s, q, {});
    case Group(open, inside, close) =>
      var within := Advance(s, open);
      PairReturns(s, open, close, {});
      PiecesEnclosed(within, inside);
      PiecesReturn(within, inside, {});
      EnclosedOne(within, close);
      EnclosedAppend(within, Written(inside), [close]);
      EnclosedOne(s, open);
      EnclosedAppend(s, [open], Written(inside) + [close]);
      JustOne(s, open, {});
  }

  lemma EnclosedOne(s: Scan, c: char)
    ensures Enclosed(s, [c]) <==> !Opens(s, c) && !Closes(Advance(s, c), c)
  {
    assert [c][1..] == "";
  }

  lemma {:induction false} UnitsEnclosed(s: Scan, units: seq<Unit>)
    requires s.quote.Some? && !s.escape && s.quote.value != '\\'
    requires forall i :: 0 <= i < |units| && units[i].Single? ==> units[i].c != s.quote.value && units[i].c != '\\'
    ensures Enclosed(s, UnitsText(units))
  {
    if units != [] {
      UnitsEnclosed(s, units[1..]);
      UnitsStay(s, [units[0]], {});
      assert UnitsText([units[0]]) == UnitText(units[0]) by { assert UnitText(units[0]) + "" == UnitText(units[0]); }
      EnclosedAppend(s, UnitText(units[0]), UnitsText(units[1..]));
      match units[0]
      case Single(c) => EnclosedOne(s, c);
      case Escaped(c) =>
        assert ['\\', c][1..] == [c];
        EnclosedOne(s.(escape := true), c);
    }
  }

  lemma {:induction false} PiecesEnclosed(s: Scan, ps: seq<Piece>)
    requires s.quote.None? && !s.escape && AllFormed(ps) && (s.TopLevel() ==> NoBraces(ps))
    ensures Enclosed(s, Written(ps))
    decreases ps
  {
    if ps != [] {
      PieceEnclosed(s, ps[0]);
      PieceReturns(s, ps[0], {});
      PiecesEnclosed(s, ps[1..]);
      EnclosedAppend(s, PieceText(ps[0]), Written(ps[1..]));
    }
  }

  lemma {:induction false} EnclosedHasNoSpan(s: Scan, t: string, index: nat)
    requires Enclosed(s, t)
    ensures NoSpan(s, None, t, index)
    decreases |t|
  {
    if t != "" { EnclosedHasNoSpan(Advance(s, t[0]), t[1..], index + 1); }
  }

  lemma StaysBetween(body: string)
    requires Enclosed(BRACED, body) && Run(BRACED, body) == BRACED
    ensures GoodBody(body)
  {
    assert Advance(BRACED, '}') == INIT;
  }

  lemma NoBodyBefore(pre: seq<Piece>)
    requires AllFormed(pre) && NoBraces(pre)
    ensures NoSpan(INIT, None, Written(pre), 0) && Run(INIT, Written(pre)) == INIT
  {
    PiecesEnclosed(INIT, pre);
    PiecesReturn(INIT, pre, {});
    EnclosedHasNoSpan(INIT, Written(pre), 0);
  }

  /** The span found is that of the first group in braces outside all other brackets and strings,
      up to the brace that matches, whatever follows. */
  lemma BodyIsFound(pre: seq<Piece>, inside: seq<Piece>, post: string)
    requires AllFormed(pre) && NoBraces(pre) && AllFormed(inside)
    ensures Span(Written(pre) + ("{" + (Written(inside) + ("}" + post)))) ==
            Some((|Written(pre)|, |Written(pre)| + 1 + |Written(inside)|))
  {
    NoBodyBefore(pre);
    PiecesEnclosed(BRACED, inside);
    PiecesReturn(BRACED, inside, {});
    StaysBetween(Written(inside));
    SpanIs(INIT, None, Written(pre), Written(inside), post, 0);
  }

  lemma {:induction false} FieldsStay(fields: seq<seq<Piece>>)
    requires forall i :: 0 <= i < |fields| ==> AllFormed(fields[i])
    ensures Enclosed(BRACED, Join(AllWritten(fields), FIELD_SEP))
    ensures Run(BRACED, Join(AllWritten(fields), FIELD_SEP)) == BRACED
  {
    if fields != [] {
      PiecesEnclosed(BRACED, fields[0]);
      PiecesReturn(BRACED, fields[0], {});
      if |fields| > 1 {
        FieldsStay(fields[1..]);
        assert AllWritten(fields)[1..] == AllWritten(fields[1..]);
        JoinSplits(BRACED, Written(fields[0]), Join(AllWritten(fields[1..]), FIELD_SEP));
      }
    }
  }

  /** The filter of a type's fields, in terms of its text: the fields wanted are left, in order, between
      the same braces, and the rest of the text is as it was. */
  lemma FieldsFiltered(pre: seq<Piece>, fields: seq<seq<Piece>>, post: string, keep: string -> bool)
    requires AllFormed(pre) && NoBraces(pre)
    requires forall i :: 0 <= i < |fields| ==> Field(fields[i], FIELD_DELIMS)
    ensures FilterFields(Around(Written(pre), Join(AllWritten(fields), FIELD_SEP), post), keep) ==
            Around(Written(pre), Join(Filter(AllWritten(fields), keep), FIELD_SEP), post)
    ensures Picks(AllWritten(fields), Flags(AllWritten(fields), keep), Filter(AllWritten(fields), keep))
  {
    var body := Join(AllWritten(fields), FIELD_SEP);
    forall i | 0 <= i < |fields| ensures AllFormed(fields[i]) { assert Field(fields[i], FIELD_DELIMS); }
    FiltersQualify();
    NoBodyBefore(pre);
    FieldsStay(fields);
    StaysBetween(body);
    FieldsSplit(fields, FIELD_SEP, FIELD_DELIMS);
    FilterAround(Written(pre), body, post, Fields(body, keep), keep);
    FilterPicks(AllWritten(fields), keep);
  }

  /** ... and likewise the filter of the request union, between the first `=` and the last `;`. */
  lemma ArmsFiltered(before: string, arms: seq<seq<Piece>>, after: string, keep: string -> bool)
    requires '=' !in before && ';' !in after
    requires forall i :: 0 <= i < |arms| ==> Field(arms[i], {'|'})
    ensures FilterClientRequest(before + "=" + Join(AllWritten(arms), " | ") + (";" + after), keep) ==
            before + "=" + Join(Filter(AllWritten(arms), keep), " | ") + (";" + after)
    ensures Picks(AllWritten(arms), Flags(AllWritten(arms), keep), Filter(AllWritten(arms), keep))
  {
    AliasIs(before, Join(AllWritten(arms), " | "), after);
    FiltersQualify();
    FieldsSplit(arms, " | ", {'|'});
    FilterPicks(AllWritten(arms), keep);
  }
}
