/** The bracket and string scanner for generated TypeScript, the split at top level
    built on it, and the filters that split, select and join. */
module TypeScriptFilter {
  import opened Json
  import opened Text

  /** Where a scan stands: open brackets of each kind, the open quote, a pending backslash. */
  datatype Scan = Scan(brace: nat, bracket: nat, paren: nat, angle: nat, quote: Option<char>, escape: bool) {
    predicate InString() { quote.Some? }

    predicate TopLevel() { brace == 0 && bracket == 0 && paren == 0 && angle == 0 }
  }

  const INIT := Scan(0, 0, 0, 0, None, false)

  function Dec(n: nat): nat {
    if n > 0 then n - 1 else 0
  }

  function Advance(s: Scan, c: char): Scan {
    if s.quote.Some? then
      if s.escape then s.(escape := false)
      else if c == '\\' then s.(escape := true)
      else if c == s.quote.value then s.(quote := None)
      else s
    else if c == '"' || c == '\'' then s.(quote := Some(c))
    else if c == '{' then s.(brace := s.brace + 1)
    else if c == '}' then s.(brace := Dec(s.brace))
    else if c == '[' then s.(bracket := s.bracket + 1)
    else if c == ']' then s.(bracket := Dec(s.bracket))
    else if c == '(' then s.(paren := s.paren + 1)
    else if c == ')' then s.(paren := Dec(s.paren))
    else if c == '<' then s.(angle := s.angle + 1)
    else if c == '>' then s.(angle := Dec(s.angle))
    else s
  }

  /** `ScanState`, updated in place. */
  class ScanState {
    var brace: int
    var bracket: int
    var paren: int
    var angle: int
    var stringDelim: Option<char>
    var escape: bool

    ghost predicate Valid() reads this {
      brace >= 0 && bracket >= 0 && paren >= 0 && angle >= 0
    }

    ghost function Value(): Scan
      reads this
      requires Valid()
    {
      Scan(brace, bracket, paren, angle, stringDelim, escape)
    }

    constructor ()
      ensures Valid() && Value() == INIT
    {
      brace, bracket, paren, angle := 0, 0, 0, 0;
      stringDelim, escape := None, false;
    }

    method Observe(ch: char)
      requires Valid()
      modifies this
      ensures Valid() && Value() == Advance(old(Value()), ch)
    {
      if stringDelim.Some? {
        if escape {
          escape := false;
          return;
        }
        if ch == '\\' {
          escape := true;
          return;
        }
        if ch == stringDelim.value {
          stringDelim := None;
        }
        return;
      }
      match ch {
        case '"' => stringDelim := Some(ch);
        case '\'' => stringDelim := Some(ch);
        case '{' => brace := brace + 1;
        case '}' => brace := if brace - 1 > 0 then brace - 1 else 0;
        case '[' => bracket := bracket + 1;
        case ']' => bracket := if bracket - 1 > 0 then bracket - 1 else 0;
        case '(' => paren := paren + 1;
        case ')' => paren := if paren - 1 > 0 then paren - 1 else 0;
        case '<' => angle := angle + 1;
        case '>' => if angle > 0 { angle := angle - 1; }
        case _ =>
      }
    }

    predicate InString() reads this { stringDelim.Some? }

    predicate TopLevel() reads this { brace == 0 && bracket == 0 && paren == 0 && angle == 0 }
  }

  function Run(s: Scan, t: string): Scan
    decreases |t|
  {
    if t == "" then s else Run(Advance(s, t[0]), t[1..])
  }

  /** No depth exceeds the number of characters seen: texts shorter than 2^31 cannot overflow the 32-bit counters. */
  lemma {:induction false} DepthBounded(s: Scan, t: string)
    ensures var r := Run(s, t);
            && r.brace <= s.brace + |t| && r.bracket <= s.bracket + |t|
            && r.paren <= s.paren + |t| && r.angle <= s.angle + |t|
    decreases |t|
  {
    if t != "" { DepthBounded(Advance(s, t[0]), t[1..]); }
  }

  // ---------------------------------------------------------------- splitting

  predicate SplitsAt(s: Scan, c: char, delims: set<char>) {
    !s.InString() && s.TopLevel() && c in delims
  }

  /** A part is kept when something is left of it after trimming. */
  function Keep(part: string): seq<string> {
    if Trim(part) == "" then [] else [Trim(part)]
  }

  /** The parts of the text `current + rest`, the scan standing at `s` between the two. */
  function Parts(s: Scan, current: string, rest: string, delims: set<char>): seq<string>
    decreases |rest|
  {
    if rest == "" then Keep(current)
    else if SplitsAt(s, rest[0], delims) then Keep(current) + Parts(Advance(s, rest[0]), "", rest[1..], delims)
    else Parts(Advance(s, rest[0]), current + [rest[0]], rest[1..], delims)
  }

  function Split(input: string, delims: set<char>): seq<string> {
    Parts(INIT, "", input, delims)
  }

  /** What the scan of one more character does to the parts found and the parts still to come. */
  lemma PartsStep(parts: seq<string>, s: Scan, input: string, start: nat, index: nat, delims: set<char>)
    requires start <= index < |input|
    ensures var t := Advance(s, input[index]);
            parts + Parts(s, input[start..index], input[index..], delims) ==
            if SplitsAt(s, input[index], delims)
            then parts + Keep(input[start..index]) + Parts(t, input[index + 1..index + 1], input[index + 1..], delims)
            else parts + Parts(t, input[start..index + 1], input[index + 1..], delims)
  {
    assert input[index..][0] == input[index] && input[index..][1..] == input[index + 1..];
    assert input[start..index] + [input[index]] == input[start..index + 1];
    assert input[index + 1..index + 1] == "";
    if SplitsAt(s, input[index], delims) {
      var later := Parts(Advance(s, input[index]), "", input[index + 1..], delims);
      assert parts + (Keep(input[start..index]) + later) == parts + Keep(input[start..index]) + later;
    }
  }

  lemma PartsEnd(s: Scan, input: string, start: nat, delims: set<char>)
    requires start <= |input|
    ensures Parts(s, input[start..|input|], input[|input|..], delims) == Keep(input[start..])
  {
    assert input[|input|..] == "" && input[start..|input|] == input[start..];
  }

  /** The parts found and those still to come, the scan standing at `index`. */
  predicate Splitting(goal: seq<string>, parts: seq<string>, s: Scan, input: string, start: nat, index: nat,
                      delims: set<char>)
  {
    start <= index <= |input| && goal == parts + Parts(s, input[start..index], input[index..], delims)
  }

  lemma SplittingStep(goal: seq<string>, parts: seq<string>, parts': seq<string>, s: Scan, input: string,
                      start: nat, start': nat, index: nat, delims: set<char>)
    requires index < |input| && Splitting(goal, parts, s, input, start, index, delims)
    requires if SplitsAt(s, input[index], delims)
             then parts' == parts + Keep(input[start..index]) && start' == index + 1
             else parts' == parts && start' == start
    ensures Splitting(goal, parts', Advance(s, input[index]), input, start', index + 1, delims)
  {
    PartsStep(parts, s, input, start, index, delims);
  }

  lemma SplittingEnds(goal: seq<string>, parts: seq<string>, s: Scan, input: string, start: nat, delims: set<char>)
    requires Splitting(goal, parts, s, input, start, |input|, delims)
    ensures goal == parts + Keep(input[start..])
  {
    PartsEnd(s, input, start, delims);
  }

  /** `split_top_level_multi` */
  method SplitTopLevelMulti(input: string, delims: set<char>) returns (parts: seq<string>)
    ensures parts == Split(input, delims)
  {
    var state := new ScanState();
    ghost var scan := INIT;
    var start := 0;
    parts := [];
    for index := 0 to |input|
      invariant state.Valid() && fresh(state) && state.Value() == scan
      invariant 0 <= start && Splitting(Split(input, delims), parts, scan, input, start, index, delims)
    {
      var ch := input[index];
      ghost var found, from := parts, start;
      if !state.InString() && state.TopLevel() && ch in delims {
        var part := Trim(input[start..index]);
        if part != "" {
          parts := parts + [part];
        }
        start := index + 1;
      }
      SplittingStep(Split(input, delims), found, parts, scan, input, from, start, index, delims);
      state.Observe(ch);
      scan := Advance(scan, ch);
    }
    SplittingEnds(Split(input, delims), parts, scan, input, start, delims);
    var tail := Trim(input[start..]);
    if tail != "" {
      parts := parts + [tail];
    }
  }
}
