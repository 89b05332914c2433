/** Capturing one output stream of a process under a byte cap. */
module OutputCapture {
  import opened Json
  import opened CommandSessions

  type Byte = bv8

  datatype Delta = Delta(bytes: seq<Byte>, capReached: bool)

  function Concat(chunks: seq<seq<Byte>>): seq<Byte> {
    if chunks == [] then [] else chunks[0] + Concat(chunks[1..])
  }

  function Emitted(deltas: seq<Delta>): seq<Byte> {
    if deltas == [] then [] else deltas[0].bytes + Emitted(deltas[1..])
  }

  lemma {:induction false} ConcatAppend(chunks: seq<seq<Byte>>, more: seq<seq<Byte>>)
    ensures Concat(chunks + more) == Concat(chunks) + Concat(more)
  {
    if chunks == [] {
      assert chunks + more == more;
    } else {
      assert (chunks + more)[1..] == chunks[1..] + more;
      ConcatAppend(chunks[1..], more);
    }
  }

  lemma {:induction false} EmittedAppend(deltas: seq<Delta>, d: Delta)
    ensures Emitted(deltas + [d]) == Emitted(deltas) + d.bytes
  {
    if deltas == [] {
      assert deltas + [d] == [d] && [d][1..] == [];
    } else {
      assert (deltas + [d])[1..] == deltas[1..] + [d];
      EmittedAppend(deltas[1..], d);
    }
  }

  function Min(a: nat, b: nat): nat {
    if a < b then a else b
  }

  /** What is let through: all of it without a cap or below it, and otherwise as many bytes as the cap says. */
  predicate UpToCap(cap: Option<nat>, output: seq<Byte>, through: seq<Byte>) {
    && through <= output
    && (cap.None? || |output| <= cap.value ==> through == output)
    && (cap.Some? && cap.value < |output| ==> |through| == cap.value)
  }

  /** The cap is reached by an output that was read at all. */
  predicate CapReached(cap: Option<nat>, chunks: seq<seq<Byte>>) {
    cap.Some? && chunks != [] && |Concat(chunks)| >= cap.value
  }

  lemma ReadOneMore(chunks: seq<seq<Byte>>, i: nat)
    requires i < |chunks|
    ensures Concat(chunks[..i + 1]) == Concat(chunks[..i]) + chunks[i]
  {
    assert chunks[..i + 1] == chunks[..i] + [chunks[i]];
    ConcatAppend(chunks[..i], [chunks[i]]);
    assert [chunks[i]][1..] == [] && Concat([chunks[i]]) == chunks[i];
  }

  /** A cap that falls into a chunk, or at its end, lets the output through up to there. */
  lemma CapCuts(chunks: seq<seq<Byte>>, i: nat, cap: nat, read: seq<Byte>)
    requires i < |chunks| && read == Concat(chunks[..i]) && |read| <= cap <= |read| + |chunks[i]|
    ensures UpToCap(Some(cap), Concat(chunks), read + chunks[i][..cap - |read|])
    ensures CapReached(Some(cap), chunks)
  {
    ReadOneMore(chunks, i);
    assert chunks == chunks[..i + 1] + chunks[i + 1..];
    ConcatAppend(chunks[..i + 1], chunks[i + 1..]);
  }

  lemma AllRead(chunks: seq<seq<Byte>>, cap: Option<nat>, read: seq<Byte>)
    requires read == Concat(chunks[..|chunks|]) && (cap.Some? && chunks != [] ==> |read| < cap.value)
    ensures UpToCap(cap, Concat(chunks), read) && !CapReached(cap, chunks)
  {
    assert chunks[..|chunks|] == chunks;
  }

  /** Where what was let through has gone: into the deltas, into the buffer, or nowhere. */
  ghost predicate Gone(streamed: bool, named: bool, deltas: seq<Delta>, buffer: seq<Byte>, through: seq<Byte>) {
    if !streamed then deltas == [] && buffer == through
    else buffer == [] && if named then Emitted(deltas) == through else deltas == []
  }

  lemma GoesOn(streamed: bool, named: bool, deltas: seq<Delta>, buffer: seq<Byte>, through: seq<Byte>, d: Delta)
    requires Gone(streamed, named, deltas, buffer, through)
    ensures streamed && named ==> Gone(streamed, named, deltas + [d], buffer, through + d.bytes)
    ensures !streamed ==> Gone(streamed, named, deltas, buffer + d.bytes, through + d.bytes)
    ensures streamed && !named ==> Gone(streamed, named, deltas, buffer, through + d.bytes)
  {
    EmittedAppend(deltas, d);
  }

  predicate NoneFlagged(deltas: seq<Delta>) {
    forall i | 0 <= i < |deltas| :: !deltas[i].capReached
  }

  /** The loop of `spawn_process_output`; `chunks` is all that arrives before the stream closes or
      the drain times out. What it delivers, as deltas or in the buffer, is exactly the allowed
      prefix of the output, and the cap is flagged exactly when reached, on the last delta only. */
  method Capture(chunks: seq<seq<Byte>>, cap: Option<nat>, streamOutput: bool, processId: Option<string>)
    returns (deltas: seq<Delta>, buffer: seq<Byte>)
    ensures streamOutput && processId.Some? ==> buffer == [] && UpToCap(cap, Concat(chunks), Emitted(deltas))
    ensures streamOutput && processId.Some? ==>
      var reached := cap.Some? && chunks != [] && |Concat(chunks)| >= cap.value;
      reached <==> exists i :: 0 <= i < |deltas| && deltas[i].capReached
    ensures forall i :: 0 <= i < |deltas| && deltas[i].capReached ==> i == |deltas| - 1
    ensures !streamOutput ==> deltas == [] && UpToCap(cap, Concat(chunks), buffer)
    ensures streamOutput && processId.None? ==> deltas == [] && buffer == []
  {
    buffer, deltas := [], [];
    ghost var named := processId.Some?;
    var observed := 0;
    var i := 0;
    ghost var read: seq<Byte> := [];
    while i < |chunks|
      invariant 0 <= i <= |chunks| && read == Concat(chunks[..i])
      invariant cap.Some? ==> observed == |read| && (i > 0 ==> |read| < cap.value)
      invariant Gone(streamOutput, named, deltas, buffer, read) && NoneFlagged(deltas)
    {
      var chunk := chunks[i];
      ReadOneMore(chunks, i);
      var capped := chunk;
      if cap.Some? {
        var len := Min(if cap.value > observed then cap.value - observed else 0, |chunk|);
        observed := observed + len;
        capped := chunk[..len];
      }
      var capReached := cap == Some(observed);
      GoesOn(streamOutput, named, deltas, buffer, read, Delta(capped, capReached));
      if streamOutput && processId.Some? {
        deltas := deltas + [Delta(capped, capReached)];
      } else if !streamOutput {
        buffer := buffer + capped;
      }
      if capReached {
        CapCuts(chunks, i, cap.value, read);
        if streamOutput && processId.Some? { assert deltas[|deltas| - 1].capReached; }
        return;
      }
      read := read + chunk;
      i := i + 1;
    }
    AllRead(chunks, cap, read);
  }

  /** `start` lets no streaming task through without a process id, in any run, so nothing
      that is streamed is discarded for lack of one. */
  lemma StreamsAreDelivered(actions: seq<Action>, t: nat)
    requires t in RunFrom(INIT, actions).tasks
    ensures var task := RunFrom(INIT, actions).tasks[t];
            task.streamOutput ==> task.processId.Some? && task.key.process == Client(task.processId.value)
  {
    RunsKeepInv(INIT, actions);
  }
}
