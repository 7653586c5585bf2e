/** The capture relay: it keeps the sanitised output that follows the last
    marker of a terminal transcript, and sees the transcript in chunks.

    `Feed` holds back one character less than the marker's length, so that a
    marker cut by a chunk boundary is still found.  The batch reading
    `AfterLast` looks at the whole transcript at once; `StreamingRefinesBatch`
    shows that chunking makes no difference.  Strings are bytes here. */
module Relay {

  const MAX_OUTPUT: nat := 8192

  /** `terminalText` followed by `redact.Text`; regular expressions, left abstract. */
  type Sanitiser = string -> string

  // --------------------------------------------------------------- finding a marker

  predicate OccursAt(s: string, marker: string, i: int) {
    0 <= i && i + |marker| <= |s| && s[i..i + |marker|] == marker
  }

  /** strings.Index, searching from `from`. */
  function IndexFrom(s: string, marker: string, from: nat): (i: int)
    requires from <= |s|
    ensures i == -1 || (from <= i && i + |marker| <= |s|)
    decreases |s| - from
  {
    if OccursAt(s, marker, from) then from
    else if from == |s| then -1
    else IndexFrom(s, marker, from + 1)
  }

  function Index(s: string, marker: string): (i: int)
    ensures i == -1 || (0 <= i && i + |marker| <= |s|)
  {
    IndexFrom(s, marker, 0)
  }

  /** No marker starts before position `upTo`. */
  ghost predicate NoMarkerBefore(s: string, marker: string, upTo: int) {
    forall j :: 0 <= j < upTo ==> !OccursAt(s, marker, j)
  }

  lemma {:induction false} IndexFromIsLeftmost(s: string, marker: string, from: nat)
    requires from <= |s|
    ensures var i := IndexFrom(s, marker, from);
            && (i >= 0 ==> OccursAt(s, marker, i) && forall j :: from <= j < i ==> !OccursAt(s, marker, j))
            && (i < 0 ==> forall j :: from <= j ==> !OccursAt(s, marker, j))
    decreases |s| - from
  {
    if !OccursAt(s, marker, from) && from < |s| { IndexFromIsLeftmost(s, marker, from + 1); }
  }

  lemma IndexIsLeftmost(s: string, marker: string)
    ensures var i := Index(s, marker);
            && (i >= 0 ==> OccursAt(s, marker, i) && NoMarkerBefore(s, marker, i))
            && (i < 0 ==> NoMarkerBefore(s, marker, |s| + 1))
  {
    IndexFromIsLeftmost(s, marker, 0);
  }

  lemma IndexIs(s: string, marker: string, i: nat)
    requires OccursAt(s, marker, i) && NoMarkerBefore(s, marker, i)
    ensures Index(s, marker) == i
  {
    IndexIsLeftmost(s, marker);
  }

  lemma IndexNone(s: string, marker: string)
    requires NoMarkerBefore(s, marker, |s| + 1)
    ensures Index(s, marker) == -1
  {
    IndexIsLeftmost(s, marker);
  }

  /** Reading the whole transcript: whether it has a marker, and the text after the last of its
      leftmost non-overlapping markers. */
  function AfterLast(stream: string, marker: string): (bool, string)
    requires marker != ""
    decreases |stream|
  {
    var i := Index(stream, marker);
    if i < 0 then (false, stream) else (true, AfterLast(stream[i + |marker|..], marker).1)
  }

  ghost predicate Overlaps(marker: string, k: int) { 0 < k < |marker| && marker[k..] == marker[..|marker| - k] }

  /** The stream ends with a marker and `rest`. */
  ghost predicate EndsWith(stream: string, marker: string, rest: string) {
    LastOf(stream, |marker| + |rest|) == marker + rest
  }

  lemma EndsWithMore(front: string, stream: string, marker: string, rest: string)
    requires EndsWith(stream, marker, rest)
    ensures EndsWith(front + stream, marker, rest)
  {
  }

  lemma {:induction false} AfterLastFollows(stream: string, marker: string)
    requires marker != ""
    ensures var (found, rest) := AfterLast(stream, marker);
            && NoMarkerBefore(rest, marker, |rest| + 1)
            && if found then EndsWith(stream, marker, rest) else rest == stream
    decreases |stream|
  {
    IndexIsLeftmost(stream, marker);
    var i := Index(stream, marker);
    if i >= 0 {
      var behind := stream[i + |marker|..];
      AfterLastFollows(behind, marker);
      var (again, rest) := AfterLast(behind, marker);
      assert stream == stream[..i + |marker|] + behind;
      if again { EndsWithMore(stream[..i + |marker|], behind, marker, rest); }
    }
  }

  ghost predicate Occurs(stream: string, marker: string) { exists i :: OccursAt(stream, marker, i) }

  ghost predicate NoneBehind(stream: string, marker: string, at: int) {
    forall j :: OccursAt(stream, marker, j) ==> j <= at
  }

  ghost predicate NoOverlaps(marker: string) { forall k :: !Overlaps(marker, k) }

  /** What the batch reading finds: it finds a marker exactly if there is one; then the rest follows a marker and
      holds none; and if no two markers can overlap, that marker is the last of all. */
  lemma AfterLastExactly(stream: string, marker: string)
    requires marker != ""
    ensures var (found, rest) := AfterLast(stream, marker);
            && NoMarkerBefore(rest, marker, |rest| + 1)
            && (if found then EndsWith(stream, marker, rest) else rest == stream)
            && (found <==> Occurs(stream, marker))
            && (found && NoOverlaps(marker) ==> NoneBehind(stream, marker, |stream| - |rest| - |marker|))
  {
    AfterLastFollows(stream, marker);
    var (found, rest) := AfterLast(stream, marker);
    if found { LastMarker(stream, marker, rest); }
  }

  lemma LastMarker(stream: string, marker: string, rest: string)
    requires EndsWith(stream, marker, rest) && NoMarkerBefore(rest, marker, |rest| + 1)
    ensures OccursAt(stream, marker, |stream| - |rest| - |marker|)
    ensures NoOverlaps(marker) ==> NoneBehind(stream, marker, |stream| - |rest| - |marker|)
  {
    var at := |stream| - |rest| - |marker|;
    assert stream[at..] == marker + rest;
    assert stream[at..at + |marker|] == marker && stream[at + |marker|..] == rest;
    forall j | OccursAt(stream, marker, j) && NoOverlaps(marker)
      ensures j <= at
    {
      if j > at { MarkerBehind(stream, marker, at, j); }
    }
  }

  /** Behind a marker starts only what starts after its end, unless markers overlap. */
  lemma MarkerBehind(stream: string, marker: string, i: int, j: int)
    requires OccursAt(stream, marker, i) && OccursAt(stream, marker, j) && i < j && NoOverlaps(marker)
    ensures j >= i + |marker| && OccursAt(stream[i + |marker|..], marker, j - i - |marker|)
  {
    var k := j - i;
    if k < |marker| {
      assert stream[i..i + |marker|][k..] == stream[j..i + |marker|];
      assert stream[j..j + |marker|][..|marker| - k] == stream[j..i + |marker|];
      assert Overlaps(marker, k);
    }
  }

  // ------------------------------------------------------------------ pure relay

  datatype State = State(pending: string, output: string, active: bool)

  const IDLE := State("", "", false)

  function LastOf(s: string, n: nat): (t: string)
    ensures |t| <= n && |t| <= |s|
  {
    if |s| <= n then s else s[|s| - n..]
  }

  function Append(st: State, piece: string, sanitise: Sanitiser): State {
    if !st.active || piece == "" then st else st.(output := LastOf(st.output + sanitise(piece), MAX_OUTPUT))
  }

  /** All but the last |marker|-1 pending characters go to the output. */
  function Emit(st: State, marker: string, sanitise: Sanitiser): State
    requires marker != ""
  {
    var keep := |marker| - 1;
    if |st.pending| <= keep then st
    else
      var cut := |st.pending| - keep;
      Append(st, st.pending[..cut], sanitise).(pending := st.pending[cut..])
  }

  /** What the loop of `Feed` amounts to. */
  function Drain(st: State, marker: string, sanitise: Sanitiser): State
    requires marker != ""
  {
    var (found, rest) := AfterLast(st.pending, marker);
    Emit(if found then State(rest, "", true) else st, marker, sanitise)
  }

  lemma DrainUnfold(st: State, marker: string, sanitise: Sanitiser)
    requires marker != ""
    ensures var i := Index(st.pending, marker);
            Drain(st, marker, sanitise) ==
            if i < 0 then Emit(st, marker, sanitise)
            else Drain(State(st.pending[i + |marker|..], "", true), marker, sanitise)
  {
  }

  lemma TurnKeepsGoal(before: State, after: State, done: bool, marker: string, sanitise: Sanitiser)
    requires marker != "" && (done <==> Index(before.pending, marker) < 0)
    requires after == if done then Emit(before, marker, sanitise)
                      else State(before.pending[Index(before.pending, marker) + |marker|..], "", true)
    ensures (if done then after else Drain(after, marker, sanitise)) == Drain(before, marker, sanitise)
    ensures !done ==> |after.pending| < |before.pending|
  {
    DrainUnfold(before, marker, sanitise);
  }

  function Fed(st: State, value: string, marker: string, sanitise: Sanitiser): State
    requires marker != ""
  {
    Drain(st.(pending := st.pending + value), marker, sanitise)
  }

  function FeedAll(chunks: seq<string>, marker: string, sanitise: Sanitiser): State
    requires marker != ""
  {
    if chunks == [] then IDLE
    else Fed(FeedAll(chunks[..|chunks| - 1], marker, sanitise), chunks[|chunks| - 1], marker, sanitise)
  }

  function Flushed(st: State, sanitise: Sanitiser): State {
    if st.active && st.pending != "" then Append(st, st.pending, sanitise).(pending := "") else st
  }

  function Concat(parts: seq<string>): string {
    if parts == [] then "" else Concat(parts[..|parts| - 1]) + parts[|parts| - 1]
  }

  /** The pieces sanitised one by one. */
  function SanitiseAll(parts: seq<string>, sanitise: Sanitiser): string {
    if parts == [] then "" else SanitiseAll(parts[..|parts| - 1], sanitise) + sanitise(parts[|parts| - 1])
  }

  // ----------------------------------------------------------------- the mutable relay

  class RelayBuffer {
    const marker: string
    const sanitise: Sanitiser
    var pending: string
    var output: string
    var active: bool

    ghost predicate Valid()
      reads this
    {
      marker != "" && |output| <= MAX_OUTPUT
    }

    function Now(): State
      reads this
    {
      State(pending, output, active)
    }

    constructor (token: string, sanitise: Sanitiser)
      ensures Valid() && Now() == IDLE && this.sanitise == sanitise
      ensures marker == Marker(token)
    {
      marker := "\U{1B}]1337;Solomon=" + token + "\U{07}";
      this.sanitise := sanitise;
      pending, output, active := "", "", false;
    }

    method AppendLocked(value: string)
      requires Valid()
      modifies this`output
      ensures Valid() && Now() == Append(old(Now()), value, sanitise)
    {
      if !active || value == "" { return; }
      output := output + sanitise(value);
      if |output| > MAX_OUTPUT { output := output[|output| - MAX_OUTPUT..]; }
    }

    /** The branch of `Feed` that ends its loop. */
    method EmitLocked()
      requires Valid()
      modifies this
      ensures Valid() && Now() == Emit(old(Now()), marker, sanitise)
    {
      var keep := |marker| - 1;
      if |pending| <= keep { return; }
      AppendLocked(pending[..|pending| - keep]);
      pending := pending[|pending| - keep..];
    }

    method Feed(value: string)
      requires Valid()
      modifies this
      ensures Valid() && Now() == Fed(old(Now()), value, marker, sanitise)
    {
      pending := pending + value;
      ghost var goal := Drain(Now(), marker, sanitise);
      var done := false;
      while !done
        invariant Valid() && (if done then Now() else Drain(Now(), marker, sanitise)) == goal
        decreases !done, |pending|
      {
        ghost var before := Now();
        done := FeedOnce();
        TurnKeepsGoal(before, Now(), done, marker, sanitise);
      }
    }

    /** One turn of the loop of `Feed`. */
    method FeedOnce() returns (done: bool)
      requires Valid()
      modifies this
      ensures Valid() && (done <==> Index(old(pending), marker) < 0)
      ensures done ==> Now() == Emit(old(Now()), marker, sanitise)
      ensures !done ==> Now() == State(old(pending)[Index(old(pending), marker) + |marker|..], "", true)
    {
      var index := Index(pending, marker);
      if index < 0 {
        EmitLocked();
        return true;
      }
      PassMarker(index);
      done := false;
    }

    /** The branch of `Feed` that passes a marker: what came before it no longer matters. */
    method PassMarker(index: nat)
      requires Valid() && index + |marker| <= |pending|
      modifies this
      ensures Valid() && Now() == State(old(pending)[index + |marker|..], "", true)
    {
      if active { AppendLocked(pending[..index]); }
      output, active := "", true;
      pending := pending[index + |marker|..];
    }

    method Reset()
      requires Valid()
      modifies this
      ensures Valid() && Now() == IDLE
    {
      pending, output, active := "", "", false;
    }

    /** Flushes what is pending and returns the output, trimmed and without the echoed command. */
    method Snapshot(command: string, trim: string -> string) returns (text: string)
      requires Valid()
      modifies this
      ensures Valid() && Now() == Flushed(old(Now()), sanitise)
      ensures text == if command == "" then trim(output) else trim(TrimPrefix(trim(output), command))
    {
      if active && pending != "" {
        AppendLocked(pending);
        pending := "";
      }
      text := trim(output);
      if command != "" { text := trim(TrimPrefix(text, command)); }
    }

    /** `FeedReader`: one `Feed` per chunk read. */
    method FeedReader(chunks: seq<string>)
      requires Valid() && Now() == IDLE
      modifies this
      ensures Valid() && Now() == FeedAll(chunks, marker, sanitise)
    {
      for n := 0 to |chunks|
        invariant Valid() && Now() == FeedAll(chunks[..n], marker, sanitise)
      {
        assert chunks[..n + 1][..n] == chunks[..n];
        Feed(chunks[n]);
      }
      assert chunks[..|chunks|] == chunks;
    }
  }

  function TrimPrefix(s: string, prefix: string): string { if prefix <= s then s[|prefix|..] else s }

  // ---------------------------------------------------------------------- sequences

  lemma LastOfLastOf(s: string, t: string, n: nat)
    ensures LastOf(LastOf(s, n) + t, n) == LastOf(s + t, n)
  {
  }

  lemma OccursShift(front: string, back: string, marker: string, j: int)
    requires j >= |front|
    ensures OccursAt(front + back, marker, j) == OccursAt(back, marker, j - |front|)
  {
    if j + |marker| <= |front + back| {
      assert (front + back)[j..j + |marker|] == back[j - |front|..j - |front| + |marker|];
    }
  }

  lemma OccursExtend(front: string, back: string, marker: string, j: int)
    requires j + |marker| <= |front|
    ensures OccursAt(front + back, marker, j) == OccursAt(front, marker, j)
  {
    if 0 <= j { assert (front + back)[j..j + |marker|] == front[j..j + |marker|]; }
  }

  lemma IndexExtends(stream: string, value: string, marker: string)
    requires Index(stream, marker) >= 0
    ensures Index(stream + value, marker) == Index(stream, marker)
  {
    var i := Index(stream, marker);
    IndexIsLeftmost(stream, marker);
    forall j | 0 <= j <= i
      ensures OccursAt(stream + value, marker, j) == OccursAt(stream, marker, j)
    {
      OccursExtend(stream, value, marker, j);
    }
    IndexIs(stream + value, marker, i);
  }

  /** Text that arrives later does not change the markers already found. */
  lemma {:induction false} AfterLastExtends(stream: string, value: string, marker: string)
    requires marker != ""
    ensures var (found, rest) := AfterLast(stream, marker);
            var (found', rest') := AfterLast(rest + value, marker);
            AfterLast(stream + value, marker) == (found || found', rest')
    decreases |stream|
  {
    var i := Index(stream, marker);
    if i >= 0 {
      IndexExtends(stream, value, marker);
      var cut := i + |marker|;
      assert (stream + value)[cut..] == stream[cut..] + value;
      AfterLastExtends(stream[cut..], value, marker);
    }
  }

  // ------------------------------------------------------------- streaming invariant

  ghost predicate NonEmpty(pieces: seq<string>) { forall i :: 0 <= i < |pieces| ==> pieces[i] != "" }

  /** `dropped` left the relay as `pieces`, each sanitised on its own. */
  ghost predicate Tracks(st: State, dropped: string, pieces: seq<string>, sanitise: Sanitiser) {
    if st.active then
      NonEmpty(pieces) && Concat(pieces) == dropped && st.output == LastOf(SanitiseAll(pieces, sanitise), MAX_OUTPUT)
    else st.output == ""
  }

  lemma AppendTracks(st: State, dropped: string, pieces: seq<string>, piece: string, sanitise: Sanitiser)
    requires Tracks(st, dropped, pieces, sanitise) && piece != ""
    ensures Tracks(Append(st, piece, sanitise), dropped + piece, pieces + [piece], sanitise)
  {
    assert (pieces + [piece])[..|pieces|] == pieces;
    LastOfLastOf(SanitiseAll(pieces, sanitise), sanitise(piece), MAX_OUTPUT);
  }

  /** Looking only at what is pending finds the same first marker as looking at everything. */
  lemma PendingSuffices(dropped: string, pending: string, marker: string)
    requires marker != "" && NoMarkerBefore(dropped + pending, marker, |dropped|)
    ensures var i := Index(pending, marker);
            Index(dropped + pending, marker) == if i < 0 then i else i + |dropped|
  {
    var i, whole := Index(pending, marker), dropped + pending;
    IndexIsLeftmost(pending, marker);
    if i >= 0 {
      OccursShift(dropped, pending, marker, i + |dropped|);
      NoneInBoth(dropped, pending, marker, i);
      IndexIs(whole, marker, i + |dropped|);
    } else {
      NoneInBoth(dropped, pending, marker, |pending| + 1);
      IndexNone(whole, marker);
    }
  }

  lemma NoneInBoth(dropped: string, pending: string, marker: string, upTo: int)
    requires NoMarkerBefore(dropped + pending, marker, |dropped|) && NoMarkerBefore(pending, marker, upTo)
    ensures NoMarkerBefore(dropped + pending, marker, |dropped| + upTo)
  {
    forall j | |dropped| <= j < |dropped| + upTo
      ensures !OccursAt(dropped + pending, marker, j)
    {
      OccursShift(dropped, pending, marker, j);
    }
  }

  /** What a state promises about the text `rest` seen since the last marker. */
  ghost predicate Refines(st: State, dropped: string, pieces: seq<string>, found: bool, rest: string,
                          marker: string, sanitise: Sanitiser)
    requires marker != ""
  {
    && Tracks(st, dropped, pieces, sanitise)
    && st.active == found && dropped + st.pending == rest
    && st.pending == LastOf(rest, |marker| - 1) && Index(rest, marker) < 0
  }

  lemma EmitRefines(st: State, dropped: string, pieces: seq<string>, marker: string, sanitise: Sanitiser)
    returns (dropped': string, pieces': seq<string>)
    requires marker != "" && Tracks(st, dropped, pieces, sanitise)
    requires |st.pending| >= |marker| - 1 || dropped == ""
    requires Index(dropped + st.pending, marker) < 0
    ensures Refines(Emit(st, marker, sanitise), dropped', pieces', st.active, dropped + st.pending, marker, sanitise)
  {
    var keep := |marker| - 1;
    if |st.pending| <= keep {
      dropped', pieces' := dropped, pieces;
      KeptIsLast(dropped, st.pending, keep);
    } else {
      var cut := |st.pending| - keep;
      AppendTracks(st, dropped, pieces, st.pending[..cut], sanitise);
      dropped', pieces' := dropped + st.pending[..cut], pieces + [st.pending[..cut]];
      CutIsLast(dropped, st.pending, cut);
    }
  }

  lemma KeptIsLast(dropped: string, pending: string, keep: nat)
    requires |pending| == keep || (|pending| <= keep && dropped == "")
    ensures pending == LastOf(dropped + pending, keep)
  {
  }

  lemma CutIsLast(dropped: string, pending: string, cut: nat)
    requires cut <= |pending|
    ensures dropped + pending[..cut] + pending[cut..] == dropped + pending
    ensures pending[cut..] == LastOf(dropped + pending, |pending| - cut)
  {
  }

  lemma {:induction false} NoMarkerAfterLast(stream: string, marker: string)
    requires marker != ""
    ensures Index(AfterLast(stream, marker).1, marker) < 0
    decreases |stream|
  {
    var i := Index(stream, marker);
    if i >= 0 { NoMarkerAfterLast(stream[i + |marker|..], marker); }
  }

  lemma DrainRefines(st: State, dropped: string, pieces: seq<string>, marker: string, sanitise: Sanitiser)
    returns (dropped': string, pieces': seq<string>)
    requires marker != "" && Tracks(st, dropped, pieces, sanitise)
    requires |st.pending| >= |marker| - 1 || dropped == ""
    requires NoMarkerBefore(dropped + st.pending, marker, |dropped|)
    ensures var (found, rest) := AfterLast(dropped + st.pending, marker);
            Refines(Drain(st, marker, sanitise), dropped', pieces', st.active || found, rest, marker, sanitise)
  {
    var (found, rest) := AfterLast(st.pending, marker);
    AfterLastShift(dropped, st.pending, marker);
    NoMarkerAfterLast(dropped + st.pending, marker);
    if found {
      assert "" + rest == rest;
      dropped', pieces' := EmitRefines(State(rest, "", true), "", [], marker, sanitise);
    } else {
      dropped', pieces' := EmitRefines(st, dropped, pieces, marker, sanitise);
    }
  }

  lemma AfterLastShift(dropped: string, pending: string, marker: string)
    requires marker != "" && NoMarkerBefore(dropped + pending, marker, |dropped|)
    ensures var (found, rest) := AfterLast(pending, marker);
            AfterLast(dropped + pending, marker) == if found then (true, rest) else (false, dropped + pending)
  {
    var i, whole := Index(pending, marker), dropped + pending;
    PendingSuffices(dropped, pending, marker);
    if i >= 0 { assert whole[i + |dropped| + |marker|..] == pending[i + |marker|..]; }
  }

  /** No marker starts in the part of a marker-free text that a further chunk cannot complete. */
  lemma HeldBackEnough(dropped: string, pending: string, value: string, marker: string)
    requires marker != "" && Index(dropped + pending, marker) < 0
    requires |pending| >= |marker| - 1 || dropped == ""
    ensures NoMarkerBefore(dropped + (pending + value), marker, |dropped|)
  {
    IndexIsLeftmost(dropped + pending, marker);
    assert dropped + (pending + value) == dropped + pending + value;
    forall j | 0 <= j < |dropped|
      ensures !OccursAt(dropped + (pending + value), marker, j)
    {
      OccursExtend(dropped + pending, value, marker, j);
    }
  }

  lemma FedRefines(st: State, dropped: string, pieces: seq<string>, found: bool, rest: string, value: string,
                   marker: string, sanitise: Sanitiser)
    returns (dropped': string, pieces': seq<string>)
    requires marker != "" && Refines(st, dropped, pieces, found, rest, marker, sanitise)
    ensures var (found', rest') := AfterLast(rest + value, marker);
            Refines(Fed(st, value, marker, sanitise), dropped', pieces', found || found', rest', marker, sanitise)
  {
    HeldBackEnough(dropped, st.pending, value, marker);
    assert dropped + (st.pending + value) == rest + value;
    var next := st.(pending := st.pending + value);
    dropped', pieces' := DrainRefines(next, dropped, pieces, marker, sanitise);
  }

  lemma {:induction false} StreamingTracks(chunks: seq<string>, marker: string, sanitise: Sanitiser)
    returns (dropped: string, pieces: seq<string>)
    requires marker != ""
    ensures var (found, rest) := AfterLast(Concat(chunks), marker);
            Refines(FeedAll(chunks, marker, sanitise), dropped, pieces, found, rest, marker, sanitise)
    decreases |chunks|
  {
    if chunks == [] {
      dropped, pieces := "", [];
      IndexNone("", marker);
    } else {
      var n := |chunks| - 1;
      var front, value := chunks[..n], chunks[n];
      dropped, pieces := StreamingTracks(front, marker, sanitise);
      var st := FeedAll(front, marker, sanitise);
      var (found, rest) := AfterLast(Concat(front), marker);
      AfterLastExtends(Concat(front), value, marker);
      dropped, pieces := FedRefines(st, dropped, pieces, found, rest, value, marker, sanitise);
    }
  }

  // ------------------------------------------------------------------- main theorems

  /** For every chunking of a transcript the relay is active exactly when the transcript has a
      marker, holds back the last |marker|-1 characters after the last marker, and its output is the
      last 8192 characters of the rest, sanitised in some division into non-empty pieces. */
  lemma StreamingRefinesBatch(chunks: seq<string>, marker: string, sanitise: Sanitiser)
    returns (pieces: seq<string>)
    requires marker != ""
    ensures var (found, rest) := AfterLast(Concat(chunks), marker);
            var st := FeedAll(chunks, marker, sanitise);
            && st.active == found
            && st.pending == LastOf(rest, |marker| - 1)
            && (found ==> NonEmpty(pieces) && Concat(pieces) == rest[..|rest| - |st.pending|])
            && (found ==> st.output == LastOf(SanitiseAll(pieces, sanitise), MAX_OUTPUT))
            && (!found ==> st.output == "")
            && |st.output| <= MAX_OUTPUT
  {
    var dropped;
    dropped, pieces := StreamingTracks(chunks, marker, sanitise);
    var rest := AfterLast(Concat(chunks), marker).1;
    assert rest[..|dropped|] == dropped;
  }

  // --------------------------------------------------- when chunking does not show

  /** The relay's state by a single reading of the whole transcript. */
  function Batch(stream: string, marker: string, sanitise: Sanitiser): State
    requires marker != ""
  {
    var (found, rest) := AfterLast(stream, marker);
    var pending := LastOf(rest, |marker| - 1);
    var front := rest[..|rest| - |pending|];
    State(pending, if found && front != "" then LastOf(sanitise(front), MAX_OUTPUT) else "", found)
  }

  /** Text after a marker in which the relay can be made to flush `a` and then `b`. */
  ghost predicate Flushable(a: string, b: string, tail: string, marker: string) {
    a != "" && b != "" && |tail| == |marker| - 1 && Index(a + b + tail, marker) < 0
  }

  /** Sanitising two pieces one by one leaves the same last 8192 characters as sanitising both at once. */
  predicate Merge(a: string, b: string, sanitise: Sanitiser) {
    LastOf(sanitise(a + b), MAX_OUTPUT) == LastOf(sanitise(a) + sanitise(b), MAX_OUTPUT)
  }

  /** Whatever pieces the relay can be made to flush, they merge. */
  ghost predicate Seamless(marker: string, sanitise: Sanitiser) {
    forall a, b, tail :: Flushable(a, b, tail, marker) ==> Merge(a, b, sanitise)
  }

  /** No chunking of a transcript is told from any other. */
  ghost predicate Invisible(marker: string, sanitise: Sanitiser)
    requires marker != ""
  {
    forall chunks, chunks' :: LooksAlike(chunks, chunks', marker, sanitise)
  }

  ghost predicate LooksAlike(chunks: seq<string>, chunks': seq<string>, marker: string, sanitise: Sanitiser)
    requires marker != ""
  {
    Concat(chunks) == Concat(chunks') ==> FeedAll(chunks, marker, sanitise) == FeedAll(chunks', marker, sanitise)
  }

  lemma OccursInPart(s: string, from: nat, to: nat, marker: string, j: int)
    requires from <= to <= |s| && OccursAt(s[from..to], marker, j)
    ensures OccursAt(s, marker, from + j)
  {
    var part, n := s[from..to], |marker|;
    forall i | 0 <= i < n
      ensures s[from + j..from + j + n][i] == marker[i]
    {
      assert part[j..j + n][i] == part[j + i] == s[from + j + i];
    }
  }

  lemma NoMarkerInPart(s: string, from: nat, to: nat, marker: string)
    requires from <= to <= |s| && Index(s, marker) < 0
    ensures Index(s[from..to], marker) < 0
  {
    IndexIsLeftmost(s, marker);
    IndexIsLeftmost(s[from..to], marker);
    if Index(s[from..to], marker) >= 0 { OccursInPart(s, from, to, marker, Index(s[from..to], marker)); }
  }

  /** Pieces of a marker-free text, sanitised one by one. */
  lemma {:induction false} PiecesMerge(pieces: seq<string>, rest: string, marker: string, sanitise: Sanitiser)
    requires marker != "" && Seamless(marker, sanitise) && NonEmpty(pieces) && pieces != []
    requires Concat(pieces) <= rest && Index(rest, marker) < 0 && |Concat(pieces)| + |marker| - 1 <= |rest|
    ensures Concat(pieces) != ""
    ensures LastOf(SanitiseAll(pieces, sanitise), MAX_OUTPUT) == LastOf(sanitise(Concat(pieces)), MAX_OUTPUT)
    decreases |pieces|
  {
    var n := |pieces| - 1;
    var front, b := pieces[..n], pieces[n];
    if n == 0 {
      assert Concat(front) == "" && SanitiseAll(front, sanitise) == "";
      assert "" + b == b && "" + sanitise(b) == sanitise(b);
    } else {
      var a := Concat(front);
      PiecesMerge(front, rest, marker, sanitise);
      var end := |a + b| + |marker| - 1;
      var tail := rest[|a + b|..end];
      assert a + b + tail == rest[0..end];
      NoMarkerInPart(rest, 0, end, marker);
      assert Flushable(a, b, tail, marker) && Merge(a, b, sanitise);
      LastOfLastOf(SanitiseAll(front, sanitise), sanitise(b), MAX_OUTPUT);
      LastOfLastOf(sanitise(a), sanitise(b), MAX_OUTPUT);
    }
  }

  lemma SomethingConcatenated(pieces: seq<string>)
    requires pieces != [] && NonEmpty(pieces)
    ensures Concat(pieces) != ""
  {
    assert pieces[|pieces| - 1] != "";
  }

  lemma OutputMerges(pieces: seq<string>, rest: string, marker: string, sanitise: Sanitiser)
    requires marker != "" && Seamless(marker, sanitise) && NonEmpty(pieces) && Index(rest, marker) < 0
    requires Concat(pieces) == rest[..|rest| - |LastOf(rest, |marker| - 1)|]
    ensures LastOf(SanitiseAll(pieces, sanitise), MAX_OUTPUT)
            == if Concat(pieces) == "" then "" else LastOf(sanitise(Concat(pieces)), MAX_OUTPUT)
  {
    if pieces != [] {
      SomethingConcatenated(pieces);
      PiecesMerge(pieces, rest, marker, sanitise);
    }
  }

  /** If pieces merge, the state is a function of the transcript alone. */
  lemma SeamlessIsBatch(chunks: seq<string>, marker: string, sanitise: Sanitiser)
    requires marker != "" && Seamless(marker, sanitise)
    ensures FeedAll(chunks, marker, sanitise) == Batch(Concat(chunks), marker, sanitise)
  {
    var pieces := StreamingRefinesBatch(chunks, marker, sanitise);
    var (found, rest) := AfterLast(Concat(chunks), marker);
    NoMarkerAfterLast(Concat(chunks), marker);
    if found { OutputMerges(pieces, rest, marker, sanitise); }
  }

  // ----------------------------------------------------------- two ways to feed one text

  lemma StartsWithMarker(text: string, marker: string)
    requires marker != "" && Index(text, marker) < 0
    ensures AfterLast(marker + text, marker) == (true, text)
  {
    var stream := marker + text;
    assert stream[0..|marker|] == marker && stream[|marker|..] == text;
    IndexIs(stream, marker, 0);
  }

  /** A marker, `a` and `b` in one chunk: both are flushed at once. */
  lemma FedAtOnce(a: string, b: string, tail: string, marker: string, sanitise: Sanitiser)
    requires marker != "" && Flushable(a, b, tail, marker)
    ensures FeedAll([marker + (a + b + tail)], marker, sanitise)
            == State(tail, LastOf(sanitise(a + b), MAX_OUTPUT), true)
  {
    var text := a + b + tail;
    StartsWithMarker(text, marker);
    FirstFeed(marker + text, marker, sanitise);
    assert text[..|text| - |tail|] == a + b && text[|text| - |tail|..] == tail;
    assert "" + sanitise(a + b) == sanitise(a + b);
  }

  lemma FirstFeed(chunk: string, marker: string, sanitise: Sanitiser)
    requires marker != ""
    ensures FeedAll([chunk], marker, sanitise) == Drain(IDLE.(pending := chunk), marker, sanitise)
  {
    assert [chunk][..0] == [] && "" + chunk == chunk;
  }

  /** The same text cut |b| characters before its end: `a` is flushed first, then `b`. */
  lemma FedInTwo(a: string, b: string, tail: string, marker: string, sanitise: Sanitiser)
    requires marker != "" && Flushable(a, b, tail, marker)
    ensures FeedAll(CutBefore(a, b, tail, marker), marker, sanitise)
            == State(tail, LastOf(sanitise(a) + sanitise(b), MAX_OUTPUT), true)
  {
    var bt := b + tail;
    var cut := |bt| - |b|;
    var first, second := marker + (a + bt[..cut]), bt[cut..];
    assert a + b + tail == a + bt && (a + bt)[0..|a| + cut] == a + bt[..cut];
    NoMarkerInPart(a + bt, 0, |a| + cut, marker);
    FirstPart(a, bt[..cut], marker, sanitise);
    assert [first, second][..1] == [first] && bt[..cut] + second == bt;
    assert bt == (a + bt)[|a|..|a + bt|];
    NoMarkerInPart(a + bt, |a|, |a + bt|, marker);
    SecondPart(a, b, tail, marker, sanitise);
  }

  lemma FirstPart(a: string, kept: string, marker: string, sanitise: Sanitiser)
    requires marker != "" && a != "" && |kept| == |marker| - 1 && Index(a + kept, marker) < 0
    ensures FeedAll([marker + (a + kept)], marker, sanitise) == State(kept, LastOf(sanitise(a), MAX_OUTPUT), true)
  {
    StartsWithMarker(a + kept, marker);
    FirstFeed(marker + (a + kept), marker, sanitise);
    assert (a + kept)[..|a|] == a && (a + kept)[|a|..] == kept && "" + sanitise(a) == sanitise(a);
  }

  lemma SecondPart(a: string, b: string, tail: string, marker: string, sanitise: Sanitiser)
    requires marker != "" && b != "" && |tail| == |marker| - 1 && Index(b + tail, marker) < 0
    ensures Drain(State(b + tail, LastOf(sanitise(a), MAX_OUTPUT), true), marker, sanitise)
            == State(tail, LastOf(sanitise(a) + sanitise(b), MAX_OUTPUT), true)
  {
    assert (b + tail)[..|b|] == b && (b + tail)[|b|..] == tail;
    LastOfLastOf(sanitise(a), sanitise(b), MAX_OUTPUT);
  }

  lemma SameTranscript(a: string, b: string, tail: string, marker: string)
    ensures Concat([marker + (a + b + tail)]) == Concat(CutBefore(a, b, tail, marker))
  {
    var bt := b + tail;
    var cut := |bt| - |b|;
    var first, second := marker + (a + bt[..cut]), bt[cut..];
    assert [marker + (a + b + tail)][..0] == [] && [first, second][..1] == [first] && [first][..0] == [];
    assert "" + first + second == "" + (marker + (a + b + tail));
  }

  // ------------------------------------------------------------------- main theorems

  /** For every marker and sanitiser: no chunking shows if and only if flushed pieces merge. */
  lemma ChunkingIsInvisible(marker: string, sanitise: Sanitiser)
    requires marker != ""
    ensures Invisible(marker, sanitise) <==> Seamless(marker, sanitise)
  {
    if Seamless(marker, sanitise) { SeamlessIsInvisible(marker, sanitise); }
    if Invisible(marker, sanitise) { InvisibleIsSeamless(marker, sanitise); }
  }

  lemma SeamlessIsInvisible(marker: string, sanitise: Sanitiser)
    requires marker != "" && Seamless(marker, sanitise)
    ensures Invisible(marker, sanitise)
  {
    forall chunks, chunks'
      ensures LooksAlike(chunks, chunks', marker, sanitise)
    {
      SeamlessIsBatch(chunks, marker, sanitise);
      SeamlessIsBatch(chunks', marker, sanitise);
    }
  }

  lemma InvisibleIsSeamless(marker: string, sanitise: Sanitiser)
    requires marker != "" && Invisible(marker, sanitise)
    ensures Seamless(marker, sanitise)
  {
    forall a, b, tail | Flushable(a, b, tail, marker)
      ensures Merge(a, b, sanitise)
    {
      var one, two := [marker + (a + b + tail)], CutBefore(a, b, tail, marker);
      assert LooksAlike(one, two, marker, sanitise);
      AlikeMerges(a, b, tail, marker, sanitise);
    }
  }

  /** The marker and a + b + tail, cut |b| characters before the end. */
  function CutBefore(a: string, b: string, tail: string, marker: string): seq<string> {
    var rest := b + tail;
    [marker + (a + rest[..|rest| - |b|]), rest[|rest| - |b|..]]
  }

  lemma AlikeMerges(a: string, b: string, tail: string, marker: string, sanitise: Sanitiser)
    requires marker != "" && Flushable(a, b, tail, marker)
    requires LooksAlike([marker + (a + b + tail)], CutBefore(a, b, tail, marker), marker, sanitise)
    ensures Merge(a, b, sanitise)
  {
    FedAtOnce(a, b, tail, marker, sanitise);
    FedInTwo(a, b, tail, marker, sanitise);
    SameTranscript(a, b, tail, marker);
  }

  predicate Distributes(sanitise: Sanitiser, a: string, b: string) { sanitise(a + b) == sanitise(a) + sanitise(b) }

  /** A sanitiser that treats every part of a text alike merges all pieces. */
  ghost predicate Piecewise(sanitise: Sanitiser) { forall a, b :: Distributes(sanitise, a, b) }

  lemma PiecewiseIsSeamless(marker: string, sanitise: Sanitiser)
    requires Piecewise(sanitise)
    ensures Seamless(marker, sanitise)
  {
    forall a, b, tail | Flushable(a, b, tail, marker)
      ensures Merge(a, b, sanitise)
    {
      assert Distributes(sanitise, a, b);
    }
  }

  /** With such a sanitiser a snapshot shows the last 8192 characters of everything after the last marker. */
  lemma SnapshotShowsAll(chunks: seq<string>, marker: string, sanitise: Sanitiser)
    requires marker != "" && Piecewise(sanitise)
    ensures var (found, rest) := AfterLast(Concat(chunks), marker);
            found ==> Flushed(FeedAll(chunks, marker, sanitise), sanitise).output == LastOf(sanitise(rest), MAX_OUTPUT)
  {
    PiecewiseIsSeamless(marker, sanitise);
    SeamlessIsBatch(chunks, marker, sanitise);
    NothingFromNothing(sanitise);
    var pending := LastOf(AfterLast(Concat(chunks), marker).1, |marker| - 1);
    var front := BatchFlushed(Concat(chunks), marker, sanitise, pending);
    assert Distributes(sanitise, front, pending);
  }

  lemma BatchFlushed(stream: string, marker: string, sanitise: Sanitiser, pending: string) returns (front: string)
    requires marker != "" && sanitise("") == "" && pending == LastOf(AfterLast(stream, marker).1, |marker| - 1)
    ensures AfterLast(stream, marker).0 && Distributes(sanitise, front, pending) ==>
              Flushed(Batch(stream, marker, sanitise), sanitise).output
              == LastOf(sanitise(AfterLast(stream, marker).1), MAX_OUTPUT)
  {
    var rest := AfterLast(stream, marker).1;
    front := rest[..|rest| - |pending|];
    assert rest == front + pending;
    if AfterLast(stream, marker).0 && Distributes(sanitise, front, pending) { FlushedAll(front, pending, sanitise); }
  }

  lemma FlushedAll(front: string, pending: string, sanitise: Sanitiser)
    requires Distributes(sanitise, front, pending) && sanitise("") == ""
    ensures var output := if front != "" then LastOf(sanitise(front), MAX_OUTPUT) else "";
            Flushed(State(pending, output, true), sanitise).output == LastOf(sanitise(front + pending), MAX_OUTPUT)
  {
    LastOfLastOf(sanitise(front), sanitise(pending), MAX_OUTPUT);
    assert front + "" == front && "" + pending == pending;
  }

  lemma NothingFromNothing(sanitise: Sanitiser)
    requires Piecewise(sanitise)
    ensures sanitise("") == ""
  {
    assert "" + "" == "" && Distributes(sanitise, "", "");
    assert |sanitise("")| == |sanitise("")| + |sanitise("")|;
  }

  // ------------------------------------------------------------------------ an example

  function Marker(token: string): string { "\U{1B}]1337;Solomon=" + token + "\U{07}" }

  lemma NoEscapeNoMarker(text: string, token: string)
    requires '\U{1B}' !in text
    ensures Index(text, Marker(token)) < 0
  {
    IndexIsLeftmost(text, Marker(token));
    OccursHead(text, Marker(token), Index(text, Marker(token)));
  }

  lemma OccursHead(s: string, marker: string, j: int)
    requires marker != ""
    ensures OccursAt(s, marker, j) ==> j < |s| && s[j] == marker[0]
  {
    if OccursAt(s, marker, j) { assert s[j..j + |marker|][0] == s[j]; }
  }

  function Dots(n: nat): string { seq(n, i => '.') }

  /** `a` and `b` after the marker of a real relay, in one chunk. */
  function OneChunk(a: string, b: string, token: string): seq<string> {
    [Marker(token) + (a + b + Dots(|Marker(token)| - 1))]
  }

  /** The same text, cut |b| characters before its end. */
  function TwoChunks(a: string, b: string, token: string): seq<string> {
    CutBefore(a, b, Dots(|Marker(token)| - 1), Marker(token))
  }

  lemma TwoWays(a: string, b: string, token: string, sanitise: Sanitiser)
    requires a != "" && b != "" && '\U{1B}' !in a && '\U{1B}' !in b
    ensures Concat(OneChunk(a, b, token)) == Concat(TwoChunks(a, b, token))
    ensures FeedAll(OneChunk(a, b, token), Marker(token), sanitise).output == LastOf(sanitise(a + b), MAX_OUTPUT)
    ensures FeedAll(TwoChunks(a, b, token), Marker(token), sanitise).output
            == LastOf(sanitise(a) + sanitise(b), MAX_OUTPUT)
  {
    var marker := Marker(token);
    var tail := Dots(|marker| - 1);
    NoEscapeNoMarker(a + b + tail, token);
    SameTranscript(a, b, tail, marker);
    FedAtOnce(a, b, tail, marker, sanitise);
    FedInTwo(a, b, tail, marker, sanitise);
  }

  /** With the redaction of secret assignments it does show: a password that is flushed in two pieces is
      redacted in the first and shown in the second. */
  lemma PasswordShows(token: string, sanitise: Sanitiser)
    requires sanitise("password=ab") == "password=[REDACTED]" && sanitise("password=a") == "password=[REDACTED]"
    requires sanitise("b") == "b"
    ensures var one, two := OneChunk("password=a", "b", token), TwoChunks("password=a", "b", token);
            && Concat(one) == Concat(two)
            && FeedAll(one, Marker(token), sanitise).output == "password=[REDACTED]"
            && FeedAll(two, Marker(token), sanitise).output == "password=[REDACTED]b"
  {
    TwoWays("password=a", "b", token, sanitise);
    assert "password=a" + "b" == "password=ab" && "password=[REDACTED]" + "b" == "password=[REDACTED]b";
  }
}
