/** Exactly when the argument deltas of the base detector add up. */
module BaseDetectorTheorems {
  import opened Text
  import opened Json
  import opened ToolCalls
  import opened BaseDetector

  /** Everything emitted over a run, put together. */
  datatype Outcome = Outcome(state: State, calls: seq<Item>, normal: string, threw: bool)

  function Run(env: Env, st: State, texts: seq<string>): (r: Outcome)
    requires st.Valid()
    ensures r.state.Valid()
    decreases |texts|
  {
    if texts == [] then Outcome(st, [], "", false)
    else
      var e := Step(env, st, texts[0]);
      var rest := Run(env, e.state, texts[1..]);
      Outcome(rest.state, e.result.calls + rest.calls, e.result.normal + rest.normal, e.threw || rest.threw)
  }

  // ---------------------------------------------------------------------
  // One call, seen as the snapshots of its arguments.

  /** A step that shows nothing new: no call to act on, a possible marker held back,
  or, before any arguments were shown, a call that has none yet. */
  predicate Quiet(seen: Reading, bare: bool) {
    seen.Nothing? || seen.Withheld? || (bare && seen.Seen? && seen.arguments.Absent?)
  }

  /** The texts, after what is buffered, show the call `id` again and again, with these
  printed arguments, quiet steps in between; the last text completes it if `closes`.
  `bare` says that no arguments were shown before. */
  predicate Feeds(env: Env, buffer: string, id: int, texts: seq<string>, snaps: seq<string>, closes: bool, bare: bool)
    decreases |texts|
  {
    if texts == [] then snaps == [] && !closes
    else
      var now := buffer + texts[0];
      var seen := Read(env, id, true, now);
      if Quiet(seen, bare) then Feeds(env, now, id, texts[1..], snaps, closes, bare)
      else
        && snaps != []
        && seen.Seen? && seen.arguments == Dump(snaps[0])
        && seen.complete == (closes && |texts| == 1)
        && (seen.complete ==> seen.rest.Some?)
        && if seen.complete then |snaps| == 1 else Feeds(env, now, id, texts[1..], snaps[1..], closes, false)
  }

  predicate InAll(p: string, snaps: seq<string>) { forall i | 0 <= i < |snaps| :: p <= snaps[i] }

  /** Whatever two successive, different snapshots agree on is in all later ones. */
  predicate Stable(s: seq<string>) {
    |s| >= 2 ==> (s[0] != s[1] ==> InAll(CommonPrefix(s[0], s[1]), s[2..])) && Stable(s[1..])
  }

  function All(before: Option<string>, snaps: seq<string>): seq<string> {
    match before case None => snaps case Some(p) => [p] + snaps
  }

  function Last(s: seq<string>): string { if s == [] then "" else s[|s| - 1] }

  function Latest(before: Option<string>, snaps: seq<string>): Option<string> {
    if snaps == [] then before else Some(Last(snaps))
  }

  /** What two successive, different snapshots agree on; unchanged if they are equal. */
  function AgreedNow(before: Option<string>, s: string, out: string): string {
    if before.Some? && before.value != s then CommonPrefix(before.value, s) else out
  }

  /** What the last two different snapshots agree on. */
  function StreamedFrom(out: string, before: Option<string>, snaps: seq<string>): string
    decreases |snaps|
  {
    if snaps == [] then out else StreamedFrom(AgreedNow(before, snaps[0], out), Some(snaps[0]), snaps[1..])
  }

  lemma {:induction false} StableCons(p: string, s: string, rest: seq<string>)
    ensures Stable([p] + ([s] + rest)) <==> Stable([s] + rest) && (p != s ==> InAll(CommonPrefix(p, s), rest))
  {
    var all := [p] + ([s] + rest);
    assert all[1..] == [s] + rest && all[2..] == rest;
  }

  // ---------------------------------------------------------------------
  // States between calls and inside one.

  function NextId(st: State): int { if st.toolId == -1 then 0 else st.toolId }

  /** Between calls, with nothing in the slot of the next one. */
  predicate Ready(st: State) {
    && st.Valid() && !st.nameSent
    && (NextId(st) < |st.streamed| ==> st.streamed[NextId(st)] == "")
  }

  /** Between calls, as at the start and after any declared calls. */
  predicate Idle(st: State) {
    && st.Valid() && !st.nameSent
    && if st.toolId == -1 then st.streamed == [] && st.prev == []
       else |st.streamed| == st.toolId && |st.prev| == st.toolId + 1
  }

  lemma {:induction false} IdleIsReady(st: State)
    ensures Idle(st) ==> Ready(st) && |st.prev| <= NextId(st) + 1
    ensures Idle(INITIAL)
  {
  }

  /** The slots once the next call was named. */
  function NamedSlots(st: State): seq<string>
    requires st.Valid()
  {
    if st.toolId == -1 then st.streamed + [""] else Padded(st.streamed, st.toolId + 1, "")
  }

  /** A call whose name was sent; `out` has been streamed of its arguments. */
  predicate Open(st: State, out: string) {
    && st.Valid() && st.nameSent && st.streamed[st.toolId] == out && st.toolId < |st.prev|
    && match st.prev[st.toolId].arguments case None => out == "" case Some(p) => out <= p
  }

  /** Only the open call has changed. */
  predicate OthersKept(st: State, next: State, out: string)
    requires st.Valid() && st.nameSent
  {
    && next.toolId == st.toolId && next.streamed == st.streamed[st.toolId := out] && |next.prev| == |st.prev|
    && forall k | 0 <= k < |st.prev| && k != st.toolId :: next.prev[k] == st.prev[k]
  }

  /** What has been cached of an open call but not streamed. */
  function Remaining(st: State, id: int): string
    requires st.Valid()
  {
    if st.nameSent && st.toolId == id && id < |st.prev| && st.prev[id].arguments.Some?
       && |st.prev[id].arguments.value| > |st.streamed[id]|
    then st.prev[id].arguments.value[|st.streamed[id]|..] else ""
  }

  /** The finish-time check: the last cached call, whatever the open one is. */
  function Flush(st: State): Option<(string, int)> {
    var n := |st.prev|;
    Unsent(n, if n > 0 then st.prev[n - 1].arguments else None, st.streamed)
  }

  /** What it sends for index `id`. */
  function Flushed(st: State, id: int): string {
    match Flush(st)
    case Some((args, index)) => if index == id then args else ""
    case None => ""
  }

  /** The flush sends what remains of the open call unless older entries lie behind it. */
  lemma {:induction false} FlushOfOpen(st: State, out: string)
    requires Open(st, out)
    ensures Flushed(st, st.toolId) == if |st.prev| == st.toolId + 1 then Remaining(st, st.toolId) else ""
  {
  }

  // ---------------------------------------------------------------------
  // The effect of one step.

  lemma {:induction false} QuietStep(env: Env, st: State, out: string, text: string)
    requires Open(st, out)
    requires Quiet(Read(env, st.toolId, true, st.buffer + text), st.prev[st.toolId].arguments.None?)
    ensures var e := Step(env, st, text);
      && !e.threw && e.result == SILENT && Open(e.state, out) && OthersKept(st, e.state, out)
      && e.state.buffer == st.buffer + text && e.state.prev[st.toolId].arguments == st.prev[st.toolId].arguments
  {
    hide Read;
    assert Padded(st.prev, st.toolId + 1, NO_ENTRY) == st.prev;
    assert st.streamed[st.toolId := out] == st.streamed;
  }

  /** Whether a snapshot throws, and what is streamed if it does not. */
  lemma {:induction false} SnapshotDelta(p: string, s: string, out: string)
    requires out <= p && p != s
    ensures var q := CommonPrefix(p, s); (|out| > |q| <==> !(out <= s)) && (out <= s ==> out <= q)
  {
    var q := CommonPrefix(p, s);
    if out <= s {
      CommonPrefixLongest(p, s, out);
    }
    hide CommonPrefix;
    if |out| <= |q| {
      assert out == p[..|out|] == q[..|out|];
    }
  }

  lemma {:induction false} PartialSnapshot(env: Env, st: State, out: string, text: string, s: string)
    requires Open(st, out)
    requires var seen := Read(env, st.toolId, true, st.buffer + text);
      seen.Seen? && seen.arguments == Dump(s) && !seen.complete
    ensures var e, p := Step(env, st, text), st.prev[st.toolId].arguments;
      var q := AgreedNow(p, s, out);
      && (e.threw <==> !(out <= s) && p.Some?)
      && (!e.threw ==>
            && Open(e.state, q) && OthersKept(st, e.state, q) && e.state.buffer == st.buffer + text
            && e.state.prev[st.toolId].arguments == Some(s)
            && out <= q && ArgsFor(e.result.calls, st.toolId) == q[|out|..]
            && NamesFor(e.result.calls, st.toolId) == [])
  {
    hide Read, Padded;
    var id, p := st.toolId, st.prev[st.toolId].arguments;
    assert Padded(st.prev, id + 1, NO_ENTRY) == st.prev;
    if p.Some? && p.value != s {
      SnapshotDelta(p.value, s, out);
      hide CommonPrefix;
      var q := CommonPrefix(p.value, s);
      if |out| <= |q| {
        OneDelta(id, q[|out|..]);
        assert out + q[|out|..] == q;
      }
    } else {
      OneDelta(id, "");
      assert st.streamed[id := out] == st.streamed;
    }
  }

  lemma {:induction false} OneDelta(id: int, diff: string)
    ensures ArgsFor(Delta(id, diff).calls, id) == diff && NamesFor(Delta(id, diff).calls, id) == []
  {
    if diff != "" {
      var items := Delta(id, diff).calls;
      assert items[1..] == [] && diff + ArgsFor([], id) == diff;
    }
  }

  lemma {:induction false} FinalSnapshot(env: Env, st: State, out: string, text: string, s: string)
    requires Open(st, out)
    requires var seen := Read(env, st.toolId, true, st.buffer + text);
      seen.Seen? && seen.arguments == Dump(s) && seen.complete && seen.rest.Some?
    ensures var e := Step(env, st, text);
      && (e.threw <==> |out| > |s|)
      && (!e.threw ==> ArgsFor(e.result.calls, st.toolId) == s[|out|..] && NamesFor(e.result.calls, st.toolId) == []
                       && Closed(st, e.state))
  {
    hide Read, CommonPrefix;
    if |out| <= |s| {
      OneDelta(st.toolId, s[|out|..]);
    }
  }

  /** The call is over: its slot is empty again and the next index is due. */
  predicate Closed(st: State, next: State)
    requires st.Valid() && st.nameSent
  {
    && !next.nameSent && next.toolId == st.toolId + 1 && next.streamed == st.streamed[st.toolId := ""]
    && |next.prev| == if |st.prev| < st.toolId + 2 then st.toolId + 2 else |st.prev|
  }

  // ---------------------------------------------------------------------
  // Whole calls.

  lemma {:induction false} InAllCons(p: string, s: string, rest: seq<string>)
    ensures InAll(p, [s] + rest) <==> p <= s && InAll(p, rest)
  {
    var all := [s] + rest;
    assert forall i | 0 <= i < |rest| :: all[i + 1] == rest[i];
    assert all[0] == s;
  }

  lemma {:induction false} InAllShorter(p: string, q: string, rest: seq<string>)
    requires p <= q && InAll(q, rest)
    ensures InAll(p, rest)
  {
  }

  /** No step throws, and what is streamed for the call, with what remains of it in the
  cache, is the last snapshot of its arguments. */
  predicate AddsUp(env: Env, st: State, out: string, texts: seq<string>, snaps: seq<string>)
    requires Open(st, out)
  {
    var r := Run(env, st, texts);
    !r.threw && out + ArgsFor(r.calls, st.toolId) + Remaining(r.state, st.toolId)
                == Last(All(st.prev[st.toolId].arguments, snaps))
  }

  /** Where a run of one call that does not throw ends. */
  predicate Ends(env: Env, st: State, out: string, texts: seq<string>, snaps: seq<string>, closes: bool)
    requires Open(st, out)
  {
    var r := Run(env, st, texts);
    !r.threw ==>
      && NamesFor(r.calls, st.toolId) == []
      && if closes then Closed(st, r.state)
         else
           var sent := StreamedFrom(out, st.prev[st.toolId].arguments, snaps);
           && out + ArgsFor(r.calls, st.toolId) == sent
           && Open(r.state, sent) && OthersKept(st, r.state, sent)
           && r.state.prev[st.toolId].arguments == Latest(st.prev[st.toolId].arguments, snaps)
  }

  lemma {:induction false} OpenCall(env: Env, st: State, out: string, texts: seq<string>, snaps: seq<string>,
                                    closes: bool)
    requires Open(st, out)
    requires Feeds(env, st.buffer, st.toolId, texts, snaps, closes, st.prev[st.toolId].arguments.None?)
    ensures AddsUp(env, st, out, texts, snaps)
       <==> InAll(out, snaps) && Stable(All(st.prev[st.toolId].arguments, snaps))
    ensures Ends(env, st, out, texts, snaps, closes)
    decreases |texts|
  {
    hide Step, Read, Stable, InAll, AddsUp, Ends, Remaining, Quiet, OthersKept;
    if texts == [] {
      NothingMore(env, st, out);
    } else {
      var seen := Read(env, st.toolId, true, st.buffer + texts[0]);
      var p := st.prev[st.toolId].arguments;
      var e := Step(env, st, texts[0]);
      if Quiet(seen, p.None?) {
        QuietStep(env, st, out, texts[0]);
        KeptId(st, e.state, out);
        OpenCall(env, e.state, out, texts[1..], snaps, closes);
        OneQuiet(env, st, out, texts, snaps, closes);
      } else if seen.complete {
        LastOfCall(env, st, out, texts[0], snaps[0]);
        assert texts == [texts[0]] && snaps == [snaps[0]];
      } else {
        var s, rest := snaps[0], snaps[1..];
        assert snaps == [s] + rest;
        PartialSnapshot(env, st, out, texts[0], s);
        InAllCons(out, s, rest);
        if e.threw {
          Thrown(env, st, out, texts, snaps, closes);
        } else {
          var q := AgreedNow(p, s, out);
          KeptId(st, e.state, q);
          OpenCall(env, e.state, q, texts[1..], rest, closes);
          OneMore(env, st, out, q, texts, s, rest);
          OneEnds(env, st, out, q, texts, s, rest, closes);
          SnapshotsAgree(p, out, q, s, rest);
        }
      }
    }
  }

  lemma {:induction false} KeptId(st: State, next: State, out: string)
    requires st.Valid() && st.nameSent && OthersKept(st, next, out)
    ensures next.toolId == st.toolId
  {
  }

  lemma {:induction false} NothingMore(env: Env, st: State, out: string)
    requires Open(st, out)
    ensures AddsUp(env, st, out, [], []) && InAll(out, []) && Stable(All(st.prev[st.toolId].arguments, []))
    ensures Ends(env, st, out, [], [], false)
  {
    assert st.streamed[st.toolId := out] == st.streamed;
  }

  lemma {:induction false} Thrown(env: Env, st: State, out: string, texts: seq<string>, snaps: seq<string>,
                                  closes: bool)
    requires Open(st, out) && texts != [] && Step(env, st, texts[0]).threw
    ensures !AddsUp(env, st, out, texts, snaps) && Ends(env, st, out, texts, snaps, closes)
  {
    hide Step, Open;
  }

  lemma {:induction false} OneQuiet(env: Env, st: State, out: string, texts: seq<string>, snaps: seq<string>,
                                    closes: bool)
    requires Open(st, out) && texts != []
    requires var e := Step(env, st, texts[0]);
      && !e.threw && e.result == SILENT && Open(e.state, out) && OthersKept(st, e.state, out)
      && e.state.prev[e.state.toolId].arguments == st.prev[st.toolId].arguments
    ensures var next := Step(env, st, texts[0]).state;
      && (AddsUp(env, st, out, texts, snaps) <==> AddsUp(env, next, out, texts[1..], snaps))
      && (Ends(env, next, out, texts[1..], snaps, closes) ==> Ends(env, st, out, texts, snaps, closes))
  {
    hide Step, Remaining, StreamedFrom;
    var e := Step(env, st, texts[0]);
    var r := Run(env, e.state, texts[1..]);
    assert e.result.calls + r.calls == r.calls;
    SameSlots(st.streamed, st.toolId, out, "");
    SameSlots(st.streamed, st.toolId, out, StreamedFrom(out, st.prev[st.toolId].arguments, snaps));
  }

  lemma {:induction false} SameSlots(xs: seq<string>, i: int, out: string, later: string)
    requires 0 <= i < |xs|
    ensures xs[i := out][i := later] == xs[i := later]
  {
  }

  lemma {:induction false} LastOfCall(env: Env, st: State, out: string, text: string, s: string)
    requires Open(st, out)
    requires var seen := Read(env, st.toolId, true, st.buffer + text);
      seen.Seen? && seen.arguments == Dump(s) && seen.complete && seen.rest.Some?
    ensures AddsUp(env, st, out, [text], [s])
       <==> InAll(out, [s]) && Stable(All(st.prev[st.toolId].arguments, [s]))
    ensures Ends(env, st, out, [text], [s], true)
  {
    hide Read, Step, CommonPrefix;
    FinalSnapshot(env, st, out, text, s);
    var e, p, r := Step(env, st, text), st.prev[st.toolId].arguments, Run(env, st, [text]);
    assert [text][1..] == [] && e.result.calls + [] == e.result.calls;
    assert Run(env, e.state, []) == Outcome(e.state, [], "", false);
    assert r.state == e.state && r.calls == e.result.calls && r.threw == e.threw;
    assert [s] + [] == [s];
    InAllCons(out, s, []);
    assert Stable(All(p, [s])) by {
      if p.Some? {
        assert All(p, [s]) == [p.value, s] && [p.value, s][1..] == [s] && [p.value, s][2..] == [];
      }
    }
    assert Last(All(p, [s])) == s;
    Completes(out, s);
    hide Stable, InAll, Open, Last, All;
    assert !e.threw ==> out + s[|out|..] + "" == out + s[|out|..];
  }

  lemma {:induction false} Completes(out: string, s: string)
    ensures |out| <= |s| && out + s[|out|..] == s <==> out <= s
  {
    if |out| <= |s| && out + s[|out|..] == s {
      assert s[..|out|] == (out + s[|out|..])[..|out|] == out;
    }
  }

  lemma {:induction false} OneMore(env: Env, st: State, out: string, q: string, texts: seq<string>, s: string,
                                   rest: seq<string>)
    requires Open(st, out) && texts != []
    requires var e := Step(env, st, texts[0]);
      && !e.threw && Open(e.state, q) && e.state.toolId == st.toolId && e.state.prev[st.toolId].arguments == Some(s)
      && out <= q && ArgsFor(e.result.calls, st.toolId) == q[|out|..]
    ensures AddsUp(env, st, out, texts, [s] + rest) <==> AddsUp(env, Step(env, st, texts[0]).state, q, texts[1..], rest)
  {
    hide Step, Remaining;
    var e := Step(env, st, texts[0]);
    var r := Run(env, e.state, texts[1..]);
    ArgsAppend(e.result.calls, r.calls, st.toolId);
    var args := ArgsFor(r.calls, st.toolId);
    assert out + (q[|out|..] + args) == q + args;
    LastOfAll(env, st, out, s, rest);
  }

  lemma {:induction false} LastOfAll(env: Env, st: State, out: string, s: string, rest: seq<string>)
    requires Open(st, out)
    ensures Last(All(st.prev[st.toolId].arguments, [s] + rest)) == Last([s] + rest)
  {
  }

  lemma {:induction false} OneEnds(env: Env, st: State, out: string, q: string, texts: seq<string>, s: string,
                                   rest: seq<string>, closes: bool)
    requires Open(st, out) && texts != []
    requires var e := Step(env, st, texts[0]);
      && !e.threw && Open(e.state, q) && OthersKept(st, e.state, q) && e.state.prev[st.toolId].arguments == Some(s)
      && out <= q && ArgsFor(e.result.calls, st.toolId) == q[|out|..] && NamesFor(e.result.calls, st.toolId) == []
      && q == AgreedNow(st.prev[st.toolId].arguments, s, out)
      && Ends(env, e.state, q, texts[1..], rest, closes)
    ensures Ends(env, st, out, texts, [s] + rest, closes)
  {
    hide Step, AgreedNow;
    var e := Step(env, st, texts[0]);
    var r := Run(env, e.state, texts[1..]);
    ArgsAppend(e.result.calls, r.calls, st.toolId);
    NamesAppend(e.result.calls, r.calls, st.toolId);
    var args := ArgsFor(r.calls, st.toolId);
    assert out + (q[|out|..] + args) == q + args;
    SameSlots(st.streamed, st.toolId, q, "");
    SameSlots(st.streamed, st.toolId, q, StreamedFrom(q, Some(s), rest));
    assert ([s] + rest)[1..] == rest;
  }

  lemma {:induction false} SnapshotsAgree(p: Option<string>, out: string, q: string, s: string, rest: seq<string>)
    requires match p case None => out == "" case Some(v) => out <= v
    requires q == AgreedNow(p, s, out) && out <= q && out <= s
    ensures InAll(q, rest) && Stable([s] + rest) <==> InAll(out, [s] + rest) && Stable(All(p, [s] + rest))
  {
    hide Stable, CommonPrefix;
    InAllCons(out, s, rest);
    if p.Some? {
      StableCons(p.value, s, rest);
      if InAll(q, rest) {
        InAllShorter(out, q, rest);
      }
    }
  }

  /** What the first text of a call shows of its arguments. */
  function Shown(seen: Reading): Option<string>
    requires seen.Seen?
  {
    if seen.arguments.Dump? then Some(seen.arguments.text) else None
  }

  /** A text that names the next call, and texts that show it. */
  predicate OneCall(env: Env, st: State, first: string, texts: seq<string>, snaps: seq<string>, closes: bool)
    requires st.Valid()
  {
    var seen := Read(env, st.toolId, false, st.buffer + first);
    && seen.Seen? && seen.name.Some? && !seen.arguments.Unprintable?
    && Feeds(env, st.buffer + first, NextId(st), texts, snaps, closes, Shown(seen).None?)
  }

  /** All snapshots of the call. */
  function Snapshots(env: Env, st: State, first: string, snaps: seq<string>): seq<string>
    requires st.Valid() && Read(env, st.toolId, false, st.buffer + first).Seen?
  {
    All(Shown(Read(env, st.toolId, false, st.buffer + first)), snaps)
  }

  lemma {:induction false} NameSent(env: Env, st: State, first: string)
    requires Ready(st)
    requires var seen := Read(env, st.toolId, false, st.buffer + first);
      seen.Seen? && seen.name.Some? && !seen.arguments.Unprintable?
    ensures var id, seen, e := NextId(st), Read(env, st.toolId, false, st.buffer + first), Step(env, st, first);
      && !e.threw && Open(e.state, "") && e.state.toolId == id && e.state.buffer == st.buffer + first
      && e.state.prev[id].arguments == Shown(seen) && e.state.streamed == NamedSlots(st)
      && |e.state.prev| == (if |st.prev| < id + 1 then id + 1 else |st.prev|)
      && (forall k | 0 <= k < |st.prev| && k != id :: e.state.prev[k] == st.prev[k])
      && NamesFor(e.result.calls, id) == [seen.name.value] && ArgsFor(e.result.calls, id) == ""
  {
    hide Read;
    var id, seen := NextId(st), Read(env, st.toolId, false, st.buffer + first);
    var items := [Item(id, seen.name, "")];
    assert items[1..] == [] && NamesFor([], id) == [] && ArgsFor([], id) == "";
    assert NamesFor(items, id) == [seen.name.value] && ArgsFor(items, id) == "";
  }

  /** Steps before the name leave everything ready. */
  lemma {:induction false} BeforeName(env: Env, st: State, text: string)
    requires Ready(st)
    requires var seen := Read(env, st.toolId, false, st.buffer + text);
      seen.Nothing? || seen.Withheld? || (seen.Seen? && seen.name.None?)
    ensures var e := Step(env, st, text);
      && Ready(e.state) && e.state.buffer == st.buffer + text && e.state.toolId == st.toolId
      && e.state.streamed == st.streamed && e.result == SILENT
  {
    hide Read;
  }

  /** Main result. A call begins in any state whose slot is empty: its name is announced
  once, then its arguments are parsed again and again. No substring bound is exceeded
  and the deltas, with what remains in the cache if the stream stops early, concatenate
  to exactly the last printed arguments, if and only if whatever two successive,
  different snapshots agree on is in all later ones. */
  lemma {:induction false} DeltasAddUp(env: Env, st: State, first: string, texts: seq<string>, snaps: seq<string>,
                                       closes: bool)
    requires Ready(st) && OneCall(env, st, first, texts, snaps, closes)
    ensures var id, r, all := NextId(st), Run(env, st, [first] + texts), Snapshots(env, st, first, snaps);
      && (!r.threw && ArgsFor(r.calls, id) + Remaining(r.state, id) == Last(all) <==> Stable(all))
      && (!r.threw ==> NamesFor(r.calls, id) == [Read(env, st.toolId, false, st.buffer + first).name.value])
      && (!r.threw && closes ==> r.state.streamed == NamedSlots(st) && r.state.toolId == id + 1 && !r.state.nameSent)
      && (!r.threw && closes && Idle(st) ==> Idle(r.state))
  {
    hide Read, Stable, Feeds, Step;
    NameSent(env, st, first);
    var id, e := NextId(st), Step(env, st, first);
    assert ([first] + texts)[1..] == texts;
    OpenCall(env, e.state, "", texts, snaps, closes);
    var rest := Run(env, e.state, texts);
    ArgsAppend(e.result.calls, rest.calls, id);
    NamesAppend(e.result.calls, rest.calls, id);
    hide StreamedFrom, Remaining, ArgsFor, NamesFor, Run;
    assert "" + ArgsFor(rest.calls, id) == ArgsFor(rest.calls, id);
    assert e.state.streamed[id := ""] == NamedSlots(st);
  }

  /** And with the flush at the end of the stream: it delivers what remains, unless the
  state holds older entries, as it can after a reset; then it looks at the last of
  them, and the sum is right only if nothing remains. */
  lemma {:induction false} FlushAddsUp(env: Env, st: State, first: string, texts: seq<string>, snaps: seq<string>,
                                       closes: bool)
    requires Ready(st) && OneCall(env, st, first, texts, snaps, closes)
    ensures var id, r, all := NextId(st), Run(env, st, [first] + texts), Snapshots(env, st, first, snaps);
      && (!r.threw && ArgsFor(r.calls, id) + Flushed(r.state, id) == Last(all)
          <==> Stable(all) && (closes || |st.prev| <= id + 1
                               || StreamedFrom("", Shown(Read(env, st.toolId, false, st.buffer + first)), snaps)
                                  == Last(all)))
      && (!r.threw && !closes && |st.prev| > id + 1 ==>
            Flush(r.state) == Unsent(|st.prev|, st.prev[|st.prev| - 1].arguments, NamedSlots(st)))
  {
    hide Read, Stable, Feeds, Step, Run, StreamedFrom, ArgsFor, Remaining, Flushed, Flush, NamedSlots, Open;
    DeltasAddUp(env, st, first, texts, snaps, closes);
    var id, r, all := NextId(st), Run(env, st, [first] + texts), Snapshots(env, st, first, snaps);
    if !r.threw {
      CallEnds(env, st, first, texts, snaps, closes);
      if closes {
        NoFlush(r.state, id);
      } else {
        var before := Shown(Read(env, st.toolId, false, st.buffer + first));
        var sent := StreamedFrom("", before, snaps);
        OpenFlush(r.state, id, sent, before, snaps);
        if |st.prev| > id + 1 {
          OldFlush(st, r.state, id, sent);
        }
      }
    }
  }

  /** The flush of an open call. */
  lemma {:induction false} OpenFlush(st: State, id: int, sent: string, before: Option<string>, snaps: seq<string>)
    requires Open(st, sent) && st.toolId == id && st.prev[id].arguments == Latest(before, snaps)
    ensures var all := All(before, snaps);
      && sent + Remaining(st, id) == Last(all)
      && (sent + Flushed(st, id) == Last(all) <==> |st.prev| <= id + 1 || sent == Last(all))
  {
    FlushOfOpen(st, sent);
    assert sent + "" == sent;
    assert Last(All(before, snaps)) == match Latest(before, snaps) case None => "" case Some(p) => p;
  }

  lemma {:induction false} OldFlush(st: State, next: State, id: int, sent: string)
    requires st.Valid() && next.Valid() && id == NextId(st) && |st.prev| > id + 1 && |next.prev| == |st.prev|
    requires next.streamed == NamedSlots(st)[id := sent]
    requires forall k | 0 <= k < |st.prev| && k != id :: next.prev[k] == st.prev[k]
    ensures Flush(next) == Unsent(|st.prev|, st.prev[|st.prev| - 1].arguments, NamedSlots(st))
  {
  }

  lemma {:induction false} NoFlush(st: State, id: int)
    requires st.Valid() && st.toolId == id + 1 && !st.nameSent && |st.prev| >= id + 2
    ensures Flushed(st, id) == "" == Remaining(st, id)
  {
  }

  /** The state in which a call that did not throw is left. */
  lemma {:induction false} CallEnds(env: Env, st: State, first: string, texts: seq<string>, snaps: seq<string>,
                                    closes: bool)
    requires Ready(st) && OneCall(env, st, first, texts, snaps, closes)
    requires !Run(env, st, [first] + texts).threw
    ensures var id, r := NextId(st), Run(env, st, [first] + texts);
      if closes then r.state.toolId == id + 1 && !r.state.nameSent && |r.state.prev| >= id + 2
      else
        var sent := StreamedFrom("", Shown(Read(env, st.toolId, false, st.buffer + first)), snaps);
        && Open(r.state, sent) && r.state.toolId == id && ArgsFor(r.calls, id) == sent
        && r.state.prev[id].arguments == Latest(Shown(Read(env, st.toolId, false, st.buffer + first)), snaps)
        && r.state.streamed == NamedSlots(st)[id := sent]
        && |r.state.prev| == (if |st.prev| < id + 1 then id + 1 else |st.prev|)
        && (forall k | 0 <= k < |st.prev| && k != id :: r.state.prev[k] == st.prev[k])
  {
    hide Read, Feeds, Step;
    NameSent(env, st, first);
    var id, e := NextId(st), Step(env, st, first);
    assert ([first] + texts)[1..] == texts;
    OpenCall(env, e.state, "", texts, snaps, closes);
    var rest := Run(env, e.state, texts);
    ArgsAppend(e.result.calls, rest.calls, id);
    hide StreamedFrom, Remaining, ArgsFor, NamesFor, Run;
    assert "" + ArgsFor(rest.calls, id) == ArgsFor(rest.calls, id);
  }

  // ---------------------------------------------------------------------
  // Calls that begin with text in their slot.

  /** A step inside a call sends what it adds to the slot. */
  lemma {:induction false} LengthStep(env: Env, st: State, text: string)
    requires st.Valid() && st.nameSent
    requires var seen := Read(env, st.toolId, true, st.buffer + text);
      Quiet(seen, true) || (seen.Seen? && seen.arguments.Dump? && !seen.complete)
    ensures var e, id := Step(env, st, text), st.toolId;
      !e.threw ==>
        && e.state.nameSent && e.state.toolId == id && e.state.buffer == st.buffer + text
        && |ArgsFor(e.result.calls, id)| + |st.streamed[id]| == |e.state.streamed[id]|
  {
    hide Read, CommonPrefix, Padded;
    var seen := Read(env, st.toolId, true, st.buffer + text);
    OneDelta(st.toolId, "");
    if seen.Seen? && seen.arguments.Dump? && Agreed(st, seen.arguments.text).Some? {
      var q := Agreed(st, seen.arguments.text).value;
      if |st.streamed[st.toolId]| <= |q| {
        OneDelta(st.toolId, q[|st.streamed[st.toolId]|..]);
      }
    }
  }

  lemma {:induction false} LengthEnd(env: Env, st: State, text: string, s: string)
    requires st.Valid() && st.nameSent
    requires var seen := Read(env, st.toolId, true, st.buffer + text);
      seen.Seen? && seen.arguments == Dump(s) && seen.complete && seen.rest.Some?
    ensures var e, id := Step(env, st, text), st.toolId;
      !e.threw ==> |ArgsFor(e.result.calls, id)| + |st.streamed[id]| == |s|
  {
    hide Read, Padded;
    if |st.streamed[st.toolId]| <= |s| {
      OneDelta(st.toolId, s[|st.streamed[st.toolId]|..]);
    }
  }

  /** A completed call sends as much as its last snapshot is longer than the slot was. */
  lemma {:induction false} LengthSent(env: Env, st: State, texts: seq<string>, snaps: seq<string>, bare: bool)
    requires st.Valid() && st.nameSent && Feeds(env, st.buffer, st.toolId, texts, snaps, true, bare)
    ensures snaps != []
    ensures var r, id := Run(env, st, texts), st.toolId;
      !r.threw ==> |ArgsFor(r.calls, id)| + |st.streamed[id]| == |Last(snaps)|
    decreases |texts|
  {
    hide Step, Read, Quiet, ArgsFor;
    var id, e, seen := st.toolId, Step(env, st, texts[0]), Read(env, st.toolId, true, st.buffer + texts[0]);
    var rest := Run(env, e.state, texts[1..]);
    ArgsAppend(e.result.calls, rest.calls, id);
    if Quiet(seen, bare) {
      QuietIsBare(seen, bare);
      LengthStep(env, st, texts[0]);
      if !e.threw { LengthSent(env, e.state, texts[1..], snaps, bare); }
      else { FeedsShow(env, st.buffer + texts[0], id, texts[1..], snaps, bare); }
    } else if seen.complete {
      LengthEnd(env, st, texts[0], snaps[0]);
      NoCalls(env, e.state, texts[1..], id);
    } else {
      LengthStep(env, st, texts[0]);
      if !e.threw { LengthSent(env, e.state, texts[1..], snaps[1..], false); }
    }
  }

  lemma {:induction false} QuietIsBare(seen: Reading, bare: bool)
    requires Quiet(seen, bare)
    ensures Quiet(seen, true)
  {
  }

  lemma {:induction false} NoCalls(env: Env, st: State, texts: seq<string>, id: int)
    requires st.Valid() && texts == []
    ensures ArgsFor(Run(env, st, texts).calls, id) == ""
  {
  }

  /** A completed call is shown. */
  lemma {:induction false} FeedsShow(env: Env, buffer: string, id: int, texts: seq<string>, snaps: seq<string>,
                                     bare: bool)
    requires Feeds(env, buffer, id, texts, snaps, true, bare)
    ensures snaps != []
    decreases |texts|
  {
    hide Read, Quiet;
    if snaps == [] {
      FeedsShow(env, buffer + texts[0], id, texts[1..], snaps, bare);
    }
  }

  /** So an empty slot is not only enough but needed: from any state between calls, a
  completed call adds up if and only if its slot was empty and the snapshots agree. */
  lemma {:induction false} SlotDecides(env: Env, st: State, first: string, texts: seq<string>, snaps: seq<string>)
    requires st.Valid() && !st.nameSent && OneCall(env, st, first, texts, snaps, true)
    ensures var id, r, all := NextId(st), Run(env, st, [first] + texts), Snapshots(env, st, first, snaps);
      !r.threw && ArgsFor(r.calls, id) == Last(all) <==> Ready(st) && Stable(all)
  {
    hide Read, Stable, Feeds, Step, ArgsFor;
    var id, r := NextId(st), Run(env, st, [first] + texts);
    if Ready(st) {
      DeltasAddUp(env, st, first, texts, snaps, true);
      assert ArgsFor(r.calls, id) + "" == ArgsFor(r.calls, id);
    } else {
      var e := Step(env, st, first);
      StaleName(env, st, first);
      assert ([first] + texts)[1..] == texts;
      LengthSent(env, e.state, texts, snaps, Shown(Read(env, st.toolId, false, st.buffer + first)).None?);
      ArgsAppend(e.result.calls, Run(env, e.state, texts).calls, id);
      assert Last(Snapshots(env, st, first, snaps)) == Last(snaps);
    }
  }

  lemma {:induction false} StaleName(env: Env, st: State, first: string)
    requires st.Valid() && !st.nameSent && !Ready(st)
    requires var seen := Read(env, st.toolId, false, st.buffer + first);
      seen.Seen? && seen.name.Some? && !seen.arguments.Unprintable?
    ensures var id, e := NextId(st), Step(env, st, first);
      && e.state.nameSent && e.state.toolId == id && e.state.buffer == st.buffer + first
      && e.state.streamed[id] != "" && ArgsFor(e.result.calls, id) == ""
  {
    hide Read;
    var items := [Item(NextId(st), Read(env, st.toolId, false, st.buffer + first).name, "")];
    assert items[1..] == [] && ArgsFor([], NextId(st)) == "";
    assert ArgsFor(items, NextId(st)) == "";
  }

  // ---------------------------------------------------------------------
  // Ordinary text.

  /** Nothing in the run is taken for a call. */
  predicate OnlyText(env: Env, st: State, texts: seq<string>)
    requires st.Valid()
    decreases |texts|
  {
    texts == []
    || (var seen := Read(env, st.toolId, st.nameSent, st.buffer + texts[0]);
        (seen.Plain? || seen.Withheld?) && OnlyText(env, Step(env, st, texts[0]).state, texts[1..]))
  }

  /** Text without calls and end markers is passed on byte for byte; what is still held
  back ends with a beginning of the marker. */
  lemma {:induction false} TextKept(env: Env, st: State, texts: seq<string>)
    requires st.Valid() && OnlyText(env, st, texts)
    requires env.eot == "" || !Has(st.buffer + Flatten(texts), env.eot)
    ensures var r := Run(env, st, texts);
      && r.normal + r.state.buffer == st.buffer + Flatten(texts) && r.calls == [] && !r.threw
      && (texts != [] ==> HeldBack(env, r.state.buffer))
    decreases |texts|
  {
    hide Step, Read, Has, HeldBack;
    if texts == [] {
      assert st.buffer + "" == "" + st.buffer;
    } else {
      var e, later := Step(env, st, texts[0]), Flatten(texts[1..]);
      assert st.buffer + (texts[0] + later) == st.buffer + texts[0] + later;
      PieceKept(env, st, texts[0], later);
      TextKept(env, e.state, texts[1..]);
      var rest := Run(env, e.state, texts[1..]);
      Reassociate(e.result.normal, rest.normal, rest.state.buffer);
      Reassociate(e.result.normal, e.state.buffer, later);
    }
  }

  lemma {:induction false} Reassociate(a: string, b: string, c: string)
    ensures a + b + c == a + (b + c)
  {
  }

  predicate HeldBack(env: Env, buffer: string) {
    buffer != "" ==> exists i :: 1 <= i <= |env.bot| && EndsWith(buffer, env.bot[..i])
  }

  lemma {:induction false} NotInParts(a: string, b: string, pat: string)
    requires !Has(a + b, pat)
    ensures !Has(a, pat) && !Has(b, pat)
  {
    hide Has;
    assert "" + a + b == a + b && a + b + "" == a + b;
    if Has(a, pat) {
      OccursInWhole("", a, b, pat);
    } else if Has(b, pat) {
      OccursInWhole(a, b, "", pat);
    }
  }

  lemma {:induction false} PieceKept(env: Env, st: State, text: string, later: string)
    requires st.Valid()
    requires var seen := Read(env, st.toolId, st.nameSent, st.buffer + text); seen.Plain? || seen.Withheld?
    requires env.eot == "" || !Has(st.buffer + text + later, env.eot)
    ensures var e := Step(env, st, text);
      && e.result.normal + e.state.buffer == st.buffer + text && e.result.calls == [] && !e.threw
      && HeldBack(env, e.state.buffer)
      && (env.eot == "" || !Has(e.state.buffer + later, env.eot))
  {
    var now := st.buffer + text;
    if env.eot != "" {
      NotInParts(now, later, env.eot);
    }
    NoEnd(env, now);
    hide WithoutEnd, Has, ReadCall;
    assert "" + later == later;
    assert Read(env, st.toolId, st.nameSent, now).Withheld? ==> PartialToken(now, env.bot, 1) != 0;
    assert now + "" == now && "" + now == now;
  }

  lemma {:induction false} NoEnd(env: Env, s: string)
    requires env.eot == "" || !Has(s, env.eot)
    ensures WithoutEnd(env, s) == s
  {
    if env.eot == "" {
      assert OccursAt(s, "", 0);
      FindIs(s, "", 0, 0);
      assert s[..0] + s[0..] == s;
    }
  }
}
