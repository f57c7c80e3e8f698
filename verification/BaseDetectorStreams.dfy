/** Whole streams of calls through the base detector. */
module BaseDetectorStreams {
  import opened Text
  import opened ToolCalls
  import opened BaseDetector
  import opened BaseDetectorTheorems

  /** One call of a stream: texts that show nothing to act on, the text that names it, and
  texts that show it again and again, with these snapshots of its arguments. */
  datatype Part = Part(quiet: seq<string>, first: string, texts: seq<string>, snaps: seq<string>)

  function Next(id: int): int { if id == -1 then 0 else id }

  /** Before the name: a beginning of the marker, JSON that does not parse yet, or JSON
  without a name. */
  predicate Unnamed(seen: Reading) {
    seen.Nothing? || seen.Withheld? || (seen.Seen? && seen.name.None? && !seen.arguments.Unprintable?)
  }

  predicate QuietTexts(env: Env, buffer: string, id: int, texts: seq<string>)
    decreases |texts|
  {
    texts == []
    || (Unnamed(Read(env, id, false, buffer + texts[0])) && QuietTexts(env, buffer + texts[0], id, texts[1..]))
  }

  predicate CallTexts(env: Env, buffer: string, id: int, p: Part, closes: bool) {
    var seen := Read(env, id, false, buffer + p.first);
    && seen.Seen? && seen.name.Some? && !seen.arguments.Unprintable?
    && Feeds(env, buffer + p.first, Next(id), p.texts, p.snaps, closes, Shown(seen).None?)
  }

  /** What follows a complete call. */
  function RestOf(env: Env, buffer: string, id: int, texts: seq<string>): string {
    match Read(env, id, true, buffer + Flatten(texts))
    case Seen(_, _, _, Some(rest)) => rest
    case _ => ""
  }

  function Named(buffer: string, p: Part): string { buffer + Flatten(p.quiet) }

  function Behind(env: Env, buffer: string, id: int, p: Part): string {
    RestOf(env, Named(buffer, p) + p.first, Next(id), p.texts)
  }

  /** The parts are a stream: all calls but the last are complete, and the last if it
  `closes`. */
  predicate Stream(env: Env, buffer: string, id: int, parts: seq<Part>, closes: bool)
    decreases |parts|
  {
    parts == []
    || (var p := parts[0];
        && QuietTexts(env, buffer, id, p.quiet)
        && CallTexts(env, Named(buffer, p), id, p, closes || |parts| > 1)
        && Stream(env, Behind(env, buffer, id, p), Next(id) + 1, parts[1..], closes))
  }

  function Texts(parts: seq<Part>): seq<string> {
    if parts == [] then [] else parts[0].quiet + ([parts[0].first] + parts[0].texts) + Texts(parts[1..])
  }

  /** All snapshots of each call. */
  function AllSnaps(env: Env, buffer: string, id: int, parts: seq<Part>): (r: seq<seq<string>>)
    ensures |r| == |parts|
    decreases |parts|
  {
    if parts == [] then []
    else
      var p := parts[0];
      var seen := Read(env, id, false, Named(buffer, p) + p.first);
      [All(if seen.Seen? then Shown(seen) else None, p.snaps)]
      + AllSnaps(env, Behind(env, buffer, id, p), Next(id) + 1, parts[1..])
  }

  /** Their names. */
  function CallNames(env: Env, buffer: string, id: int, parts: seq<Part>): (r: seq<Option<string>>)
    ensures |r| == |parts|
    decreases |parts|
  {
    if parts == [] then []
    else
      var p := parts[0];
      var seen := Read(env, id, false, Named(buffer, p) + p.first);
      [if seen.Seen? then seen.name else None]
      + CallNames(env, Behind(env, buffer, id, p), Next(id) + 1, parts[1..])
  }

  // ---------------------------------------------------------------------
  // Runs.

  lemma {:induction false} RunAppend(env: Env, st: State, a: seq<string>, b: seq<string>)
    requires st.Valid()
    ensures var r, all := Run(env, st, a), Run(env, st, a + b);
      var more := Run(env, r.state, b);
      all.state == more.state && all.calls == r.calls + more.calls && all.threw == (r.threw || more.threw)
    decreases |a|
  {
    hide Step;
    if a == [] {
      assert a + b == b;
      assert [] + Run(env, st, b).calls == Run(env, st, b).calls;
    } else {
      assert (a + b)[0] == a[0] && (a + b)[1..] == a[1..] + b;
      RunAppend(env, Step(env, st, a[0]).state, a[1..], b);
      Grouped(Step(env, st, a[0]).result.calls, Run(env, Step(env, st, a[0]).state, a[1..]).calls,
              Run(env, Run(env, st, a).state, b).calls);
    }
  }

  lemma {:induction false} Grouped(a: seq<Item>, b: seq<Item>, c: seq<Item>)
    ensures a + b + c == a + (b + c)
  {
  }

  lemma {:induction false} QuietStepIdle(env: Env, st: State, text: string)
    requires Idle(st) && Unnamed(Read(env, st.toolId, false, st.buffer + text))
    ensures var e := Step(env, st, text);
      && !e.threw && e.result == SILENT && Idle(e.state) && e.state.toolId == st.toolId
      && e.state.buffer == st.buffer + text
  {
    hide Read;
    IdleIsReady(st);
    BeforeName(env, st, text);
    if st.toolId >= 0 {
      assert Padded(st.prev, st.toolId + 1, NO_ENTRY) == st.prev;
    }
  }

  lemma {:induction false} FlattenCons(buffer: string, texts: seq<string>)
    ensures texts == [] ==> buffer + Flatten(texts) == buffer
    ensures texts != [] ==> buffer + texts[0] + Flatten(texts[1..]) == buffer + Flatten(texts)
  {
    if texts != [] {
      Reassociate(buffer, texts[0], Flatten(texts[1..]));
    }
  }

  lemma {:induction false} QuietRun(env: Env, st: State, texts: seq<string>)
    requires Idle(st) && QuietTexts(env, st.buffer, st.toolId, texts)
    ensures var r := Run(env, st, texts);
      && !r.threw && r.calls == [] && Idle(r.state) && r.state.toolId == st.toolId
      && r.state.buffer == st.buffer + Flatten(texts)
    decreases |texts|
  {
    assert st.Valid();
    hide Read, Idle, Step, Flatten;
    FlattenCons(st.buffer, texts);
    if texts != [] {
      QuietStepIdle(env, st, texts[0]);
      QuietRun(env, Step(env, st, texts[0]).state, texts[1..]);
    }
  }

  predicate OnlyFor(items: seq<Item>, id: int) { forall x | x in items :: x.index == id }

  lemma {:induction false} NothingElse(items: seq<Item>, id: int, i: int)
    requires OnlyFor(items, id) && i != id
    ensures ArgsFor(items, i) == "" && NamesFor(items, i) == []
  {
    if items != [] {
      assert items[0] in items && forall x | x in items[1..] :: x in items;
      NothingElse(items[1..], id, i);
    }
  }

  /** A step inside a call sends items of this call only. */
  lemma {:induction false} OwnStep(env: Env, st: State, text: string)
    requires st.Valid() && st.nameSent && !Read(env, st.toolId, true, st.buffer + text).Undeclared?
    ensures var e, seen := Step(env, st, text), Read(env, st.toolId, true, st.buffer + text);
      && OnlyFor(e.result.calls, st.toolId)
      && (!e.threw && !seen.Plain? && !(seen.Seen? && seen.arguments.Dump? && seen.complete) ==>
            e.state.nameSent && e.state.toolId == st.toolId && e.state.buffer == st.buffer + text)
      && (!e.threw && seen.Seen? && seen.arguments.Dump? && seen.complete && seen.rest.Some? ==>
            e.state.buffer == seen.rest.value)
  {
    hide Read, CommonPrefix, Padded;
  }

  lemma {:induction false} CallRun(env: Env, st: State, texts: seq<string>, snaps: seq<string>, closes: bool,
                                   bare: bool)
    requires st.Valid() && st.nameSent && Feeds(env, st.buffer, st.toolId, texts, snaps, closes, bare)
    ensures var r := Run(env, st, texts);
      !r.threw ==>
        && OnlyFor(r.calls, st.toolId)
        && (closes ==> r.state.buffer == RestOf(env, st.buffer, st.toolId, texts))
    decreases |texts|
  {
    if texts != [] {
      hide Step, Read, Flatten;
      var seen, e := Read(env, st.toolId, true, st.buffer + texts[0]), Step(env, st, texts[0]);
      OwnStep(env, st, texts[0]);
      FlattenCons(st.buffer, texts);
      if !e.threw {
        if Quiet(seen, bare) {
          CallRun(env, e.state, texts[1..], snaps, closes, bare);
        } else if seen.complete {
          FlattenCons(st.buffer + texts[0], texts[1..]);
        } else {
          CallRun(env, e.state, texts[1..], snaps[1..], closes, false);
        }
      }
    }
  }

  // ---------------------------------------------------------------------
  // One part.

  /** Between calls nothing is left for the flush. */
  lemma {:induction false} IdleFlush(st: State, i: int)
    requires Idle(st)
    ensures Flushed(st, i) == ""
  {
  }

  /** What is said of the run of a part. */
  predicate PartDone(r: Outcome, id: int, name: Option<string>, behind: string, closes: bool)
    requires r.state.Valid()
  {
    !r.threw ==>
      && OnlyFor(r.calls, id) && name.Some? && NamesFor(r.calls, id) == [name.value]
      && (closes ==> Idle(r.state) && r.state.toolId == id + 1 && r.state.buffer == behind)
      && (!closes ==> r.state.toolId == id && r.state.nameSent && |r.state.prev| == id + 1)
  }

  lemma {:induction false} CallDone(env: Env, st: State, p: Part, closes: bool)
    requires Idle(st) && CallTexts(env, st.buffer, st.toolId, p, closes)
    ensures var r, seen := Run(env, st, [p.first] + p.texts), Read(env, st.toolId, false, st.buffer + p.first);
      var id := Next(st.toolId);
      && (!r.threw && ArgsFor(r.calls, id) + Flushed(r.state, id) == Last(All(Shown(seen), p.snaps))
          <==> Stable(All(Shown(seen), p.snaps)))
      && PartDone(r, id, seen.name, RestOf(env, st.buffer + p.first, id, p.texts), closes)
  {
    IdleIsReady(st);
    var id := Next(st.toolId);
    assert id == NextId(st) && OneCall(env, st, p.first, p.texts, p.snaps, closes);
    hide Read, Feeds, Stable, Step, RestOf, Flushed, ArgsFor, NamesFor, Last, All;
    FlushAddsUp(env, st, p.first, p.texts, p.snaps, closes);
    DeltasAddUp(env, st, p.first, p.texts, p.snaps, closes);
    NameSent(env, st, p.first);
    NameOwn(env, st, p.first);
    var e := Step(env, st, p.first);
    assert ([p.first] + p.texts)[1..] == p.texts;
    CallRun(env, e.state, p.texts, p.snaps, closes, Shown(Read(env, st.toolId, false, st.buffer + p.first)).None?);
    if !Run(env, st, [p.first] + p.texts).threw {
      CallEnds(env, st, p.first, p.texts, p.snaps, closes);
    }
    hide Run, StreamedFrom, Latest, Open;
  }

  lemma {:induction false} NameOwn(env: Env, st: State, first: string)
    requires Idle(st)
    requires var seen := Read(env, st.toolId, false, st.buffer + first); seen.Seen? && seen.name.Some?
    ensures OnlyFor(Step(env, st, first).result.calls, Next(st.toolId))
  {
    hide Read, Padded;
  }

  lemma {:induction false} SameDone(a: Outcome, b: Outcome, id: int, name: Option<string>, behind: string, closes: bool)
    requires a.state.Valid() && b.state == a.state && b.calls == a.calls && b.threw == a.threw
    requires PartDone(a, id, name, behind, closes)
    ensures PartDone(b, id, name, behind, closes)
  {
    hide OnlyFor, NamesFor, Idle;
  }

  lemma {:induction false} PartRun(env: Env, st: State, p: Part, closes: bool)
    requires Idle(st) && QuietTexts(env, st.buffer, st.toolId, p.quiet)
    requires CallTexts(env, Named(st.buffer, p), st.toolId, p, closes)
    ensures st.Valid()
    ensures var r := Run(env, st, p.quiet + ([p.first] + p.texts));
      var seen := Read(env, st.toolId, false, Named(st.buffer, p) + p.first);
      var id := Next(st.toolId);
      && (!r.threw && ArgsFor(r.calls, id) + Flushed(r.state, id) == Last(All(Shown(seen), p.snaps))
          <==> Stable(All(Shown(seen), p.snaps)))
      && PartDone(r, id, seen.name, Behind(env, st.buffer, st.toolId, p), closes)
  {
    assert st.Valid();
    hide Read, Run, Stable, PartDone, CallTexts, Flushed, ArgsFor, Idle, QuietTexts, RestOf, Flatten;
    QuietRun(env, st, p.quiet);
    var st1 := Run(env, st, p.quiet).state;
    assert st1.buffer == Named(st.buffer, p);
    CallDone(env, st1, p, closes);
    RunAppend(env, st, p.quiet, [p.first] + p.texts);
    var r, calls := Run(env, st, p.quiet + ([p.first] + p.texts)), Run(env, st1, [p.first] + p.texts).calls;
    assert [] + calls == calls;
    SameDone(Run(env, st1, [p.first] + p.texts), r, Next(st.toolId),
             Read(env, st.toolId, false, Named(st.buffer, p) + p.first).name,
             Behind(env, st.buffer, st.toolId, p), closes);
  }

  // ---------------------------------------------------------------------
  // Whole streams.

  /** The deltas of every call, with those of the flush, are its last snapshot. */
  predicate Sums(r: Outcome, base: int, all: seq<seq<string>>)
    requires r.state.Valid()
  {
    forall k | 0 <= k < |all| :: ArgsFor(r.calls, base + k) + Flushed(r.state, base + k) == Last(all[k])
  }

  predicate AllStable(all: seq<seq<string>>) { forall k | 0 <= k < |all| :: Stable(all[k]) }

  predicate Names(items: seq<Item>, base: int, names: seq<Option<string>>) {
    forall k | 0 <= k < |names| :: names[k].Some? && NamesFor(items, base + k) == [names[k].value]
  }

  predicate From(items: seq<Item>, base: int) { forall x | x in items :: x.index >= base }

  lemma {:induction false} NothingBefore(items: seq<Item>, base: int, i: int)
    requires From(items, base) && i < base
    ensures ArgsFor(items, i) == "" && NamesFor(items, i) == []
  {
    if items != [] {
      assert items[0] in items && forall x | x in items[1..] :: x in items;
      NothingBefore(items[1..], base, i);
    }
  }

  /** The first call and the others, put together. */
  lemma {:induction false} SumsCons(r0: Outcome, tail: Outcome, r: Outcome, base: int, first: seq<string>,
                                    rest: seq<seq<string>>)
    requires r0.state.Valid() && tail.state.Valid() && r.state == tail.state && r.calls == r0.calls + tail.calls
    requires OnlyFor(r0.calls, base) && From(tail.calls, base + 1) && Flushed(tail.state, base) == ""
    ensures Sums(r, base, [first] + rest) <==> ArgsFor(r0.calls, base) == Last(first) && Sums(tail, base + 1, rest)
  {
    hide ArgsFor, Flushed, Last, OnlyFor, From;
    var all := [first] + rest;
    NothingBefore(tail.calls, base + 1, base);
    ArgsAppend(r0.calls, tail.calls, base);
    assert ArgsFor(r0.calls, base) + "" + "" == ArgsFor(r0.calls, base);
    assert ArgsFor(r.calls, base + 0) + Flushed(r.state, base + 0) == ArgsFor(r0.calls, base);
    forall k | 0 <= k < |rest|
      ensures ArgsFor(r.calls, base + (k + 1)) == ArgsFor(tail.calls, base + 1 + k) && all[k + 1] == rest[k]
    {
      NothingElse(r0.calls, base, base + 1 + k);
      ArgsAppend(r0.calls, tail.calls, base + 1 + k);
      assert "" + ArgsFor(tail.calls, base + 1 + k) == ArgsFor(tail.calls, base + 1 + k);
      assert base + (k + 1) == base + 1 + k;
    }
    hide Sums;
    SumsSplit(r, tail, base, all, rest);
  }

  lemma {:induction false} SumsSplit(r: Outcome, tail: Outcome, base: int, all: seq<seq<string>>,
                                     rest: seq<seq<string>>)
    requires r.state.Valid() && tail.state == r.state && |all| == |rest| + 1
    requires forall k | 0 <= k < |rest| ::
      ArgsFor(r.calls, base + (k + 1)) == ArgsFor(tail.calls, base + 1 + k) && all[k + 1] == rest[k]
    ensures Sums(r, base, all) <==>
      ArgsFor(r.calls, base + 0) + Flushed(r.state, base + 0) == Last(all[0]) && Sums(tail, base + 1, rest)
  {
    hide ArgsFor, Flushed, Last;
    if Sums(r, base, all) {
      forall k | 0 <= k < |rest|
        ensures ArgsFor(tail.calls, base + 1 + k) + Flushed(tail.state, base + 1 + k) == Last(rest[k])
      {
        assert ArgsFor(r.calls, base + (k + 1)) + Flushed(r.state, base + (k + 1)) == Last(all[k + 1]);
        assert base + (k + 1) == base + 1 + k;
      }
    } else if ArgsFor(r.calls, base + 0) + Flushed(r.state, base + 0) == Last(all[0]) {
      var k :| 0 <= k < |all| && ArgsFor(r.calls, base + k) + Flushed(r.state, base + k) != Last(all[k]);
      assert k > 0 && base + k == base + 1 + (k - 1) == base + ((k - 1) + 1);
      assert ArgsFor(tail.calls, base + 1 + (k - 1)) + Flushed(tail.state, base + 1 + (k - 1)) != Last(rest[k - 1]);
    }
  }

  lemma {:induction false} NamesCons(a: seq<Item>, b: seq<Item>, base: int, first: Option<string>,
                                     rest: seq<Option<string>>)
    requires OnlyFor(a, base) && From(b, base + 1) && Names(b, base + 1, rest)
    requires first.Some? && NamesFor(a, base) == [first.value]
    ensures Names(a + b, base, [first] + rest) && From(a + b, base)
  {
    hide NamesFor;
    var all := [first] + rest;
    forall k | 0 <= k < |all| ensures all[k].Some? && NamesFor(a + b, base + k) == [all[k].value] {
      NamesAppend(a, b, base + k);
      if k == 0 {
        NothingBefore(b, base + 1, base);
        assert NamesFor(a, base) + [] == NamesFor(a, base);
      } else {
        NothingElse(a, base, base + k);
        assert rest[k - 1] == all[k] && NamesFor(b, base + 1 + (k - 1)) == [rest[k - 1].value];
        assert base + 1 + (k - 1) == base + k && [] + NamesFor(b, base + k) == NamesFor(b, base + k);
      }
    }
  }

  /** What else is known of a run that does not throw. */
  ghost predicate Ordered(r: Outcome, base: int, names: seq<Option<string>>)
    requires r.state.Valid()
  {
    && Names(r.calls, base, names) && From(r.calls, base) && forall i | i < base :: Flushed(r.state, i) == ""
  }

  lemma {:induction false} StableCons(first: seq<string>, rest: seq<seq<string>>)
    ensures AllStable([first] + rest) <==> Stable(first) && AllStable(rest)
  {
    hide Stable;
    var all := [first] + rest;
    assert all[0] == first && forall k | 0 <= k < |rest| :: all[k + 1] == rest[k];
  }

  lemma {:induction false} NothingSent(env: Env, st: State, base: int)
    requires Idle(st)
    ensures var r := Run(env, st, []); !r.threw && Sums(r, base, []) && Ordered(r, base, [])
  {
    forall i | i < base ensures Flushed(st, i) == "" {
      IdleFlush(st, i);
    }
  }

  /** The last call, complete or not. */
  lemma {:induction false} LastPart(r: Outcome, id: int, name: Option<string>, behind: string, closes: bool,
                                    all: seq<string>)
    requires r.state.Valid() && PartDone(r, id, name, behind, closes)
    requires !r.threw && ArgsFor(r.calls, id) + Flushed(r.state, id) == Last(all) <==> Stable(all)
    ensures !r.threw && Sums(r, id, [all]) <==> AllStable([all])
    ensures !r.threw ==> Ordered(r, id, [name])
  {
    hide Stable, ArgsFor, NamesFor, Last, Idle;
    SumsSplit(r, r, id, [all], []);
    StableCons(all, []);
    assert Sums(r, id + 1, []) && AllStable([]) && [all] + [] == [all] && id + 0 == id;
    if !r.threw {
      forall i | i < id ensures Flushed(r.state, i) == "" {
        if closes { IdleFlush(r.state, i); } else { OpenFlushIndex(r.state, id, i); }
      }
      assert NamesFor(r.calls, id + 0) == [name.value];
    }
  }

  lemma {:induction false} OpenFlushIndex(st: State, id: int, i: int)
    requires i < id && |st.prev| == id + 1
    ensures Flushed(st, i) == ""
  {
  }

  /** Main result. Any number of calls, one after the other, with anything in between that
  shows nothing to act on: no step throws and the deltas of every index, with those of
  the one flush, are its last printed arguments, if and only if the snapshots of every
  call agree; then every index was named once, in order. */
  lemma {:induction false} StreamAddsUp(env: Env, st: State, parts: seq<Part>, closes: bool)
    requires Idle(st) && Stream(env, st.buffer, st.toolId, parts, closes)
    ensures st.Valid()
    ensures var r, base := Run(env, st, Texts(parts)), Next(st.toolId);
      && (!r.threw && Sums(r, base, AllSnaps(env, st.buffer, st.toolId, parts))
          <==> AllStable(AllSnaps(env, st.buffer, st.toolId, parts)))
      && (!r.threw ==> Ordered(r, base, CallNames(env, st.buffer, st.toolId, parts)))
    decreases |parts|
  {
    assert st.Valid();
    hide Read, Idle, Sums, AllStable, Ordered, QuietTexts, CallTexts, PartDone, Run, Stable, ArgsFor, Flushed, Last,
         Behind, Named;
    var base := Next(st.toolId);
    if parts == [] {
      NothingSent(env, st, base);
      NoneStable();
    } else {
      var p, rest := parts[0], parts[1..];
      var now := closes || |parts| > 1;
      PartRun(env, st, p, now);
      var first := p.quiet + ([p.first] + p.texts);
      var seen := Read(env, st.toolId, false, Named(st.buffer, p) + p.first);
      var behind := Behind(env, st.buffer, st.toolId, p);
      SeenName(env, st.buffer, st.toolId, p, now);
      var r0 := Run(env, st, first);
      if rest == [] {
        assert first + [] == first;
        LastPart(r0, base, seen.name, behind, closes, All(Shown(seen), p.snaps));
        OnlyOne(env, st.buffer, st.toolId, parts);
      } else {
        Several(env, st, parts, closes, r0, behind);
      }
    }
  }

  lemma {:induction false} NoneStable()
    ensures AllStable([])
  {
  }

  lemma {:induction false} SeenName(env: Env, buffer: string, id: int, p: Part, closes: bool)
    requires CallTexts(env, Named(buffer, p), id, p, closes)
    ensures Read(env, id, false, Named(buffer, p) + p.first).Seen?
  {
    hide Read;
  }

  lemma {:induction false} OnlyOne(env: Env, buffer: string, id: int, parts: seq<Part>)
    requires |parts| == 1 && Read(env, id, false, Named(buffer, parts[0]) + parts[0].first).Seen?
    ensures var seen := Read(env, id, false, Named(buffer, parts[0]) + parts[0].first);
      && AllSnaps(env, buffer, id, parts) == [All(Shown(seen), parts[0].snaps)]
      && CallNames(env, buffer, id, parts) == [seen.name]
  {
    hide Read, Named, Behind;
    assert parts[1..] == [];
  }

  lemma {:induction false} FirstAndRest(env: Env, buffer: string, id: int, parts: seq<Part>, closes: bool)
    requires |parts| > 1 && Stream(env, buffer, id, parts, closes)
    requires Read(env, id, false, Named(buffer, parts[0]) + parts[0].first).Seen?
    ensures var p, rest, behind := parts[0], parts[1..], Behind(env, buffer, id, parts[0]);
      var seen := Read(env, id, false, Named(buffer, p) + p.first);
      && Stream(env, behind, Next(id) + 1, rest, closes)
      && Texts(parts) == p.quiet + ([p.first] + p.texts) + Texts(rest)
      && AllSnaps(env, buffer, id, parts) == [All(Shown(seen), p.snaps)] + AllSnaps(env, behind, Next(id) + 1, rest)
      && CallNames(env, buffer, id, parts) == [seen.name] + CallNames(env, behind, Next(id) + 1, rest)
  {
    hide Read, Named, Behind, QuietTexts, CallTexts;
  }

  lemma {:induction false} Several(env: Env, st: State, parts: seq<Part>, closes: bool, r0: Outcome, behind: string)
    requires Idle(st) && st.Valid() && Stream(env, st.buffer, st.toolId, parts, closes) && |parts| > 1
    requires var p := parts[0];
      r0 == Run(env, st, p.quiet + ([p.first] + p.texts)) && behind == Behind(env, st.buffer, st.toolId, p)
    requires var seen := Read(env, st.toolId, false, Named(st.buffer, parts[0]) + parts[0].first);
      && seen.Seen?
      && (!r0.threw && ArgsFor(r0.calls, Next(st.toolId)) + Flushed(r0.state, Next(st.toolId))
                       == Last(All(Shown(seen), parts[0].snaps))
          <==> Stable(All(Shown(seen), parts[0].snaps)))
      && PartDone(r0, Next(st.toolId), seen.name, behind, true)
    ensures var r, base := Run(env, st, Texts(parts)), Next(st.toolId);
      && (!r.threw && Sums(r, base, AllSnaps(env, st.buffer, st.toolId, parts))
          <==> AllStable(AllSnaps(env, st.buffer, st.toolId, parts)))
      && (!r.threw ==> Ordered(r, base, CallNames(env, st.buffer, st.toolId, parts)))
    decreases |parts|, 0
  {
    var p, rest, base := parts[0], parts[1..], Next(st.toolId);
    var seen := Read(env, st.toolId, false, Named(st.buffer, p) + p.first);
    var first, all := p.quiet + ([p.first] + p.texts), All(Shown(seen), p.snaps);
    hide Read, Idle, Sums, AllStable, Ordered, Run, Stable, ArgsFor, NamesFor, Flushed, Last, Behind, Named, Stream,
         AllSnaps, CallNames, Texts;
    FirstAndRest(env, st.buffer, st.toolId, parts, closes);
    RunAppend(env, st, first, Texts(rest));
    StableCons(all, AllSnaps(env, behind, base + 1, rest));
    if !r0.threw {
      StreamAddsUp(env, r0.state, rest, closes);
      IdleFlush(r0.state, base);
      assert ArgsFor(r0.calls, base) + "" == ArgsFor(r0.calls, base);
      Together(r0, Run(env, r0.state, Texts(rest)), Run(env, st, Texts(parts)), base, seen.name, all,
               AllSnaps(env, behind, base + 1, rest), CallNames(env, behind, base + 1, rest));
    }
  }

  lemma {:induction false} Together(r0: Outcome, tail: Outcome, r: Outcome, base: int, name: Option<string>,
                                    all: seq<string>, rest: seq<seq<string>>, names: seq<Option<string>>)
    requires r0.state.Valid() && tail.state.Valid() && r.state == tail.state && r.calls == r0.calls + tail.calls
    requires OnlyFor(r0.calls, base) && name.Some? && NamesFor(r0.calls, base) == [name.value]
    requires !tail.threw ==> Ordered(tail, base + 1, names)
    ensures !tail.threw ==>
      && (Sums(r, base, [all] + rest) <==> ArgsFor(r0.calls, base) == Last(all) && Sums(tail, base + 1, rest))
      && Ordered(r, base, [name] + names)
  {
    hide Sums, ArgsFor, NamesFor, Flushed, Last, OnlyFor, From, Names;
    if !tail.threw {
      SumsCons(r0, tail, r, base, all, rest);
      NamesCons(r0.calls, tail.calls, base, name, names);
    }
  }
}
