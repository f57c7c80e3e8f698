/** The rerank fan-in: the outputs of N sub-requests arrive in any order on any
threads, the last one to arrive scores the documents and answers. */
module Rerank {
  import opened Text

  /** A scored document; scores are exact and totally ordered. */
  datatype Scored = Scored(index: int, document: string, score: real)

  datatype Usage = Usage(prompt: int, generated: int, total: int)

  datatype Response = Failed | Answer(results: seq<Scored>, usage: Option<Usage>)

  // ---------------------------------------------------------------------
  // finalize.

  predicate Descending(s: seq<Scored>) { forall i, j | 0 <= i < j < |s| :: s[i].score >= s[j].score }

  function Insert(x: Scored, s: seq<Scored>): (r: seq<Scored>)
    requires Descending(s)
    ensures Descending(r) && multiset(r) == multiset(s) + multiset{x}
  {
    if s == [] then [x]
    else if x.score > s[0].score then
      var r := [x] + s;
      assert r[1..] == s;
      r
    else
      assert s == [s[0]] + s[1..];
      var rest := Insert(x, s[1..]);
      FirstIsGreatest(s[0], x, s[1..], rest);
      [s[0]] + rest
  }

  lemma {:induction false} FirstIsGreatest(first: Scored, x: Scored, s: seq<Scored>, rest: seq<Scored>)
    requires Descending([first] + s) && first.score >= x.score
    requires multiset(rest) == multiset(s) + multiset{x} && Descending(rest)
    ensures Descending([first] + rest)
  {
    forall k | 0 <= k < |rest| ensures first.score >= rest[k].score {
      assert rest[k] in multiset(rest);
      if rest[k] != x {
        assert rest[k] in multiset(s) + multiset{x};
        assert rest[k] in s;
        var i :| 0 <= i < |s| && s[i] == rest[k];
        assert ([first] + s)[0] == first && ([first] + s)[i + 1] == rest[k];
      }
    }
  }

  /** Sorting by descending score; the order of equal scores is left open by the
  library, and nothing below depends on it. */
  function Sorted(s: seq<Scored>): (r: seq<Scored>)
    ensures Descending(r) && multiset(r) == multiset(s)
  {
    if s == [] then []
    else
      assert s == [s[0]] + s[1..];
      Insert(s[0], Sorted(s[1..]))
  }

  function Sum(us: seq<Option<Usage>>): Usage {
    if us == [] then Usage(0, 0, 0)
    else
      var rest := Sum(us[..|us| - 1]);
      match us[|us| - 1]
      case None => rest
      case Some(u) => Usage(rest.prompt + u.prompt, rest.generated + u.generated, rest.total + u.total)
  }

  /** The others score no higher. */
  ghost predicate NoneBetter(scored: seq<Scored>, results: seq<Scored>, rest: seq<Scored>) {
    multiset(results) + multiset(rest) == multiset(scored)
    && forall a, b | a in results && b in rest :: a.score >= b.score
  }

  function Kept(n: int, size: nat): nat { if n < 0 then 0 else if n < size then n else size }

  /** The best documents, at most n of them: in descending order, and none left out
  scores higher. */
  ghost predicate Best(scored: seq<Scored>, results: seq<Scored>, n: int) {
    && Descending(results)
    && |results| == Kept(n, |scored|)
    && exists rest: seq<Scored> :: NoneBetter(scored, results, rest)
  }

  lemma {:induction false} PrefixIsBest(scored: seq<Scored>, sorted: seq<Scored>, n: int)
    requires Descending(sorted) && multiset(sorted) == multiset(scored)
    ensures |sorted| == |scored| && Best(scored, sorted[..Kept(n, |scored|)], n)
  {
    assert |sorted| == |multiset(sorted)| == |scored|;
    var k := Kept(n, |scored|);
    RestIsNotBetter(scored, sorted, k);
    PrefixDescends(sorted, k);
    hide Descending, NoneBetter;
  }

  lemma {:induction false} PrefixDescends(sorted: seq<Scored>, k: nat)
    requires Descending(sorted) && k <= |sorted|
    ensures Descending(sorted[..k])
  {
  }

  lemma {:induction false} RestIsNotBetter(scored: seq<Scored>, sorted: seq<Scored>, k: nat)
    requires Descending(sorted) && multiset(sorted) == multiset(scored) && k <= |sorted|
    ensures NoneBetter(scored, sorted[..k], sorted[k..])
  {
    var results, rest := sorted[..k], sorted[k..];
    assert sorted == results + rest;
    forall a, b | a in results && b in rest ensures a.score >= b.score {
      var i :| 0 <= i < |results| && results[i] == a;
      var j :| 0 <= j < |rest| && rest[j] == b;
      assert sorted[i] == a && sorted[k + j] == b;
    }
  }

  /** The answer fails exactly when nothing was scored; the usage is left out unless
  tokens were counted. */
  ghost predicate Answers(scored: seq<Scored>, usages: seq<Option<Usage>>, topN: int, r: Response) {
    && (r.Failed? <==> scored == [])
    && (r.Answer? ==>
          Best(scored, r.results, topN) && r.usage == if Sum(usages).total > 0 then Some(Sum(usages)) else None)
  }

  method Finalize(scored: seq<Scored>, usages: seq<Option<Usage>>, topN: int) returns (r: Response)
    ensures Answers(scored, usages, topN, r)
  {
    hide Best, Sorted, Descending;
    if scored == [] {
      return Failed;
    }
    var sorted := Sorted(scored);
    var results: seq<Scored> := [];
    var i := 0;
    while i < topN && i < |sorted|
      invariant 0 <= i <= |sorted| && (i <= topN || i == 0)
      invariant results == sorted[..i]
    {
      results := results + [sorted[i]];
      i := i + 1;
    }
    PrefixIsBest(scored, sorted, topN);
    assert i == Kept(topN, |scored|);
    var prompt, generated, total := 0, 0, 0;
    i := 0;
    while i < |usages|
      invariant 0 <= i <= |usages|
      invariant Usage(prompt, generated, total) == Sum(usages[..i])
    {
      assert usages[..i + 1][..i] == usages[..i];
      match usages[i] {
        case Some(u) => prompt, generated, total := prompt + u.prompt, generated + u.generated, total + u.total;
        case None =>
      }
      i := i + 1;
    }
    assert usages[..|usages|] == usages;
    return Answer(results, if total > 0 then Some(Usage(prompt, generated, total)) else None);
  }

  // ---------------------------------------------------------------------
  // on_complete, interleaved.

  /** Where the completion with a given index is: it stores its output, decrements the
  counter, and finalizes if it took it from 1. */
  datatype Stage = Arriving | Storing | Last | Returned

  datatype Fan<T> = Fan(outputs: seq<Option<T>>, pending: int, stages: seq<Stage>, finalized: seq<seq<Option<T>>>)

  function Start<T>(n: nat): Fan<T> {
    Fan(seq(n, _ => None), n, seq(n, _ => Arriving), [])
  }

  /** The next step of completion `i`; one that has returned does nothing. */
  function Advance<T>(f: Fan<T>, given: seq<T>, i: nat): Fan<T>
    requires |f.outputs| == |f.stages| == |given| && i < |given|
  {
    match f.stages[i]
    case Arriving => f.(outputs := f.outputs[i := Some(given[i])], stages := f.stages[i := Storing])
    case Storing => f.(pending := f.pending - 1, stages := f.stages[i := if f.pending == 1 then Last else Returned])
    case Last => f.(finalized := f.finalized + [f.outputs], stages := f.stages[i := Returned])
    case Returned => f
  }

  /** A schedule names whose step is next. */
  function Run<T>(f: Fan<T>, given: seq<T>, schedule: seq<nat>): (r: Fan<T>)
    requires |f.outputs| == |f.stages| == |given| && forall i | i in schedule :: i < |given|
    ensures |r.outputs| == |r.stages| == |given|
    decreases |schedule|
  {
    if schedule == [] then f
    else
      assert schedule[0] in schedule && forall i | i in schedule[1..] :: i in schedule;
      Run(Advance(f, given, schedule[0]), given, schedule[1..])
  }

  /** How many completions have not decremented the counter. */
  function Waiting(stages: seq<Stage>): nat {
    if stages == [] then 0
    else Waiting(stages[..|stages| - 1])
         + if stages[|stages| - 1].Arriving? || stages[|stages| - 1].Storing? then 1 else 0
  }

  predicate Waits(s: Stage) { s.Arriving? || s.Storing? }

  lemma {:induction false} WaitingUpdate(stages: seq<Stage>, i: nat, s: Stage)
    requires i < |stages|
    ensures Waiting(stages[i := s]) == Waiting(stages) - (if Waits(stages[i]) then 1 else 0) + if Waits(s) then 1 else 0
    decreases |stages|
  {
    var n := |stages| - 1;
    var next := stages[i := s];
    if i == n {
      assert next[..n] == stages[..n];
    } else {
      assert next[..n] == stages[..n][i := s];
      WaitingUpdate(stages[..n], i, s);
    }
  }

  lemma {:induction false} NoneWaiting(stages: seq<Stage>)
    ensures Waiting(stages) == 0 <==> forall i | 0 <= i < |stages| :: !Waits(stages[i])
    decreases |stages|
  {
    if stages != [] {
      NoneWaiting(stages[..|stages| - 1]);
      assert forall i | 0 <= i < |stages| - 1 :: stages[..|stages| - 1][i] == stages[i];
    }
  }

  /** All outputs, stored. */
  function Stored<T>(given: seq<T>): seq<Option<T>> { seq(|given|, i requires 0 <= i < |given| => Some(given[i])) }

  ghost predicate Inv<T>(f: Fan<T>, given: seq<T>) {
    && |f.outputs| == |f.stages| == |given|
    && f.pending == Waiting(f.stages)
    && (forall i | 0 <= i < |given| && !f.stages[i].Arriving? :: f.outputs[i] == Some(given[i]))
    && (forall i, j | 0 <= i < |given| && 0 <= j < |given| && f.stages[i].Last? && f.stages[j].Last? :: i == j)
    && (forall i | 0 <= i < |given| && f.stages[i].Last? :: f.pending == 0 && f.finalized == [])
    && (f.finalized != [] ==> f.pending == 0 && f.finalized == [Stored(given)])
    && (given != [] && f.pending == 0 && f.finalized == [] ==> exists i :: 0 <= i < |given| && f.stages[i].Last?)
  }

  lemma {:induction false} AdvanceKeeps<T>(f: Fan<T>, given: seq<T>, i: nat)
    requires Inv(f, given) && i < |given|
    ensures Inv(Advance(f, given, i), given)
  {
    var next := Advance(f, given, i);
    match f.stages[i] {
      case Arriving =>
        NoneWaiting(f.stages);
        assert Waits(f.stages[i]);
        WaitingUpdate(f.stages, i, Storing);
      case Storing =>
        NoneWaiting(f.stages);
        assert Waits(f.stages[i]);
        WaitingUpdate(f.stages, i, if f.pending == 1 then Last else Returned);
        if f.pending == 1 {
          assert next.stages[i].Last?;
        }
      case Last =>
        WaitingUpdate(f.stages, i, Returned);
        NoneWaiting(f.stages);
        forall k | 0 <= k < |given| ensures f.outputs[k] == Some(given[k]) {
          assert !Waits(f.stages[k]);
        }
        assert f.outputs == Stored(given);
      case Returned =>
    }
  }

  lemma {:induction false} RunKeeps<T>(f: Fan<T>, given: seq<T>, schedule: seq<nat>)
    requires Inv(f, given) && forall i | i in schedule :: i < |given|
    ensures Inv(Run(f, given, schedule), given)
    decreases |schedule|
  {
    hide Inv;
    if schedule != [] {
      assert schedule[0] in schedule && forall i | i in schedule[1..] :: i in schedule;
      AdvanceKeeps(f, given, schedule[0]);
      Sizes(f, given, schedule[0]);
      RunKeeps(Advance(f, given, schedule[0]), given, schedule[1..]);
    }
  }

  lemma {:induction false} Sizes<T>(f: Fan<T>, given: seq<T>, i: nat)
    requires Inv(f, given) && i < |given|
    ensures |f.outputs| == |f.stages| == |given|
  {
  }

  lemma {:induction false} AllWaiting(n: nat)
    ensures Waiting(seq(n, _ => Arriving)) == n
  {
    if n > 0 {
      AllWaiting(n - 1);
      var s := seq(n, _ => Arriving);
      assert s[..n - 1] == seq(n - 1, _ => Arriving);
    }
  }

  /** Main result: in every interleaving of N completions, `finalize` runs at most
  once, sees every output stored, and has run exactly once when all have returned, if
  there are any. */
  lemma {:induction false} FinalizedOnce<T>(given: seq<T>, schedule: seq<nat>)
    requires forall i | i in schedule :: i < |given|
    ensures var f := Run(Start<T>(|given|), given, schedule);
      && |f.finalized| <= 1
      && (forall seen | seen in f.finalized :: seen == Stored(given))
      && (given != [] && (forall i | 0 <= i < |given| :: f.stages[i].Returned?) ==> |f.finalized| == 1)
  {
    AllWaiting(|given|);
    RunKeeps(Start<T>(|given|), given, schedule);
    var f := Run(Start<T>(|given|), given, schedule);
    NoneWaiting(f.stages);
  }

  // ---------------------------------------------------------------------
  // The context.

  /** How many results are asked for: all documents, or fewer. */
  function TopN(documents: nat, requested: Option<int>): int {
    if requested.Some? && requested.value < documents then requested.value else documents
  }

  /** How the outputs are scored, and the usage each reports. */
  datatype Scoring<!T> = Scoring(compute: seq<Option<T>> -> seq<Scored>, usage: T -> Option<Usage>)

  function Usages<T>(sc: Scoring<T>, outputs: seq<Option<T>>): seq<Option<Usage>> {
    seq(|outputs|, i requires 0 <= i < |outputs| => match outputs[i] case None => None case Some(o) => sc.usage(o))
  }

  class RerankContext<T> {
    const scoring: Scoring<T>
    const topN: int
    var reqOutputs: seq<Option<T>>
    var pendingCount: nat
    var responses: seq<Response>

    /** A sub-request for every document, and one for the query. */
    constructor (s: Scoring<T>, documents: nat, requested: Option<int>)
      ensures scoring == s && topN == TopN(documents, requested) <= documents
      ensures reqOutputs == Start<T>(documents + 1).outputs && pendingCount == documents + 1 && responses == []
    {
      scoring := s;
      topN := TopN(documents, requested);
      reqOutputs := seq(documents + 1, _ => None);
      pendingCount := documents + 1;
      responses := [];
    }

    /** One completion from start to end: it answers exactly if it is the last. */
    method OnComplete(index: nat, output: T)
      requires index < |reqOutputs| && pendingCount > 0
      modifies this
      ensures reqOutputs == old(reqOutputs)[index := Some(output)] && pendingCount == old(pendingCount) - 1
      ensures pendingCount > 0 ==> responses == old(responses)
      ensures pendingCount == 0 ==> exists r ::
        responses == old(responses) + [r] && Answers(scoring.compute(reqOutputs), Usages(scoring, reqOutputs), topN, r)
    {
      hide Answers, Usages;
      reqOutputs := reqOutputs[index := Some(output)];
      pendingCount := pendingCount - 1;
      if pendingCount == 0 {
        var r := Finalize(scoring.compute(reqOutputs), Usages(scoring, reqOutputs), topN);
        responses := responses + [r];
      }
    }
  }
}
