/** The life of one server-sent-event response: events, an error or the closing
frame are written to a progressive attachment, and the request's callback `done`,
which hands the HTTP controller back, is run once. */
module StreamCall {
  import opened Text

  datatype Frame<T> = Chunk(event: T) | Failure(message: string) | Done {
    predicate Terminal() { !Chunk? }
  }

  /** A 32-bit status word, as the set of its bits that are 1: or is union, and 0 is
  the empty set. */
  type Word = set<nat>

  /** A frame handed to the attachment, and what its Write returned: 0 is success. */
  datatype Sent<T> = Sent(frame: Frame<T>, result: Word)

  /** A message that may fail to serialise. */
  datatype Message<T> = Serialized(event: T) | Unserializable(reason: string)

  datatype Op<T> = Write(message: Message<T>, result: Word) | Finish(result: Word) | Fail(reason: string, result: Word)

  // ---------------------------------------------------------------------
  // What each operation does, on values.

  datatype Call<T> = Call(
    stream: bool,               // the request asked for a stream
    started: bool,              // the attachment is open
    finished: bool,
    complete: bool,             // the response counts as whole
    status: Word,               // results of all writes, or-ed together
    sent: seq<Sent<T>>,
    rejection: Option<string>,  // a plain HTTP error response
    runs: nat)                  // how often `done` was run
  {
    predicate Connected() { status == {} }

    function Start(): Call<T> {
      if started then this else this.(started := true, runs := runs + 1)
    }

    function Publish(frame: Frame<T>, result: Word): Call<T> {
      this.(sent := sent + [Sent(frame, result)], status := status + result)
    }

    function WriteEvent(message: Message<T>, result: Word): Call<T> {
      if finished then this
      else if message.Unserializable? then FinishWithError(message.reason, result)
      else Start().Publish(Chunk(message.event), result)
    }

    function FinishWithError(reason: string, result: Word): Call<T> {
      if stream && finished then this
      else
        var failed := this.(complete := false, finished := stream);
        if !stream || !started then failed.(rejection := Some(reason))
        else failed.Publish(Failure(reason), result)
    }

    function FinishStream(result: Word): Call<T> {
      if finished then this
      else
        var closed := Start().Publish(Done, result);
        closed.(finished := true, complete := closed.Connected())
    }

    /** The destructor runs `done` when no stream was opened. */
    function Destroy(): Call<T> {
      if started then this else this.(runs := runs + 1)
    }

    /** The request counts as served; `failed` is what a controller that still
    belongs to the call says. */
    predicate Served(failed: bool) {
      complete && if started then Connected() else !failed
    }

    function Apply(op: Op<T>): Call<T> {
      match op
      case Write(message, result) => WriteEvent(message, result)
      case Finish(result) => FinishStream(result)
      case Fail(reason, result) => FinishWithError(reason, result)
    }
  }

  function NewCall<T>(stream: bool): Call<T> {
    Call(stream, false, false, false, {}, [], None, 0)
  }

  function Run<T>(c: Call<T>, ops: seq<Op<T>>): Call<T>
    decreases |ops|
  {
    if ops == [] then c else Run(c.Apply(ops[0]), ops[1..])
  }

  /** The frames a client receives: those before the first failed write. */
  function Delivered<T>(sent: seq<Sent<T>>): seq<Frame<T>> {
    if sent == [] || sent[0].result != {} then [] else [sent[0].frame] + Delivered(sent[1..])
  }

  // ---------------------------------------------------------------------
  // The class.

  class StreamCall<T> {
    const stream: bool
    var streamStarted: bool
    var streamFinished: bool
    var responseComplete: bool
    var connectionStatus: Word
    var attachment: seq<Sent<T>>
    var httpError: Option<string>
    var doneRuns: nat

    ghost function State(): Call<T>
      reads this
    {
      Call(stream, streamStarted, streamFinished, responseComplete, connectionStatus, attachment, httpError, doneRuns)
    }

    constructor (isStream: bool)
      ensures State() == NewCall(isStream) && stream == isStream
    {
      stream := isStream;
      streamStarted, streamFinished, responseComplete := false, false, false;
      connectionStatus, attachment, httpError, doneRuns := {}, [], None, 0;
    }

    method StartStream()
      modifies this
      ensures State() == old(State()).Start()
    {
      if streamStarted {
        return;
      }
      streamStarted := true;
      doneRuns := doneRuns + 1;
    }

    method Publish(frame: Frame<T>, result: Word) returns (connected: bool)
      modifies this
      ensures State() == old(State()).Publish(frame, result)
      ensures connected == State().Connected()
    {
      attachment := attachment + [Sent(frame, result)];
      connectionStatus := connectionStatus + result;
      return connectionStatus == {};
    }

    method FinishWithError(reason: string, result: Word) returns (ok: bool)
      modifies this
      ensures State() == old(State()).FinishWithError(reason, result)
      ensures ok == (!(stream && old(streamFinished)) && State().Connected())
    {
      if stream && streamFinished {
        return false;
      }
      responseComplete := false;
      if !stream || !streamStarted {
        httpError := Some(reason);
      } else {
        var _ := Publish(Failure(reason), result);
      }
      streamFinished := stream;
      return connectionStatus == {};
    }

    method Write(message: Message<T>, result: Word) returns (ok: bool)
      modifies this
      ensures State() == old(State()).WriteEvent(message, result)
      ensures ok == (!old(streamFinished) && message.Serialized? && State().Connected())
    {
      if streamFinished {
        return false;
      }
      match message {
        case Unserializable(reason) =>
          var _ := FinishWithError(reason, result);
          return false;
        case Serialized(event) =>
          StartStream();
          ok := Publish(Chunk(event), result);
      }
    }

    method Finish(result: Word) returns (ok: bool)
      modifies this
      ensures State() == old(State()).FinishStream(result)
      ensures ok == State().Connected()
    {
      if streamFinished {
        return connectionStatus == {};
      }
      StartStream();
      streamFinished := true;
      ok := Publish(Done, result);
      responseComplete := ok;
    }

    method Destroy(controllerFailed: bool) returns (served: bool)
      modifies this
      ensures State() == old(State()).Destroy()
      ensures served == old(State()).Served(controllerFailed)
    {
      served := responseComplete && if streamStarted then connectionStatus == {} else !controllerFailed;
      if !streamStarted {
        doneRuns := doneRuns + 1;
      }
    }
  }

  // ---------------------------------------------------------------------
  // What every run keeps.

  /** A terminal frame stands only at the end. */
  predicate TerminalIsLast<T>(sent: seq<Sent<T>>) {
    forall i | 0 <= i < |sent| - 1 :: sent[i].frame.Chunk?
  }

  predicate Closed<T>(sent: seq<Sent<T>>) { sent != [] && sent[|sent| - 1].frame.Terminal() }

  predicate AllWritten<T>(sent: seq<Sent<T>>) { forall i | 0 <= i < |sent| :: sent[i].result == {} }

  predicate Keeps<T>(c: Call<T>) {
    && TerminalIsLast(c.sent)
    && (c.finished <==> Closed(c.sent) || c.rejection.Some?)
    && (c.rejection.Some? ==> !c.started)
    && (c.sent != [] <==> c.started)
    && (c.complete <==> Closed(c.sent) && c.sent[|c.sent| - 1].frame.Done? && c.Connected())
    && (c.Connected() <==> AllWritten(c.sent))
    && c.runs == (if c.started then 1 else 0)
  }

  lemma {:induction false} StepKeeps<T>(c: Call<T>, op: Op<T>)
    requires c.stream && Keeps(c)
    ensures c.Apply(op).stream && Keeps(c.Apply(op))
    ensures c.sent <= c.Apply(op).sent
    ensures !c.Connected() ==> !c.Apply(op).Connected()
  {
    var next := c.Apply(op);
    if next.sent != c.sent {
      var n := |c.sent|;
      assert next.sent[..n] == c.sent && next.sent[n].result == op.result;
      assert forall i | 0 <= i < n :: next.sent[i] == c.sent[i];
      if n > 0 {
        assert c.sent[n - 1].frame.Chunk?;
      }
    }
  }

  lemma {:induction false} RunKeeps<T>(c: Call<T>, ops: seq<Op<T>>)
    requires c.stream && Keeps(c)
    ensures var r := Run(c, ops); r.stream && Keeps(r) && c.sent <= r.sent && (!c.Connected() ==> !r.Connected())
    decreases |ops|
  {
    hide Keeps;
    if ops != [] {
      StepKeeps(c, ops[0]);
      RunKeeps(c.Apply(ops[0]), ops[1..]);
    }
  }

  /** Main result, first half. For every sequence of writes, finishes and errors on
  a streaming call, at most one terminal frame is published and nothing follows it;
  the response counts as complete exactly when that frame is the closing one and
  every write so far succeeded; an HTTP error response is given only when `done`
  has not run and no frame is ever sent. */
  lemma {:induction false} OneTerminalFrame<T>(ops: seq<Op<T>>)
    ensures var r := Run(NewCall<T>(true), ops);
      && (forall i | 0 <= i < |r.sent| && r.sent[i].frame.Terminal() :: i == |r.sent| - 1)
      && (r.complete <==> r.sent != [] && r.sent[|r.sent| - 1].frame.Done? && AllWritten(r.sent))
      && (r.rejection.Some? ==> r.sent == [] && r.runs == 0)
  {
    RunKeeps(NewCall<T>(true), ops);
  }

  /** Second half. After any run and any continuation of it: what was published
  stays, a disconnection stays, a terminal frame or a rejection stops all output,
  and once the call is destroyed `done` has run exactly once. */
  lemma {:induction false} EndsForGood<T>(ops: seq<Op<T>>, more: seq<Op<T>>)
    ensures var r := Run(NewCall<T>(true), ops); var later := Run(r, more);
      && r.sent <= later.sent
      && (!r.Connected() ==> !later.Connected())
      && (Closed(r.sent) || r.rejection.Some? ==> later == r)
      && later.Destroy().runs == 1
  {
    var r := Run(NewCall<T>(true), ops);
    RunKeeps(NewCall<T>(true), ops);
    RunKeeps(r, more);
    if r.finished {
      FinishedStays(r, more);
    }
  }

  lemma {:induction false} FinishedStays<T>(c: Call<T>, ops: seq<Op<T>>)
    requires c.stream && c.finished
    ensures Run(c, ops) == c
    decreases |ops|
  {
    if ops != [] {
      FinishedStays(c, ops[1..]);
    }
  }

  /** A request is counted as served if and only if the client received every
  published frame, the last being the closing one. */
  lemma {:induction false} ServedMeansReceived<T>(ops: seq<Op<T>>, controllerFailed: bool)
    ensures var r := Run(NewCall<T>(true), ops); var got := Delivered(r.sent);
      r.Served(controllerFailed) <==> got != [] && got[|got| - 1].Done? && |got| == |r.sent|
  {
    var r := Run(NewCall<T>(true), ops);
    RunKeeps(NewCall<T>(true), ops);
    DeliveredIsPrefix(r.sent);
  }

  lemma {:induction false} DeliveredIsPrefix<T>(sent: seq<Sent<T>>)
    ensures var got := Delivered(sent);
      && |got| <= |sent| && (forall i | 0 <= i < |got| :: got[i] == sent[i].frame && sent[i].result == {})
      && (|got| < |sent| ==> sent[|got|].result != {})
      && (AllWritten(sent) <==> |got| == |sent|)
  {
    if sent != [] && sent[0].result == {} {
      DeliveredIsPrefix(sent[1..]);
      assert sent == [sent[0]] + sent[1..];
    }
  }

  /** All frames whose own write succeeded, also after a failed one. */
  function Accepted<T>(sent: seq<Sent<T>>): seq<Frame<T>> {
    if sent == [] then [] else (if sent[0].result == {} then [sent[0].frame] else []) + Accepted(sent[1..])
  }

  /** A failed write is never followed by a successful one. */
  predicate FailsForGood<T>(sent: seq<Sent<T>>) {
    forall i, j | 0 <= i < j < |sent| && sent[i].result != {} :: sent[j].result != {}
  }

  lemma {:induction false} NoneAccepted<T>(sent: seq<Sent<T>>)
    ensures Accepted(sent) == [] <==> forall i | 0 <= i < |sent| :: sent[i].result != {}
  {
    if sent != [] {
      NoneAccepted(sent[1..]);
      assert sent == [sent[0]] + sent[1..];
    }
  }

  /** The two views of the client are the same exactly if failures last. */
  lemma {:induction false} AcceptedIsDelivered<T>(sent: seq<Sent<T>>)
    ensures Accepted(sent) == Delivered(sent) <==> FailsForGood(sent)
  {
    if sent != [] {
      var rest := sent[1..];
      assert sent == [sent[0]] + rest;
      assert FailsForGood(sent) <==>
        FailsForGood(rest) && (sent[0].result != {} ==> forall i | 0 <= i < |rest| :: rest[i].result != {}) by {
        FailsCons(sent[0], rest);
      }
      NoneAccepted(rest);
      AcceptedIsDelivered(rest);
      if sent[0].result == {} {
        assert ([sent[0].frame] + Accepted(rest))[1..] == Accepted(rest);
        assert ([sent[0].frame] + Delivered(rest))[1..] == Delivered(rest);
      }
    }
  }

  lemma {:induction false} FailsCons<T>(first: Sent<T>, rest: seq<Sent<T>>)
    ensures FailsForGood([first] + rest) <==>
      FailsForGood(rest) && (first.result != {} ==> forall i | 0 <= i < |rest| :: rest[i].result != {})
  {
    var all := [first] + rest;
    if FailsForGood(all) {
      forall i, j | 0 <= i < j < |rest| && rest[i].result != {} ensures rest[j].result != {} {
        assert all[i + 1] == rest[i] && all[j + 1] == rest[j];
      }
      if first.result != {} {
        forall i | 0 <= i < |rest| ensures rest[i].result != {} {
          assert all[0] == first && all[i + 1] == rest[i];
        }
      }
    }
  }

  /** One more frame reaches the client only while every write has succeeded. */
  lemma {:induction false} DeliveredNext<T>(sent: seq<Sent<T>>, next: Sent<T>)
    ensures Delivered(sent + [next])
         == if AllWritten(sent) && next.result == {} then Delivered(sent) + [next.frame] else Delivered(sent)
  {
    if sent == [] {
      assert sent + [next] == [next] && Delivered(sent) == [];
      assert [next][1..] == [];
    } else if sent[0].result == {} {
      assert (sent + [next])[1..] == sent[1..] + [next];
      DeliveredNext(sent[1..], next);
      assert AllWritten(sent) <==> AllWritten(sent[1..]) by {
        assert sent == [sent[0]] + sent[1..];
      }
      assert [sent[0].frame] + (Delivered(sent[1..]) + [next.frame])
          == [sent[0].frame] + Delivered(sent[1..]) + [next.frame];
    }
  }

  /** The promise is one for streaming calls: on a call that did not ask for a
  stream, a write, a finish, an error and a write publish a frame after the
  closing one, and answer on a controller that `done` has released. */
  lemma {:induction false} NonStreamingDiffers<T>(event: T)
    ensures var w := Write(Serialized(event), {});
      var r := Run(NewCall(false), [w, Finish({}), Fail("", {}), w]);
      |r.sent| == 3 && r.sent[1].frame.Done? && r.rejection.Some? && r.runs == 1
  {
    var w := Write(Serialized(event), {});
    var c := NewCall<T>(false);
    var ops := [w, Finish({}), Fail("", {}), w];
    var a := c.Apply(ops[0]);
    var b := a.Apply(ops[1]);
    var d := b.Apply(ops[2]);
    assert ops[1..][0] == Finish({}) && ops[1..][1..][0] == Fail("", {}) && ops[1..][1..][1..] == [w];
    assert Run(d, [w]) == Run(d.Apply(w), []);
    assert Run(b, ops[1..][1..]) == Run(d, [w]);
    assert Run(c, ops) == Run(a, ops[1..]) == Run(b, ops[1..][1..]);
  }
}
