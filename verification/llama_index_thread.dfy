/**
 * `LlamaIndexThread`: a worker that asks the index wrapper for a response
 * and forwards it as `replyGenerated` / `streamFinished` emissions.  The
 * cross-thread stop flag is an input: `stops[i]` is the value of the flag
 * when the loop reads it for the `i`-th chunk.
 */
module LlamaIndexThread {
  import opened Base

  /** The fields of `ChatMessageContainer` the thread reads or writes. */
  datatype Info = Info(role: string, content: string, finishReason: string)

  /**
   * The thread object: `input_args["stream"]` (None when the key is absent),
   * the stop flag, and the message container it fills in.
   */
  datatype Thread = Thread(stream: Option<bool>, stopFlag: bool, info: Info)

  /** `wrapper.get_response(query)`: chunks that may end in an exception, a whole response, or an exception. */
  datatype Response =
    | Streaming(chunks: seq<string>, broken: Option<string>)
    | Plain(response: string)
    | Raised(msg: string)

  /** Emissions, each carrying the container's state at the moment of emitting. */
  datatype Event =
    | ReplyGenerated(text: string, streamed: bool, info: Info)
    | StreamFinished(info: Info)

  /** The emissions of one run and the container's final state. */
  datatype Outcome = Outcome(events: seq<Event>, info: Info)

  const StopReason: string := "stop"
  const UserStopReason: string := "stopped by user"
  const ErrorReason: string := "Error"
  /** `str(KeyError("stream"))`, the message when `input_args` has no "stream" key. */
  const MissingStreamKey: string := "'stream'"

  /** The content written on any exception: the message inside a red paragraph. */
  function ErrorHtml(msg: string): (h: string)
    ensures "<p style=\"color:red\">" + msg <= h
    ensures |h| == |msg| + 25
    ensures h[|h| - 4..] == "</p>"
  {
    "<p style=\"color:red\">" + msg + "</p>"
  }

  /** `__init__`: the container becomes the assistant's and the thread is not stopped. */
  function NewThread(stream: Option<bool>, info: Info): (t: Thread)
    ensures t.info.role == "assistant" && !t.stopFlag
    ensures t.stream == stream
    ensures t.info.content == info.content && t.info.finishReason == info.finishReason
  {
    Thread(stream, false, info.(role := "assistant"))
  }

  /** `stop()`: raises the flag and touches nothing else. */
  function Stop(t: Thread): (u: Thread)
    ensures u.stopFlag
    ensures u.stream == t.stream && u.info == t.info
  {
    t.(stopFlag := true)
  }

  /** The flag as the loop reads it before the `i`-th chunk. */
  predicate Observed(t: Thread, stops: seq<bool>, i: nat): (b: bool)
    ensures t.stopFlag ==> b
    ensures i >= |stops| ==> (b <==> t.stopFlag)
  {
    t.stopFlag || (i < |stops| && stops[i])
  }

  /** Where the streaming loop ended: chunks exhausted, stopped by the user, or the generator raised. */
  datatype LoopEnd = Exhausted | UserStopped | GeneratorRaised(msg: string)

  datatype LoopResult = LoopResult(events: seq<Event>, info: Info, end: LoopEnd)

  /** The `for chunk in resp.response_gen` loop, from the `i`-th chunk on. */
  function StreamLoop(t: Thread, chunks: seq<string>, broken: Option<string>, stops: seq<bool>, i: nat)
    : (r: LoopResult)
    requires i <= |chunks|
    ensures r.end.UserStopped? ==> r.info == t.info.(finishReason := UserStopReason)
    ensures !r.end.UserStopped? ==> r.info == t.info
    ensures r.end.GeneratorRaised? ==> broken == Some(r.end.msg)
    decreases |chunks| - i
  {
    if i == |chunks| then
      match broken
      case Some(m) => LoopResult([], t.info, GeneratorRaised(m))
      case None => LoopResult([], t.info, Exhausted)
    else if Observed(t, stops, i) then
      var info := t.info.(finishReason := UserStopReason);
      LoopResult([StreamFinished(info)], info, UserStopped)
    else
      var rest := StreamLoop(t, chunks, broken, stops, i + 1);
      LoopResult([ReplyGenerated(chunks[i], true, t.info)] + rest.events, rest.info, rest.end)
  }

  /** A `stop()` before the loop reaches its first chunk is seen there: nothing is streamed. */
  lemma StopBeforeLoop(t: Thread, chunks: seq<string>, broken: Option<string>, stops: seq<bool>)
    requires |chunks| > 0
    ensures var r := StreamLoop(Stop(t), chunks, broken, stops, 0);
            && r.end.UserStopped?
            && r.events == [StreamFinished(t.info.(finishReason := UserStopReason))]
  {
  }

  /** The `except Exception` clause: one plain emission of the error paragraph. */
  function Fail(events: seq<Event>, info: Info, msg: string): (o: Outcome)
    ensures o.info.finishReason == ErrorReason && o.info.content == ErrorHtml(msg)
    ensures o.info.role == info.role
    ensures o.events == events + [ReplyGenerated(o.info.content, false, o.info)]
  {
    var info' := info.(finishReason := ErrorReason, content := ErrorHtml(msg));
    Outcome(events + [ReplyGenerated(info'.content, false, info')], info')
  }

  /** The code after the `if f:` block: finish with "stop" and one terminal emission. */
  function Finish(t: Thread, events: seq<Event>, info: Info): (o: Outcome)
    ensures events <= o.events && |o.events| == |events| + 1
    ensures t.stream.Some? ==> o.info == info.(finishReason := StopReason)
    ensures o.events[|events|].StreamFinished? <==> t.stream == Some(true)
    ensures t.stream == Some(true) ==> o.events[|events|] == StreamFinished(o.info)
    ensures t.stream == Some(false) ==> o.events[|events|] == ReplyGenerated(info.content, false, o.info)
    ensures t.stream.None? ==> o.info.finishReason == ErrorReason && o.info.content == ErrorHtml(MissingStreamKey)
    ensures t.stream.None? ==> o.events[|events|] == ReplyGenerated(ErrorHtml(MissingStreamKey), false, o.info)
                               && o.info.role == info.role
  {
    var info' := info.(finishReason := StopReason);
    match t.stream
    case None => Fail(events, info', MissingStreamKey)
    case Some(true) => Outcome(events + [StreamFinished(info')], info')
    case Some(false) => Outcome(events + [ReplyGenerated(info'.content, false, info')], info')
  }

  /** `run()`. */
  function Run(t: Thread, resp: Response, stops: seq<bool>): (o: Outcome)
    ensures |o.events| > 0
    ensures o.info.role == t.info.role
    ensures o.info.finishReason == StopReason || o.info.finishReason == ErrorReason
    ensures resp.Raised? ==> && o.info.finishReason == ErrorReason
                             && o.info.content == ErrorHtml(resp.msg)
                             && o.events == [ReplyGenerated(ErrorHtml(resp.msg), false, o.info)]
  {
    match resp
    case Raised(msg) => Fail([], t.info, msg)
    case Plain(text) => Finish(t, [], t.info.(content := text))
    case Streaming(chunks, broken) =>
      var l := StreamLoop(t, chunks, broken, stops, 0);
      match l.end
      case GeneratorRaised(msg) => Fail(l.events, l.info, msg)
      case _ => Finish(t, l.events, l.info)
  }

  // ------------------------------------------------------------ properties

  /** The texts of the streamed emissions. */
  function StreamedTexts(events: seq<Event>): seq<string> {
    if |events| == 0 then []
    else
      (if events[0].ReplyGenerated? && events[0].streamed then [events[0].text] else [])
      + StreamedTexts(events[1..])
  }

  lemma {:induction false} StreamedTextsAppend(a: seq<Event>, b: seq<Event>)
    ensures StreamedTexts(a + b) == StreamedTexts(a) + StreamedTexts(b)
  {
    if |a| == 0 {
      assert a + b == b;
    } else {
      assert (a + b)[1..] == a[1..] + b;
      StreamedTextsAppend(a[1..], b);
    }
  }

  /** The index of the first chunk at which the flag is seen raised, or the chunk count. */
  function FirstStop(t: Thread, stops: seq<bool>, i: nat, n: nat): (k: nat)
    requires i <= n
    ensures i <= k <= n
    ensures forall j :: i <= j < k ==> !Observed(t, stops, j)
    ensures k < n ==> Observed(t, stops, k)
    decreases n - i
  {
    if i == n || Observed(t, stops, i) then i else FirstStop(t, stops, i + 1, n)
  }

  /** The streamed emissions of the chunks `cs`, each carrying `info`. */
  function Streamed(cs: seq<string>, info: Info): (r: seq<Event>)
    ensures |r| == |cs|
    ensures forall j :: 0 <= j < |r| ==> r[j] == ReplyGenerated(cs[j], true, info)
  {
    if |cs| == 0 then [] else [ReplyGenerated(cs[0], true, info)] + Streamed(cs[1..], info)
  }

  lemma {:induction false} StreamedTextsOfStreamed(cs: seq<string>, info: Info)
    ensures StreamedTexts(Streamed(cs, info)) == cs
  {
    if |cs| > 0 {
      StreamedTextsOfStreamed(cs[1..], info);
      assert Streamed(cs, info)[1..] == Streamed(cs[1..], info);
    }
  }

  lemma {:induction false} StreamedHasNoTerminal(cs: seq<string>, info: Info)
    ensures TerminalCount(Streamed(cs, info)) == 0
  {
    if |cs| > 0 {
      StreamedHasNoTerminal(cs[1..], info);
      assert Streamed(cs, info)[1..] == Streamed(cs[1..], info);
    }
  }

  /**
   * The loop emits the chunks before the first observed stop, in order and
   * unchanged; then the stop emission if it stopped.
   */
  lemma {:induction false} LoopCharacterized(t: Thread, chunks: seq<string>, broken: Option<string>,
                                             stops: seq<bool>, i: nat)
    requires i <= |chunks|
    ensures var l := StreamLoop(t, chunks, broken, stops, i);
            var k := FirstStop(t, stops, i, |chunks|);
            && l.events == Streamed(chunks[i..k], t.info)
                           + (if k < |chunks| then [StreamFinished(t.info.(finishReason := UserStopReason))] else [])
            && l.end == (if k < |chunks| then UserStopped
                         else if broken.Some? then GeneratorRaised(broken.value) else Exhausted)
    decreases |chunks| - i
  {
    if i < |chunks| && !Observed(t, stops, i) {
      LoopCharacterized(t, chunks, broken, stops, i + 1);
      var k := FirstStop(t, stops, i, |chunks|);
      assert k == FirstStop(t, stops, i + 1, |chunks|);
      assert Streamed(chunks[i..k], t.info) == [ReplyGenerated(chunks[i], true, t.info)] + Streamed(chunks[i + 1..k], t.info);
    }
  }

  /** Every streamed emission is a chunk of the response, and together they form a prefix of its chunks. */
  lemma StreamedAreChunkPrefix(t: Thread, chunks: seq<string>, broken: Option<string>, stops: seq<bool>)
    ensures StreamedTexts(Run(t, Streaming(chunks, broken), stops).events) <= chunks
  {
    var l := StreamLoop(t, chunks, broken, stops, 0);
    var k := FirstStop(t, stops, 0, |chunks|);
    LoopCharacterized(t, chunks, broken, stops, 0);
    var o := Run(t, Streaming(chunks, broken), stops);
    var tail := o.events[|l.events|..];
    assert o.events == l.events + tail;
    assert StreamedTexts(tail) == [] by {
      assert |tail| == 1 && !(tail[0].ReplyGenerated? && tail[0].streamed);
      assert tail[1..] == [];
    }
    var stopTail := if k < |chunks| then [StreamFinished(t.info.(finishReason := UserStopReason))] else [];
    assert StreamedTexts(stopTail) == [] by {
      if k < |chunks| { assert stopTail[1..] == []; }
    }
    StreamedTextsAppend(l.events, tail);
    StreamedTextsAppend(Streamed(chunks[0..k], t.info), stopTail);
    StreamedTextsOfStreamed(chunks[0..k], t.info);
  }

  /** The index of the first observed stop is `k` when the flag is first seen at `k`. */
  lemma {:induction false} FirstStopAt(t: Thread, stops: seq<bool>, i: nat, n: nat, k: nat)
    requires i <= k < n
    requires Observed(t, stops, k) && forall j :: i <= j < k ==> !Observed(t, stops, j)
    ensures FirstStop(t, stops, i, n) == k
    decreases n - i
  {
    if i < k {
      FirstStopAt(t, stops, i + 1, n, k);
    }
  }

  /** With the flag never seen, the loop runs over every chunk. */
  lemma {:induction false} FirstStopNone(t: Thread, stops: seq<bool>, i: nat, n: nat)
    requires i <= n
    requires forall j :: i <= j < n ==> !Observed(t, stops, j)
    ensures FirstStop(t, stops, i, n) == n
    decreases n - i
  {
    if i < n {
      FirstStopNone(t, stops, i + 1, n);
    }
  }

  /**
   * A user stop observed at chunk `k`: the first `k` chunks are streamed, then
   * `streamFinished` with "stopped by user", then the ordinary ending, which
   * with the stream argument set is a second `streamFinished` and leaves "stop".
   */
  lemma UserStopTrace(t: Thread, chunks: seq<string>, broken: Option<string>, stops: seq<bool>, k: nat)
    requires k < |chunks|
    requires Observed(t, stops, k) && forall j :: 0 <= j < k ==> !Observed(t, stops, j)
    requires t.stream == Some(true)
    ensures var o := Run(t, Streaming(chunks, broken), stops);
            && o.events == Streamed(chunks[..k], t.info)
                           + [StreamFinished(t.info.(finishReason := UserStopReason)),
                              StreamFinished(t.info.(finishReason := StopReason))]
            && o.info.finishReason == StopReason
  {
    FirstStopAt(t, stops, 0, |chunks|, k);
    LoopCharacterized(t, chunks, broken, stops, 0);
    assert chunks[0..k] == chunks[..k];
  }

  /** Emissions that end a reply: `streamFinished`, or a non-streamed `replyGenerated`. */
  function TerminalCount(events: seq<Event>): nat {
    if |events| == 0 then 0
    else (if events[0].StreamFinished? || !events[0].streamed then 1 else 0) + TerminalCount(events[1..])
  }

  lemma {:induction false} TerminalCountAppend(a: seq<Event>, b: seq<Event>)
    ensures TerminalCount(a + b) == TerminalCount(a) + TerminalCount(b)
  {
    if |a| == 0 {
      assert a + b == b;
    } else {
      assert (a + b)[1..] == a[1..] + b;
      TerminalCountAppend(a[1..], b);
    }
  }

  /**
   * Without a stop and without an exception a run ends in exactly one
   * terminal emission: `streamFinished` when the stream argument is set,
   * a non-streamed `replyGenerated` otherwise; the reason is "stop".
   */
  lemma NormalRunOneTerminal(t: Thread, resp: Response, stops: seq<bool>)
    requires t.stream.Some?
    requires !resp.Raised?
    requires resp.Streaming? ==> resp.broken.None? && forall j :: 0 <= j < |resp.chunks| ==> !Observed(t, stops, j)
    ensures var o := Run(t, resp, stops);
            && TerminalCount(o.events) == 1
            && o.info.finishReason == StopReason
            && (t.stream.value ==> o.events[|o.events| - 1].StreamFinished?)
            && (!t.stream.value ==> o.events[|o.events| - 1].ReplyGenerated? && !o.events[|o.events| - 1].streamed)
  {
    var o := Run(t, resp, stops);
    var last := o.events[|o.events| - 1];
    var before := o.events[..|o.events| - 1];
    assert o.events == before + [last];
    TerminalCountAppend(before, [last]);
    assert [last][1..] == [];
    if resp.Streaming? {
      FirstStopNone(t, stops, 0, |resp.chunks|);
      LoopCharacterized(t, resp.chunks, resp.broken, stops, 0);
      StreamedHasNoTerminal(resp.chunks[0..|resp.chunks|], t.info);
      assert before == Streamed(resp.chunks[0..|resp.chunks|], t.info);
    }
  }

  /** A whole (non-streamed) response becomes the content, and with the stream argument off is emitted once. */
  lemma PlainResponseTrace(t: Thread, text: string, stops: seq<bool>)
    requires t.stream == Some(false)
    ensures var o := Run(t, Plain(text), stops);
            && o.info.content == text && o.info.finishReason == StopReason
            && o.events == [ReplyGenerated(text, false, o.info)]
  {
  }

  /**
   * A generator that raises after streaming all its chunks ends the run with
   * one non-streamed emission of the red error paragraph and reason "Error".
   */
  lemma ExceptionTrace(t: Thread, chunks: seq<string>, msg: string, stops: seq<bool>)
    requires forall j :: 0 <= j < |chunks| ==> !Observed(t, stops, j)
    ensures var o := Run(t, Streaming(chunks, Some(msg)), stops);
            && o.info.finishReason == ErrorReason
            && o.info.content == ErrorHtml(msg)
            && o.events == Streamed(chunks, t.info) + [ReplyGenerated(ErrorHtml(msg), false, o.info)]
  {
    FirstStopNone(t, stops, 0, |chunks|);
    LoopCharacterized(t, chunks, Some(msg), stops, 0);
    var l := StreamLoop(t, chunks, Some(msg), stops, 0);
    assert chunks[0..|chunks|] == chunks;
    assert l.events == Streamed(chunks, t.info);
    assert l.end == GeneratorRaised(msg);
    assert Run(t, Streaming(chunks, Some(msg)), stops) == Fail(l.events, l.info, msg);
  }

  /** A missing "stream" key in the arguments turns every normal ending into the error ending. */
  lemma MissingStreamKeyIsError(t: Thread, text: string, stops: seq<bool>)
    requires t.stream.None?
    ensures var o := Run(t, Plain(text), stops);
            && o.info.finishReason == ErrorReason
            && o.events == [ReplyGenerated(ErrorHtml(MissingStreamKey), false, o.info)]
  {
  }

  /** After a complete stream, the missing "stream" key still ends the run with the one error reply. */
  lemma MissingStreamKeyAfterStream(t: Thread, chunks: seq<string>, stops: seq<bool>)
    requires t.stream.None?
    requires forall j :: 0 <= j < |chunks| ==> !Observed(t, stops, j)
    ensures var o := Run(t, Streaming(chunks, None), stops);
            && o.info.finishReason == ErrorReason
            && o.info.role == t.info.role
            && o.events == Streamed(chunks, t.info) + [ReplyGenerated(ErrorHtml(MissingStreamKey), false, o.info)]
  {
    FirstStopNone(t, stops, 0, |chunks|);
    LoopCharacterized(t, chunks, None, stops, 0);
    var l := StreamLoop(t, chunks, None, stops, 0);
    assert chunks[0..|chunks|] == chunks;
    assert l.events == Streamed(chunks, t.info);
    assert Run(t, Streaming(chunks, None), stops) == Finish(t, l.events, l.info);
  }
}
