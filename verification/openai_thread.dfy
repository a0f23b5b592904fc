/**
 * `OpenAIThread.run`: one request to the provider, turned into the
 * sequence of `replyGenerated` emissions the chat browser receives.  Each
 * provider call is an input: what `ChatCompletion.create`,
 * `Completion.create` and `Image.create` would return or raise.
 */
module OpenAIThread {
  import opened Base

  /** One `replyGenerated(str, bool, bool, bool)` emission: text, from-user, streamed, image. */
  datatype Reply = Reply(text: string, isUser: bool, isStream: bool, isImage: bool)

  /**
   * An emission.  `ThreeArgEmit` is the `/v1/completions` branch, which passes
   * only three arguments to the four-argument signal; what the toolkit does
   * with it is not modelled.
   */
  datatype Event = Emit(reply: Reply) | ThreeArgEmit(text: string)

  /** What `getModelEndpoint(model)` returned for the selected model. */
  datatype Endpoint = ChatCompletions | Completions | OtherEndpoint

  /** Exceptions raised by the provider library. */
  datatype ApiError =
    | InvalidRequestError(msg: string)
    | RateLimitError(msg: string)
    | OtherError(kind: string, msg: string)

  /** One streamed chunk: `choices[0].delta.content` and `choices[0].finish_reason`, each possibly missing. */
  datatype Chunk = Chunk(content: Option<string>, finishReason: Option<string>)

  /** `ChatCompletion.create`: a whole reply, a stream (that may raise after its chunks), or an exception. */
  datatype ChatOutcome =
    | ChatReply(content: string)
    | ChatStream(chunks: seq<Chunk>, broken: Option<ApiError>)
    | ChatRaised(err: ApiError)

  datatype CompletionOutcome = CompletionReply(text: string) | CompletionRaised(err: ApiError)

  datatype ImageOutcome = ImageReply(url: string) | ImageRaised(err: ApiError)

  /** The emissions of one run, and the exception that escaped `run`, if any. */
  datatype RunResult = RunResult(events: seq<Event>, escaped: Option<ApiError>)

  const SafetyMessage: string :=
    "<p style=\"color:red\">Your request was rejected as a result of our safety system.<br/>"
    + "Your prompt may contain text that is not allowed by our safety system.</p>"
  const RateLimitPrefix: string := "<p style=\"color:red\">"
  const RateLimitSuffix: string :=
    "<br/>Check the usage: https://platform.openai.com/account/usage<br/>"
    + "Update to paid account: https://platform.openai.com/account/billing/overview"

  /** The two `except` clauses of `run`; every other exception is not caught. */
  function Handle(err: ApiError): (r: Option<Reply>)
    ensures r.Some? <==> !err.OtherError?
    ensures r.Some? ==> !r.value.isUser && !r.value.isStream && !r.value.isImage
    ensures err.InvalidRequestError? ==> r.value.text == SafetyMessage
    ensures err.RateLimitError? ==> r.value.text == RateLimitPrefix + err.msg + RateLimitSuffix
  {
    match err
    case InvalidRequestError(_) => Some(Reply(SafetyMessage, false, false, false))
    case RateLimitError(m) => Some(Reply(RateLimitPrefix + m + RateLimitSuffix, false, false, false))
    case OtherError(_, _) => None
  }

  /** The trace after `events` were emitted and then `err` was raised inside the `try`. */
  function Raise(events: seq<Event>, err: ApiError): (r: RunResult)
    ensures events <= r.events
    ensures |r.events| <= |events| + 1
    ensures r.escaped.Some? <==> err.OtherError?
    ensures !err.OtherError? ==> r.events == events + [Emit(Handle(err).value)]
    ensures err.OtherError? ==> r.events == events
  {
    match Handle(err)
    case Some(reply) => RunResult(events + [Emit(reply)], None)
    case None => RunResult(events, Some(err))
  }

  /** Python truthiness of `delta.get('content', '')`. */
  predicate HasText(c: Chunk) {
    c.content.Some? && |c.content.value| > 0
  }

  /** The streaming loop: one streamed reply per chunk with text, in chunk order. */
  function StreamReplies(chunks: seq<Chunk>): (r: seq<Reply>)
    ensures |r| <= |chunks|
    ensures forall i :: 0 <= i < |r| ==> r[i].isStream && !r[i].isUser && !r[i].isImage && |r[i].text| > 0
  {
    if |chunks| == 0 then []
    else
      (if HasText(chunks[0]) then [Reply(chunks[0].content.value, false, true, false)] else [])
      + StreamReplies(chunks[1..])
  }

  function Emits(replies: seq<Reply>): (r: seq<Event>)
    ensures |r| == |replies|
    ensures forall i :: 0 <= i < |r| ==> r[i] == Emit(replies[i])
  {
    if |replies| == 0 then [] else [Emit(replies[0])] + Emits(replies[1..])
  }

  /** Characters for which Python's `str.isspace()` holds. */
  predicate IsSpace(c: char) {
    || '\t' <= c <= '\r'
    || '\U{1c}' <= c <= '\U{1f}'
    || c == ' ' || c == '\U{85}' || c == '\U{a0}' || c == '\U{1680}'
    || '\U{2000}' <= c <= '\U{200a}'
    || c == '\U{2028}' || c == '\U{2029}' || c == '\U{202f}' || c == '\U{205f}' || c == '\U{3000}'
  }

  /** The index of the first non-whitespace character at or after `i`, or `|s|`. */
  function SkipSpaces(s: string, i: nat): (k: nat)
    requires i <= |s|
    ensures i <= k <= |s|
    ensures forall m :: i <= m < k ==> IsSpace(s[m])
    ensures k < |s| ==> !IsSpace(s[k])
    decreases |s| - i
  {
    if i < |s| && IsSpace(s[i]) then SkipSpaces(s, i + 1) else i
  }

  /** The end of `s[lo..j]` once trailing whitespace is dropped. */
  function BackSpaces(s: string, lo: nat, j: nat): (k: nat)
    requires lo <= j <= |s|
    ensures lo <= k <= j
    ensures forall m :: k <= m < j ==> IsSpace(s[m])
    ensures k > lo ==> !IsSpace(s[k - 1])
    decreases j - lo
  {
    if j > lo && IsSpace(s[j - 1]) then BackSpaces(s, lo, j - 1) else j
  }

  /** `str.strip()`: the slice of `s` left after dropping leading and trailing whitespace. */
  function Strip(s: string): (r: string)
    ensures exists i, j :: 0 <= i <= j <= |s| && r == s[i..j]
                           && (forall k :: 0 <= k < i ==> IsSpace(s[k]))
                           && (forall k :: j <= k < |s| ==> IsSpace(s[k]))
    ensures |r| > 0 ==> !IsSpace(r[0]) && !IsSpace(r[|r| - 1])
  {
    var i := SkipSpaces(s, 0);
    var j := BackSpaces(s, i, |s|);
    s[i..j]
  }

  /**
   * `OpenAIThread.run` for combo-box index `idx` and endpoint `endpoint`;
   * only the outcome of the call actually made is consulted.
   */
  function Run(idx: int, endpoint: Endpoint, chat: ChatOutcome, completion: CompletionOutcome,
               image: ImageOutcome): (r: RunResult)
    ensures (idx != 0 && idx != 1) || (idx == 0 && endpoint.OtherEndpoint?) ==> r == RunResult([], None)
    ensures r.escaped.Some? ==> r.escaped.value.OtherError?
    ensures forall i :: 0 <= i < |r.events| && r.events[i].Emit? ==> !r.events[i].reply.isUser
  {
    if idx == 0 then
      match endpoint
      case ChatCompletions =>
        (match chat
         case ChatReply(content) => RunResult([Emit(Reply(content, false, false, false))], None)
         case ChatStream(chunks, broken) =>
           var events := Emits(StreamReplies(chunks));
           if broken.Some? then Raise(events, broken.value) else RunResult(events, None)
         case ChatRaised(err) => Raise([], err))
      case Completions =>
        (match completion
         case CompletionReply(text) => RunResult([ThreeArgEmit(Strip(text))], None)
         case CompletionRaised(err) => Raise([], err))
      case OtherEndpoint => RunResult([], None)
    else if idx == 1 then
      match image
      case ImageReply(url) => RunResult([Emit(Reply(url, false, false, true))], None)
      case ImageRaised(err) => Raise([], err)
    else
      RunResult([], None)
  }

  // ------------------------------------------------------------ properties

  /** Streaming distributes over concatenation of chunk lists: emissions keep chunk order. */
  lemma {:induction false} StreamRepliesAppend(a: seq<Chunk>, b: seq<Chunk>)
    ensures StreamReplies(a + b) == StreamReplies(a) + StreamReplies(b)
  {
    if |a| == 0 {
      assert a + b == b;
    } else {
      assert (a + b)[1..] == a[1..] + b;
      StreamRepliesAppend(a[1..], b);
    }
  }

  /** A single chunk emits exactly one streamed reply when it has text, and nothing otherwise. */
  lemma StreamRepliesSingle(c: Chunk)
    ensures HasText(c) ==> StreamReplies([c]) == [Reply(c.content.value, false, true, false)]
    ensures !HasText(c) ==> StreamReplies([c]) == []
  {
    assert [c][1..] == [];
  }

  /** The number of streamed replies is the number of chunks with text. */
  function TextChunks(chunks: seq<Chunk>): nat {
    if |chunks| == 0 then 0 else (if HasText(chunks[0]) then 1 else 0) + TextChunks(chunks[1..])
  }

  lemma {:induction false} StreamRepliesCount(chunks: seq<Chunk>)
    ensures |StreamReplies(chunks)| == TextChunks(chunks)
  {
    if |chunks| > 0 {
      StreamRepliesCount(chunks[1..]);
    }
  }

  /**
   * A complete chat stream emits the texts of the chunks with text, in chunk
   * order, each flagged as streamed, and nothing terminal.
   */
  lemma ChatStreamTrace(chunks: seq<Chunk>, completion: CompletionOutcome, image: ImageOutcome)
    ensures var r := Run(0, ChatCompletions, ChatStream(chunks, None), completion, image);
            && r.escaped.None?
            && r.events == Emits(StreamReplies(chunks))
            && |r.events| == TextChunks(chunks)
            && (forall i :: 0 <= i < |r.events| ==> r.events[i].Emit? && r.events[i].reply.isStream)
  {
    StreamRepliesCount(chunks);
  }

  /** A whole chat reply is one non-streamed emission of its content. */
  lemma ChatReplyTrace(content: string, completion: CompletionOutcome, image: ImageOutcome)
    ensures Run(0, ChatCompletions, ChatReply(content), completion, image).events
            == [Emit(Reply(content, false, false, false))]
  {
  }

  /** A completion is one three-argument emission of the stripped text. */
  lemma CompletionTrace(text: string, chat: ChatOutcome, image: ImageOutcome)
    ensures Run(0, Completions, chat, CompletionReply(text), image) == RunResult([ThreeArgEmit(Strip(text))], None)
  {
  }

  /** An image request is one emission of the URL flagged as an image, whatever the endpoint. */
  lemma ImageTrace(endpoint: Endpoint, url: string, chat: ChatOutcome, completion: CompletionOutcome)
    ensures Run(1, endpoint, chat, completion, ImageReply(url)) == RunResult([Emit(Reply(url, false, false, true))], None)
  {
  }

  /**
   * The four places an exception can arise: the chat call, the completion
   * call, the image call, and a chat stream that raises after its chunks.
   * A caught exception adds the one reply `Handle` gives it after whatever
   * was already streamed; any other escapes and adds nothing.
   */
  lemma ErrorTrace(endpoint: Endpoint, err: ApiError, chunks: seq<Chunk>, chat: ChatOutcome,
                   completion: CompletionOutcome, image: ImageOutcome)
    ensures var streamed := Emits(StreamReplies(chunks));
            var tails := [Run(0, ChatCompletions, ChatRaised(err), completion, image),
                          Run(0, Completions, chat, CompletionRaised(err), image),
                          Run(1, endpoint, chat, completion, ImageRaised(err))];
            && (forall r :: r in tails ==>
                  if err.OtherError? then r == RunResult([], Some(err))
                  else r == RunResult([Emit(Handle(err).value)], None))
            && var b := Run(0, ChatCompletions, ChatStream(chunks, Some(err)), completion, image);
               if err.OtherError? then b == RunResult(streamed, Some(err))
               else b == RunResult(streamed + [Emit(Handle(err).value)], None)
  {
  }

  /** Number of emissions that are not streamed chunks. */
  function PlainCount(events: seq<Event>): nat {
    if |events| == 0 then 0
    else (if events[0].Emit? && events[0].reply.isStream then 0 else 1) + PlainCount(events[1..])
  }

  lemma {:induction false} PlainCountAppend(a: seq<Event>, b: seq<Event>)
    ensures PlainCount(a + b) == PlainCount(a) + PlainCount(b)
  {
    if |a| == 0 {
      assert a + b == b;
    } else {
      assert (a + b)[1..] == a[1..] + b;
      PlainCountAppend(a[1..], b);
    }
  }

  lemma {:induction false} StreamedArePlainFree(replies: seq<Reply>)
    requires forall i :: 0 <= i < |replies| ==> replies[i].isStream
    ensures PlainCount(Emits(replies)) == 0
  {
    if |replies| > 0 {
      StreamedArePlainFree(replies[1..]);
      assert Emits(replies)[1..] == Emits(replies[1..]);
    }
  }

  /** Every run emits at most one emission that is not a streamed chunk, and it comes last. */
  lemma RunAtMostOnePlain(idx: int, endpoint: Endpoint, chat: ChatOutcome, completion: CompletionOutcome,
                          image: ImageOutcome)
    ensures var r := Run(idx, endpoint, chat, completion, image);
            && PlainCount(r.events) <= 1
            && (forall i :: 0 <= i < |r.events| - 1 ==> r.events[i].Emit? && r.events[i].reply.isStream)
  {
    if idx == 0 && endpoint.ChatCompletions? && chat.ChatStream? {
      var events := Emits(StreamReplies(chat.chunks));
      StreamedArePlainFree(StreamReplies(chat.chunks));
      if chat.broken.Some? {
        match Handle(chat.broken.value)
        case Some(reply) =>
          PlainCountAppend(events, [Emit(reply)]);
        case None =>
      }
    }
  }
}
