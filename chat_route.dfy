/**
 * The streaming chat route (`POST /api/groq-chat`): request validation and
 * defaults, the upstream completion request, the error-status mapping, and the
 * stream controller that turns upstream deltas into event-stream frames
 * `data: {json}\n\n` closed by `data: [DONE]\n\n`.
 */
module ChatRoute {
  import opened Wrappers
  import opened Text
  import opened Json

  /** A message as the client sends it and the route forwards it: passed through untouched. */
  datatype ChatMessage = ChatMessage(role: string, content: string)

  const SystemMessage: ChatMessage := ChatMessage("system", "You are a helpful assistant.")
  const DefaultModel: string := "openai/gpt-oss-20b"
  const DefaultTemperature: real := 0.5
  const MaxCompletionTokens: nat := 1024

  const KeyMissingError: string := "GROQ_API_KEY is not configured. Please set it in your environment variables."
  const MessagesRequiredError: string := "Messages array is required"
  const InvalidKeyError: string := "Invalid API key. Please check your GROQ_API_KEY environment variable."
  const DefaultError: string := "Failed to stream response"

  /** The `messages` field of the JSON body: falsy or absent, present but not an array, or an array. */
  datatype MessagesField = Absent | NotAnArray | Array(items: seq<ChatMessage>)

  /** The request body: `request.json()` either throws (with its message) or yields these fields. */
  datatype RequestBody =
    | Unreadable(reason: string)
    | Body(messages: MessagesField, model: Option<string>, temperature: Option<real>)

  /** What the route asks the completion service for. */
  datatype UpstreamRequest = UpstreamRequest(
    messages: seq<ChatMessage>, model: string, temperature: real,
    maxCompletionTokens: nat, topP: int, stream: bool)

  /** An error thrown by the SDK or by body parsing: an optional numeric status and a message. */
  datatype ApiError = ApiError(status: Option<int>, message: string)

  /** The SDK's `create` call: the stream opens, or it throws. */
  datatype Opening = Opened | Rejected(error: ApiError)

  datatype Response =
    | JsonError(status: int, error: string)
    | EventStream(upstream: UpstreamRequest)

  /** The catch block: 401 gets the fixed invalid-key text, otherwise the error's own message and status. */
  function ErrorResponse(e: ApiError): (r: Response)
    ensures r.JsonError? && r.error != ""
    ensures r.status == 401 <==> e.status == Some(401)
    ensures r.error == InvalidKeyError <==> (e.status == Some(401) || e.message == InvalidKeyError)
    ensures e.status != Some(401) && e.message != "" ==> r.error == e.message
    ensures e.status != Some(401) && e.message == "" ==> r == JsonError(500, DefaultError)
    ensures r.status != 500 ==> e.status == Some(r.status)
  {
    if e.status == Some(401) then JsonError(401, InvalidKeyError)
    else if e.message != "" then
      JsonError(if e.status.Some? && e.status.value != 0 then e.status.value else 500, e.message)
    else JsonError(500, DefaultError)
  }

  /** The upstream message list: the fixed system message, then the client's messages in order. */
  function UpstreamMessages(client: seq<ChatMessage>): (r: seq<ChatMessage>)
    ensures |r| == |client| + 1 && r[0] == SystemMessage && r[1..] == client
  {
    [SystemMessage] + client
  }

  /** The completion request built from a readable body with a messages array and the defaults. */
  function Upstream(body: RequestBody): (u: UpstreamRequest)
    requires body.Body? && body.messages.Array?
    ensures u.messages == UpstreamMessages(body.messages.items)
    ensures u.model == body.model.GetOr(DefaultModel) && u.temperature == body.temperature.GetOr(DefaultTemperature)
    ensures u.maxCompletionTokens == 1024 && u.topP == 1 && u.stream
  {
    UpstreamRequest(
      UpstreamMessages(body.messages.items), body.model.GetOr(DefaultModel),
      body.temperature.GetOr(DefaultTemperature), MaxCompletionTokens, 1, true)
  }

  /**
   * The route handler up to the point where the response is returned. The SDK
   * is the parameter `create`; a throw from `request.json()` or from `create`
   * is answered by the catch block.
   */
  function Post(keyConfigured: bool, body: RequestBody, create: UpstreamRequest -> Opening): (r: Response)
    ensures !keyConfigured ==> r == JsonError(500, KeyMissingError)
    ensures keyConfigured && body.Unreadable? ==> r == ErrorResponse(ApiError(None, body.reason))
    ensures keyConfigured && body.Body? && !body.messages.Array? ==> r == JsonError(400, MessagesRequiredError)
    ensures keyConfigured && body.Body? && body.messages.Array? ==>
              (create(Upstream(body)) == Opened ==> r == EventStream(Upstream(body)))
              && (create(Upstream(body)).Rejected? ==> r == ErrorResponse(create(Upstream(body)).error))
    ensures r.EventStream? <==>
              keyConfigured && body.Body? && body.messages.Array? && create(Upstream(body)) == Opened
  {
    if !keyConfigured then JsonError(500, KeyMissingError)
    else match body
      case Unreadable(reason) => ErrorResponse(ApiError(None, reason))
      case Body(messages, model, temperature) =>
        if !messages.Array? then JsonError(400, MessagesRequiredError)
        else
          match create(Upstream(body))
          case Opened => EventStream(Upstream(body))
          case Rejected(e) => ErrorResponse(e)
  }

  // ---------------------------------------------------------------- frames

  /**
   * One upstream chunk's `chunk.choices[0]?.delta?.content`: absent when the first
   * choice, its delta or its content is missing or null. A chunk without a
   * `choices` array is not modelled.
   */
  datatype Chunk = Chunk(deltaContent: Option<string>)

  /** `chunk.choices[0]?.delta?.content || ""`. */
  function ContentOf(c: Chunk): string {
    c.deltaContent.GetOr("")
  }

  const DataPrefix: string := "data: "
  const DoneSentinel: string := "[DONE]"
  const DoneFrame: string := DataPrefix + DoneSentinel + "\n\n"

  function Frame(content: string): string {
    DataPrefix + EncodeContent(content) + "\n\n"
  }

  /** A frame is one server-sent event: a single `data: ` line, then the blank line that ends the event. */
  lemma {:induction false} FrameShape(content: string)
    ensures var r := Frame(content);
            |r| >= |DataPrefix| + 2 && IsPrefix(DataPrefix, r) && r[|r| - 2..] == "\n\n" && '\n' !in r[..|r| - 2]
  {
    var r := Frame(content);
    assert r[..|r| - 2] == DataPrefix + EncodeContent(content);
  }

  /** The non-empty delta texts, in order: the ones that produce a frame. */
  function NonEmptyContents(chunks: seq<Chunk>): (r: seq<string>)
    ensures forall k :: 0 <= k < |r| ==> r[k] != ""
    ensures Concat(r) == Concat(seq(|chunks|, i requires 0 <= i < |chunks| => ContentOf(chunks[i])))
    ensures |r| <= |chunks|
    decreases |chunks|
  {
    if chunks == [] then []
    else
      var rest := NonEmptyContents(chunks[1..]);
      var all := seq(|chunks|, i requires 0 <= i < |chunks| => ContentOf(chunks[i]));
      assert all == [ContentOf(chunks[0])] + seq(|chunks| - 1, i requires 0 <= i < |chunks| - 1 => ContentOf(chunks[1..][i]));
      if ContentOf(chunks[0]) == "" then rest else [ContentOf(chunks[0])] + rest
  }

  function Frames(contents: seq<string>): seq<string> {
    seq(|contents|, i requires 0 <= i < |contents| => Frame(contents[i]))
  }

  /** The whole event-stream body of a completed response. */
  function StreamBody(chunks: seq<Chunk>): string {
    Concat(Frames(NonEmptyContents(chunks))) + DoneFrame
  }

  datatype ControllerState = Open | Closed | Errored

  /** The `ReadableStream` controller the route writes into. */
  class FrameController {
    var enqueued: seq<string>
    var state: ControllerState

    constructor ()
      ensures enqueued == [] && state == Open
    {
      enqueued := [];
      state := Open;
    }

    method Enqueue(frame: string)
      requires state == Open
      modifies this
      ensures enqueued == old(enqueued) + [frame] && state == Open
    {
      enqueued := enqueued + [frame];
    }

    /**
     * The `start` callback: one frame per non-empty delta, then the done frame
     * and close, or `controller.error` when the upstream iteration throws after
     * the chunks it delivered.
     */
    method Start(chunks: seq<Chunk>, upstreamFails: bool)
      requires state == Open && enqueued == []
      modifies this
      ensures enqueued == Frames(NonEmptyContents(chunks)) + (if upstreamFails then [] else [DoneFrame])
      ensures state == (if upstreamFails then Errored else Closed)
    {
      for i := 0 to |chunks|
        invariant state == Open
        invariant enqueued == Frames(NonEmptyContents(chunks[..i]))
      {
        var content := ContentOf(chunks[i]);
        StartStep(chunks, i);
        if content != "" {
          Enqueue(Frame(content));
        }
      }
      assert chunks[..|chunks|] == chunks;
      if upstreamFails {
        state := Errored;
      } else {
        Enqueue(DoneFrame);
        state := Closed;
      }
    }
  }

  /** One step of the `for await` loop: the frames of the first `i + 1` chunks. */
  lemma {:induction false} StartStep(chunks: seq<Chunk>, i: nat)
    requires i < |chunks|
    ensures Frames(NonEmptyContents(chunks[..i + 1]))
            == Frames(NonEmptyContents(chunks[..i]))
               + (if ContentOf(chunks[i]) == "" then [] else [Frame(ContentOf(chunks[i]))])
  {
    assert chunks[..i + 1] == chunks[..i] + [chunks[i]];
    NonEmptyContentsSnoc(chunks[..i], chunks[i]);
    FramesAppend(NonEmptyContents(chunks[..i]), if ContentOf(chunks[i]) == "" then [] else [ContentOf(chunks[i])]);
  }

  lemma {:induction false} FramesAppend(a: seq<string>, b: seq<string>)
    ensures Frames(a + b) == Frames(a) + Frames(b)
  {
  }

  lemma {:induction false} NonEmptyContentsSnoc(chunks: seq<Chunk>, c: Chunk)
    ensures NonEmptyContents(chunks + [c])
            == NonEmptyContents(chunks) + (if ContentOf(c) == "" then [] else [ContentOf(c)])
    decreases |chunks|
  {
    if chunks == [] {
      assert [c][1..] == [];
    } else {
      assert (chunks + [c])[1..] == chunks[1..] + [c];
      NonEmptyContentsSnoc(chunks[1..], c);
    }
  }

  /** Exactly one frame per non-empty delta, in order, and none for an empty one. */
  lemma {:induction false} FramesPerDelta(chunks: seq<Chunk>, c: Chunk)
    ensures |Frames(NonEmptyContents(chunks + [c]))|
            == |Frames(NonEmptyContents(chunks))| + (if ContentOf(c) == "" then 0 else 1)
    ensures ContentOf(c) != "" ==> Frames(NonEmptyContents(chunks + [c]))[|NonEmptyContents(chunks)|] == Frame(ContentOf(c))
    ensures Frames(NonEmptyContents(chunks + [c]))[..|NonEmptyContents(chunks)|] == Frames(NonEmptyContents(chunks))
  {
    NonEmptyContentsSnoc(chunks, c);
  }
}
