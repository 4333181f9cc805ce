/**
 * The streaming chat page: the submit guard, the request body it posts, and the
 * reader loop that buffers the event stream, splits it into lines, and appends
 * the content of every `data:` payload until `data: [DONE]` or the end of the
 * stream.
 *
 * `JSON.parse(data)` followed by the truthiness test on `parsed.content` is the
 * parameter `decode`: Some(text) when the payload parses and has truthy string
 * content, None when parsing throws or the content is falsy.
 */
module ChatClient {
  import opened Wrappers
  import opened Text
  import opened ChatRoute

  const DoneLine: string := DataPrefix + DoneSentinel

  /** How the reader treats one complete line. */
  datatype LineKind = Other | Done | Payload(data: string)

  function Classify(line: string): (r: LineKind)
    ensures r.Done? <==> line == DoneLine
    ensures r.Other? <==> !IsPrefix(DataPrefix, line)
    ensures r.Payload? ==> line == DataPrefix + r.data && r.data != DoneSentinel
  {
    if !IsPrefix(DataPrefix, line) then Other
    else
      var data := line[|DataPrefix|..];
      assert line == DataPrefix + data;
      if data == DoneSentinel then Done else Payload(data)
  }

  /** The text after reading one payload: grown by the decoded content, or unchanged. */
  function AppendPayload(decode: string -> Option<string>, acc: string, data: string): string {
    match decode(data)
    case Some(t) => acc + t
    case None => acc
  }

  /** The text only grows, and a payload without content leaves it as it is. */
  lemma {:induction false} AppendPayloadGrows(decode: string -> Option<string>, acc: string, data: string)
    ensures IsPrefix(acc, AppendPayload(decode, acc, data))
    ensures decode(data).None? ==> AppendPayload(decode, acc, data) == acc
  {
  }

  /** The outcome of reading some lines: more may follow the text so far, or stopped by `[DONE]`. */
  datatype Scan = More(text: string) | Stopped(text: string)

  function ScanLines(decode: string -> Option<string>, acc: string, lines: seq<string>): Scan
    decreases |lines|
  {
    if lines == [] then More(acc)
    else match Classify(lines[0])
      case Done => Stopped(acc)
      case Other => ScanLines(decode, acc, lines[1..])
      case Payload(data) => ScanLines(decode, AppendPayload(decode, acc, data), lines[1..])
  }

  /** The text only grows, and reading stops only at a `[DONE]` line. */
  lemma {:induction false} ScanLinesGrows(decode: string -> Option<string>, acc: string, lines: seq<string>)
    ensures var r := ScanLines(decode, acc, lines);
            IsPrefix(acc, r.text) && (r.Stopped? ==> DoneLine in lines) && (DoneLine !in lines ==> r.More?)
    decreases |lines|
  {
    if lines != [] {
      match Classify(lines[0])
      case Done =>
      case Other =>
        ScanLinesGrows(decode, acc, lines[1..]);
      case Payload(data) =>
        var acc' := AppendPayload(decode, acc, data);
        ScanLinesGrows(decode, acc', lines[1..]);
        assert IsPrefix(acc, acc');
    }
  }

  /** Reading on from a scan outcome: a stopped scan ignores every later line. */
  function Continue(decode: string -> Option<string>, s: Scan, lines: seq<string>): Scan {
    match s
    case More(t) => ScanLines(decode, t, lines)
    case Stopped(t) => Stopped(t)
  }

  /** Reading two runs of lines is reading the first, then continuing with the second. */
  lemma {:induction false} ScanLinesAppend(decode: string -> Option<string>, acc: string, xs: seq<string>, ys: seq<string>)
    ensures ScanLines(decode, acc, xs + ys) == Continue(decode, ScanLines(decode, acc, xs), ys)
    decreases |xs|
  {
    if xs == [] {
      assert xs + ys == ys;
    } else {
      assert (xs + ys)[0] == xs[0] && (xs + ys)[1..] == xs[1..] + ys;
      match Classify(xs[0])
      case Done =>
      case Other => ScanLinesAppend(decode, acc, xs[1..], ys);
      case Payload(data) => ScanLinesAppend(decode, AppendPayload(decode, acc, data), xs[1..], ys);
    }
  }

  /** The `[DONE]` line ends reading: whatever follows it is never looked at. */
  lemma {:induction false} DoneStopsScan(decode: string -> Option<string>, acc: string, xs: seq<string>, ys: seq<string>)
    ensures ScanLines(decode, acc, xs + [DoneLine] + ys) == ScanLines(decode, acc, xs + [DoneLine])
  {
    ScanLinesAppend(decode, acc, xs + [DoneLine], ys);
    ScanLinesAppend(decode, acc, xs, [DoneLine]);
  }

  /** Reading one more line continues from the text read so far. */
  lemma {:induction false} ScanOneMore(decode: string -> Option<string>, acc: string, lines: seq<string>, i: nat)
    requires i < |lines| && ScanLines(decode, acc, lines[..i]).More?
    ensures ScanLines(decode, acc, lines[..i + 1])
            == ScanLines(decode, ScanLines(decode, acc, lines[..i]).text, [lines[i]])
  {
    assert lines[..i + 1] == lines[..i] + [lines[i]];
    ScanLinesAppend(decode, acc, lines[..i], [lines[i]]);
  }

  /** What a single line does to the text. */
  lemma {:induction false} ScanOne(decode: string -> Option<string>, acc: string, line: string)
    ensures Classify(line).Done? ==> ScanLines(decode, acc, [line]) == Stopped(acc)
    ensures Classify(line).Other? ==> ScanLines(decode, acc, [line]) == More(acc)
    ensures Classify(line).Payload? ==> ScanLines(decode, acc, [line]) == More(AppendPayload(decode, acc, Classify(line).data))
  {
    assert [line][1..] == [];
  }

  /** A `[DONE]` line reached while reading goes on ends the reading there. */
  lemma {:induction false} ScanStopsAt(decode: string -> Option<string>, acc: string, lines: seq<string>, i: nat)
    requires i < |lines| && lines[i] == DoneLine && ScanLines(decode, acc, lines[..i]).More?
    ensures ScanLines(decode, acc, lines) == Stopped(ScanLines(decode, acc, lines[..i]).text)
  {
    assert lines == lines[..i] + [DoneLine] + lines[i + 1..];
    DoneStopsScan(decode, acc, lines[..i], lines[i + 1..]);
    ScanLinesAppend(decode, acc, lines[..i], [DoneLine]);
    ScanOne(decode, ScanLines(decode, acc, lines[..i]).text, DoneLine);
  }

  // ---------------------------------------------------------------- reading chunks

  /** The reader loop's state between chunks: the unfinished line and the text so far, or finished. */
  datatype FeedState = Reading(buffer: string, text: string) | Finished(text: string)

  /** The state after reading everything in `lines` but the still-open last one. */
  function Settle(decode: string -> Option<string>, acc: string, lines: seq<string>): FeedState
    requires |lines| >= 1
  {
    match ScanLines(decode, acc, Init(lines))
    case More(t) => Reading(Last(lines), t)
    case Stopped(t) => Finished(t)
  }

  /** One iteration of the reader loop over a decoded chunk. */
  function Feed(decode: string -> Option<string>, st: FeedState, chunk: string): FeedState {
    match st
    case Finished(t) => Finished(t)
    case Reading(buffer, t) => Settle(decode, t, Split(buffer + chunk, '\n'))
  }

  function FeedAll(decode: string -> Option<string>, st: FeedState, chunks: seq<string>): FeedState
    decreases |chunks|
  {
    if chunks == [] then st
    else Feed(decode, FeedAll(decode, st, chunks[..|chunks| - 1]), chunks[|chunks| - 1])
  }

  /**
   * The reference reading of everything received so far, taken as one string:
   * the complete lines scanned from the start, the last unfinished line kept.
   */
  function Expected(decode: string -> Option<string>, received: string): FeedState {
    Settle(decode, "", Split(received, '\n'))
  }

  lemma {:induction false} InitLastAppend(xs: seq<string>, ys: seq<string>)
    requires |ys| >= 1
    ensures |xs + ys| >= 1
    ensures Init(xs + ys) == xs + Init(ys) && Last(xs + ys) == Last(ys)
  {
  }

  /** Feeding a chunk to the reading of a prefix gives the reading of the longer prefix. */
  lemma {:induction false} FeedExpected(decode: string -> Option<string>, received: string, chunk: string)
    ensures Feed(decode, Expected(decode, received), chunk) == Expected(decode, received + chunk)
  {
    var pa := Split(received, '\n');
    var tail := Split(Last(pa) + chunk, '\n');
    SplitAppend(received, chunk, '\n');
    InitLastAppend(Init(pa), tail);
    ScanLinesAppend(decode, "", Init(pa), Init(tail));
  }

  /**
   * The reader's result does not depend on where the chunk boundaries fall: it
   * is the reading of the concatenated chunks.
   */
  lemma {:induction false} FeedAllExpected(decode: string -> Option<string>, chunks: seq<string>)
    ensures FeedAll(decode, Reading("", ""), chunks) == Expected(decode, Concat(chunks))
    decreases |chunks|
  {
    if chunks == [] {
      assert Split("", '\n') == [""];
      assert Init([""]) == [];
    } else {
      var front := chunks[..|chunks| - 1];
      var c := chunks[|chunks| - 1];
      FeedAllExpected(decode, front);
      ConcatSnoc(chunks);
      FeedExpected(decode, Concat(front), c);
    }
  }

  /**
   * While reading goes on, the buffer is the text after the last newline
   * received: it holds no newline, and before it is either nothing or a newline.
   */
  lemma {:induction false} ExpectedBuffer(decode: string -> Option<string>, received: string)
    requires Expected(decode, received).Reading?
    ensures var b := Expected(decode, received).buffer;
            '\n' !in b && |b| <= |received| && b == received[|received| - |b|..]
            && (|b| == |received| || received[|received| - |b| - 1] == '\n')
  {
    SplitLast(received, '\n');
  }

  /** Two chunkings of the same bytes are read alike. */
  lemma {:induction false} ChunkingIrrelevant(decode: string -> Option<string>, xs: seq<string>, ys: seq<string>)
    requires Concat(xs) == Concat(ys)
    ensures FeedAll(decode, Reading("", ""), xs) == FeedAll(decode, Reading("", ""), ys)
  {
    FeedAllExpected(decode, xs);
    FeedAllExpected(decode, ys);
  }

  /** Once the reading has finished, the chunks that follow change nothing. */
  lemma {:induction false} FeedAllAfterFinish(decode: string -> Option<string>, st: FeedState, chunks: seq<string>, i: nat)
    requires i <= |chunks| && FeedAll(decode, st, chunks[..i]).Finished?
    ensures FeedAll(decode, st, chunks) == FeedAll(decode, st, chunks[..i])
    decreases |chunks| - i
  {
    if i == |chunks| {
      assert chunks[..i] == chunks;
    } else {
      assert chunks[..i + 1][..i] == chunks[..i];
      FeedAllAfterFinish(decode, st, chunks, i + 1);
    }
  }

  /** Reading one more chunk from the bytes of the first `i` is the reading of the first `i + 1`. */
  lemma {:induction false} FeedAllNext(decode: string -> Option<string>, chunks: seq<string>, i: nat)
    requires i < |chunks|
    ensures Concat(chunks[..i + 1]) == Concat(chunks[..i]) + chunks[i]
    ensures Expected(decode, Concat(chunks[..i]) + chunks[i]) == FeedAll(decode, Reading("", ""), chunks[..i + 1])
  {
    assert chunks[..i + 1][..i] == chunks[..i];
    ConcatSnoc(chunks[..i + 1]);
    FeedAllExpected(decode, chunks[..i + 1]);
  }

  // ---------------------------------------------------------------- the page

  datatype Role = User | Assistant

  /** A displayed message; `Date.now()` ids are a counter, timestamps are left out. */
  datatype Message = Message(id: nat, role: Role, content: string)

  /** The `fetch` failures the catch block sees: an abort, or any other error with its message. */
  datatype Failure = Aborted | Failed(message: string)

  const FallbackError: string := "Failed to get response"

  /** The text shown for a failed request. */
  function ErrorText(f: Failure): (r: string)
    requires f.Failed?
    ensures IsPrefix("Error: ", r)
    ensures f.message != "" ==> r[|"Error: "|..] == f.message
    ensures f.message == "" ==> r[|"Error: "|..] == FallbackError
  {
    "Error: " + (if f.message != "" then f.message else FallbackError)
  }

  /** The `HTTP error! status: N` message thrown for a response that is not ok. */
  function HttpError(status: nat): (f: Failure)
    ensures f.Failed? && f.message != ""
  {
    Failed("HTTP error! status: " + NatToString(status))
  }

  function RoleName(r: Role): string {
    match r
    case User => "user"
    case Assistant => "assistant"
  }

  /** The posted `messages`: role and content of every message, in order. */
  function Wire(ms: seq<Message>): (r: seq<ChatMessage>)
    ensures |r| == |ms|
    ensures forall k :: 0 <= k < |ms| ==> r[k] == ChatMessage(RoleName(ms[k].role), ms[k].content)
  {
    seq(|ms|, k requires 0 <= k < |ms| => ChatMessage(RoleName(ms[k].role), ms[k].content))
  }

  /** Ids increase along the conversation and stay below `next`, so no two messages share one. */
  ghost predicate IdsBelow(ms: seq<Message>, next: nat) {
    (forall i, j :: 0 <= i < j < |ms| ==> ms[i].id < ms[j].id)
    && (forall i :: 0 <= i < |ms| ==> ms[i].id < next)
  }

  /** The message a finished reading saves: the text when it is non-empty, nothing otherwise. */
  function Saved(id: nat, text: string): (r: seq<Message>)
    ensures |r| <= 1
    ensures r != [] <==> text != ""
    ensures r != [] ==> r[0] == Message(id, Assistant, text)
  {
    if text != "" then [Message(id, Assistant, text)] else []
  }

  class GroqChatPage {
    var messages: seq<Message>
    var input: string
    var isStreaming: bool
    var currentStreamingMessage: string
    /** The in-flight request's reader-loop locals. */
    var buffer: string
    var fullMessage: string
    var nextId: nat
    /** Everything read from the response body of the in-flight request. */
    ghost var received: string
    const decode: string -> Option<string>

    /**
     * While a request is in flight, the loop state is the reading of what was
     * received; message ids are all distinct and below the next one handed out.
     */
    ghost predicate Valid()
      reads this
    {
      (isStreaming ==> Expected(decode, received) == Reading(buffer, fullMessage))
      && currentStreamingMessage == (if isStreaming then fullMessage else "")
      && IdsBelow(messages, nextId)
    }

    constructor (decode: string -> Option<string>)
      ensures Valid() && this.decode == decode
      ensures messages == [] && input == "" && !isStreaming && currentStreamingMessage == ""
      ensures buffer == "" && fullMessage == "" && received == "" && nextId == 0
    {
      this.decode := decode;
      messages := [];
      input := "";
      isStreaming := false;
      currentStreamingMessage := "";
      buffer := "";
      fullMessage := "";
      nextId := 0;
      received := "";
    }

    method SetInput(text: string)
      requires Valid()
      modifies this
      ensures Valid() && input == text
      ensures messages == old(messages) && isStreaming == old(isStreaming)
      ensures currentStreamingMessage == old(currentStreamingMessage)
      ensures buffer == old(buffer) && fullMessage == old(fullMessage) && received == old(received)
      ensures nextId == old(nextId)
    {
      input := text;
    }

    /**
     * `handleSubmit` up to the `fetch`: ignored for blank input or while a
     * response streams; otherwise shows the trimmed input as a user message and
     * returns the body to post, the whole conversation including it.
     */
    method Submit() returns (body: Option<seq<ChatMessage>>)
      requires Valid()
      modifies this
      ensures Valid()
      ensures Trim(old(input)) == "" || old(isStreaming) ==>
                body.None? && messages == old(messages) && input == old(input)
                && isStreaming == old(isStreaming) && currentStreamingMessage == old(currentStreamingMessage)
                && buffer == old(buffer) && fullMessage == old(fullMessage) && received == old(received)
                && nextId == old(nextId)
      ensures Trim(old(input)) != "" && !old(isStreaming) ==>
                messages == old(messages) + [Message(old(nextId), User, Trim(old(input)))]
                && input == "" && isStreaming && currentStreamingMessage == ""
                && buffer == "" && fullMessage == "" && received == "" && nextId == old(nextId) + 1
                && body == Some(Wire(messages))
    {
      var text := Trim(input);
      if text == "" || isStreaming {
        return None;
      }
      messages := messages + [Message(nextId, User, text)];
      nextId := nextId + 1;
      input := "";
      isStreaming := true;
      currentStreamingMessage := "";
      buffer := "";
      fullMessage := "";
      received := "";
      assert Split("", '\n') == [""];
      assert Init([""]) == [];
      body := Some(Wire(messages));
    }

    /** Finishing a reading: save the text if there is any and stop streaming. */
    method Finish()
      requires isStreaming && IdsBelow(messages, nextId)
      modifies this
      ensures Valid() && !isStreaming && currentStreamingMessage == ""
      ensures messages == old(messages) + Saved(old(nextId), old(fullMessage))
      ensures nextId == old(nextId) + |Saved(old(nextId), old(fullMessage))|
      ensures input == old(input) && buffer == old(buffer) && fullMessage == old(fullMessage)
      ensures received == old(received)
    {
      if fullMessage != "" {
        messages := messages + [Message(nextId, Assistant, fullMessage)];
        nextId := nextId + 1;
      }
      currentStreamingMessage := "";
      isStreaming := false;
    }

    /**
     * One `reader.read()` that delivers a chunk: append it to the buffer, read
     * every complete line, keep the unfinished one; `[DONE]` saves the message
     * and ends the request.
     */
    method Receive(chunk: string)
      requires Valid() && isStreaming
      modifies this
      ensures Valid() && input == old(input)
      ensures Expected(decode, old(received) + chunk).Reading? ==>
                isStreaming && received == old(received) + chunk && messages == old(messages)
                && nextId == old(nextId)
      ensures Expected(decode, old(received) + chunk).Finished? ==>
                !isStreaming && currentStreamingMessage == "" && received == old(received)
                && messages == old(messages) + Saved(old(nextId), Expected(decode, old(received) + chunk).text)
                && nextId == old(nextId) + |Saved(old(nextId), Expected(decode, old(received) + chunk).text)|
    {
      var lines := Split(buffer + chunk, '\n');
      var complete := Init(lines);
      ghost var acc0 := fullMessage;
      ghost var target := Expected(decode, received + chunk);
      assert target == Settle(decode, acc0, lines) by {
        FeedExpected(decode, received, chunk);
      }
      var i := 0;
      while i < |complete|
        invariant 0 <= i <= |complete|
        invariant isStreaming && messages == old(messages) && nextId == old(nextId) && input == old(input)
        invariant IdsBelow(messages, nextId)
        invariant received == old(received) && target == Settle(decode, acc0, lines)
        invariant ScanLines(decode, acc0, complete[..i]) == More(fullMessage)
        invariant currentStreamingMessage == fullMessage
      {
        var line := complete[i];
        ghost var before := fullMessage;
        ScanOneMore(decode, acc0, complete, i);
        ScanOne(decode, before, line);
        match Classify(line) {
          case Done =>
            ScanStopsAt(decode, acc0, complete, i);
            assert target == Finished(fullMessage);
            Finish();
            return;
          case Other =>
          case Payload(data) =>
            var t := decode(data);
            if t.Some? {
              fullMessage := fullMessage + t.value;
              currentStreamingMessage := fullMessage;
            }
        }
        i := i + 1;
      }
      assert complete[..i] == complete;
      assert target == Reading(Last(lines), fullMessage);
      buffer := Last(lines);
      received := received + chunk;
    }

    /**
     * The reader loop over a whole response body delivered in `chunks`: read
     * until `[DONE]` or the end of the body, then the reply is saved.
     */
    method ReadBody(chunks: seq<string>)
      requires Valid() && isStreaming && received == ""
      modifies this
      ensures Valid() && !isStreaming && input == old(input)
      ensures messages == old(messages) + Saved(old(nextId), FeedAll(decode, Reading("", ""), chunks).text)
      ensures nextId == old(nextId) + |Saved(old(nextId), FeedAll(decode, Reading("", ""), chunks).text)|
    {
      assert chunks[..0] == [];
      var i := 0;
      while i < |chunks| && isStreaming
        invariant 0 <= i <= |chunks|
        invariant Valid() && input == old(input)
        invariant isStreaming ==> received == Concat(chunks[..i]) && messages == old(messages) && nextId == old(nextId)
        invariant !isStreaming ==> FeedAll(decode, Reading("", ""), chunks[..i]).Finished?
        invariant !isStreaming ==>
                    messages == old(messages) + Saved(old(nextId), FeedAll(decode, Reading("", ""), chunks[..i]).text)
                    && nextId == old(nextId) + |Saved(old(nextId), FeedAll(decode, Reading("", ""), chunks[..i]).text)|
      {
        FeedAllNext(decode, chunks, i);
        Receive(chunks[i]);
        i := i + 1;
      }
      if isStreaming {
        assert chunks[..i] == chunks;
        FeedAllExpected(decode, chunks);
        StreamEnd();
      } else {
        FeedAllAfterFinish(decode, Reading("", ""), chunks, i);
      }
    }

    /** `reader.read()` reports the end of the body: save the text, drop the unfinished line. */
    method StreamEnd()
      requires Valid() && isStreaming
      modifies this
      ensures Valid() && !isStreaming && currentStreamingMessage == "" && input == old(input)
      ensures messages == old(messages) + Saved(old(nextId), Expected(decode, old(received)).text)
      ensures nextId == old(nextId) + |Saved(old(nextId), Expected(decode, old(received)).text)|
      ensures buffer == old(buffer) && fullMessage == old(fullMessage) && received == old(received)
    {
      Finish();
    }

    /**
     * The catch block: an abort adds nothing, any other failure adds an error
     * message; the text streamed so far is dropped either way.
     */
    method Fail(f: Failure)
      requires Valid() && isStreaming
      modifies this
      ensures Valid() && !isStreaming && currentStreamingMessage == "" && input == old(input)
      ensures f.Aborted? ==> messages == old(messages)
      ensures f.Failed? ==> messages == old(messages) + [Message(old(nextId), Assistant, ErrorText(f))]
      ensures nextId == old(nextId) + (if f.Failed? then 1 else 0)
      ensures buffer == old(buffer) && fullMessage == old(fullMessage) && received == old(received)
    {
      if f.Failed? {
        messages := messages + [Message(nextId, Assistant, ErrorText(f))];
        nextId := nextId + 1;
      }
      isStreaming := false;
      currentStreamingMessage := "";
    }
  }

  /**
   * One exchange on a fresh page: the question is submitted, the response body
   * arrives in `chunks` until `[DONE]` or the end of the body, and the reply
   * saved is the reading of the chunks, wherever their boundaries fall.
   */
  method Exchange(decode: string -> Option<string>, question: string, chunks: seq<string>) returns (p: GroqChatPage)
    requires Trim(question) != ""
    ensures p.Valid() && !p.isStreaming && p.input == ""
    ensures p.messages == [Message(0, User, Trim(question))] + Saved(1, FeedAll(decode, Reading("", ""), chunks).text)
  {
    p := new GroqChatPage(decode);
    p.SetInput(question);
    var _ := p.Submit();
    p.ReadBody(chunks);
  }
}
