/**
 * The route and the page together: whatever way the network cuts the route's
 * event-stream body into chunks, the page reads back exactly the concatenated
 * delta texts and stops at the `[DONE]` frame.
 */
module ChatPipeline {
  import opened Wrappers
  import opened Text
  import opened Json
  import opened ChatRoute
  import opened ChatClient

  function DataLine(content: string): string {
    DataPrefix + EncodeContent(content)
  }

  /** The lines of the frames: each frame is its data line and the blank line that ends it. */
  function BodyLines(contents: seq<string>): seq<string>
    decreases |contents|
  {
    if contents == [] then [] else [DataLine(contents[0]), ""] + BodyLines(contents[1..])
  }

  lemma {:induction false} DataLineHasNoBreak(content: string)
    ensures '\n' !in DataLine(content)
  {
    assert '\n' !in DataPrefix;
  }

  lemma {:induction false} SplitDoneFrame()
    ensures Split(DoneFrame, '\n') == [DoneLine, "", ""]
  {
    assert DoneFrame == DoneLine + ['\n'] + ("" + ['\n'] + "");
    SplitAround(DoneLine, "" + ['\n'] + "", '\n');
    SplitAround("", "", '\n');
    SplitNoSep(DoneLine, '\n');
  }

  lemma {:induction false} SplitFrame(content: string, rest: string)
    ensures Split(Frame(content) + rest, '\n') == [DataLine(content), ""] + Split(rest, '\n')
  {
    var l := DataLine(content);
    assert Frame(content) + rest == l + ['\n'] + ("" + ['\n'] + rest);
    SplitAround(l, "" + ['\n'] + rest, '\n');
    SplitAround("", rest, '\n');
    DataLineHasNoBreak(content);
    SplitNoSep(l, '\n');
  }

  lemma {:induction false} SplitBody(contents: seq<string>)
    ensures Split(Concat(Frames(contents)) + DoneFrame, '\n') == BodyLines(contents) + [DoneLine, "", ""]
    decreases |contents|
  {
    if contents == [] {
      assert Concat(Frames(contents)) + DoneFrame == DoneFrame by {
        assert Frames(contents) == [];
      }
      assert BodyLines(contents) + [DoneLine, "", ""] == [DoneLine, "", ""];
      SplitDoneFrame();
    } else {
      var tail := Concat(Frames(contents[1..])) + DoneFrame;
      FramesCons(contents);
      SplitFrame(contents[0], tail);
      SplitBody(contents[1..]);
      BodyLinesCons(contents, [DoneLine, "", ""]);
    }
  }

  /** The body of several frames is the first frame followed by the body of the others. */
  lemma {:induction false} FramesCons(contents: seq<string>)
    requires contents != []
    ensures Concat(Frames(contents)) + DoneFrame == Frame(contents[0]) + (Concat(Frames(contents[1..])) + DoneFrame)
  {
    var fs, gs := Frames(contents), Frames(contents[1..]);
    assert fs[1..] == gs by {
      forall i | 0 <= i < |gs| ensures fs[1..][i] == gs[i] {
        assert contents[1..][i] == contents[i + 1];
      }
    }
    assert Concat(fs) == fs[0] + Concat(fs[1..]);
  }

  lemma {:induction false} ClassifyDataLine(content: string)
    ensures Classify(DataLine(content)) == Payload(EncodeContent(content))
  {
    var l := DataLine(content);
    assert l[..|DataPrefix|] == DataPrefix;
    assert l[|DataPrefix|..] == EncodeContent(content);
    assert EncodeContent(content)[0] == '{';
  }

  /** A frame's two lines add its content to the text. */
  lemma {:induction false} ScanFrame(acc: string, c: string, rest: seq<string>)
    requires c != ""
    ensures ScanLines(DecodeContent, acc, [DataLine(c), ""] + rest) == ScanLines(DecodeContent, acc + c, rest)
  {
    var lines := [DataLine(c), ""] + rest;
    assert lines[0] == DataLine(c) && lines[1..] == [""] + rest;
    ClassifyDataLine(c);
    DecodeEncode(c);
    assert AppendPayload(DecodeContent, acc, EncodeContent(c)) == acc + c;
    assert Classify("") == Other;
    assert ([""] + rest)[0] == "" && ([""] + rest)[1..] == rest;
  }

  lemma {:induction false} ScanDone(acc: string)
    ensures ScanLines(DecodeContent, acc, [DoneLine, ""]) == Stopped(acc)
  {
    assert Classify(DoneLine) == Done;
  }

  lemma {:induction false} BodyLinesCons(contents: seq<string>, tail: seq<string>)
    requires contents != []
    ensures BodyLines(contents) + tail == [DataLine(contents[0]), ""] + (BodyLines(contents[1..]) + tail)
  {
  }

  lemma {:induction false} ScanBody(acc: string, contents: seq<string>)
    requires forall k :: 0 <= k < |contents| ==> contents[k] != ""
    ensures ScanLines(DecodeContent, acc, BodyLines(contents) + [DoneLine, ""]) == Stopped(acc + Concat(contents))
    decreases |contents|
  {
    if contents == [] {
      assert BodyLines(contents) + [DoneLine, ""] == [DoneLine, ""];
      assert acc + Concat(contents) == acc;
      ScanDone(acc);
    } else {
      var c := contents[0];
      BodyLinesCons(contents, [DoneLine, ""]);
      ScanFrame(acc, c, BodyLines(contents[1..]) + [DoneLine, ""]);
      ScanBody(acc + c, contents[1..]);
      ConcatCons(acc, contents);
    }
  }

  lemma {:induction false} ConcatCons(acc: string, contents: seq<string>)
    requires contents != []
    ensures acc + contents[0] + Concat(contents[1..]) == acc + Concat(contents)
  {
  }

  /** The page's reading of a complete route body: finished, with every delta's text in order. */
  lemma {:induction false} ReadStreamBody(chunks: seq<Chunk>)
    ensures Expected(DecodeContent, StreamBody(chunks))
            == Finished(Concat(seq(|chunks|, i requires 0 <= i < |chunks| => ContentOf(chunks[i]))))
  {
    var contents := NonEmptyContents(chunks);
    var lines := Split(StreamBody(chunks), '\n');
    assert lines == BodyLines(contents) + [DoneLine, "", ""] by {
      SplitBody(contents);
    }
    assert Init(lines) == BodyLines(contents) + [DoneLine, ""];
    assert ScanLines(DecodeContent, "", Init(lines)) == Stopped(Concat(contents)) by {
      ScanBody("", contents);
    }
  }

  /**
   * End to end: for every way of cutting the body into network chunks, the
   * reader loop finishes with the full reply.
   */
  lemma {:induction false} RouteToPage(chunks: seq<Chunk>, pieces: seq<string>)
    requires Concat(pieces) == StreamBody(chunks)
    ensures FeedAll(DecodeContent, Reading("", ""), pieces)
            == Finished(Concat(seq(|chunks|, i requires 0 <= i < |chunks| => ContentOf(chunks[i]))))
  {
    FeedAllExpected(DecodeContent, pieces);
    ReadStreamBody(chunks);
  }
}
