/**
 * The profile page's simulated chat: a canned reply picked by the first table
 * key that occurs in the lower-cased question, cut into alternating runs of
 * white space and non-white space, and revealed one word per interval tick.
 */
module LocalChat {
  import opened Wrappers
  import opened Text

  // ---------------------------------------------------------------- replies

  const SuggestedQuestions: seq<string> := [
    "Tell me about yourself",
    "What's your most impressive project?",
    "What hackathons do you recommend?",
    "What are your core values?",
    "What's your experience with AI?"
  ]

  /** The reply table's keys, in the order `Object.entries` visits them. */
  const Keys: seq<string> := [
    "tell me about yourself",
    "what's your most impressive project?",
    "what hackathons do you recommend?",
    "what are your core values?",
    "what's your experience with ai?"
  ]

  /** The reply table's values, key by key. */
  const Answers: seq<string> := [
    "I'm a passionate developer and creator who loves building products that make a difference. I've worked across startups and scale-ups, always pushing the boundaries of what's possible with technology.",
    "I built a real-time collaboration platform that's now used by 50,000+ developers. It reduced onboarding time by 60% through AI-powered suggestions and intelligent workflows.",
    "I'd recommend TechCrunch Disrupt, HackMIT, and any local hackathons in your area. The key is finding events that align with your interests and give you a chance to build something cool in 24-48 hours.",
    "I believe in transparency, continuous learning, and building with empathy. I think the best products come from understanding real user needs, not just shipping features.",
    "I've been experimenting with AI since GPT-3 launched. I've built several AI-powered products and I'm fascinated by how it's reshaping how we work and create. That's why I built OrbitView!"
  ]

  const FallbackReply: string :=
    "That's a great question! I'd love to chat more about that. Feel free to ask me anything else about my experience, projects, or values."

  /** The first table entry from `k` on whose key occurs in `lq`. */
  function FirstMatchFrom(lq: string, k: nat): (r: Option<nat>)
    requires k <= |Keys|
    ensures r.Some? ==> k <= r.value < |Keys| && Contains(lq, Keys[r.value])
    ensures r.Some? ==> forall j :: k <= j < r.value ==> !Contains(lq, Keys[j])
    ensures r.None? <==> forall j :: k <= j < |Keys| ==> !Contains(lq, Keys[j])
    decreases |Keys| - k
  {
    if k == |Keys| then None
    else if Contains(lq, Keys[k]) then Some(k)
    else FirstMatchFrom(lq, k + 1)
  }

  /** The reply to a (trimmed) question: the first key it contains, ignoring case, or the fallback. */
  function Reply(question: string): (r: string)
    ensures r != ""
    ensures r == FallbackReply <==> forall j :: 0 <= j < |Keys| ==> !Contains(Lower(question), Keys[j])
    ensures r != FallbackReply ==> exists k :: 0 <= k < |Keys| && r == Answers[k]
                                     && Contains(Lower(question), Keys[k])
                                     && forall j :: 0 <= j < k ==> !Contains(Lower(question), Keys[j])
  {
    match FirstMatchFrom(Lower(question), 0)
    case Some(k) => Answers[k]
    case None => FallbackReply
  }

  /** `generateAIResponse`: the loop over the table's entries with its early return. */
  method GenerateReply(question: string) returns (r: string)
    ensures r == Reply(question)
  {
    var lq := Lower(question);
    for k := 0 to |Keys|
      invariant FirstMatchFrom(lq, 0) == FirstMatchFrom(lq, k)
    {
      if Contains(lq, Keys[k]) {
        return Answers[k];
      }
    }
    return FallbackReply;
  }

  lemma {:induction false} LowerIdempotent(s: string)
    ensures Lower(Lower(s)) == Lower(s)
  {
  }

  /** Matching ignores case. */
  lemma {:induction false} ReplyIgnoresCase(question: string)
    ensures Reply(Lower(question)) == Reply(question)
  {
    LowerIdempotent(question);
  }

  /** A question that contains the first key anywhere, in any case, gets the first reply. */
  lemma {:induction false} ReplyToFirstKey(question: string)
    requires Contains(Lower(question), Keys[0])
    ensures Reply(question) == Answers[0]
  {
  }

  /** Each suggested question gets its own table entry. */
  lemma {:induction false} SuggestionsAnswered()
    ensures forall k :: 0 <= k < |SuggestedQuestions| ==> Reply(SuggestedQuestions[k]) == Answers[k]
  {
    LowerAboutYourself();
    LowerImpressiveProject();
    LowerHackathons();
    LowerCoreValues();
    LowerExperienceWithAi();
    forall k | 0 <= k < |SuggestedQuestions|
      ensures Reply(SuggestedQuestions[k]) == Answers[k]
    {
      KeyAnswered(SuggestedQuestions[k], k);
    }
  }

  /** Asking exactly a key, in any case, gets that key's answer: no earlier key occurs in it. */
  lemma {:induction false} KeyAnswered(question: string, k: nat)
    requires k < |Keys| && Lower(question) == Keys[k]
    ensures Reply(question) == Answers[k]
  {
    ContainsSelf(Keys[k]);
    if k == 1 { ProjectKeyAvoidsEarlier(); }
    else if k == 2 { HackathonsKeyAvoidsEarlier(); }
    else if k == 3 { ValuesKeyAvoidsEarlier(); }
    else if k == 4 { AiKeyAvoidsEarlier(); }
    assert FirstMatchFrom(Keys[k], 0) == Some(k);
  }

  // Each earlier key holds a letter the later key lacks: 'b' (index 9 of the first key),
  // 'j' (31 of the second), 'k' (8 of the third), 'v' (19 of the fourth).

  lemma {:induction false} ProjectKeyAvoidsEarlier()
    ensures !Contains(Keys[1], Keys[0])
  {
    NotContainsMissingChar(Keys[1], Keys[0], 9);
  }

  lemma {:induction false} HackathonsKeyAvoidsEarlier()
    ensures forall j :: 0 <= j < 2 ==> !Contains(Keys[2], Keys[j])
  {
    NotContainsMissingChar(Keys[2], Keys[0], 9);
    NotContainsMissingChar(Keys[2], Keys[1], 31);
  }

  lemma {:induction false} ValuesKeyAvoidsEarlier()
    ensures forall j :: 0 <= j < 3 ==> !Contains(Keys[3], Keys[j])
  {
    NotContainsMissingChar(Keys[3], Keys[0], 9);
    NotContainsMissingChar(Keys[3], Keys[1], 31);
    NotContainsMissingChar(Keys[3], Keys[2], 8);
  }

  lemma {:induction false} AiKeyAvoidsEarlier()
    ensures forall j :: 0 <= j < 4 ==> !Contains(Keys[4], Keys[j])
  {
    NotContainsMissingChar(Keys[4], Keys[0], 9);
    NotContainsMissingChar(Keys[4], Keys[1], 31);
    NotContainsMissingChar(Keys[4], Keys[2], 8);
    NotContainsMissingChar(Keys[4], Keys[3], 19);
  }

  lemma {:induction false} LowerAboutYourself()
    ensures Lower(SuggestedQuestions[0]) == Keys[0]
  {
    LowerLiteral("Tell me about yourself", "tell me about yourself");
  }

  lemma {:induction false} LowerImpressiveProject()
    ensures Lower(SuggestedQuestions[1]) == Keys[1]
  {
    LowerLiteral("What's your most impressive project?", "what's your most impressive project?");
  }

  lemma {:induction false} LowerHackathons()
    ensures Lower(SuggestedQuestions[2]) == Keys[2]
  {
    LowerLiteral("What hackathons do you recommend?", "what hackathons do you recommend?");
  }

  lemma {:induction false} LowerCoreValues()
    ensures Lower(SuggestedQuestions[3]) == Keys[3]
  {
    LowerLiteral("What are your core values?", "what are your core values?");
  }

  lemma {:induction false} LowerExperienceWithAi()
    ensures Lower(SuggestedQuestions[4]) == Keys[4]
  {
    LowerLiteral("What's your experience with AI?", "what's your experience with ai?");
  }

  lemma {:induction false} LowerWithoutQuestionMark()
    ensures Lower("What's your experience with AI") == "what's your experience with ai"
  {
    LowerLiteral("What's your experience with AI", "what's your experience with ai");
  }

  /** Matching is on the whole key, question mark included: without it the last suggestion falls back. */
  lemma {:induction false} MissingQuestionMarkFallsBack()
    ensures Reply("What's your experience with AI") == FallbackReply
  {
    LowerWithoutQuestionMark();
    UnpunctuatedAvoidsKeys();
  }

  lemma {:induction false} UnpunctuatedAvoidsKeys()
    ensures forall j :: 0 <= j < |Keys| ==> !Contains("what's your experience with ai", Keys[j])
  {
    var lq := "what's your experience with ai";
    NotContainsMissingChar(lq, Keys[0], 9);
    NotContainsMissingChar(lq, Keys[1], 31);
    NotContainsMissingChar(lq, Keys[2], 8);
    NotContainsMissingChar(lq, Keys[3], 19);
    NotContainsLonger(lq, Keys[4]);
  }

  // ---------------------------------------------------------------- tokens

  /** A run: non-empty, all white space or all non-white space. */
  predicate Uniform(t: string) {
    t != [] && forall i :: 0 <= i < |t| ==> IsSpace(t[i]) == IsSpace(t[0])
  }

  /** Neighbouring runs are of opposite kinds. */
  ghost predicate Alternating(ts: seq<string>) {
    forall i, j :: 0 <= i < j < |ts| && j == i + 1 ==> ts[i] != [] && ts[j] != [] && IsSpace(ts[i][0]) != IsSpace(ts[j][0])
  }

  /** The maximal runs of `s`, in order. */
  function Runs(s: string): (r: seq<string>)
    ensures s == [] <==> r == []
    ensures forall k :: 0 <= k < |r| ==> Uniform(r[k])
    ensures Alternating(r)
    ensures r != [] ==> r[0] != [] && r[0][0] == s[0]
    decreases |s|
  {
    if s == [] then []
    else
      var t := Runs(s[1..]);
      if t != [] && IsSpace(t[0][0]) == IsSpace(s[0]) then [[s[0]] + t[0]] + t[1..]
      else [[s[0]]] + t
  }

  lemma {:induction false} RunsConcat(s: string)
    ensures Concat(Runs(s)) == s
    decreases |s|
  {
    if s != [] {
      var t := Runs(s[1..]);
      RunsConcat(s[1..]);
      if t != [] && IsSpace(t[0][0]) == IsSpace(s[0]) {
        var r := [[s[0]] + t[0]] + t[1..];
        assert r[1..] == t[1..];
        assert t == [t[0]] + t[1..];
        assert Concat(t) == t[0] + Concat(t[1..]);
        assert s == [s[0]] + s[1..];
      } else {
        assert ([[s[0]]] + t)[1..] == t;
        assert s == [s[0]] + s[1..];
      }
    }
  }

  /** `response.match(/\S+|\s+/g) ?? [response]`: the runs, or the string itself when it is empty. */
  function Tokenize(s: string): (r: seq<string>)
    ensures |r| >= 1
    ensures s != [] ==> forall k :: 0 <= k < |r| ==> Uniform(r[k])
    ensures s != [] ==> Alternating(r)
  {
    if s == [] then [s] else Runs(s)
  }

  /** The tokens put back together are the response. */
  lemma {:induction false} TokenizeConcat(s: string)
    ensures Concat(Tokenize(s)) == s
  {
    if s == [] {
      assert Concat([s]) == s + Concat([]);
    } else {
      RunsConcat(s);
    }
  }

  /** `/^\s+$/.test(t)`. */
  predicate IsWhitespaceToken(t: string) {
    t != [] && AllSpace(t)
  }

  // ---------------------------------------------------------------- the component

  /** `Date.now()` ids: a user message's `now`, a reply's `${now}-ai`. */
  datatype MsgId = UserMsg(at: nat) | AiMsg(at: nat)

  datatype Role = User | Ai

  datatype Message = Message(id: MsgId, role: Role, text: string)

  /** Idle; waiting out the 400 ms before the reply; or revealing `tokens` up to `index`. */
  datatype Phase =
    | Idle
    | Thinking(question: string)
    | Streaming(aiId: MsgId, tokens: seq<string>, index: nat)

  predicate UniqueIds(ms: seq<Message>) {
    forall i, j :: 0 <= i < j < |ms| ==> ms[i].id != ms[j].id
  }

  /** Every id was stamped before `clock`. */
  predicate StampedBefore(ms: seq<Message>, clock: nat) {
    forall k :: 0 <= k < |ms| ==> ms[k].id.at < clock
  }

  /** The `setMessages(prev => prev.map(...))` update: new text for the message with id `id`. */
  function Retext(ms: seq<Message>, id: MsgId, text: string): (r: seq<Message>)
    ensures |r| == |ms|
    ensures forall k :: 0 <= k < |ms| ==> r[k] == if ms[k].id == id then ms[k].(text := text) else ms[k]
  {
    seq(|ms|, k requires 0 <= k < |ms| => if ms[k].id == id then ms[k].(text := text) else ms[k])
  }

  /** With unique ids, retexting the last message's id touches that message only, and ids stay as they were. */
  lemma {:induction false} RetextLast(ms: seq<Message>, text: string, clock: nat)
    requires ms != [] && UniqueIds(ms) && StampedBefore(ms, clock)
    ensures Retext(ms, ms[|ms| - 1].id, text) == ms[..|ms| - 1] + [ms[|ms| - 1].(text := text)]
    ensures UniqueIds(Retext(ms, ms[|ms| - 1].id, text))
    ensures StampedBefore(Retext(ms, ms[|ms| - 1].id, text), clock)
  {
    var r := Retext(ms, ms[|ms| - 1].id, text);
    assert forall k :: 0 <= k < |ms| ==> r[k].id == ms[k].id;
  }

  /** The index the tick stops at: one past `index`, then past every white-space token. */
  predicate IsNextStop(tokens: seq<string>, index: nat, next: nat) {
    index < next <= |tokens|
    && (forall j :: index < j < next ==> IsWhitespaceToken(tokens[j]))
    && (next == |tokens| || !IsWhitespaceToken(tokens[next]))
  }

  /** The first index from `j` on that is the end or holds a word. */
  function SkipSpaces(tokens: seq<string>, j: nat): (r: nat)
    requires j <= |tokens|
    ensures j <= r <= |tokens|
    ensures forall i :: j <= i < r ==> IsWhitespaceToken(tokens[i])
    ensures r == |tokens| || !IsWhitespaceToken(tokens[r])
    decreases |tokens| - j
  {
    if j == |tokens| || !IsWhitespaceToken(tokens[j]) then j else SkipSpaces(tokens, j + 1)
  }

  /** Where a tick starting at `index` stops. */
  function NextStop(tokens: seq<string>, index: nat): (r: nat)
    requires index < |tokens|
    ensures IsNextStop(tokens, index, r)
  {
    SkipSpaces(tokens, index + 1)
  }

  /** After a white-space run comes a word. */
  lemma {:induction false} WordAfterSpace(tokens: seq<string>, j: nat)
    requires j + 1 < |tokens| && Alternating(tokens) && IsWhitespaceToken(tokens[j])
    ensures !IsWhitespaceToken(tokens[j + 1])
  {
    assert IsSpace(tokens[j][0]);
    assert !IsSpace(tokens[j + 1][0]);
  }

  /** Runs alternate, so a tick reveals one token and at most one white-space run after it. */
  lemma {:induction false} OneWordPerTick(tokens: seq<string>, index: nat)
    requires index < |tokens| && Alternating(tokens)
    ensures NextStop(tokens, index) <= index + 2
  {
    if index + 2 < |tokens| && IsWhitespaceToken(tokens[index + 1]) {
      WordAfterSpace(tokens, index + 1);
      assert SkipSpaces(tokens, index + 2) == index + 2;
    }
  }

  /** Appending a message stamped with the current clock keeps ids unique and in the past. */
  lemma {:induction false} AppendFresh(ms: seq<Message>, m: Message, clock: nat)
    requires UniqueIds(ms) && StampedBefore(ms, clock) && m.id.at == clock
    ensures UniqueIds(ms + [m]) && StampedBefore(ms + [m], clock + 1)
  {
  }

  class ChatInterface {
    var messages: seq<Message>
    var input: string
    var isTyping: bool
    var phase: Phase
    /** Stands in for `Date.now()`: strictly increasing. */
    var clock: nat

    ghost predicate Valid()
      reads this
    {
      (isTyping <==> !phase.Idle?)
      && UniqueIds(messages)
      && StampedBefore(messages, clock)
      && (phase.Streaming? ==>
            && phase.index <= |phase.tokens|
            && (forall k :: 0 <= k < |phase.tokens| ==> Uniform(phase.tokens[k]))
            && Alternating(phase.tokens)
            && messages != []
            && messages[|messages| - 1] == Message(phase.aiId, Ai, Concat(phase.tokens[..phase.index])))
    }

    constructor ()
      ensures Valid() && messages == [] && input == "" && !isTyping && phase == Idle && clock == 0
    {
      messages := [];
      input := "";
      isTyping := false;
      phase := Idle;
      clock := 0;
    }

    method SetInput(text: string)
      requires Valid()
      modifies this
      ensures Valid() && input == text && messages == old(messages) && phase == old(phase)
      ensures isTyping == old(isTyping) && clock == old(clock)
    {
      input := text;
    }

    /** `handleSend`: ignored for blank text or while a reply is pending or typing. */
    method Send(text: string)
      requires Valid()
      modifies this
      ensures Valid()
      ensures Trim(text) == "" || old(isTyping) ==>
                messages == old(messages) && input == old(input) && phase == old(phase)
                && isTyping == old(isTyping) && clock == old(clock)
      ensures Trim(text) != "" && !old(isTyping) ==>
                messages == old(messages) + [Message(UserMsg(old(clock)), User, Trim(text))]
                && input == "" && isTyping && phase == Thinking(Trim(text)) && clock == old(clock) + 1
    {
      var q := Trim(text);
      if q == "" || isTyping {
        return;
      }
      AppendFresh(messages, Message(UserMsg(clock), User, q), clock);
      messages := messages + [Message(UserMsg(clock), User, q)];
      clock := clock + 1;
      input := "";
      isTyping := true;
      phase := Thinking(q);
    }

    /** The 400 ms timeout: append an empty reply message and start revealing its tokens. */
    method ReplyTimeout()
      requires Valid() && phase.Thinking?
      modifies this
      ensures Valid() && isTyping
      ensures messages == old(messages) + [Message(AiMsg(old(clock)), Ai, "")]
      ensures phase == Streaming(AiMsg(old(clock)), Tokenize(Reply(old(phase).question)), 0)
      ensures input == old(input) && clock == old(clock) + 1
    {
      var response := GenerateReply(phase.question);
      StartStreaming(response);
    }

    /** While typing, append an empty message for `response` and stream its tokens from the first. */
    method StartStreaming(response: string)
      requires Valid() && isTyping && response != ""
      modifies this
      ensures Valid() && isTyping
      ensures messages == old(messages) + [Message(AiMsg(old(clock)), Ai, "")]
      ensures phase == Streaming(AiMsg(old(clock)), Tokenize(response), 0)
      ensures input == old(input) && clock == old(clock) + 1
    {
      var tokens := Tokenize(response);
      var aiId := AiMsg(clock);
      AppendFresh(messages, Message(aiId, Ai, ""), clock);
      clock := clock + 1;
      messages := messages + [Message(aiId, Ai, "")];
      phase := Streaming(aiId, tokens, 0);
      assert tokens[..0] == [];
    }

    /**
     * One 45 ms interval tick: reveal the next token and every white-space
     * token after it; stop typing once all tokens are shown.
     */
    method Tick()
      requires Valid() && phase.Streaming?
      modifies this
      ensures Valid() && input == old(input) && clock == old(clock)
      ensures old(phase.index) >= |old(phase.tokens)| ==>
                messages == old(messages) && phase == Idle && !isTyping
      ensures old(phase.index) < |old(phase.tokens)| ==>
                var next := NextStop(old(phase.tokens), old(phase.index));
                && messages == Retext(old(messages), old(phase.aiId), Concat(old(phase.tokens)[..next]))
                && messages == old(messages)[..|old(messages)| - 1]
                               + [Message(old(phase.aiId), Ai, Concat(old(phase.tokens)[..next]))]
                && (next == |old(phase.tokens)| ==> phase == Idle && !isTyping)
                && (next < |old(phase.tokens)| ==> phase == old(phase).(index := next) && isTyping)
    {
      var aiId, tokens, index := phase.aiId, phase.tokens, phase.index;
      if index >= |tokens| {
        isTyping := false;
        phase := Idle;
        return;
      }
      var next := index + 1;
      while next < |tokens| && IsWhitespaceToken(tokens[next])
        invariant index < next <= |tokens|
        invariant SkipSpaces(tokens, next) == NextStop(tokens, index)
      {
        next := next + 1;
      }
      var text := Concat(tokens[..next]);
      RetextLast(messages, text, clock);
      messages := Retext(messages, aiId, text);
      if next >= |tokens| {
        isTyping := false;
        phase := Idle;
      } else {
        phase := Streaming(aiId, tokens, next);
      }
    }
  }

  /**
   * Each tick extends what is shown: the earlier text is a prefix of the later
   * one, and strictly shorter once a non-empty token has been added.
   */
  lemma {:induction false} RevealGrows(tokens: seq<string>, i: nat, j: nat)
    requires i <= j <= |tokens|
    ensures IsPrefix(Concat(tokens[..i]), Concat(tokens[..j]))
    ensures i < j && tokens[i] != "" ==> |Concat(tokens[..i])| < |Concat(tokens[..j])|
  {
    var shown := tokens[..j];
    assert shown[..i] == tokens[..i];
    assert shown == shown[..i] + shown[i..];
    ConcatAppend(shown[..i], shown[i..]);
    if i < j {
      assert shown[i..][0] == tokens[i];
    }
  }

  /** When typing stops, the reply message shows the whole reply. */
  lemma {:induction false} RevealComplete(question: string)
    ensures var tokens := Tokenize(Reply(question)); Concat(tokens[..|tokens|]) == Reply(question)
  {
    var tokens := Tokenize(Reply(question));
    assert tokens[..|tokens|] == tokens;
    TokenizeConcat(Reply(question));
  }
}
