/**
 * The profile co-pilot panel: a canned edit reply chosen by keyword pairs, the
 * parser that turns a reply's first line into a `{field, value}` edit, and the
 * newest-first edit history with its apply and remove operations.
 */
module CoPilot {
  import opened Wrappers
  import opened Text

  // ---------------------------------------------------------------- replies

  /** The keyword pairs, in the order they are tested. */
  const Keywords: seq<(string, string)> := [
    ("tagline", "professional"),
    ("project", "ai"),
    ("bio", "leadership"),
    ("location", "san francisco"),
    ("github", "link"),
    ("concise", "shorter")
  ]

  /** The first line of each pair's reply: what changed, then the new value after a ':'. */
  const Headlines: seq<string> := [
    "Updated tagline: 'Senior Full-Stack Engineer | AI Product Builder | Tech Leader'",
    "Added new project: 'AI-Powered Resume Platform'",
    "Updated bio to emphasize leadership:",
    "Updated location to: San Francisco, CA",
    "Added GitHub link: github.com/yourusername",
    "Condensed experience section:"
  ]

  /** What each pair's reply says after the blank line. */
  const Details: seq<string> := [
    "✓ Applied to your profile",
    "• Built with React & Next.js\n• 50,000+ users\n• Reduced onboarding time by 60%\n\nWould you like me to apply this?",
    "'Passionate developer with 8+ years building products that scale. Led teams of 5-10 engineers, shipping features used by millions. Specialized in AI/ML integration and full-stack architecture.'\n\n✓ Applied to your profile",
    "✓ Applied to your profile",
    "✓ Applied to your profile",
    "• Removed redundant bullet points\n• Combined similar roles\n• Highlighted key achievements\n\nWould you like to review the changes?"
  ]

  /** The reply of pair `k`: its headline, a blank line, its details. */
  function Reply(k: nat): string
    requires k < |Keywords|
  {
    Headlines[k] + "\n\n" + Details[k]
  }

  const FallbackOpening: string := "I understand you want to: \""
  /** The closing quote ends the first line; the offer of help follows. */
  const FallbackClosing: string := "\"\n" + FallbackHelp
  const FallbackHelp: string :=
    "\nI can help you:\n• Update any section of your profile\n• Add new experiences or projects\n• Refine your writing style\n• Reorganize content\n\nCould you be more specific about what you'd like to change?"

  /** The reply when no keyword matches: the request quoted verbatim. */
  function Fallback(request: string): string {
    FallbackOpening + request + FallbackClosing
  }

  /** The request quoted in a fallback reply. */
  function QuotedRequest(reply: string): string
    requires |reply| >= |FallbackOpening| + |FallbackClosing|
  {
    reply[|FallbackOpening|..|reply| - |FallbackClosing|]
  }

  /** The fallback reply keeps the request intact: it can be read back exactly. */
  lemma {:induction false} FallbackQuotesRequest(request: string)
    ensures |Fallback(request)| >= |FallbackOpening| + |FallbackClosing|
    ensures QuotedRequest(Fallback(request)) == request
    ensures IsPrefix(FallbackOpening, Fallback(request))
  {
    var r := Fallback(request);
    assert r[|FallbackOpening|..|r| - |FallbackClosing|] == request;
  }

  predicate Mentions(lr: string, k: nat)
    requires k < |Keywords|
  {
    Contains(lr, Keywords[k].0) || Contains(lr, Keywords[k].1)
  }

  /** The first keyword pair from `k` on that the lower-cased request mentions. */
  function FirstRuleFrom(lr: string, k: nat): (r: Option<nat>)
    requires k <= |Keywords|
    ensures r.Some? ==> k <= r.value < |Keywords| && Mentions(lr, r.value)
    ensures r.Some? ==> forall j :: k <= j < r.value ==> !Mentions(lr, j)
    ensures r.None? <==> forall j :: k <= j < |Keywords| ==> !Mentions(lr, j)
    decreases |Keywords| - k
  {
    if k == |Keywords| then None
    else if Mentions(lr, k) then Some(k)
    else FirstRuleFrom(lr, k + 1)
  }

  /** `generateEditResponse`: the reply of the first pair mentioned, ignoring case, else the fallback. */
  function EditResponse(request: string): (r: string)
    ensures r != ""
    ensures (forall j :: 0 <= j < |Keywords| ==> !Mentions(Lower(request), j)) ==> r == Fallback(request)
    ensures forall k :: (0 <= k < |Keywords| && Mentions(Lower(request), k)
                         && forall j :: 0 <= j < k ==> !Mentions(Lower(request), j)) ==> r == Reply(k)
  {
    match FirstRuleFrom(Lower(request), 0)
    case Some(k) => Reply(k)
    case None => Fallback(request)
  }

  /** The tagline pair is tested first: a request mentioning "tagline" gets its reply whatever else it says. */
  lemma {:induction false} TaglineWins(request: string)
    requires Contains(Lower(request), "tagline")
    ensures EditResponse(request) == Reply(0)
  {
    assert Mentions(Lower(request), 0);
  }

  lemma {:induction false} LowerTwice(s: string)
    ensures Lower(Lower(s)) == Lower(s)
  {
  }

  /** Keyword matching ignores case; only the fallback, which quotes the request, sees the original. */
  lemma {:induction false} EditResponseIgnoresCase(request: string)
    ensures FirstRuleFrom(Lower(Lower(request)), 0) == FirstRuleFrom(Lower(request), 0)
    ensures FirstRuleFrom(Lower(request), 0).Some? ==> EditResponse(Lower(request)) == EditResponse(request)
  {
    LowerTwice(request);
  }

  // ---------------------------------------------------------------- apply

  /** The edit `handleApply` hands on: which profile field, and the new value. */
  datatype Edit = Edit(field: string, value: string)

  /** The field: the first line up to its first ':', lower-cased, minus the first "updated" and "added", trimmed. */
  function FieldOf(response: string): string {
    var head := Split(Split(response, '\n')[0], ':')[0];
    Trim(ReplaceFirst(ReplaceFirst(Lower(head), "updated", ""), "added", ""))
  }

  /** `lines[0].split(":")[1]?.trim() || edit.response`. */
  function ValueOf(response: string): (r: string)
    ensures r != "" <==> response != ""
  {
    var parts := Split(Split(response, '\n')[0], ':');
    var v := if |parts| >= 2 then Trim(parts[1]) else "";
    if v != "" then v else response
  }

  function ParseApply(response: string): Edit {
    Edit(FieldOf(response), ValueOf(response))
  }

  /** The first line of `line` followed by a line break is `line`, whatever comes after. */
  lemma {:induction false} FirstLine(line: string, rest: string)
    requires '\n' !in line
    ensures Split(line + "\n" + rest, '\n')[0] == line
  {
    assert line + "\n" + rest == line + ['\n'] + rest;
    SplitAround(line, rest, '\n');
    SplitNoSep(line, '\n');
  }

  /** A first line without ':' has no value: the whole reply is applied. */
  lemma {:induction false} ValueWithoutColon(response: string)
    requires ':' !in Split(response, '\n')[0]
    ensures ValueOf(response) == response
  {
    SplitNoSep(Split(response, '\n')[0], ':');
  }

  /** With one ':' on the first line, the value is the rest of that line, trimmed, or else the whole reply. */
  lemma {:induction false} ValueAfterOnlyColon(response: string, head: string, tail: string)
    requires Split(response, '\n')[0] == head + ":" + tail
    requires ':' !in head && ':' !in tail
    ensures ValueOf(response) == if Trim(tail) != "" then Trim(tail) else response
  {
    assert head + ":" + tail == head + [':'] + tail;
    SplitAround(head, tail, ':');
    SplitNoSep(head, ':');
    SplitNoSep(tail, ':');
  }

  /**
   * With two or more ':' on the first line, the value is the text between the
   * first two, trimmed, or else the whole reply; the rest of the line is lost.
   */
  lemma {:induction false} ValueBetweenColons(response: string, head: string, mid: string, tail: string)
    requires Split(response, '\n')[0] == head + ":" + mid + ":" + tail
    requires ':' !in head && ':' !in mid
    ensures ValueOf(response) == if Trim(mid) != "" then Trim(mid) else response
  {
    assert head + ":" + mid + ":" + tail == head + [':'] + (mid + [':'] + tail);
    SplitAround(head, mid + [':'] + tail, ':');
    SplitAround(mid, tail, ':');
    SplitNoSep(head, ':');
    SplitNoSep(mid, ':');
  }

  /** The fallback reply's first line: the opening, the request, and the closing quote. */
  lemma {:induction false} FallbackFirstLine(request: string)
    requires '\n' !in request
    ensures Split(Fallback(request), '\n')[0] == "I understand you want to" + ":" + " \"" + request + "\""
  {
    FallbackShape();
    QuotedFirstLine(FallbackOpening, request, FallbackClosing);
  }

  lemma {:induction false} FallbackShape()
    ensures FallbackOpening == "I understand you want to" + ":" + " \""
    ensures |FallbackClosing| >= 2 && FallbackClosing[..2] == "\"\n"
  {
    assert FallbackClosing[..2] == "\"\n";
  }

  /** A line break right after the closing quote ends the first line there. */
  lemma {:induction false} QuotedFirstLine(opening: string, request: string, closing: string)
    requires '\n' !in opening + request
    requires |closing| >= 2 && closing[..2] == "\"\n"
    ensures Split(opening + request + closing, '\n')[0] == opening + request + "\""
  {
    var line := opening + request + "\"";
    assert opening + request + closing == line + "\n" + closing[2..] by {
      assert closing == "\"\n" + closing[2..];
    }
    assert '\n' !in line;
    FirstLine(line, closing[2..]);
  }

  /** Applying a fallback reply to a request without ':' applies the request in quotes. */
  lemma {:induction false} FallbackValue(request: string)
    requires ':' !in request && '\n' !in request
    ensures ValueOf(Fallback(request)) == "\"" + request + "\""
  {
    FallbackFirstLine(request);
    QuotedWhole(Fallback(request), "I understand you want to", request);
  }

  /** A first line `head: "request"` with no other ':' applies `"request"`. */
  lemma {:induction false} QuotedWhole(response: string, head: string, request: string)
    requires ':' !in head && ':' !in request
    requires Split(response, '\n')[0] == head + ":" + " \"" + request + "\""
    ensures ValueOf(response) == "\"" + request + "\""
  {
    var quoted := "\"" + request + "\"";
    assert head + ":" + " \"" + request + "\"" == head + ":" + " " + quoted;
    ValueAfterColonSpace(response, head, quoted);
  }

  /** A first line `head: value` with trimmed, non-empty `value` and no other ':' applies `value`. */
  lemma {:induction false} ValueAfterColonSpace(response: string, head: string, value: string)
    requires ':' !in head && ':' !in value && IsTrimmed(value) && value != ""
    requires Split(response, '\n')[0] == head + ":" + " " + value
    ensures ValueOf(response) == value
  {
    TrimOneSpace(value);
    assert head + ":" + " " + value == head + ":" + (" " + value);
    ValueAfterOnlyColon(response, head, " " + value);
  }

  /** A request with a ':' is cut there: only the quote mark and the text before that ':' are applied. */
  lemma {:induction false} FallbackValueCut(before: string, after: string)
    requires ':' !in before && '\n' !in before && '\n' !in after
    requires before == [] || !IsSpace(before[|before| - 1])
    ensures ValueOf(Fallback(before + ":" + after)) == "\"" + before
  {
    var request := before + ":" + after;
    FallbackFirstLine(request);
    QuotedCut(Fallback(request), "I understand you want to", before, after);
  }

  /** A first line `head: "before:after"` applies `"before`. */
  lemma {:induction false} QuotedCut(response: string, head: string, before: string, after: string)
    requires ':' !in head && ':' !in before
    requires before == [] || !IsSpace(before[|before| - 1])
    requires Split(response, '\n')[0] == head + ":" + " \"" + (before + ":" + after) + "\""
    ensures ValueOf(response) == "\"" + before
  {
    var quoted := "\"" + before;
    assert head + ":" + " \"" + (before + ":" + after) + "\"" == head + ":" + " " + quoted + ":" + (after + "\"");
    ValueBetweenColonSpace(response, head, quoted, after + "\"");
  }

  /** A first line `head: value:…` with trimmed, non-empty `value` applies `value`. */
  lemma {:induction false} ValueBetweenColonSpace(response: string, head: string, value: string, tail: string)
    requires ':' !in head && ':' !in value && IsTrimmed(value) && value != ""
    requires Split(response, '\n')[0] == head + ":" + " " + value + ":" + tail
    ensures ValueOf(response) == value
  {
    TrimOneSpace(value);
    assert head + ":" + " " + value + ":" + tail == head + ":" + (" " + value) + ":" + tail;
    ValueBetweenColons(response, head, " " + value, tail);
  }

  /** "set tagline: CTO" applies `"set tagline`. */
  lemma {:induction false} FallbackValueCutAtColon()
    ensures ValueOf(Fallback("set tagline: CTO")) == "\"set tagline"
  {
    var before, after := "set tagline", " CTO";
    assert before + ":" + after == "set tagline: CTO";
    assert before[|before| - 1] == 'e';
    assert "\"" + before == "\"set tagline";
    FallbackValueCut(before, after);
  }

  /**
   * A first line `head: value` followed by more lines yields the value, trimmed,
   * when that is non-empty.
   */
  lemma {:induction false} ValueOfLabelled(head: string, pad: string, value: string, rest: string)
    requires ':' !in head && '\n' !in head
    requires ':' !in pad + value && '\n' !in pad + value
    requires AllSpace(pad) && IsTrimmed(value) && value != ""
    ensures Split(head + [':'] + pad + value + ['\n'] + rest, '\n')[0] == head + [':'] + pad + value
    ensures ValueOf(head + [':'] + pad + value + ['\n'] + rest) == value
  {
    var line := head + [':'] + pad + value;
    assert head + [':'] + pad + value + ['\n'] + rest == line + ['\n'] + rest;
    SplitAround(line, rest, '\n');
    assert '\n' !in line;
    SplitNoSep(line, '\n');
    assert line == head + [':'] + (pad + value);
    SplitAround(head, pad + value, ':');
    SplitNoSep(head, ':');
    SplitNoSep(pad + value, ':');
    TrimPadded(pad, value, "");
    assert pad + value + "" == pad + value;
  }

  /** A first line that ends right after its only ':' has no value: the whole reply is used. */
  lemma {:induction false} ValueOfHeading(head: string, rest: string)
    requires ':' !in head && '\n' !in head
    ensures ValueOf(head + ":\n" + rest) == head + ":\n" + rest
  {
    var line := head + [':'];
    assert head + ":\n" + rest == line + ['\n'] + rest;
    SplitAround(line, rest, '\n');
    assert '\n' !in line;
    SplitNoSep(line, '\n');
    assert line == head + [':'] + "";
    SplitAround(head, "", ':');
    SplitNoSep(head, ':');
    assert Trim("") == "";
  }

  /** The location reply applies "San Francisco, CA": the text after its first ':'. */
  lemma {:induction false} LocationReplyValue()
    ensures ValueOf(Reply(3)) == "San Francisco, CA"
  {
    var h, v := "Updated location to", "San Francisco, CA";
    assert Headlines[3] == h + ":" + " " + v;
    LabelledReply(h, " ", v, Details[3]);
  }

  /** A reply whose headline is `head: value` applies the value. */
  lemma {:induction false} LabelledReply(head: string, pad: string, value: string, details: string)
    requires ':' !in head && '\n' !in head
    requires ':' !in pad + value && '\n' !in pad + value
    requires AllSpace(pad) && IsTrimmed(value) && value != ""
    ensures ValueOf(head + ":" + pad + value + "\n\n" + details) == value
  {
    assert head + ":" + pad + value + "\n\n" + details == head + [':'] + pad + value + ['\n'] + ("\n" + details);
    ValueOfLabelled(head, pad, value, "\n" + details);
  }

  /** The bio reply's headline ends at its ':', so the whole reply is applied as the value. */
  lemma {:induction false} BioReplyValue()
    ensures ValueOf(Reply(2)) == Reply(2)
  {
    var h := "Updated bio to emphasize leadership";
    assert Headlines[2] == h + ":";
    HeadingReply(h, Details[2]);
  }

  /** A reply whose headline ends at its only ':' applies itself whole. */
  lemma {:induction false} HeadingReply(head: string, details: string)
    requires ':' !in head && '\n' !in head
    ensures ValueOf(head + ":" + "\n\n" + details) == head + ":" + "\n\n" + details
  {
    assert head + ":" + "\n\n" + details == head + ":\n" + ("\n" + details);
    ValueOfHeading(head, "\n" + details);
  }

  /** The field of a reply whose first line is `head:…` is worked out from `head` alone. */
  lemma {:induction false} FieldOfLabelled(head: string, tail: string, rest: string)
    requires ':' !in head && '\n' !in head && '\n' !in tail
    ensures FieldOf(head + ":" + tail + "\n" + rest) == Trim(ReplaceFirst(ReplaceFirst(Lower(head), "updated", ""), "added", ""))
  {
    var line := head + [':'] + tail;
    assert head + ":" + tail + "\n" + rest == line + ['\n'] + rest;
    assert '\n' !in line;
    SplitAround(line, rest, '\n');
    SplitNoSep(line, '\n');
    SplitAround(head, tail, ':');
    SplitNoSep(head, ':');
  }

  /** The location reply edits the field named "location to". */
  lemma {:induction false} LocationReplyField()
    ensures FieldOf(Reply(3)) == "location to"
  {
    LocationHeadline();
    LowerLocationHead();
    DropUpdated();
    KeepWithoutAdded();
    TrimLocation(" location to");
  }

  lemma {:induction false} LowerLocationHead()
    ensures Lower("Updated location to") == "updated location to"
  {
    LowerLiteral("Updated location to", "updated location to");
  }

  lemma {:induction false} KeepWithoutAdded()
    ensures ReplaceFirst(" location to", "added", "") == " location to"
  {
    NotContainsMissingChar(" location to", "added", 1);
  }

  lemma {:induction false} TrimLocation(s: string)
    requires s == " location to"
    ensures Trim(s) == "location to"
  {
    LocationToTrimmed();
    TrimOneSpace("location to");
    assert " " + "location to" == s;
  }

  lemma {:induction false} LocationToTrimmed()
    ensures IsTrimmed("location to")
  {
  }

  /** One leading space around trimmed text is trimmed away. */
  lemma {:induction false} TrimOneSpace(t: string)
    requires IsTrimmed(t)
    ensures Trim(" " + t) == t
  {
    TrimPadded(" ", t, "");
    assert " " + t + "" == " " + t;
  }

  lemma {:induction false} LocationHeadline()
    ensures FieldOf(Reply(3)) == Trim(ReplaceFirst(ReplaceFirst(Lower("Updated location to"), "updated", ""), "added", ""))
  {
    var h, t := "Updated location to", " San Francisco, CA";
    assert Headlines[3] == h + ":" + t;
    FieldOfReply(h, t, Details[3]);
  }

  lemma {:induction false} FieldOfReply(head: string, tail: string, details: string)
    requires ':' !in head && '\n' !in head && '\n' !in tail
    ensures FieldOf(head + ":" + tail + "\n\n" + details) == Trim(ReplaceFirst(ReplaceFirst(Lower(head), "updated", ""), "added", ""))
  {
    assert head + ":" + tail + "\n\n" + details == head + ":" + tail + "\n" + ("\n" + details);
    FieldOfLabelled(head, tail, "\n" + details);
  }

  lemma {:induction false} DropUpdated()
    ensures ReplaceFirst("updated location to", "updated", "") == " location to"
  {
    assert IsPrefix("updated", "updated location to");
  }

  /** The field holds neither a ':' nor a line break: it comes from before the first of each. */
  lemma {:induction false} FieldShape(response: string)
    ensures ':' !in FieldOf(response) && '\n' !in FieldOf(response)
  {
    var line := Split(response, '\n')[0];
    var head := Split(line, ':')[0];
    assert ':' !in head;
    SplitPieceInside(line, ':', '\n');
    assert '\n' !in head;
    var l := Lower(head);
    assert ':' !in l && '\n' !in l;
    var a := ReplaceFirst(l, "updated", "");
    RemoveFirstKeepsOut(l, "updated", ':');
    RemoveFirstKeepsOut(l, "updated", '\n');
    var b := ReplaceFirst(a, "added", "");
    RemoveFirstKeepsOut(a, "added", ':');
    RemoveFirstKeepsOut(a, "added", '\n');
    var i := TrimOffset(b);
  }

  /** Deleting the first occurrence of a pattern brings in no new character. */
  lemma {:induction false} RemoveFirstKeepsOut(s: string, pat: string, c: char)
    requires c !in s
    ensures c !in ReplaceFirst(s, pat, "")
  {
    match IndexOf(s, pat)
    case None =>
    case Some(i) =>
      assert ReplaceFirst(s, pat, "") == s[..i] + "" + s[i + |pat|..];
      assert c !in s[..i] && c !in s[i + |pat|..];
  }

  /** A piece of a split never holds a character its whole lacked. */
  lemma {:induction false} SplitPieceInside(s: string, sep: char, c: char)
    requires c !in s
    ensures c !in Split(s, sep)[0]
    decreases |s|
  {
    if s != [] && s[0] != sep {
      SplitPieceInside(s[1..], sep, c);
    }
  }

  // ---------------------------------------------------------------- history

  /** One entry of the edit history; `id` stands in for the `Date.now()` string. */
  datatype EditRequest = EditRequest(id: nat, request: string, response: string, applied: bool)

  /** `prev.map(e => e.id === id ? {...e, applied: true} : e)`. */
  function MarkApplied(history: seq<EditRequest>, id: nat): (r: seq<EditRequest>)
    ensures |r| == |history|
  {
    seq(|history|, i requires 0 <= i < |history| =>
      if history[i].id == id then history[i].(applied := true) else history[i])
  }

  /** Marking keeps every entry in its place and sets `applied` on exactly the entries with that id. */
  lemma {:induction false} MarkAppliedEffect(history: seq<EditRequest>, id: nat)
    ensures forall i :: 0 <= i < |history| ==>
              var e, e' := history[i], MarkApplied(history, id)[i];
              e'.id == e.id && e'.request == e.request && e'.response == e.response
              && (e'.applied <==> e.applied || e.id == id)
    ensures forall i :: 0 <= i < |history| && history[i].id != id ==> MarkApplied(history, id)[i] == history[i]
  {
  }

  /** Applying twice is applying once. */
  lemma {:induction false} MarkAppliedIdempotent(history: seq<EditRequest>, id: nat)
    ensures MarkApplied(MarkApplied(history, id), id) == MarkApplied(history, id)
  {
  }

  /** `prev.filter(e => e.id !== id)`. */
  function RemoveById(history: seq<EditRequest>, id: nat): (r: seq<EditRequest>)
    ensures |r| <= |history|
    ensures forall e :: e in r <==> e in history && e.id != id
    decreases |history|
  {
    if history == [] then []
    else
      var rest := RemoveById(history[1..], id);
      if history[0].id == id then rest else [history[0]] + rest
  }

  /** Removal works piece by piece, so it keeps the remaining entries in their order. */
  lemma {:induction false} RemoveByIdAppend(a: seq<EditRequest>, b: seq<EditRequest>, id: nat)
    ensures RemoveById(a + b, id) == RemoveById(a, id) + RemoveById(b, id)
    decreases |a|
  {
    if a == [] {
      assert a + b == b;
    } else {
      assert (a + b)[1..] == a[1..] + b;
      RemoveByIdAppend(a[1..], b, id);
    }
  }

  /** When ids are unique, removing an entry that is present shortens the history by exactly one. */
  lemma {:induction false} RemoveOne(history: seq<EditRequest>, id: nat)
    requires UniqueIds(history)
    requires exists i :: 0 <= i < |history| && history[i].id == id
    ensures |RemoveById(history, id)| == |history| - 1
    decreases |history|
  {
    if history[0].id == id {
      NoneRemoved(history[1..], id);
    } else {
      RemoveOne(history[1..], id);
    }
  }

  /** Removing an id no entry has changes nothing. */
  lemma {:induction false} NoneRemoved(history: seq<EditRequest>, id: nat)
    requires forall i :: 0 <= i < |history| ==> history[i].id != id
    ensures RemoveById(history, id) == history
    decreases |history|
  {
    if history != [] {
      NoneRemoved(history[1..], id);
    }
  }

  predicate UniqueIds(history: seq<EditRequest>) {
    forall i, j :: 0 <= i < j < |history| ==> history[i].id != history[j].id
  }

  /** The co-pilot panel's state. */
  class CoPilotPanel {
    var input: string
    var isProcessing: bool
    /** Newest first. */
    var history: seq<EditRequest>
    /** The trimmed request waiting for the simulated processing delay to end. */
    var pending: Option<string>
    /** Stands in for `Date.now()`: an id no entry has yet. */
    var nextId: nat

    ghost predicate Valid()
      reads this
    {
      (isProcessing <==> pending.Some?)
      && (forall i :: 0 <= i < |history| ==> history[i].id < nextId)
      && UniqueIds(history)
    }

    constructor ()
      ensures Valid() && input == "" && !isProcessing && history == [] && pending == None && nextId == 0
    {
      input := "";
      isProcessing := false;
      history := [];
      pending := None;
      nextId := 0;
    }

    method SetInput(text: string)
      requires Valid()
      modifies this
      ensures Valid() && input == text
      ensures isProcessing == old(isProcessing) && history == old(history) && pending == old(pending)
      ensures nextId == old(nextId)
    {
      input := text;
    }

    /** `handleSubmit` up to the timer: ignored for blank input or while processing. */
    method Submit()
      requires Valid()
      modifies this
      ensures Valid() && history == old(history) && nextId == old(nextId)
      ensures Trim(old(input)) == "" || old(isProcessing) ==>
                input == old(input) && isProcessing == old(isProcessing) && pending == old(pending)
      ensures Trim(old(input)) != "" && !old(isProcessing) ==>
                input == "" && isProcessing && pending == Some(Trim(old(input)))
    {
      var text := Trim(input);
      if text == "" || isProcessing {
        return;
      }
      input := "";
      isProcessing := true;
      pending := Some(text);
    }

    /** The timer callback: the reply is prepended, not yet applied. */
    method Complete()
      requires Valid() && isProcessing
      modifies this
      ensures Valid() && !isProcessing && input == old(input) && pending == None && nextId == old(nextId) + 1
      ensures history == [EditRequest(old(nextId), old(pending).value, EditResponse(old(pending).value), false)]
                         + old(history)
    {
      var request := pending.value;
      Record(request, EditResponse(request));
    }

    /** Prepend an unapplied entry under a fresh id and stop processing. */
    method Record(request: string, response: string)
      requires Valid()
      modifies this
      ensures Valid() && !isProcessing && input == old(input) && pending == None && nextId == old(nextId) + 1
      ensures history == [EditRequest(old(nextId), request, response, false)] + old(history)
    {
      history := [EditRequest(nextId, request, response, false)] + history;
      nextId := nextId + 1;
      pending := None;
      isProcessing := false;
    }

    /** `handleApply`: the parsed edit is handed on and the entry is marked applied. */
    method Apply(entry: EditRequest) returns (edit: Edit)
      requires Valid()
      modifies this
      ensures Valid() && input == old(input) && isProcessing == old(isProcessing)
      ensures pending == old(pending) && nextId == old(nextId)
      ensures edit == ParseApply(entry.response)
      ensures history == MarkApplied(old(history), entry.id)
    {
      edit := ParseApply(entry.response);
      MarkAppliedEffect(history, entry.id);
      history := MarkApplied(history, entry.id);
    }

    /** The remove button: the entries with that id leave the history. */
    method Remove(id: nat)
      requires Valid()
      modifies this
      ensures Valid() && input == old(input) && isProcessing == old(isProcessing)
      ensures pending == old(pending) && nextId == old(nextId)
      ensures history == RemoveById(old(history), id)
    {
      RemoveKeepsIds(history, id);
      history := RemoveById(history, id);
    }
  }

  /** Removal keeps the remaining ids unique. */
  lemma {:induction false} RemoveKeepsIds(history: seq<EditRequest>, id: nat)
    requires UniqueIds(history)
    ensures UniqueIds(RemoveById(history, id))
    decreases |history|
  {
    if history != [] {
      RemoveKeepsIds(history[1..], id);
      var rest := RemoveById(history[1..], id);
      assert forall e :: e in rest ==> e in history[1..];
      if history[0].id != id {
        var r := [history[0]] + rest;
        forall i, j | 0 <= i < j < |r| ensures r[i].id != r[j].id {
          if i == 0 {
            assert r[j] in history[1..];
          }
        }
      }
    }
  }
}
