/**
 * The showcase profile page's pure rules: the AI-personality record and the
 * settings controls that each return a copy with one field changed, the
 * comma-separated trait list, the reset to the default personality, and the
 * split of the works into one featured project and the rest.
 */
module Personality {
  import opened Wrappers
  import opened Text

  datatype Tone = Professional | Casual | Friendly | Witty | Technical
  datatype ResponseLength = Concise | Balanced | Detailed

  /** The slider's range: 1 (very casual) to 10 (very formal). */
  type Formality = x: int | 1 <= x <= 10 witness 1

  /** The tone buttons and the response-length buttons, in display order. */
  const ToneOptions: seq<Tone> := [Professional, Casual, Friendly, Witty, Technical]
  const ResponseLengthOptions: seq<ResponseLength> := [Concise, Balanced, Detailed]

  /** Every tone has a button, and every response length too. */
  lemma {:induction false} OptionsCoverEveryValue(t: Tone, l: ResponseLength)
    ensures t in ToneOptions && l in ResponseLengthOptions
  {
  }

  datatype AIPersonality = AIPersonality(
    tone: Tone,
    formalityLevel: Formality,
    customInstructions: Option<string>,
    responseLength: ResponseLength,
    personalityTraits: Option<seq<string>>)

  const DefaultPersonality: AIPersonality :=
    AIPersonality(Professional, 7, None, Balanced, Some(["systems thinker", "fast execution"]))

  /** A tone button: `{...personality, tone}`. */
  function ChooseTone(p: AIPersonality, t: Tone): (r: AIPersonality)
    ensures r.tone == t
    ensures r.(tone := p.tone) == p
  {
    p.(tone := t)
  }

  /** The formality slider; the range input only produces whole numbers from 1 to 10. */
  function SlideFormality(p: AIPersonality, level: Formality): (r: AIPersonality)
    ensures r.formalityLevel == level
    ensures r.(formalityLevel := p.formalityLevel) == p
  {
    p.(formalityLevel := level)
  }

  /** A response-length button. */
  function ChooseLength(p: AIPersonality, l: ResponseLength): (r: AIPersonality)
    ensures r.responseLength == l
    ensures r.(responseLength := p.responseLength) == p
  {
    p.(responseLength := l)
  }

  /** The custom-instructions box: `event.target.value || undefined`, so clearing it removes the setting. */
  function EditInstructions(p: AIPersonality, text: string): (r: AIPersonality)
    ensures r.(customInstructions := p.customInstructions) == p
    ensures r.customInstructions != Some("")
    ensures r.customInstructions.GetOr("") == text
  {
    p.(customInstructions := if text == "" then None else Some(text))
  }

  /** The traits field: the typed text parsed into a list. */
  function EditTraits(p: AIPersonality, text: string): (r: AIPersonality)
    ensures r.(personalityTraits := p.personalityTraits) == p
    ensures r.personalityTraits == Some(ParseTraits(text))
  {
    p.(personalityTraits := Some(ParseTraits(text)))
  }

  /** The "Reset" button. */
  function Reset(p: AIPersonality): (r: AIPersonality)
    ensures r == DefaultPersonality
    ensures r.tone == Professional && r.formalityLevel == 7 && r.responseLength == Balanced
    ensures r.customInstructions == None && r.personalityTraits == Some(["systems thinker", "fast execution"])
  {
    DefaultPersonality
  }

  // ---------------------------------------------------------------- traits

  /** A trait the parser can produce: non-empty, trimmed, without a comma. */
  predicate WellFormedTrait(t: string) {
    t != "" && IsTrimmed(t) && ',' !in t
  }

  /** `.map(trait => trait.trim()).filter(Boolean)` over the pieces of the split. */
  function CleanTraits(pieces: seq<string>): (r: seq<string>)
    requires forall k :: 0 <= k < |pieces| ==> ',' !in pieces[k]
    ensures |r| <= |pieces|
    ensures forall k :: 0 <= k < |r| ==> WellFormedTrait(r[k])
    decreases |pieces|
  {
    if pieces == [] then []
    else
      var t := Trim(pieces[0]);
      TrimInside(pieces[0], ',');
      (if t == "" then [] else [t]) + CleanTraits(pieces[1..])
  }

  /** Trimming never brings in a character. */
  lemma {:induction false} TrimInside(s: string, c: char)
    requires c !in s
    ensures c !in Trim(s)
  {
    var i := TrimOffset(s);
  }

  /** The traits typed into the field: split on ",", each piece trimmed, empty pieces dropped. */
  function ParseTraits(text: string): (r: seq<string>)
    ensures forall k :: 0 <= k < |r| ==> WellFormedTrait(r[k])
  {
    CleanTraits(Split(text, ','))
  }

  /** What the traits field shows: the list joined with ", ". */
  function DisplayTraits(p: AIPersonality): (r: string)
    ensures p.personalityTraits.None? ==> r == ""
    ensures p.personalityTraits.Some? && (forall k :: 0 <= k < |p.personalityTraits.value| ==>
                                            WellFormedTrait(p.personalityTraits.value[k]))
            ==> ParseTraits(r) == p.personalityTraits.value
  {
    var traits := p.personalityTraits.GetOr([]);
    // Both branches show the same text; the first also brings in the round trip its ensures promises.
    if forall k :: 0 <= k < |traits| ==> WellFormedTrait(traits[k]) then
      ParseDisplayedTraits(traits);
      Join(traits, ", ")
    else Join(traits, ", ")
  }

  /** Re-parsing a displayed list of well-formed traits gives the same list. */
  lemma {:induction false} ParseDisplayedTraits(traits: seq<string>)
    requires forall k :: 0 <= k < |traits| ==> WellFormedTrait(traits[k])
    ensures ParseTraits(Join(traits, ", ")) == traits
  {
    assert "" + Join(traits, ", ") == Join(traits, ", ");
    ParsePadded("", traits);
  }

  /** The round trip with any white space in front: it is trimmed off the first trait. */
  lemma {:induction false} ParsePadded(lead: string, traits: seq<string>)
    requires AllSpace(lead)
    requires forall k :: 0 <= k < |traits| ==> WellFormedTrait(traits[k])
    ensures ParseTraits(lead + Join(traits, ", ")) == traits
    decreases |traits|
  {
    SpaceHasNoComma(lead);
    if traits == [] {
      assert lead + Join(traits, ", ") == lead;
      ParseBlank(lead);
    } else if |traits| == 1 {
      assert lead + Join(traits, ", ") == lead + traits[0];
      ParseLast(lead, traits[0]);
    } else {
      var t := traits[0];
      var rest := Join(traits[1..], ", ");
      assert lead + Join(traits, ", ") == (lead + t) + [','] + (" " + rest);
      ParsePadded(" ", traits[1..]);
      ParseCons(lead, t, " " + rest);
    }
  }

  lemma {:induction false} SpaceHasNoComma(lead: string)
    requires AllSpace(lead)
    ensures ',' !in lead
  {
  }

  /** The last piece: padding then one trait parses to that trait. */
  lemma {:induction false} ParseLast(lead: string, t: string)
    requires AllSpace(lead) && ',' !in lead && WellFormedTrait(t)
    ensures ParseTraits(lead + t) == [t]
  {
    assert ',' !in lead + t;
    SplitNoSep(lead + t, ',');
    TrimPadded(lead, t, "");
    assert lead + t + "" == lead + t;
    assert CleanTraits([lead + t]) == [t] + CleanTraits([]);
  }

  /** Padding alone parses to no trait at all. */
  lemma {:induction false} ParseBlank(lead: string)
    requires AllSpace(lead) && ',' !in lead
    ensures ParseTraits(lead) == []
  {
    SplitNoSep(lead, ',');
    TrimPadded(lead, "", "");
    assert lead + "" + "" == lead;
  }

  /** A padded trait before a comma parses to that trait followed by the parse of the rest. */
  lemma {:induction false} ParseCons(lead: string, t: string, rest: string)
    requires AllSpace(lead) && ',' !in lead && WellFormedTrait(t)
    ensures ParseTraits((lead + t) + [','] + rest) == [t] + ParseTraits(rest)
  {
    assert ',' !in lead + t;
    SplitAround(lead + t, rest, ',');
    SplitNoSep(lead + t, ',');
    TrimPadded(lead, t, "");
    assert lead + t + "" == lead + t;
    var pieces := Split((lead + t) + [','] + rest, ',');
    assert pieces == [lead + t] + Split(rest, ',');
    assert pieces[1..] == Split(rest, ',');
  }

  /** Parsing what the field shows after an edit gives back the same list: the display is stable. */
  lemma {:induction false} TraitsStable(p: AIPersonality, text: string)
    ensures ParseTraits(DisplayTraits(EditTraits(p, text))) == ParseTraits(text)
  {
    ParseDisplayedTraits(ParseTraits(text));
  }

  // ---------------------------------------------------------------- projects

  datatype WorkStatus = Completed | InProgress | Archived

  datatype Work = Work(
    title: string, description: string, coverImage: Option<string>, links: seq<string>,
    status: WorkStatus, startDate: Option<string>, endDate: Option<string>,
    tags: Option<seq<string>>, impact: Option<string>)

  /** The card data of a project in the "All Projects" grid. */
  datatype ProjectCard = ProjectCard(
    title: string, impact: string, status: WorkStatus, tags: Option<seq<string>>,
    startDate: Option<string>, endDate: Option<string>, cover: Option<string>,
    description: string, links: seq<string>)

  function Card(w: Work): (r: ProjectCard)
    ensures r.title == w.title && r.status == w.status && r.tags == w.tags && r.description == w.description
    ensures r.startDate == w.startDate && r.endDate == w.endDate && r.cover == w.coverImage && r.links == w.links
    ensures w.impact.None? ==> r.impact == ""
    ensures w.impact.Some? ==> r.impact == w.impact.value  // `??` replaces only a missing impact, never an empty one
  {
    ProjectCard(w.title, w.impact.GetOr(""), w.status, w.tags, w.startDate, w.endDate,
                w.coverImage, w.description, w.links)
  }

  /** `works[0]`, absent for an empty list. */
  function FeaturedProject(works: seq<Work>): (r: Option<Work>)
    ensures r.Some? <==> works != []
    ensures r.Some? ==> r.value == works[0]
  {
    if works == [] then None else Some(works[0])
  }

  /** `works.slice(1).map(...)`: every work but the first, in order. */
  function AdditionalProjects(works: seq<Work>): (r: seq<ProjectCard>)
    ensures |r| == if works == [] then 0 else |works| - 1
    ensures forall i :: 0 <= i < |r| ==> r[i] == Card(works[i + 1])
  {
    if works == [] then [] else seq(|works| - 1, i requires 0 <= i < |works| - 1 => Card(works[i + 1]))
  }

  /** The featured project and the grid together show every work once, in order. */
  lemma {:induction false} ProjectsPartitionWorks(works: seq<Work>)
    ensures var titles := seq(|AdditionalProjects(works)|, i requires 0 <= i < |AdditionalProjects(works)| =>
                                AdditionalProjects(works)[i].title);
            (match FeaturedProject(works) case Some(w) => [w.title] case None => []) + titles
            == seq(|works|, i requires 0 <= i < |works| => works[i].title)
  {
  }
}
