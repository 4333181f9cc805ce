/**
 * The onboarding wizard: a step counter from 1 to 4 moved by next and back,
 * the progress indicator derived from it, the one step body it shows, the
 * review step's case-sensitive edit routing, and the username step's
 * availability rule and launch gate.
 */
module Onboarding {
  import opened Wrappers
  import opened Text
  import CoPilot

  const StepCount: nat := 4
  const StepTitles: seq<string> := ["Welcome", "Upload Resume", "Review & Edit", "Choose Username"]

  // ---------------------------------------------------------------- progress

  /** The step's circle shows ✓. */
  predicate Completed(current: int, id: int) {
    current > id
  }

  /** The step's circle and title are lit. */
  predicate Highlighted(current: int, id: int) {
    current >= id
  }

  /** The bar after step `id` (steps 1 to 3 have one) is lit. */
  predicate ConnectorLit(current: int, id: int) {
    current > id
  }

  /** The current step is the only one lit without a ✓; the ones before it are ticked, the ones after it dark. */
  lemma {:induction false} ProgressShape(current: int, id: int)
    ensures Highlighted(current, id) && !Completed(current, id) <==> id == current
    ensures Completed(current, id) ==> Highlighted(current, id)
    ensures !Highlighted(current, id) <==> id > current
    ensures ConnectorLit(current, id) <==> Completed(current, id)
  {
  }

  /** The progress indicator: per step, whether it is ticked and whether it is lit. */
  function Progress(current: int): (r: seq<(bool, bool)>)
    ensures |r| == StepCount
    ensures forall k :: 0 <= k < StepCount ==> r[k] == (Completed(current, k + 1), Highlighted(current, k + 1))
  {
    seq(StepCount, k requires 0 <= k < StepCount => (Completed(current, k + 1), Highlighted(current, k + 1)))
  }

  function Repeat<T>(x: T, n: nat): (r: seq<T>)
    ensures |r| == n && forall k :: 0 <= k < n ==> r[k] == x
  {
    seq(n, _ => x)
  }

  /** On step `current`: the steps before it ticked and lit, it lit without a tick, the rest dark. */
  lemma {:induction false} ProgressLayout(current: int)
    requires 1 <= current <= StepCount
    ensures Progress(current) == Repeat((true, true), current - 1) + [(false, true)]
                                 + Repeat((false, false), StepCount - current)
  {
    var lhs := Progress(current);
    var rhs := Repeat((true, true), current - 1) + [(false, true)] + Repeat((false, false), StepCount - current);
    assert |lhs| == |rhs|;
    forall k | 0 <= k < StepCount ensures lhs[k] == rhs[k] {
      if k < current - 1 {
      } else if k == current - 1 {
      } else {
        assert rhs[k] == Repeat((false, false), StepCount - current)[k - current];
      }
    }
  }

  // ---------------------------------------------------------------- step bodies

  datatype StepBody = WelcomeBody | UploadBody | ReviewBody | UsernameBody

  /** The four `currentStep === n && <Body/>` slots, in order; the ones whose test fails render nothing. */
  function RenderedBodies(current: int): (r: seq<StepBody>)
    ensures |r| <= 1
  {
    (if current == 1 then [WelcomeBody] else [])
    + (if current == 2 then [UploadBody] else [])
    + (if current == 3 then [ReviewBody] else [])
    + (if current == 4 then [UsernameBody] else [])
  }

  /** Each step from 1 to 4 shows exactly one body, its own. */
  lemma {:induction false} OneBodyPerStep(current: int)
    requires 1 <= current <= StepCount
    ensures |RenderedBodies(current)| == 1
    ensures RenderedBodies(current)[0] == [WelcomeBody, UploadBody, ReviewBody, UsernameBody][current - 1]
  {
  }

  // ---------------------------------------------------------------- review step

  datatype ReviewProfile = ReviewProfile(name: string, tagline: string, bio: string)

  const InitialReview: ReviewProfile := ReviewProfile(
    "Tom Smith",
    "Full-Stack Developer & AI Enthusiast",
    "Passionate developer building AI-powered products...")

  datatype ReviewField = NameField | TaglineField | BioField

  /** The review step's routing: "name", then "tagline", then "bio", matched case-sensitively. */
  function ReviewTarget(field: string): (r: Option<ReviewField>)
    ensures r == Some(NameField) <==> Contains(field, "name")
    ensures r == Some(TaglineField) <==> !Contains(field, "name") && Contains(field, "tagline")
    ensures r == Some(BioField) <==> !Contains(field, "name") && !Contains(field, "tagline") && Contains(field, "bio")
    ensures r == None <==> !Contains(field, "name") && !Contains(field, "tagline") && !Contains(field, "bio")
  {
    if Contains(field, "name") || Contains(field, "tagline") || Contains(field, "bio") then
      Some(if Contains(field, "name") then NameField else if Contains(field, "tagline") then TaglineField else BioField)
    else None
  }

  /** `ReviewStep.handleApplyEdit`: `{...prev, [field]: value}` for the routed field, otherwise nothing. */
  function ReviewApply(p: ReviewProfile, edit: CoPilot.Edit): (r: ReviewProfile)
    ensures ReviewTarget(edit.field) == None ==> r == p
    ensures ReviewTarget(edit.field) == Some(NameField) ==> r == p.(name := edit.value)
    ensures ReviewTarget(edit.field) == Some(TaglineField) ==> r == p.(tagline := edit.value)
    ensures ReviewTarget(edit.field) == Some(BioField) ==> r == p.(bio := edit.value)
  {
    match ReviewTarget(edit.field)
    case None => p
    case Some(NameField) => p.(name := edit.value)
    case Some(TaglineField) => p.(tagline := edit.value)
    case Some(BioField) => p.(bio := edit.value)
  }

  /** Unlike the edit page, the review step does not lower-case: "Name" is not routed anywhere. */
  lemma {:induction false} ReviewIsCaseSensitive(p: ReviewProfile, value: string)
    ensures ReviewApply(p, CoPilot.Edit("Name", value)) == p
  {
    NotContainsMissingChar("Name", "name", 0);
    NotContainsMissingChar("Name", "tagline", 0);
    NotContainsMissingChar("Name", "bio", 0);
  }

  // ---------------------------------------------------------------- username step

  /** The simulated availability check: longer than three characters and no space. */
  predicate Available(value: string) {
    |value| > 3 && ' ' !in value
  }

  /** The launch button is enabled only once a check has answered true; unknown and false disable it. */
  predicate LaunchEnabled(isAvailable: Option<bool>) {
    isAvailable == Some(true)
  }

  /** The status line under the input, shown only when a username is typed. */
  function AvailabilityLabel(username: string, isAvailable: Option<bool>): (r: Option<string>)
    ensures r.None? <==> username == ""
    ensures r.Some? && LaunchEnabled(isAvailable) ==> r.value == "✓ Available"
    ensures r.Some? && !LaunchEnabled(isAvailable) ==> r.value != "✓ Available"
  {
    if username == "" then None
    else if isAvailable == Some(true) then Some("✓ Available")
    else if isAvailable == Some(false) then Some("✗ Not available")
    else Some("Checking...")
  }

  // ---------------------------------------------------------------- the wizard

  class Wizard {
    var currentStep: int
    var resumeData: string
    var username: string
    /** The review step's own state: created afresh whenever step 3 is entered. */
    var review: ReviewProfile
    /** The username step's own state: reset whenever step 4 is entered. */
    var isAvailable: Option<bool>
    /** Availability checks scheduled and not yet answered, oldest first. */
    var pendingChecks: seq<string>
    /** The step an upload began on: its timer moves on from there. */
    var uploadFrom: Option<int>
    /** The step a clipboard read began on: its callback moves on from there. */
    var pasteFrom: Option<int>

    ghost predicate Valid()
      reads this
    {
      1 <= currentStep <= StepCount
      && (pendingChecks != [] ==> currentStep == 4 && pendingChecks[|pendingChecks| - 1] == username)
      && (uploadFrom.Some? ==> 1 <= uploadFrom.value <= StepCount)
      && (pasteFrom.Some? ==> 1 <= pasteFrom.value <= StepCount)
    }

    constructor ()
      ensures Valid() && currentStep == 1 && resumeData == "" && username == ""
      ensures isAvailable == None && pendingChecks == [] && uploadFrom == None && pasteFrom == None
    {
      currentStep := 1;
      resumeData := "";
      username := "";
      review := InitialReview;
      isAvailable := None;
      pendingChecks := [];
      uploadFrom := None;
      pasteFrom := None;
    }

    /** Entering a step mounts its body afresh; leaving step 4 drops its pending checks. */
    method GoTo(step: int)
      requires Valid() && 1 <= step <= StepCount
      modifies this
      ensures Valid() && currentStep == step
      ensures resumeData == old(resumeData) && username == old(username)
      ensures uploadFrom == old(uploadFrom) && pasteFrom == old(pasteFrom)
      ensures review == (if step == 3 && old(currentStep) != 3 then InitialReview else old(review))
      ensures isAvailable == (if step == 4 && old(currentStep) != 4 then None else old(isAvailable))
      ensures pendingChecks == (if step == 4 then old(pendingChecks) else [])
    {
      if step == 3 && currentStep != 3 {
        review := InitialReview;
      }
      if step == 4 && currentStep != 4 {
        isAvailable := None;
      }
      if step != 4 {
        pendingChecks := [];
      }
      currentStep := step;
    }

    /** `nextStep`: forward one step, except on the last. */
    method NextStep()
      requires Valid()
      modifies this
      ensures Valid()
      ensures currentStep == if old(currentStep) < StepCount then old(currentStep) + 1 else old(currentStep)
      ensures resumeData == old(resumeData) && username == old(username)
      ensures uploadFrom == old(uploadFrom) && pasteFrom == old(pasteFrom)
      ensures review == (if currentStep == 3 && old(currentStep) != 3 then InitialReview else old(review))
      ensures isAvailable == (if currentStep == 4 && old(currentStep) != 4 then None else old(isAvailable))
      ensures pendingChecks == (if currentStep == 4 then old(pendingChecks) else [])
    {
      if currentStep < StepCount {
        GoTo(currentStep + 1);
      }
    }

    /** `prevStep`: back one step, except on the first. */
    method PrevStep()
      requires Valid()
      modifies this
      ensures Valid()
      ensures currentStep == if old(currentStep) > 1 then old(currentStep) - 1 else old(currentStep)
      ensures resumeData == old(resumeData) && username == old(username)
      ensures uploadFrom == old(uploadFrom) && pasteFrom == old(pasteFrom)
      ensures review == (if currentStep == 3 && old(currentStep) != 3 then InitialReview else old(review))
      ensures isAvailable == (if currentStep == 4 && old(currentStep) != 4 then None else old(isAvailable))
      ensures pendingChecks == (if currentStep == 4 then old(pendingChecks) else [])
    {
      if currentStep > 1 {
        GoTo(currentStep - 1);
      }
    }

    /** A file is chosen: processing starts, remembering the step it started on. */
    method StartUpload()
      requires Valid()
      modifies this
      ensures Valid() && uploadFrom == Some(old(currentStep)) && currentStep == old(currentStep)
      ensures resumeData == old(resumeData) && username == old(username) && pasteFrom == old(pasteFrom)
      ensures review == old(review) && isAvailable == old(isAvailable) && pendingChecks == old(pendingChecks)
    {
      uploadFrom := Some(currentStep);
    }

    /**
     * The upload timer: the placeholder text is stored and the wizard moves on
     * from the step the upload began on, even if the user has moved since.
     */
    method FinishUpload()
      requires Valid() && uploadFrom.Some?
      modifies this
      ensures Valid() && resumeData == "Extracted resume data would appear here..." && uploadFrom == None
      ensures pasteFrom == old(pasteFrom) && username == old(username)
      ensures currentStep == if old(uploadFrom).value < StepCount then old(uploadFrom).value + 1 else old(currentStep)
      ensures review == (if currentStep == 3 && old(currentStep) != 3 then InitialReview else old(review))
      ensures isAvailable == (if currentStep == 4 && old(currentStep) != 4 then None else old(isAvailable))
      ensures pendingChecks == (if currentStep == 4 then old(pendingChecks) else [])
    {
      var from := uploadFrom.value;
      uploadFrom := None;
      resumeData := "Extracted resume data would appear here...";
      if from < StepCount {
        GoTo(from + 1);
      }
    }

    /** The paste button: the clipboard read starts, remembering the step it started on. */
    method StartPaste()
      requires Valid()
      modifies this
      ensures Valid() && pasteFrom == Some(old(currentStep)) && currentStep == old(currentStep)
      ensures resumeData == old(resumeData) && username == old(username) && uploadFrom == old(uploadFrom)
      ensures review == old(review) && isAvailable == old(isAvailable) && pendingChecks == old(pendingChecks)
    {
      pasteFrom := Some(currentStep);
    }

    /**
     * The clipboard read resolves with `text`: it becomes the resume data and
     * the wizard moves on from the step the paste began on, even if the user
     * has moved since.
     */
    method FinishPaste(text: string)
      requires Valid() && pasteFrom.Some?
      modifies this
      ensures Valid() && resumeData == text && pasteFrom == None && uploadFrom == old(uploadFrom)
      ensures username == old(username)
      ensures currentStep == if old(pasteFrom).value < StepCount then old(pasteFrom).value + 1 else old(currentStep)
      ensures review == (if currentStep == 3 && old(currentStep) != 3 then InitialReview else old(review))
      ensures isAvailable == (if currentStep == 4 && old(currentStep) != 4 then None else old(isAvailable))
      ensures pendingChecks == (if currentStep == 4 then old(pendingChecks) else [])
    {
      var from := pasteFrom.value;
      pasteFrom := None;
      resumeData := text;
      if from < StepCount {
        GoTo(from + 1);
      }
    }

    /** The review step's `onApplyEdit`. */
    method ApplyReviewEdit(edit: CoPilot.Edit)
      requires Valid() && currentStep == 3
      modifies this
      ensures Valid() && review == ReviewApply(old(review), edit) && currentStep == old(currentStep)
      ensures resumeData == old(resumeData) && username == old(username)
      ensures isAvailable == old(isAvailable) && pendingChecks == old(pendingChecks)
      ensures uploadFrom == old(uploadFrom) && pasteFrom == old(pasteFrom)
    {
      review := ReviewApply(review, edit);
    }

    /** Typing a username: stored at once, its check answered later. */
    method CheckAvailability(value: string)
      requires Valid() && currentStep == 4
      modifies this
      ensures Valid() && username == value && pendingChecks == old(pendingChecks) + [value]
      ensures isAvailable == old(isAvailable) && currentStep == old(currentStep)
      ensures resumeData == old(resumeData) && review == old(review)
      ensures uploadFrom == old(uploadFrom) && pasteFrom == old(pasteFrom)
    {
      username := value;
      pendingChecks := pendingChecks + [value];
    }

    /** The oldest check's timer fires and records its verdict. */
    method AnswerCheck()
      requires Valid() && pendingChecks != []
      modifies this
      ensures Valid() && isAvailable == Some(Available(old(pendingChecks)[0]))
      ensures pendingChecks == old(pendingChecks)[1..] && username == old(username)
      ensures pendingChecks == [] ==> isAvailable == Some(Available(username))
      ensures currentStep == old(currentStep) && resumeData == old(resumeData) && review == old(review)
      ensures uploadFrom == old(uploadFrom) && pasteFrom == old(pasteFrom)
    {
      isAvailable := Some(Available(pendingChecks[0]));
      pendingChecks := pendingChecks[1..];
    }

    /** "Launch Profile": navigates to `/<username>` when enabled, does nothing otherwise. */
    method Launch() returns (destination: Option<string>)
      requires Valid()
      ensures destination.Some? <==> LaunchEnabled(isAvailable)
      ensures destination.Some? ==> destination.value == "/" + username
    {
      if isAvailable == Some(true) {
        return Some("/" + username);
      }
      return None;
    }
  }

  /**
   * Paste on the upload step, go back before the clipboard answers: the
   * answer still moves the wizard on to the review step.
   */
  method PasteThenBack(text: string) returns (w: Wizard)
    ensures w.Valid() && w.currentStep == 3 && w.resumeData == text && w.pasteFrom == None
  {
    w := new Wizard();
    w.NextStep();
    w.StartPaste();
    w.PrevStep();
    w.FinishPaste(text);
  }

  /** The same for an upload: its timer moves on from the upload step, not from where the user is. */
  method UploadThenBack() returns (w: Wizard)
    ensures w.Valid() && w.currentStep == 3 && w.uploadFrom == None
    ensures w.resumeData == "Extracted resume data would appear here..."
  {
    w := new Wizard();
    w.NextStep();
    w.StartUpload();
    w.PrevStep();
    w.FinishUpload();
  }

  /** Once every check has been answered, launching is possible exactly for an available username. */
  lemma {:induction false} LaunchMatchesUsername(username: string, isAvailable: Option<bool>)
    requires isAvailable == Some(Available(username))
    ensures LaunchEnabled(isAvailable) <==> |username| > 3 && ' ' !in username
  {
  }
}
