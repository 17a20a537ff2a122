/** The workflow controller (App.tsx): the seven state fields of the page,
    the readiness gate, generation split at its await point into a start
    phase and a settle phase, the reset action, and which stages of the form
    are on screen. */
module App {
  import opened Types
  import GeminiService
  import ResultDisplay

  /** The message shown for every failed generation. */
  const FailureMessage := "Failed to generate image. Please check the console for details and try again."

  /** The base64 image returned by the adapter is shown as a PNG data URL. */
  const ResultPrefix := "data:image/png;base64,"

  /** A snapshot of the seven state fields. */
  datatype WorkflowState = WorkflowState(
    person1Image: Option<ImageFile>,
    person2Image: Option<ImageFile>,
    generationType: Option<GenerationType>,
    selectedLocation: Option<string>,
    isLoading: bool,
    generatedImage: Option<string>,
    error: Option<string>)

  /** The state on first render and after a reset. */
  const Initial := WorkflowState(None, None, None, None, false, None, None)

  /** The arguments handleGenerate passes to the adapter. */
  datatype GenerateCall = GenerateCall(p1: ImageFile, p2: ImageFile, t: GenerationType, location: Option<string>)

  /** isReadyToGenerate: both photos, a generation type, and, for the
      Location type, a non-empty location. A ready state also passes the
      null checks handleGenerate repeats after it. */
  predicate IsReadyToGenerate(s: WorkflowState)
    ensures IsReadyToGenerate(s) ==>
      s.person1Image.Some? && s.person2Image.Some? && s.generationType.Some?
  {
    if s.person1Image.None? || s.person2Image.None? || s.generationType.None? then false
    else if s.generationType.value == Location && !Truthy(s.selectedLocation) then false
    else true
  }

  /** The result image and the error are never both present, and neither is
      present while a generation is in flight. */
  predicate Consistent(s: WorkflowState)
  {
    !(s.generatedImage.Some? && s.error.Some?) &&
    (s.isLoading ==> s.generatedImage.None? && s.error.None?)
  }

  /** The readiness gate in closed form. */
  lemma ReadyIff(s: WorkflowState)
    ensures IsReadyToGenerate(s) <==>
      s.person1Image.Some? && s.person2Image.Some? && s.generationType.Some? &&
      (s.generationType.value != Location || Truthy(s.selectedLocation))
  {
  }

  /** A ready state with the Location type has a non-empty location, so the
      non-null assertion on it holds, and the prompt built from it contains
      it verbatim. */
  lemma ReadyLocationIsForwarded(s: WorkflowState)
    requires IsReadyToGenerate(s) && s.generationType == Some(Location)
    ensures Truthy(s.selectedLocation)
    ensures var p := GeminiService.PromptFor(Location, s.selectedLocation);
      var loc := s.selectedLocation.value;
      var k := |GeminiService.LocationPrefix|;
      k + |loc| <= |p| && p[k..k + |loc|] == loc
  {
    GeminiService.LocationPromptContains(s.selectedLocation.value);
  }

  // ---------------------------------------------------------------------------
  // Which stages are on screen
  // ---------------------------------------------------------------------------

  /** The upload and selection stages and the generate button are shown
      unless an image is displayed or a generation is in flight. */
  predicate ShowsInputStages(s: WorkflowState)
    ensures ShowsInputStages(s) ==>
      !ResultDisplay.ShowsSpinner(ResultPanel(s)) && !ResultDisplay.ShowsSuccess(ResultPanel(s))
  {
    !Truthy(s.generatedImage) && !s.isLoading
  }

  /** Step 2, the type choice, once both photos are present: a ready state
      whose input stages are shown always shows it. */
  predicate ShowsTypeStep(s: WorkflowState)
    ensures ShowsInputStages(s) && IsReadyToGenerate(s) ==> ShowsTypeStep(s)
  {
    ShowsInputStages(s) && s.person1Image.Some? && s.person2Image.Some?
  }

  /** Step 3, the location choice, for the Location type only: while it is
      hidden, the location plays no part in readiness. */
  predicate ShowsLocationStep(s: WorkflowState)
    ensures ShowsInputStages(s) && !ShowsLocationStep(s) ==>
      (IsReadyToGenerate(s) <==> s.person1Image.Some? && s.person2Image.Some? && s.generationType.Some?)
  {
    ShowsInputStages(s) && s.generationType == Some(Location)
  }

  /** The generate button is disabled while loading, and a press on the
      enabled button always gets past handleGenerate's guard. */
  predicate GenerateDisabled(s: WorkflowState)
    ensures s.isLoading ==> GenerateDisabled(s)
    ensures !GenerateDisabled(s) ==> IsReadyToGenerate(s) && s.person1Image.Some? && s.person2Image.Some? && s.generationType.Some?
  {
    !IsReadyToGenerate(s) || s.isLoading
  }

  /** The one callback the page hands to the result panel. */
  datatype Handler = HandleReset

  /** The result panel for a state, with its buttons bound to the reset
      action. No reset button is rendered while loading, and a consistent
      state shows nothing or exactly one view. */
  function ResultPanel(s: WorkflowState): (v: ResultDisplay.View<Handler>)
    ensures ResultDisplay.OffersReset(v) ==> !s.isLoading
    ensures ResultDisplay.ShowsError(v) ==> v.errorView.value.onTryAgain == HandleReset
    ensures ResultDisplay.ShowsSuccess(v) ==> v.successView.value.onCreateAnother == HandleReset
    ensures Consistent(s) ==>
      v.Nothing? ||
      (ResultDisplay.ShowsSpinner(v) && !ResultDisplay.ShowsError(v) && !ResultDisplay.ShowsSuccess(v)) ||
      (!ResultDisplay.ShowsSpinner(v) && ResultDisplay.ShowsError(v) && !ResultDisplay.ShowsSuccess(v)) ||
      (!ResultDisplay.ShowsSpinner(v) && !ResultDisplay.ShowsError(v) && ResultDisplay.ShowsSuccess(v))
  {
    ResultDisplay.OneViewAtATime(s.isLoading, s.generatedImage, s.error, HandleReset);
    ResultDisplay.Render(s.isLoading, s.generatedImage, s.error, HandleReset)
  }

  /** In flight, the spinner alone is on screen: the input stages are hidden
      and the panel shows neither an error nor an image. So neither the
      generate button nor a reset button can be pressed while loading. */
  lemma InFlightShowsOnlySpinner(s: WorkflowState)
    requires s.isLoading
    ensures !ShowsInputStages(s) && !ShowsTypeStep(s) && !ShowsLocationStep(s) && GenerateDisabled(s)
    ensures !ResultDisplay.OffersReset(ResultPanel(s))
    ensures ResultPanel(s) == ResultDisplay.Panel(true, None, None)
  {
    ResultDisplay.LoadingSuppressesResults(s.generatedImage, s.error, HandleReset);
  }

  /** The first screen: only step 1 and a disabled generate button. */
  lemma InitialScreen()
    ensures ShowsInputStages(Initial) && !ShowsTypeStep(Initial) && !ShowsLocationStep(Initial)
    ensures GenerateDisabled(Initial) && ResultPanel(Initial).Nothing?
  {
  }

  /** The state handleGenerate leaves once the adapter has settled with its
      answer to `reply`: an unready state is untouched; otherwise the inputs
      are kept, loading has ended, and exactly one of the image and the
      error is present, according to the decoded reply. */
  function AfterGenerate(s: WorkflowState, reply: GeminiService.ApiReply): (r: WorkflowState)
    ensures !IsReadyToGenerate(s) ==> r == s
    ensures r.person1Image == s.person1Image && r.person2Image == s.person2Image
    ensures r.generationType == s.generationType && r.selectedLocation == s.selectedLocation
    ensures IsReadyToGenerate(s) ==>
      !r.isLoading && Consistent(r) &&
      (r.generatedImage.Some? <==> GeminiService.DecodeReply(reply).Success?) &&
      (r.error.Some? <==> GeminiService.DecodeReply(reply).Failure?)
    ensures Consistent(s) ==> Consistent(r)
  {
    if !IsReadyToGenerate(s) then s
    else
      var result := GeminiService.DecodeReply(reply);
      s.(isLoading := false,
         generatedImage := if result.Success? then Some(ResultPrefix + result.value) else None,
         error := if result.Failure? then Some(FailureMessage) else None)
  }

  /** After a failed generation the error view appears beside the input
      stages, which keep their selections, so the same inputs can be
      generated again. */
  lemma FailureKeepsInputs(s: WorkflowState, reply: GeminiService.ApiReply)
    requires IsReadyToGenerate(s) && GeminiService.DecodeReply(reply).Failure?
    ensures var f := AfterGenerate(s, reply);
      IsReadyToGenerate(f) && ShowsInputStages(f) && ShowsTypeStep(f) && !GenerateDisabled(f) &&
      ResultDisplay.ShowsError(ResultPanel(f)) && !ResultDisplay.ShowsSuccess(ResultPanel(f)) &&
      ResultPanel(f).errorView.value.message == FailureMessage
  {
  }

  /** After a successful generation only the result panel is on screen,
      showing the decoded image as a PNG data URL. */
  lemma SuccessShowsImage(s: WorkflowState, reply: GeminiService.ApiReply, d: string)
    requires IsReadyToGenerate(s) && GeminiService.DecodeReply(reply) == Success(d)
    ensures var f := AfterGenerate(s, reply);
      !ShowsInputStages(f) && ResultDisplay.ShowsSuccess(ResultPanel(f)) &&
      !ResultDisplay.ShowsError(ResultPanel(f)) && !ResultDisplay.ShowsSpinner(ResultPanel(f)) &&
      ResultPanel(f).successView.value.imageSrc == ResultPrefix + d
  {
  }

  // ---------------------------------------------------------------------------
  // The controller
  // ---------------------------------------------------------------------------

  class Workflow {
    var person1Image: Option<ImageFile>
    var person2Image: Option<ImageFile>
    var generationType: Option<GenerationType>
    var selectedLocation: Option<string>
    var isLoading: bool
    var generatedImage: Option<string>
    var error: Option<string>

    function State(): WorkflowState
      reads this
    {
      WorkflowState(person1Image, person2Image, generationType, selectedLocation, isLoading, generatedImage, error)
    }

    constructor ()
      ensures State() == Initial
    {
      person1Image, person2Image := None, None;
      generationType, selectedLocation := None, None;
      isLoading, generatedImage, error := false, None, None;
    }

    /** The uploaders report a photo, or null on a read error. */
    method SetPerson1Image(img: Option<ImageFile>)
      modifies this
      ensures State() == old(State()).(person1Image := img)
    {
      person1Image := img;
    }

    method SetPerson2Image(img: Option<ImageFile>)
      modifies this
      ensures State() == old(State()).(person2Image := img)
    {
      person2Image := img;
    }

    /** Choosing a type keeps any previously chosen location. */
    method SetGenerationType(t: GenerationType)
      modifies this
      ensures State() == old(State()).(generationType := Some(t))
    {
      generationType := Some(t);
    }

    method SetSelectedLocation(location: string)
      modifies this
      ensures State() == old(State()).(selectedLocation := Some(location))
    {
      selectedLocation := Some(location);
    }

    /** The first phase of handleGenerate, up to the await: nothing happens
        unless the state is ready; otherwise the result and the error are
        cleared, loading begins, and the call to the adapter is returned. The
        location is forwarded for the Location type only. */
    method StartGenerate() returns (call: Option<GenerateCall>)
      modifies this
      ensures !IsReadyToGenerate(old(State())) ==> call.None? && State() == old(State())
      ensures IsReadyToGenerate(old(State())) ==>
        State() == old(State()).(isLoading := true, generatedImage := None, error := None) &&
        call == Some(GenerateCall(old(person1Image).value, old(person2Image).value, old(generationType).value,
          if old(generationType) == Some(Location) then old(selectedLocation) else None))
      ensures call.Some? ==> Consistent(State())
      ensures call.Some? ==> (call.value.location.Some? <==> call.value.t == Location)
      ensures call.Some? && call.value.t == Location ==> Truthy(call.value.location)
    {
      if !IsReadyToGenerate(State()) || person1Image.None? || person2Image.None? || generationType.None? {
        return None;
      }
      isLoading := true;
      generatedImage := None;
      error := None;
      var location := if generationType.value == Location then Some(selectedLocation.value) else None;
      call := Some(GenerateCall(person1Image.value, person2Image.value, generationType.value, location));
    }

    /** The second phase of handleGenerate, when the adapter settles: its
        image becomes a PNG data URL, or its failure becomes FailureMessage;
        either way loading ends. Nothing else is written, so a settle that
        arrives after a reset still writes into the reset state. */
    method Settle(outcome: Result<string>)
      modifies this
      ensures outcome.Success? ==>
        State() == old(State()).(isLoading := false, generatedImage := Some(ResultPrefix + outcome.value))
      ensures outcome.Failure? ==>
        State() == old(State()).(isLoading := false, error := Some(FailureMessage))
      ensures old(generatedImage.None? && error.None?) ==> Consistent(State())
    {
      match outcome {
        case Success(result) =>
          generatedImage := Some(ResultPrefix + result);
        case Failure(_) =>
          error := Some(FailureMessage);
      }
      isLoading := false;
    }

    /** handleReset: every field back to its initial value, from any state. */
    method Reset()
      modifies this
      ensures State() == Initial
    {
      person1Image := None;
      person2Image := None;
      generationType := None;
      selectedLocation := None;
      generatedImage := None;
      error := None;
      isLoading := false;
    }

    /** handleGenerate from start to settle, with `reply` as the image
        model's answer to the request the adapter sends. */
    method Generate(reply: GeminiService.ApiReply) returns (request: Option<GeminiService.Request>)
      modifies this
      ensures !IsReadyToGenerate(old(State())) ==> request.None? && State() == old(State())
      ensures IsReadyToGenerate(old(State())) ==>
        var s := old(State());
        var loc := if s.generationType == Some(Location) then s.selectedLocation else None;
        request == Some(GeminiService.BuildRequest(s.person1Image.value, s.person2Image.value, s.generationType.value, loc)) &&
        State() == s.(isLoading := false,
          generatedImage := if GeminiService.DecodeReply(reply).Success?
            then Some(ResultPrefix + GeminiService.DecodeReply(reply).value) else None,
          error := if GeminiService.DecodeReply(reply).Failure? then Some(FailureMessage) else None)
      ensures old(Consistent(State())) ==> Consistent(State())
      ensures State() == AfterGenerate(old(State()), reply)
    {
      var call := StartGenerate();
      if call.None? {
        return None;
      }
      var c := call.value;
      var req, result := GeminiService.GenerateImage(c.p1, c.p2, c.t, c.location, reply);
      request := Some(req);
      Settle(result);
    }
  }

  /** Selecting Location without a place leaves generation impossible:
      pressing the button changes nothing and sends nothing. */
  method LocationWithoutPlace(p1: ImageFile, p2: ImageFile, reply: GeminiService.ApiReply)
    returns (request: Option<GeminiService.Request>, s: WorkflowState)
    ensures request.None?
    ensures s == Initial.(person1Image := Some(p1), person2Image := Some(p2), generationType := Some(Location))
  {
    var w := new Workflow();
    w.SetPerson1Image(Some(p1));
    w.SetPerson2Image(Some(p2));
    w.SetGenerationType(Location);
    request := w.Generate(reply);
    s := w.State();
  }

  /** What the handlers do under an event order the page never produces:
      while loading, no reset button and no input stage is rendered
      (InFlightShowsOnlySpinner), so a reset cannot be pressed mid-flight.
      Were it called anyway, the settle that follows would still write its
      image into the reset state, and the success view would appear with
      no inputs left: handleReset does not cancel a pending generation. */
  method LateSettleAfterReset(p1: ImageFile, p2: ImageFile, image: string)
    returns (s: WorkflowState)
    ensures s == Initial.(generatedImage := Some(ResultPrefix + image))
    ensures ResultDisplay.ShowsSuccess(ResultPanel(s)) && !ShowsInputStages(s)
  {
    var w := new Workflow();
    w.SetPerson1Image(Some(p1));
    w.SetPerson2Image(Some(p2));
    w.SetGenerationType(Baby);
    var call := w.StartGenerate();
    assert call.Some?;
    w.Reset();
    w.Settle(Success(image));
    s := w.State();
  }
}
