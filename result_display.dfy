/** The result panel (components/ResultDisplay.tsx): which of its views is
    rendered for the loading flag, the generated image and the error, and
    what the download link and the two reset buttons carry. The panel keeps
    no state of its own. The reset callback is a type parameter, so that the
    model can say which callback each button is bound to. */
module ResultDisplay {
  import opened Types

  /** The fixed name offered for the downloaded image. */
  const DownloadName := "deemg-ai-creation.png"

  /** The error view: the message and the "Try Again" button's handler. */
  datatype ErrorView<A> = ErrorView(message: string, onTryAgain: A)

  /** The success view: the image, the download link, and the "Create
      Another" button's handler. */
  datatype SuccessView<A> = SuccessView(imageSrc: string, downloadHref: string, downloadName: string, onCreateAnother: A)

  /** Either nothing at all, or the panel with each of its three children
      present or absent. */
  datatype View<A> =
    | Nothing
    | Panel(spinner: bool, errorView: Option<ErrorView<A>>, successView: Option<SuccessView<A>>)

  predicate ShowsSpinner<A>(v: View<A>) { v.Panel? && v.spinner }

  predicate ShowsError<A>(v: View<A>) { v.Panel? && v.errorView.Some? }

  predicate ShowsSuccess<A>(v: View<A>) { v.Panel? && v.successView.Some? }

  /** The error and success views are the only ones with a reset button. */
  predicate OffersReset<A>(v: View<A>) { ShowsError(v) || ShowsSuccess(v) }

  /** The view rendered for the three props: nothing when idle; otherwise
      the spinner while loading, the error view for an error once loading
      has ended, and the success view for an image once loading has ended. */
  function Render<A>(isLoading: bool, generatedImage: Option<string>, error: Option<string>, onReset: A): (v: View<A>)
    ensures v.Nothing? <==> !isLoading && !Truthy(generatedImage) && !Truthy(error)
    ensures ShowsSpinner(v) <==> isLoading
    ensures ShowsError(v) <==> Truthy(error) && !isLoading
    ensures ShowsSuccess(v) <==> Truthy(generatedImage) && !isLoading
    ensures ShowsError(v) ==> v.errorView.value.message == error.value
    ensures ShowsSuccess(v) ==>
      var s := v.successView.value;
      s.imageSrc == s.downloadHref == generatedImage.value && s.downloadName == DownloadName
    ensures ShowsError(v) ==> v.errorView.value.onTryAgain == onReset
    ensures ShowsSuccess(v) ==> v.successView.value.onCreateAnother == onReset
  {
    if !isLoading && !Truthy(generatedImage) && !Truthy(error) then Nothing
    else
      Panel(
        isLoading,
        if Truthy(error) && !isLoading then Some(ErrorView(error.value, onReset)) else None,
        if Truthy(generatedImage) && !isLoading
        then Some(SuccessView(generatedImage.value, generatedImage.value, DownloadName, onReset))
        else None)
  }

  /** While loading, the spinner is the only thing shown, whatever the image
      and the error are. */
  lemma LoadingSuppressesResults<A>(generatedImage: Option<string>, error: Option<string>, onReset: A)
    ensures Render(true, generatedImage, error, onReset) == Panel(true, None, None)
  {
  }

  /** When the image and the error are not both present, the panel shows
      exactly one of its three views, or nothing. */
  lemma OneViewAtATime<A>(isLoading: bool, generatedImage: Option<string>, error: Option<string>, onReset: A)
    ensures var v := Render(isLoading, generatedImage, error, onReset);
      !(generatedImage.Some? && error.Some?) ==>
      v.Nothing? ||
      (ShowsSpinner(v) && !ShowsError(v) && !ShowsSuccess(v)) ||
      (!ShowsSpinner(v) && ShowsError(v) && !ShowsSuccess(v)) ||
      (!ShowsSpinner(v) && !ShowsError(v) && ShowsSuccess(v))
  {
  }
}
