/** The application shell (App.tsx): the state the page keeps, the
    transitions `handleFileSelect` and `handleReset` make, and which view is
    rendered.

    A run of the extractor is given as its `Extractor.Run`: the progress
    callbacks it made, in order, and how it ended. `handleFileSelect` is
    then the start of a run, one progress update per callback, and the
    settling of the outcome (the `finally` included). React's scheduling
    is not modelled; every setter takes effect in program order. */
module App {
  import opened Outcomes
  import opened Strings
  import opened JsValues
  import Types
  import ResponseParser
  import Extractor

  /** The selected file; only its name is read. */
  datatype Upload = Upload(name: string)

  datatype AppState = AppState(
    result: Option<Json>,
    sources: seq<Types.GroundingSource>,
    loading: bool,
    progress: int,
    stage: string,
    error: Option<string>,
    file: Option<Upload>)

  const InitialStage: string := "Initializing..."
  const FailurePrefix: string := "Failed to process the financial statement. "
  const UnknownError: string := "An unknown error occurred during data extraction."
  const DefaultFileName: string := "your document"

  /** The state on first render. */
  const Initial: AppState := AppState(None, [], false, 0, InitialStage, None, None)

  /** The synchronous start of `handleFileSelect`: ignored while a run is
      loading, otherwise the previous run's outcome is cleared. */
  function Start(s: AppState, f: Upload): (t: AppState)
    ensures s.loading ==> t == s
    ensures !s.loading ==> t == AppState(None, [], true, 0, InitialStage, None, Some(f))
  {
    if s.loading then s
    else s.(file := Some(f), result := None, sources := [], error := None,
            loading := true, progress := 0, stage := InitialStage)
  }

  /** The progress callback: stage and percentage, nothing else. */
  function OnProgress(s: AppState, p: Extractor.Progress): (t: AppState)
    ensures t.stage == p.stage && t.progress == p.percent
    ensures t.(stage := s.stage, progress := s.progress) == s
  {
    s.(stage := p.stage, progress := p.percent)
  }

  /** The callbacks of a run, applied in order. */
  function Report(s: AppState, ps: seq<Extractor.Progress>): (t: AppState)
    ensures ps == [] ==> t == s
    ensures ps != [] ==> t.stage == ps[|ps| - 1].stage && t.progress == ps[|ps| - 1].percent
    ensures t.(stage := s.stage, progress := s.progress) == s
    decreases |ps|
  {
    if ps == [] then s else OnProgress(Report(s, ps[..|ps| - 1]), ps[|ps| - 1])
  }

  /** `e instanceof Error ? e.message : 'An unknown error ...'`. */
  function ErrorMessage(thrown: Thrown): string {
    match thrown
    case ErrorThrown(message) => message
    case OtherThrown => UnknownError
  }

  /** The end of `handleFileSelect`: the outcome is stored (or the error
      message built) and loading ends. */
  function Settle(s: AppState, outcome: Outcome<Extractor.Extraction>): (t: AppState)
    ensures !t.loading
    ensures outcome.Returned? ==> t == s.(result := Some(outcome.value.analysis), sources := outcome.value.sources, loading := false)
    ensures outcome.Threw? ==> t == s.(error := Some(FailurePrefix + ErrorMessage(outcome.thrown)), loading := false)
  {
    match outcome
    case Returned(e) => s.(result := Some(e.analysis), sources := e.sources, loading := false)
    case Threw(thrown) => s.(error := Some(FailurePrefix + ErrorMessage(thrown)), loading := false)
  }

  /** `handleFileSelect(f)` with the extractor making run `run`. */
  function HandleFileSelect(s: AppState, f: Upload, run: Extractor.Run): (t: AppState)
    ensures s.loading ==> t == s
    ensures !s.loading ==> !t.loading && t.file == Some(f)
  {
    if s.loading then s
    else Settle(Report(Start(s, f), run.progress), run.outcome)
  }

  /** `handleReset`: progress and stage are left as they were. */
  function Reset(s: AppState): (t: AppState)
    ensures t.progress == s.progress && t.stage == s.stage
    ensures t.file.None? && t.result.None? && t.sources == [] && t.error.None? && !t.loading
  {
    s.(file := None, result := None, sources := [], error := None, loading := false)
  }

  // ---- the rendered view ----

  datatype View =
    | LoaderView(progress: int, stage: string)
    | ErrorView(message: string)
    | DashboardView(result: Json, sources: seq<Types.GroundingSource>, fileName: string)
    | UploadView

  /** `file?.name || 'your document'`. */
  function FileName(file: Option<Upload>): (name: string)
    ensures name != ""
    ensures file.Some? && file.value.name != "" ==> name == file.value.name
  {
    if file.Some? && file.value.name != "" then file.value.name else DefaultFileName
  }

  /** The first of loading, error, result, upload that applies. */
  function ViewOf(s: AppState): (v: View)
    ensures v.LoaderView? <==> s.loading
    ensures v.ErrorView? <==> !s.loading && Present(s.error)
    ensures v.DashboardView? <==> !s.loading && !Present(s.error) && Truthy(s.result)
    ensures v.UploadView? <==> !s.loading && !Present(s.error) && !Truthy(s.result)
  {
    if s.loading then LoaderView(s.progress, s.stage)
    else if Present(s.error) then ErrorView(s.error.value)
    else if Truthy(s.result) then DashboardView(s.result.value, s.sources, FileName(s.file))
    else UploadView
  }

  // ---- properties of whole interactions ----

  /** While a run is in progress the loader is shown, with the latest
      callback's stage and percentage. */
  lemma LoaderFollowsProgress(s: AppState, f: Upload, ps: seq<Extractor.Progress>)
    requires !s.loading && ps != []
    ensures ViewOf(Report(Start(s, f), ps)) == LoaderView(ps[|ps| - 1].percent, ps[|ps| - 1].stage)
  {
    var t := Report(Start(s, f), ps);
    assert t.loading == Start(s, f).loading;
  }

  /** A validated analysis is an object, so it is truthy. */
  lemma CompleteIsTruthy(j: Json)
    requires ResponseParser.Complete(j)
    ensures Truthy(Some(j))
  {
    assert Member(Some(j), "companyName").Some?;
  }

  /** A run of the extractor shows the dashboard exactly when it returned,
      and the error view otherwise; either way the last percentage reported
      stays in the state, 100 exactly on success. */
  lemma RunSettles(s: AppState, f: Upload, env: Extractor.Environment)
    requires !s.loading
    ensures var run := Extractor.ExtractData(env);
            var t := HandleFileSelect(s, f, run);
            && (run.outcome.Returned? ==>
                  ViewOf(t) == DashboardView(run.outcome.value.analysis, run.outcome.value.sources, FileName(Some(f))))
            && (run.outcome.Threw? ==>
                  && ViewOf(t) == ErrorView(FailurePrefix + ErrorMessage(run.outcome.thrown))
                  && t.result.None? && t.sources == [])
            && t.progress == run.progress[|run.progress| - 1].percent
            && (t.progress == 100 <==> ViewOf(t).DashboardView?)
  {
    var run := Extractor.ExtractData(env);
    Extractor.ProgressRises(run, env);
    var started := Start(s, f);
    var reported := Report(started, run.progress);
    assert reported.error == started.error && reported.result == started.result;
    if run.outcome.Returned? {
      CompleteIsTruthy(run.outcome.value.analysis);
    }
  }

  /** A file chosen while a run is loading changes nothing. */
  lemma BusyIgnoresSelection(s: AppState, f: Upload, run: Extractor.Run)
    requires s.loading
    ensures HandleFileSelect(s, f, run) == s && ViewOf(HandleFileSelect(s, f, run)) == LoaderView(s.progress, s.stage)
  {
  }

  /** After a reset the upload form is shown, whatever came before; a new
      file can then be selected. */
  lemma ResetShowsUpload(s: AppState, f: Upload)
    ensures ViewOf(Reset(s)) == UploadView
    ensures Start(Reset(s), f).loading && ViewOf(Start(Reset(s), f)) == LoaderView(0, InitialStage)
  {
  }

  /** A failed run's error view, followed by a reset, leaves the state as
      it was at start-up apart from the last progress shown. */
  lemma RetryAfterFailure(f: Upload, run: Extractor.Run)
    requires run.outcome.Threw?
    ensures var t := Reset(HandleFileSelect(Initial, f, run));
            t == Initial.(progress := t.progress, stage := t.stage)
  {
    var started := Start(Initial, f);
    var reported := Report(started, run.progress);
    assert reported.(stage := started.stage, progress := started.progress) == started;
  }
}
