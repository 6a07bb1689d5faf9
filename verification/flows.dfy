/** How the screens hand over to each other: the route the manual-entry and camera screens
    navigate to becomes the analysis screen's props, and the first thing the analysis screen
    does on mounting follows from them. Also how the engine's answer, passed through the
    backend and the app's client, shows on the result panel and on the bar. */
module Flows {
  import opened Types
  import ManualFenScreen
  import CameraScreen
  import AnalysisScreen
  import EvaluationBar
  import ApiClient
  import Backend

  /** The analysis screen's props read from its route's parameters. */
  function PropsOf(r: Route): (p: AnalysisScreen.Props)
    requires r.Analysis?
    ensures p.imageUri == r.imageUri && p.initialFen == r.fen
  {
    AnalysisScreen.Props(r.imageUri, r.fen)
  }

  /** A valid manual entry opens the analysis screen, which analyses exactly that position
      straight away, without detection and without the editor open. */
  lemma ManualEntryIsAnalysed(valid: string -> bool, s: ManualFenScreen.State)
    requires s.isValid && s.fen != ""
    ensures var nav := ManualFenScreen.Step(valid, s, ManualFenScreen.PressAnalyze).navigate;
      && nav == Some(Analysis("", Some(s.fen)))
      && var m := AnalysisScreen.Mount(PropsOf(nav.value));
      && m.requests == [AnalysisScreen.AnalyzeRequest(s.fen)]
      && m.next.fen == s.fen && !m.next.isEditing && m.next.loading && !m.next.detecting
  {
  }

  /** An empty entry that the validator accepts opens the analysis screen with nothing to
      analyse: the editor is open on the starting position and nothing is requested. The app
      reaches this only with a validator that accepts the empty text; a chess.js constructor
      that throws on a malformed FEN rejects it, and then the Analyze button stays disabled. */
  lemma EmptyManualEntryStartsEditing(valid: string -> bool, s: ManualFenScreen.State)
    requires s.isValid && s.fen == ""
    ensures var nav := ManualFenScreen.Step(valid, s, ManualFenScreen.PressAnalyze).navigate;
      && nav.Some?
      && var m := AnalysisScreen.Mount(PropsOf(nav.value));
      && m.requests == [] && m.next.isEditing && m.next.fen == StartFen
  {
  }

  /** A confirmed photo opens the analysis screen, which starts detecting that image from
      White's side and requests no analysis yet. */
  lemma PhotoIsDetected(c: CameraScreen.State)
    requires CameraScreen.HasImage(c)
    ensures var nav := CameraScreen.Step(c, CameraScreen.UsePhoto).navigate;
      && nav == Some(Analysis(c.captured.value, None))
      && var m := AnalysisScreen.Mount(PropsOf(nav.value));
      && m.requests == [AnalysisScreen.DetectRequest(c.captured.value, "white")]
      && m.next.detecting && !m.next.loading
  {
  }

  /** A mate the engine reports reaches the panel and the bar with the same distance, and the
      bar is all white for a positive distance and all black otherwise. A mate at distance 0
      is thus "Mate in 0" on the panel and an all-black bar with "M0". */
  lemma EngineMateShown(fen: string, up: Backend.Upstream, rejection: string, m: int)
    requires up.Answered? && Backend.IsSuccess(up.status) && up.body.Parsed?
    requires up.body.value.mate == Backend.Present(m) && !up.body.value.continuationArr.Null?
    ensures var r := ApiClient.AnalyzeThroughBackend(fen, up, rejection);
      && r.Ok? && r.value.fen == fen
      && AnalysisScreen.EvaluationText(r.value) == AnalysisScreen.MateIn(AnalysisScreen.Abs(m))
      && EvaluationBar.DisplayText(r.value.evaluation, r.value.isMate, r.value.mateIn) == EvaluationBar.Mate(AnalysisScreen.Abs(m))
      && EvaluationBar.WhitePercentage(r.value.evaluation, r.value.isMate, r.value.mateIn) == (if m > 0 then 100.0 else 0.0)
  {
  }

  /** Without a mate, the engine's score reaches the panel and the bar unchanged, with a `+` on
      both exactly when it favours White, and the bar is filled on the linear scale. */
  lemma EngineScoreShown(fen: string, up: Backend.Upstream, rejection: string, e: real)
    requires up.Answered? && Backend.IsSuccess(up.status) && up.body.Parsed?
    requires !up.body.value.mate.Present? && up.body.value.eval == Backend.Present(e)
    requires !up.body.value.continuationArr.Null?
    ensures var r := ApiClient.AnalyzeThroughBackend(fen, up, rejection);
      && r.Ok? && r.value.fen == fen
      && AnalysisScreen.EvaluationText(r.value) == AnalysisScreen.Signed(e > 0.0, e)
      && EvaluationBar.DisplayText(r.value.evaluation, r.value.isMate, r.value.mateIn) == EvaluationBar.Score(e > 0.0, e)
      && EvaluationBar.WhitePercentage(r.value.evaluation, r.value.isMate, r.value.mateIn) == EvaluationBar.LinearScale(e)
  {
  }
}
