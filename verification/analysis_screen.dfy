/** The analysis screen: its display helpers (move formatting, highlighted squares, principal
    variation, evaluation text, result panel) and its state machine. Every handler is a pure
    function from the current state to an `Effect`: the next state, the requests it starts and
    the alert it raises. The completion of each `await` is a separate event that is applied
    whenever it arrives; the screen keeps no request counter and never discards a reply. */
module AnalysisScreen {
  import opened Types
  import Text
  import ChessBoard
  import EvaluationBar

  // ---------------------------------------------------------------------------------------
  // Display helpers

  /** `formatMove`: a UCI move `e2e4` becomes `e2-e4`, `e7e8q` becomes `e7-e8=Q`; anything
      shorter than four characters is shown as it is. */
  function FormatMove(m: string): (r: string)
    ensures |m| < 4 ==> r == m
    ensures |m| >= 4 ==> |r| == (if |m| > 4 then 7 else 5)
    ensures |m| >= 4 ==> r[..2] == m[..2] && r[2] == '-' && r[3..5] == m[2..4]
    ensures |m| > 4 ==> r[5] == '=' && r[6] == Text.Upper(m[4])
  {
    if |m| < 4 then m
    else m[..2] + "-" + m[2..4] + (if |m| > 4 then "=" + [Text.Upper(m[4])] else "")
  }

  /** Reads a formatted move back into UCI form. */
  function UnformatMove(r: string): string
  {
    if |r| == 5 && r[2] == '-' then r[..2] + r[3..5]
    else if |r| == 7 && r[2] == '-' && r[5] == '=' then r[..2] + r[3..5] + [Text.Lower(r[6])]
    else r
  }

  /** Formatting keeps the first five characters of a move recoverable (the promotion letter of
      a UCI move is lower case); everything after the fifth is dropped. */
  lemma FormatMoveRoundTrip(m: string)
    requires |m| > 4 ==> Text.IsLowerAscii(m[4])
    ensures UnformatMove(FormatMove(m)) == (if |m| <= 5 then m else m[..5])
  {
    var r := FormatMove(m);
    if |m| == 4 {
      assert UnformatMove(r) == r[..2] + r[3..5];
      assert m == m[..2] + m[2..4];
    } else if |m| > 4 {
      assert UnformatMove(r) == r[..2] + r[3..5] + [Text.Lower(r[6])];
      Text.LowerUpperInverse(m[4]);
      assert m[..5] == m[..2] + m[2..4] + [m[4]];
      if |m| == 5 { assert m[..5] == m; }
    }
  }

  /** `getHighlightSquares`: the from- and to-squares of the best move, if it has them. */
  function HighlightSquares(analysis: Option<AnalysisResult>): (h: seq<string>)
    ensures h == [] <==>
      analysis.None? || analysis.value.bestMove.None? || |analysis.value.bestMove.value| < 4
    ensures h != [] ==> var m := analysis.value.bestMove.value; h == [m[..2], m[2..4]]
  {
    if analysis.None? || !Truthy(analysis.value.bestMove) then []
    else
      var m := analysis.value.bestMove.value;
      if |m| >= 4 then [m[..2], m[2..4]] else []
  }

  /** On the board, exactly the squares the best move names are highlighted. */
  lemma HighlightedCellsAreTheMove(analysis: Option<AnalysisResult>, file: int, row: int)
    requires ChessBoard.OnBoard(file, row)
    requires analysis.Some? && analysis.value.bestMove.Some? && |analysis.value.bestMove.value| >= 4
    ensures var m := analysis.value.bestMove.value;
      ChessBoard.IsHighlighted(HighlightSquares(analysis), file, row) <==>
        ChessBoard.SquareIndex(m[..2]) == Some((file, row)) ||
        ChessBoard.SquareIndex(m[2..4]) == Some((file, row))
  {
    var m := analysis.value.bestMove.value;
    var name := ChessBoard.SquareName(file, row);
    ChessBoard.SquareIndexRoundTrip(file, row);
    if ChessBoard.SquareIndex(m[..2]) == Some((file, row)) {
      ChessBoard.SquareIndexSound(m[..2]);
    }
    if ChessBoard.SquareIndex(m[2..4]) == Some((file, row)) {
      ChessBoard.SquareIndexSound(m[2..4]);
    }
  }

  const VariationLength: nat := 6

  /** The principal-variation line: shown only for a continuation of more than one move, and
      then its first six moves joined by spaces. */
  function PrincipalVariation(continuation: seq<string>): (line: Option<string>)
    ensures line.Some? <==> |continuation| > 1
  {
    if |continuation| > 1 then
      Some(Text.Join(continuation[..if |continuation| < VariationLength then |continuation| else VariationLength], ' '))
    else None
  }

  /** The shown line is the continuation's first moves, at most six of them. */
  lemma PrincipalVariationMoves(continuation: seq<string>)
    requires |continuation| > 1
    requires forall i :: 0 <= i < |continuation| ==> ' ' !in continuation[i]
    ensures var moves := Text.Split(PrincipalVariation(continuation).value, ' ');
      && |moves| == (if |continuation| < VariationLength then |continuation| else VariationLength)
      && moves <= continuation
  {
    var k := if |continuation| < VariationLength then |continuation| else VariationLength;
    Text.SplitJoin(continuation[..k], ' ');
  }

  /** The evaluation line of the result panel; a mate shows `Math.abs(mateIn)`, which is 0 when
      the distance is missing. The `toFixed(2)` text of a score is not modelled. */
  datatype EvalText = MateIn(distance: nat) | Signed(plus: bool, pawns: real) | UnknownEval

  function Abs(n: int): nat { if n < 0 then -n else n }

  function EvaluationText(a: AnalysisResult): (t: EvalText)
    ensures a.isMate && a.mateIn.Some? ==> t == MateIn(Abs(a.mateIn.value))
    ensures a.isMate && a.mateIn.None? ==> t == MateIn(0)
    ensures !a.isMate && a.evaluation.Some? ==>
      t.Signed? && t.pawns == a.evaluation.value && (t.plus <==> a.evaluation.value > 0.0)
    ensures !a.isMate ==> (t == UnknownEval <==> a.evaluation.None?)
  {
    if a.isMate then MateIn(Abs(a.mateIn.GetOr(0)))
    else if a.evaluation.Some? then Signed(a.evaluation.value > 0.0, a.evaluation.value)
    else UnknownEval
  }

  /** The panel's evaluation line and the bar beside the board read the same result alike: the
      same mate distance, the same score with a `+` in the same cases, and both unknown
      together. They part only on a mate without a distance, which the panel shows as
      "Mate in 0" and the bar as an ordinary score. */
  lemma EvaluationAgreesWithBar(a: AnalysisResult)
    ensures var t := EvaluationText(a);
      var b := EvaluationBar.DisplayText(a.evaluation, a.isMate, a.mateIn);
      && (t.MateIn? && b.Mate? ==> t.distance == b.distance)
      && (a.isMate && a.mateIn.Some? ==> t.MateIn? && b.Mate?)
      && (t.Signed? && b.Score? ==> t.plus == b.plus && t.pawns == b.pawns)
      && (!a.isMate ==> (t.Signed? <==> b.Score?) && (t == UnknownEval <==> b == EvaluationBar.Unknown))
      && (a.isMate && a.mateIn.None? ==> t == MateIn(0) && !b.Mate?)
  {
  }

  /** The best-move line: the SAN form when the result carries one, else the formatted UCI
      move; shown only when there is a best move. */
  function BestMoveText(a: AnalysisResult): (t: Option<string>)
    ensures t.Some? <==> Truthy(a.bestMove)
    ensures t.Some? && Truthy(a.bestMoveSan) ==> t.value == a.bestMoveSan.value
    ensures t.Some? && !Truthy(a.bestMoveSan) ==> t.value == FormatMove(a.bestMove.value)
  {
    if !Truthy(a.bestMove) then None
    else Some(OrElse(a.bestMoveSan, FormatMove(a.bestMove.value)))
  }

  /** Without a SAN form, the shown best move names the squares the board highlights, and it
      reads back as the engine's move. */
  lemma BestMoveNamesHighlight(a: AnalysisResult)
    requires a.bestMove.Some? && 4 <= |a.bestMove.value| <= 5 && !Truthy(a.bestMoveSan)
    requires |a.bestMove.value| == 5 ==> Text.IsLowerAscii(a.bestMove.value[4])
    ensures var t := BestMoveText(a).value;
      && HighlightSquares(Some(a)) == [t[..2], t[3..5]]
      && UnformatMove(t) == a.bestMove.value
  {
    var m := a.bestMove.value;
    var t := BestMoveText(a).value;
    assert t == FormatMove(m);
    FormatMoveRoundTrip(m);
    assert t[..2] == m[..2] && t[3..5] == m[2..4];
  }

  // ---------------------------------------------------------------------------------------
  // Screen state

  /** The route parameters: the captured image's URI (empty when none) and a position. */
  datatype Props = Props(imageUri: string, initialFen: Option<string>)

  datatype Screen = Screen(
    fen: string,
    fenInput: string,
    isEditing: bool,
    analysis: Option<AnalysisResult>,
    loading: bool,
    detecting: bool,
    error: Option<string>,
    detectionAttempted: bool)

  /** A call into a service: analysis of a position, or board detection of an image. */
  datatype Request = AnalyzeRequest(fen: string) | DetectRequest(imageUri: string, turn: string)

  /** The alerts the screen raises. */
  datatype Notice = InvalidFenNotice | PossiblyIllegalNotice

  datatype Effect = Effect(next: Screen, requests: seq<Request>, notice: Option<Notice>)

  /** What `detectBoard` resolved to, or that it threw. */
  datatype DetectReply =
    | Detected(success: bool, fen: Option<string>, isValid: bool, error: Option<string>)
    | DetectionThrew

  /** What `analyzePosition` resolved to, or that it threw. */
  datatype AnalysisReply = Analyzed(result: AnalysisResult) | AnalysisThrew

  datatype Event =
    | PressDetect
    | DetectionDone(detection: DetectReply)
    | AnalysisDone(forFen: string, outcome: AnalysisReply)   // `forFen`: the request it answers
    | TypeFen(text: string)
    | PressReset
    | PressApply
    | PressEdit
    | PressRetry

  const AnalysisFailedMessage: string := "Failed to analyze position. Please try again."
  const DetectionFailedMessage: string := "Failed to detect board. Please enter FEN manually."
  const DetectionUnavailableMessage: string := "Board detection service unavailable. Please enter FEN manually."

  /** A detection reply that yields a position. */
  predicate Succeeded(r: DetectReply)
  {
    r.Detected? && r.success && Truthy(r.fen)
  }

  /** The position the screen opens on: the route's position, or the starting position. */
  function OpeningFen(p: Props): (f: string)
    ensures f != ""
    ensures Truthy(p.initialFen) ==> f == p.initialFen.value
    ensures !Truthy(p.initialFen) ==> f == StartFen
  {
    OrElse(p.initialFen, StartFen)
  }

  function Initial(p: Props): (s: Screen)
    ensures s.fen == s.fenInput == OpeningFen(p)
    ensures s.isEditing <==> !Truthy(p.initialFen)
    ensures s.analysis.None? && !s.loading && !s.detecting && s.error.None? && !s.detectionAttempted
  {
    Screen(OpeningFen(p), OpeningFen(p), !Truthy(p.initialFen), None, false, false, None, false)
  }

  /** `runAnalysis` up to its `await`: shows the spinner, clears the error, asks for `f`. */
  function StartAnalysis(s: Screen, f: string): (e: Effect)
    ensures e.next.loading && e.next.error.None?
    ensures e.next.(loading := s.loading, error := s.error) == s
    ensures e.requests == [AnalyzeRequest(f)] && e.notice.None?
  {
    Effect(s.(loading := true, error := None), [AnalyzeRequest(f)], None)
  }

  /** `runAnalysis` after its `await`: a result replaces the shown analysis, a failure keeps
      it and reports the error; the spinner stops either way. */
  function FinishAnalysis(s: Screen, r: AnalysisReply): (t: Screen)
    ensures !t.loading
    ensures r.Analyzed? ==> t.analysis == Some(r.result) && t.error == s.error
    ensures r.AnalysisThrew? ==> t.analysis == s.analysis && t.error == Some(AnalysisFailedMessage)
    ensures t.(loading := s.loading, analysis := s.analysis, error := s.error) == s
  {
    match r
    case Analyzed(result) => s.(analysis := Some(result), loading := false)
    case AnalysisThrew => s.(error := Some(AnalysisFailedMessage), loading := false)
  }

  /** `runDetection` up to its `await`. `attempted` is the flag as the calling closure saw it,
      which can differ from `s.detectionAttempted` (see `PressDetect`). */
  function StartDetection(p: Props, s: Screen, attempted: bool): (e: Effect)
    ensures p.imageUri == "" || attempted ==> e == Effect(s, [], None)
    ensures p.imageUri != "" && !attempted ==>
      && e.next == s.(detecting := true, detectionAttempted := true, error := None)
      && e.requests == [DetectRequest(p.imageUri, "white")] && e.notice.None?
  {
    if p.imageUri == "" || attempted then Effect(s, [], None)
    else Effect(s.(detecting := true, detectionAttempted := true, error := None),
                [DetectRequest(p.imageUri, "white")], None)
  }

  /** `runDetection` after its `await`. A detected position is adopted and analysed at once,
      legal or not (an illegal one only raises an alert); any other outcome reports an error
      and reopens the editor, keeping the position. */
  function FinishDetection(s: Screen, r: DetectReply): (e: Effect)
    ensures !e.next.detecting
    ensures e.next.detectionAttempted == s.detectionAttempted
    ensures Succeeded(r) ==> e.next.analysis == s.analysis
    ensures Succeeded(r) ==>
      && e.next.fen == e.next.fenInput == r.fen.value && !e.next.isEditing
      && e.next.loading && e.next.error.None?
      && e.requests == [AnalyzeRequest(r.fen.value)]
      && (e.notice == Some(PossiblyIllegalNotice) <==> !r.isValid)
      && (e.notice.None? <==> r.isValid)
    ensures !Succeeded(r) ==>
      && e.next.error.Some? && e.next.isEditing
      && e.next.fen == s.fen && e.next.fenInput == s.fenInput && e.next.analysis == s.analysis
      && e.next.loading == s.loading
      && e.requests == [] && e.notice.None?
    ensures r.Detected? && !Succeeded(r) ==> e.next.error == Some(OrElse(r.error, DetectionFailedMessage))
    ensures r.DetectionThrew? ==> e.next.error == Some(DetectionUnavailableMessage)
  {
    if Succeeded(r) then
      var f := r.fen.value;
      var a := StartAnalysis(s.(fen := f, fenInput := f, isEditing := false), f);
      Effect(a.next.(detecting := false), a.requests, if r.isValid then None else Some(PossiblyIllegalNotice))
    else if r.Detected? then
      Effect(s.(error := Some(OrElse(r.error, DetectionFailedMessage)), isEditing := true, detecting := false), [], None)
    else
      Effect(s.(error := Some(DetectionUnavailableMessage), isEditing := true, detecting := false), [], None)
  }

  /** The mount effect: detect when there is an image and no position, otherwise analyse the
      position when the screen did not open in the editor. */
  function Mount(p: Props): (e: Effect)
    ensures p.imageUri != "" && !Truthy(p.initialFen) ==>
      e.requests == [DetectRequest(p.imageUri, "white")] && e.next.detecting && e.next.detectionAttempted
    ensures p.imageUri == "" && !Truthy(p.initialFen) ==> e.requests == [] && e.next == Initial(p)
    ensures Truthy(p.initialFen) ==>
      e.requests == [AnalyzeRequest(p.initialFen.value)] && e.next.loading && !e.next.isEditing
  {
    var s := Initial(p);
    if p.imageUri != "" && !Truthy(p.initialFen) then StartDetection(p, s, s.detectionAttempted)
    else if !s.isEditing && s.fen != "" then StartAnalysis(s, s.fen)
    else Effect(s, [], None)
  }

  /** `applyFen`: an invalid entry only raises an alert; a valid one becomes the position,
      closes the editor and is analysed. */
  function ApplyFen(valid: string -> bool, s: Screen): (e: Effect)
    ensures !valid(s.fenInput) ==> e == Effect(s, [], Some(InvalidFenNotice))
    ensures valid(s.fenInput) ==>
      && e.next.fen == s.fenInput && !e.next.isEditing
      && e.next.loading && e.next.error.None?
      && e.next.(fen := s.fen, isEditing := s.isEditing, loading := s.loading, error := s.error) == s
      && e.requests == [AnalyzeRequest(s.fenInput)] && e.notice.None?
  {
    if !valid(s.fenInput) then Effect(s, [], Some(InvalidFenNotice))
    else StartAnalysis(s.(fen := s.fenInput, isEditing := false), s.fenInput)
  }

  /** The screen's transition on one event. Every analysis it asks for is of the position the
      board then shows, and it asks for at most one thing. */
  function Step(p: Props, valid: string -> bool, s: Screen, e: Event): (eff: Effect)
    ensures |eff.requests| <= 1
    ensures forall i :: 0 <= i < |eff.requests| && eff.requests[i].AnalyzeRequest? ==>
      eff.requests[i].fen == eff.next.fen && eff.next.loading
    ensures forall i :: 0 <= i < |eff.requests| && eff.requests[i].DetectRequest? ==>
      eff.requests[i].imageUri == p.imageUri && eff.next.detecting
    ensures e.PressReset? ==>
      eff.next.fenInput == StartFen && eff.next.(fenInput := s.fenInput) == s && eff.requests == [] && eff.notice.None?
  {
    match e
    case PressDetect =>
      // the handler clears the flag, then calls the closure that still sees the old flag
      StartDetection(p, s.(detectionAttempted := false), s.detectionAttempted)
    case DetectionDone(r) => FinishDetection(s, r)
    case AnalysisDone(_, r) => Effect(FinishAnalysis(s, r), [], None)
    case TypeFen(text) => Effect(s.(fenInput := text), [], None)
    case PressReset => Effect(s.(fenInput := StartFen), [], None)
    case PressApply => ApplyFen(valid, s)
    case PressEdit => Effect(s.(fenInput := s.fen, isEditing := true), [], None)
    case PressRetry => StartAnalysis(s, s.fen)
  }

  /** Whether the screen offers a user event: the detect button needs an image and no running
      detection; the text field, Reset and Apply live in the editor, Edit outside it; Retry
      appears with an error. Service completions are always deliverable here. */
  predicate Offered(p: Props, s: Screen, e: Event)
  {
    match e
    case PressDetect => p.imageUri != "" && !s.detecting
    case TypeFen(_) => s.isEditing
    case PressReset => s.isEditing
    case PressApply => s.isEditing
    case PressEdit => !s.isEditing
    case PressRetry => Truthy(s.error)
    case DetectionDone(_) => true
    case AnalysisDone(_, _) => true
  }

  /** A reply is applied whichever request it answers: nothing in the screen consults it. */
  lemma RepliesNotMatched(p: Props, valid: string -> bool, s: Screen, f1: string, f2: string, r: AnalysisReply)
    ensures Step(p, valid, s, AnalysisDone(f1, r)) == Step(p, valid, s, AnalysisDone(f2, r))
  {
  }

  /** After an attempt, the first press of the detect button only clears the flag; the second
      press detects. */
  lemma DetectNeedsSecondPress(p: Props, valid: string -> bool, s: Screen)
    requires p.imageUri != "" && s.detectionAttempted && !s.detecting
    ensures var first := Step(p, valid, s, PressDetect);
      && first == Effect(s.(detectionAttempted := false), [], None)
      && Offered(p, first.next, PressDetect)
      && Step(p, valid, first.next, PressDetect).requests == [DetectRequest(p.imageUri, "white")]
  {
  }

  /** The headline case from mounting: a screen opened on an image detects it; once that
      detection completes, whatever its outcome, the detect button is on offer, its first press
      only clears the attempted flag and its second press detects again. */
  lemma DetectionThenTwoPresses(p: Props, valid: string -> bool, d: DetectReply)
    requires p.imageUri != "" && !Truthy(p.initialFen)
    ensures var done := Step(p, valid, Mount(p).next, DetectionDone(d)).next;
      var first := Step(p, valid, done, PressDetect);
      && Offered(p, done, PressDetect)
      && first == Effect(done.(detectionAttempted := false), [], None)
      && Step(p, valid, first.next, PressDetect).requests == [DetectRequest(p.imageUri, "white")]
  {
    var done := Step(p, valid, Mount(p).next, DetectionDone(d)).next;
    assert done.detectionAttempted && !done.detecting;
    DetectNeedsSecondPress(p, valid, done);
  }

  /** The editor and the Edit button are never on screen together: the text field, Reset and
      Apply are offered exactly when Edit is not. */
  lemma EditorControlsExclusive(p: Props, s: Screen, text: string)
    ensures Offered(p, s, PressApply) != Offered(p, s, PressEdit)
    ensures Offered(p, s, TypeFen(text)) == Offered(p, s, PressReset) == Offered(p, s, PressApply)
    ensures Offered(p, s, PressDetect) ==> p.imageUri != "" && !s.detecting
    ensures Offered(p, s, PressRetry) <==> Truthy(s.error)
  {
  }

  /** An applied entry that fails validation never reaches the analysis service. */
  lemma InvalidEntryNotAnalysed(p: Props, valid: string -> bool, s: Screen)
    requires !valid(s.fenInput)
    ensures Step(p, valid, s, PressApply).requests == []
    ensures Step(p, valid, s, PressApply).next == s
  {
  }

  // ---------------------------------------------------------------------------------------
  // Result panel

  /** The result panel; `depth` is shown only when present and non-zero. */
  datatype Panel = Panel(
    depth: Option<int>,
    evaluation: EvalText,
    winChance: Option<real>,
    bestMove: Option<string>,
    variation: Option<string>)

  function ResultPanel(s: Screen): (panel: Option<Panel>)
    ensures panel.Some? <==> s.analysis.Some? && !s.loading
    ensures panel.Some? ==>
      var a := s.analysis.value;
      && panel.value.evaluation == EvaluationText(a)
      && panel.value.bestMove == BestMoveText(a)
      && panel.value.variation == PrincipalVariation(a.continuation)
      && panel.value.winChance == a.winChance
      && (panel.value.depth.Some? <==> a.depth.Some? && a.depth.value != 0)
  {
    if s.analysis.None? || s.loading then None
    else
      var a := s.analysis.value;
      Some(Panel(
        if a.depth.Some? && a.depth.value != 0 then a.depth else None,
        EvaluationText(a),
        a.winChance,
        BestMoveText(a),
        PrincipalVariation(a.continuation)))
  }

  /** The panel follows the analysis calls: it is hidden from the moment an analysis starts;
      a result that arrives is what it then shows; a failure brings back the panel of the
      analysis shown before, if there was one. */
  lemma PanelFollowsAnalysis(s: Screen, f: string, r: AnalysisResult)
    ensures ResultPanel(StartAnalysis(s, f).next).None?
    ensures var panel := ResultPanel(FinishAnalysis(s, Analyzed(r)));
      && panel.Some?
      && panel.value.evaluation == EvaluationText(r)
      && panel.value.bestMove == BestMoveText(r)
      && panel.value.variation == PrincipalVariation(r.continuation)
    ensures ResultPanel(FinishAnalysis(s, AnalysisThrew)) == ResultPanel(s.(loading := false))
  {
  }
}
