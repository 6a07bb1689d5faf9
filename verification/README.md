# OTB chess analyzer — a Dafny model

The OTB chess analyzer is a mobile app. It turns a photographed over-the-board position, or
a typed FEN, into an engine evaluation. This project models its core as pure functions and
proves properties about them:

- **Analysis screen** (`AnalysisScreen`, `AnalysisSession`). The screen's display helpers
  are modelled: move formatting, highlighted squares, principal variation, evaluation line
  and result panel. The screen itself is a state machine. Each handler, and each completion
  of a service call, is one event that maps the state to an `Effect`: the next state, the
  service requests started, and the alert raised.
  - `AnalysisSession` adds the environment: outstanding calls, positions ever requested,
    positions ever detected. A completion can arrive only for an outstanding call, and a
    user event only when the screen offers it.
  - A completion that delivers an analysis is admissible only when the result is for the
    position its call asked about. This is an assumption of the session model; it is
    discharged for the modelled services by `BackendRepliesAdmissible`, which shows that
    every reply the app's client gets from the backend meets it.
  - Over every trace it proves what the screen keeps true. Examples: the detection spinner
    shows exactly while a detection is outstanding, and a shown analysis answers a position
    that was requested. Every position sent for analysis is the opening position, a
    validated entry or a detected position.
  - The screen has no stale-reply guard and does not keep analysis single-flight, although
    both would be natural. The model follows the code. Two lemmas show it: two analyses can
    be outstanding at once (`TwoAnalysesOutstanding`), and a late reply is shown over a newer
    position (`LateReplyShown`).
  - Pressing "Retry Board Detection" after an attempt clears the attempted flag. The handler
    then calls a closure that still sees the old flag, so the first press starts nothing and
    a second press is needed (`DetectNeedsSecondPress`).
- **Manual entry screen** (`ManualFenScreen`). The entry text, its validity flag, the five
  preset positions, the preview board, and the guarded hand-over to the analysis screen.
- **Camera screen** (`CameraScreen`). The lens facing, the captured image awaiting
  confirmation, and the hand-over of that image to the analysis screen. This covers the
  screen once camera permission is granted.
- **Evaluation bar** (`EvaluationBar`). The white share of the bar, its label, and which
  side the label sits on.
- **Chess board** (`ChessBoard`). Square names from grid indices and back, shading,
  piece-letter case, the empty-board fallback for a position the parser rejects, and the
  coordinate labels.
- **Services**:
  - the Lichess client (`LichessApi`): cloud evaluation, opening name, analysis link;
  - the app's backend client (`ApiClient`);
  - the backend's `/analyze` endpoint (`Backend`);
  - the board-recognition service (`ChesscogService`).

  Each maps HTTP outcomes, including every failure, to results or errors. `ApiClient.EndToEnd`
  chains the client and the backend: a position sent from the app comes back analysed for
  that position, and a backend failure reaches the app with the backend's detail as its
  message.
- **Flows** (`Flows`). How the route chosen on the manual-entry and camera screens decides
  what the analysis screen does first on mounting. How the engine's answer, passed through
  the backend and the app's client, shows on the result panel and on the bar. A mate keeps
  its distance on both, and a mate at distance 0 reads "Mate in 0" beside an all-black bar
  with "M0". The analysis screen calls the app's backend client, not the Lichess client.

Foreign code is passed in as function parameters:

- chess.js position validation is `valid: string -> bool`;
- the chess.js board parser is `parse`;
- `encodeURIComponent` is `encode`;
- the recognizer, the base64 decoder and the file read are inputs of the recognition service.

HTTP replies are inputs: a status with a decoded JSON body (or the decoder's error), or the
error the request raised. Shared records are in `Types`: `AnalysisResult`, the routes,
`Option`/`Result`, and JavaScript truthiness. Text helpers are in `Text`: split/join,
first index, ASCII case mapping, and decimal rendering.

## Model

| member | source | states |
|---|---|---|
| Types.OrElse | frontend/src/screens/AnalysisScreen.tsx:36-37 | `s \|\| fallback` on an optional string: the string when present and non-empty, the fallback otherwise |
| Text.Split | frontend/src/services/lichessApi.ts:53-54 | splitting always yields at least one piece |
| Text.JoinSplit | frontend/src/services/lichessApi.ts:54 | joining the pieces of a split with the same separator gives back the text |
| Text.SplitPiecesFree | frontend/src/services/lichessApi.ts:54 | no piece of a split contains the separator |
| Text.SplitJoin | frontend/src/screens/AnalysisScreen.tsx:332 | splitting a join of separator-free pieces recovers the pieces |
| Text.SplitHead | chesscog-service/api.py:160 | the first piece of a split is the longest separator-free prefix of the text |
| Text.SplitAtFirst | chesscog-service/api.py:159-160 | at the first separator, a split is the text before it followed by the split of the rest |
| Text.IndexOf | chesscog-service/api.py:159 | the position found holds the character and no earlier position does |
| Text.IndexOfFirst | chesscog-service/api.py:159 | a position holding the character with none before it is the one found |
| Text.Upper | frontend/src/screens/AnalysisScreen.tsx:144 | ASCII lower-case letters move to upper case; everything else is unchanged |
| Text.LowerString | chesscog-service/api.py:103 | lower-casing keeps the length and maps each character to its lower-case form |
| Text.Decimal | frontend/src/services/lichessApi.ts:30 | the rendered status is a non-empty string of digits |
| Text.ParseDecimalInverse | frontend/src/services/lichessApi.ts:30 | reading the rendered number back gives the number |
| Text.DecimalInjective | frontend/src/services/lichessApi.ts:30 | different statuses give different error texts |
| EvaluationBar.Clamp | frontend/src/components/EvaluationBar.tsx:24 | the clamped evaluation lies in [-10, 10]; values inside are unchanged and values outside go to the nearer bound |
| EvaluationBar.WhitePercentage | frontend/src/components/EvaluationBar.tsx:17-26 | the share is in [0, 100]; a mate with a distance gives 100 or 0 by its sign; no evaluation gives 50; otherwise it agrees with the reference linear scale (0 at -10 or below, 100 at +10 or above) |
| EvaluationBar.WhitePercentageMonotone | frontend/src/components/EvaluationBar.tsx:21-25 | without a mate, a better evaluation never paints less of the bar white |
| EvaluationBar.DisplayText | frontend/src/components/EvaluationBar.tsx:28-35 | a mate with a distance shows its absolute value; no evaluation shows "?"; a score carries "+" exactly when it is positive |
| EvaluationBar.View | frontend/src/components/EvaluationBar.tsx:37-71 | the black and white sections add up to 100 percent; the label sits on the white side exactly when White has at least half |
| EvaluationBar.WhiteAdvantageCases | frontend/src/components/EvaluationBar.tsx:18-38 | the label is on White's side exactly for a mate with positive distance, an unknown evaluation, or a non-negative score |
| EvaluationBar.ScoreExamples | frontend/src/components/EvaluationBar.tsx:17-26 | +1.5 gives 57.5; -10 and below give 0; +12 gives 100; a mate at distance 0 gives 0; a mate without distance falls back to the score |
| ChessBoard.SquareName | frontend/src/components/ChessBoard.tsx:27-28 | the name is a file letter a–h for the column and a rank digit with row 0 as rank 8 |
| ChessBoard.SquareIndexRoundTrip | frontend/src/components/ChessBoard.tsx:58-59 | reading a square's name gives back its grid position |
| ChessBoard.SquareIndexSound | frontend/src/components/ChessBoard.tsx:58-59 | every readable square name is on the board and is the name of the position read |
| ChessBoard.SquareNameInjective | frontend/src/components/ChessBoard.tsx:58-61 | distinct squares have distinct names |
| ChessBoard.SquareShade | frontend/src/components/ChessBoard.tsx:68-83 | a highlighted square is drawn highlighted; otherwise it is light exactly when row plus file is even |
| ChessBoard.ShadeOrientation | frontend/src/components/ChessBoard.tsx:68 | h1 is light, a1 is dark, and neighbouring squares differ |
| ChessBoard.PieceLetter | frontend/src/components/ChessBoard.tsx:44-49 | white pieces are upper case, black lower case, and both name the piece's type |
| ChessBoard.DrawnWhiteIffWhitePiece | frontend/src/components/ChessBoard.tsx:93 | a glyph is drawn white exactly when the piece is white |
| ChessBoard.Board | frontend/src/components/ChessBoard.tsx:40-56 | a rejected position shows an 8×8 empty board; otherwise each cell shows the parsed piece's letter |
| ChessBoard.BoardShowsSquarePieces | frontend/src/components/ChessBoard.tsx:40-62 | for an accepted 8×8 position, the cell drawn at a grid index shows the letter of exactly the piece the parser puts on the square of that name |
| ChessBoard.PieceLetterInjective | frontend/src/components/ChessBoard.tsx:46-48 | the drawn letter identifies both the piece kind and its colour |
| ChessBoard.RankLabel | frontend/src/components/ChessBoard.tsx:104-113 | the rank digit appears exactly down the left-most file, and it is that square's rank |
| ChessBoard.FileLabel | frontend/src/components/ChessBoard.tsx:114-123 | the file letter appears exactly along the bottom row, and it is that square's file |
| AnalysisScreen.FormatMove | frontend/src/screens/AnalysisScreen.tsx:140-146 | a short move is shown as it is; otherwise from-square, "-", to-square, then "=" and the upper-cased promotion letter when there is a fifth character |
| AnalysisScreen.FormatMoveRoundTrip | frontend/src/screens/AnalysisScreen.tsx:140-146 | for a UCI move with a lower-case promotion letter, the formatted move reads back to its first five characters |
| AnalysisScreen.HighlightSquares | frontend/src/screens/AnalysisScreen.tsx:131-138 | no squares exactly when there is no analysis, no best move or a best move shorter than four characters; otherwise its from- and to-squares |
| AnalysisScreen.HighlightedCellsAreTheMove | frontend/src/screens/AnalysisScreen.tsx:131-138 | on the board, a cell is highlighted exactly when the best move's from- or to-square names it |
| AnalysisScreen.PrincipalVariation | frontend/src/screens/AnalysisScreen.tsx:326-335 | the line is shown exactly when the continuation has more than one move |
| AnalysisScreen.PrincipalVariationMoves | frontend/src/screens/AnalysisScreen.tsx:332 | the shown line holds the continuation's first moves, at most six of them |
| AnalysisScreen.EvaluationText | frontend/src/screens/AnalysisScreen.tsx:300-304 | a mate shows the absolute mate distance, 0 when none is given; a score shows its value, with a "+" exactly when it is positive; otherwise "Unknown" exactly when there is no evaluation |
| AnalysisScreen.EvaluationAgreesWithBar | frontend/src/screens/AnalysisScreen.tsx:190-197 | the panel and the bar beside the board read one result alike: the same mate distance, the same score with a "+" in the same cases, both unknown together; they differ only on a mate without a distance, "Mate in 0" on the panel and a score on the bar |
| AnalysisScreen.BestMoveText | frontend/src/screens/AnalysisScreen.tsx:317-324 | shown exactly when there is a best move; the SAN form when present, else the formatted UCI move |
| AnalysisScreen.BestMoveNamesHighlight | frontend/src/screens/AnalysisScreen.tsx:131-146 | without a SAN form, the shown best move names the two highlighted squares and reads back as the engine's move |
| AnalysisScreen.OpeningFen | frontend/src/screens/AnalysisScreen.tsx:35-37 | the route's position when given and non-empty, else the starting position; never empty |
| AnalysisScreen.Initial | frontend/src/screens/AnalysisScreen.tsx:35-44 | opens on the opening position, in the editor exactly when no position was given, with nothing loaded or running |
| AnalysisScreen.StartAnalysis | frontend/src/screens/AnalysisScreen.tsx:55-59 | shows the spinner, clears the error, asks for exactly the given position, and changes nothing else |
| AnalysisScreen.FinishAnalysis | frontend/src/screens/AnalysisScreen.tsx:58-66 | the spinner stops; a result replaces the shown analysis; a failure keeps it and sets the failure message; nothing else changes |
| AnalysisScreen.StartDetection | frontend/src/screens/AnalysisScreen.tsx:69-77 | does nothing without an image or after an attempt; otherwise marks the attempt, shows the spinner, clears the error and asks to detect the image from White's side |
| AnalysisScreen.FinishDetection | frontend/src/screens/AnalysisScreen.tsx:76-103 | a detected position becomes the shown and edited position and is analysed at once, with an alert exactly when it may be illegal; any other outcome keeps the position and the shown analysis, reopens the editor and sets the service's error or the fixed message; a success also keeps the shown analysis; the attempted flag is left as it was on either outcome |
| AnalysisScreen.Mount | frontend/src/screens/AnalysisScreen.tsx:116-124 | with an image and no position it detects; with a position it analyses that position outside the editor; with neither it stays idle in the editor |
| AnalysisScreen.ApplyFen | frontend/src/screens/AnalysisScreen.tsx:106-114 | an invalid entry only alerts; a valid one becomes the position, closes the editor, shows the spinner, clears the error and is analysed, with the rest of the screen, the entry text included, unchanged |
| AnalysisScreen.Step | frontend/src/screens/AnalysisScreen.tsx:174-286 | every event starts at most one call; an analysis request is for the position then shown, with the spinner on; a detection request is for the route's image, with its spinner on; Reset puts the starting position in the text field and changes nothing else |
| AnalysisScreen.RepliesNotMatched | frontend/src/screens/AnalysisScreen.tsx:58-60 | an analysis reply has the same effect whichever request it answers |
| AnalysisScreen.DetectNeedsSecondPress | frontend/src/screens/AnalysisScreen.tsx:177-180 | from a screen whose attempted flag is set (as `DetectionThenTwoPresses` shows it is after a completed detection), the first press of the detect button only clears the flag and the second press detects |
| AnalysisScreen.DetectionThenTwoPresses | frontend/src/screens/AnalysisScreen.tsx:69-124 | a screen opened on an image detects it; after that detection completes, with any outcome, the detect button is offered, its first press only clears the flag and its second press detects again |
| AnalysisScreen.Offered | frontend/src/screens/AnalysisScreen.tsx:174-283 | the detect button needs an image and no running detection; the text field, Reset and Apply are offered in the editor and Edit outside it; Retry appears with an error |
| AnalysisScreen.EditorControlsExclusive | frontend/src/screens/AnalysisScreen.tsx:207-250 | the editor's controls are offered together and exactly when Edit is not; Retry exactly with an error |
| AnalysisScreen.InvalidEntryNotAnalysed | frontend/src/screens/AnalysisScreen.tsx:106-110 | applying an entry that fails validation requests nothing and changes nothing |
| AnalysisScreen.ResultPanel | frontend/src/screens/AnalysisScreen.tsx:288-335 | shown exactly when there is an analysis and nothing is loading; the depth line exactly for a non-zero depth; the other lines as their helpers state |
| AnalysisScreen.PanelFollowsAnalysis | frontend/src/screens/AnalysisScreen.tsx:55-67 | the panel is hidden once an analysis starts; an arriving result is what it then shows; a failure brings back the panel of the previous analysis, if any |
| AnalysisSession.StartInv | frontend/src/screens/AnalysisScreen.tsx:116-124 | the screen's invariant holds once it has mounted |
| AnalysisSession.QuietEventInv | frontend/src/screens/AnalysisScreen.tsx:210-250 | typing, Reset and Edit keep the invariant |
| AnalysisSession.DetectPressInv | frontend/src/screens/AnalysisScreen.tsx:174-180 | the detect button keeps the invariant |
| AnalysisSession.ApplyPressInv | frontend/src/screens/AnalysisScreen.tsx:106-114 | Apply keeps the invariant |
| AnalysisSession.RetryPressInv | frontend/src/screens/AnalysisScreen.tsx:276-283 | Retry keeps the invariant |
| AnalysisSession.DetectionDoneInv | frontend/src/screens/AnalysisScreen.tsx:76-103 | the end of a detection keeps the invariant |
| AnalysisSession.AnalysisDoneInv | frontend/src/screens/AnalysisScreen.tsx:58-66 | the end of an analysis keeps the invariant |
| AnalysisSession.ApplyInv | frontend/src/screens/AnalysisScreen.tsx:55-124 | every event keeps the invariant: at most one detection outstanding, with its spinner shown exactly while it is; the analysis spinner only while an analysis is outstanding; the text field holds the position outside the editor; errors have text; shown and requested positions come from the opening position, a validated entry or a detection; a shown analysis answers a requested position |
| AnalysisSession.RunFromInv | frontend/src/screens/AnalysisScreen.tsx:55-124 | the invariant holds after any sequence of events from a state where it holds |
| AnalysisSession.RunInv | frontend/src/screens/AnalysisScreen.tsx:31-124 | the invariant holds after every trace from mounting |
| AnalysisSession.AnalysedPositionsSourced | frontend/src/screens/AnalysisScreen.tsx:76-114 | every position ever sent for analysis is the opening position, a validated entry or a detected position; detected positions are analysed without validation |
| AnalysisSession.EditStep | frontend/src/screens/AnalysisScreen.tsx:244-247 | Edit opens the editor on the shown position |
| AnalysisSession.TypeStep | frontend/src/screens/AnalysisScreen.tsx:210-213 | typing in the editor replaces the entry text and leaves the rest of the screen and every outstanding call unchanged |
| AnalysisSession.ApplyStep | frontend/src/screens/AnalysisScreen.tsx:106-114 | applying a valid entry shows it, closes the editor and adds one outstanding analysis of it |
| AnalysisSession.ReplyStep | frontend/src/screens/AnalysisScreen.tsx:58-60 | an analysis reply is shown without changing the position and retires its call |
| AnalysisSession.StartOnPosition | frontend/src/screens/AnalysisScreen.tsx:120-122 | opening on a position analyses exactly that position |
| AnalysisSession.BackendReply | frontend/src/screens/AnalysisScreen.tsx:55-66 | the reply the screen receives from the app's client over the backend: a result exactly when that call succeeds, and then its result |
| AnalysisSession.BackendRepliesAdmissible | frontend/src/screens/AnalysisScreen.tsx:55-66 | every reply the client and backend deliver for an outstanding call meets the session's assumption that a result answers its call's position |
| AnalysisSession.TwoAnalysesOutstanding | frontend/src/screens/AnalysisScreen.tsx:242-247 | opening on a position, then Edit and Apply, leaves two analyses outstanding: analysis is not single-flight |
| AnalysisSession.LateReplyShown | frontend/src/screens/AnalysisScreen.tsx:55-67 | when the older request's reply arrives last, it is shown over the board of the newer position |
| ManualFenScreen.Initial | frontend/src/screens/ManualFenScreen.tsx:45-46 | opens on the first preset, the starting position, marked valid without checking |
| ManualFenScreen.ValidateAndSetFen | frontend/src/screens/ManualFenScreen.tsx:48-56 | the text becomes the entry, and the flag is whether the validator accepts it |
| ManualFenScreen.AnalyzePosition | frontend/src/screens/ManualFenScreen.tsx:58-64 | a valid entry navigates to analysis with no image and that position; an invalid one only alerts |
| ManualFenScreen.Step | frontend/src/screens/ManualFenScreen.tsx:77-120 | typing and choosing a preset both validate and set the text, with no navigation or alert; only the Analyze press of a valid entry navigates |
| ManualFenScreen.FlagTracksText | frontend/src/screens/ManualFenScreen.tsx:48-56 | once the flag describes the text, it keeps describing it after any events |
| ManualFenScreen.OfferedNeverAlerts | frontend/src/screens/ManualFenScreen.tsx:58-122 | with Analyze disabled while the entry is invalid, no offered event raises the invalid alert, and an offered Analyze always navigates |
| ManualFenScreen.NavigatesOnlyValid | frontend/src/screens/ManualFenScreen.tsx:45-64 | the screen only ever hands a validated position, and no image, to the analysis screen |
| ManualFenScreen.AtMostOneActive | frontend/src/screens/ManualFenScreen.tsx:21-42 | the presets are distinct, so at most one is highlighted |
| ManualFenScreen.SelectMarksPreset | frontend/src/screens/ManualFenScreen.tsx:95-107 | choosing a preset highlights it and no other |
| ManualFenScreen.PreviewFen | frontend/src/screens/ManualFenScreen.tsx:72 | the preview shows the entry while valid, else the starting position |
| ManualFenScreen.PreviewAlwaysValid | frontend/src/screens/ManualFenScreen.tsx:45-72 | given a valid first preset, the preview always shows a position the validator accepts: the entry when it validates, else the starting position |
| CameraScreen.Initial | frontend/src/screens/CameraScreen.tsx:23-25 | opens on the back lens with no image |
| CameraScreen.Flip | frontend/src/screens/CameraScreen.tsx:85-87 | flipping always changes the lens |
| CameraScreen.FlipTwice | frontend/src/screens/CameraScreen.tsx:85-87 | flipping twice restores the lens |
| CameraScreen.Step | frontend/src/screens/CameraScreen.tsx:55-97 | a photo or a picked first asset becomes the captured image; cancellation, no camera and no photo change nothing; only a throwing shutter raises the failure alert; Retake clears the image; navigation happens exactly on Analyze with an image, to analysis of that image with no position |
| CameraScreen.ToggleTwiceRestores | frontend/src/screens/CameraScreen.tsx:85-87 | two flips restore the whole screen state |
| CameraScreen.RetakeReturnsToCamera | frontend/src/screens/CameraScreen.tsx:89-91 | Retake returns to the live camera with the lens unchanged |
| CameraScreen.OnlyPreviewNavigates | frontend/src/screens/CameraScreen.tsx:93-97 | among the events on offer, exactly Analyze hands the image on, and only the preview offers it |
| LichessApi.NoEvaluation | frontend/src/services/lichessApi.ts:20-28 | the "no evaluation" result: the position, no score, no move, no mate |
| LichessApi.FromPv | frontend/src/services/lichessApi.ts:47-57 | a mate exactly when the variation reports one, with no score then; otherwise centipawns over 100; the continuation is the move text split at spaces; the best move is its first non-empty move; a mate distance of 0 is dropped |
| LichessApi.AnalyzePosition | frontend/src/services/lichessApi.ts:5-62 | 404 is "no evaluation"; other non-ok statuses fail with "Lichess API error: <status>"; network and decoding failures are rethrown; a result is always for the requested position |
| LichessApi.FirstVariationUsed | frontend/src/services/lichessApi.ts:33-45 | a successful lookup maps the first variation, and a missing one reads like a 404 |
| LichessApi.ContinuationIsMoves | frontend/src/services/lichessApi.ts:53-54 | the continuation joined by spaces is the move text, and no move contains a space |
| LichessApi.MateZeroLosesDistance | frontend/src/services/lichessApi.ts:47-56 | a mate at distance 0 is a mate without a distance and without a score |
| LichessApi.OpeningName | frontend/src/services/lichessApi.ts:64-86 | never fails; a name exactly when the lookup succeeds with a non-empty name, and then it is that name |
| LichessApi.CloudEvalUrl | frontend/src/services/lichessApi.ts:7-11 | the lookup asks the cloud-evaluation endpoint for one variation of the encoded position |
| LichessApi.CloudEvalUrlInjective | frontend/src/services/lichessApi.ts:7-11 | with an injective encoder, distinct positions are looked up under distinct links |
| LichessApi.OpeningNameCatchesAll | frontend/src/services/lichessApi.ts:64-86 | the lookup with its catch removed throws on network and decoding failures; with the catch every such failure becomes no name, and what the lookup finds is passed through |
| LichessApi.AnalysisUrl | frontend/src/services/lichessApi.ts:88-91 | the link is the analysis-board prefix followed by the encoded position |
| LichessApi.AnalysisUrlInjective | frontend/src/services/lichessApi.ts:88-91 | with an injective encoder, distinct positions get distinct links |
| ApiClient.AnalyzeBody | frontend/src/services/api.ts:9-22 | the posted body carries the position and the depth, 12 by default |
| ApiClient.ToResult | frontend/src/services/api.ts:30-42 | each snake_case field maps to its camelCase field; a missing continuation becomes empty |
| ApiClient.AnalyzePosition | frontend/src/services/api.ts:9-47 | a non-ok reply fails with the body's detail, or "API error: <status>" when there is none; undecodable bodies and network failures are rethrown; an ok reply is the mapped result |
| ApiClient.AnalysisUrl | frontend/src/services/api.ts:49-52 | the same link as the Lichess client's, for every position and encoder |
| ApiClient.HealthCheck | frontend/src/services/api.ts:54-61 | healthy exactly when the probe answered with a 2xx status |
| ApiClient.EndToEnd | frontend/src/services/api.ts:9-47 | through the backend, the engine gets the app's position and depth; an answer is for that position, a mate exactly when the engine reports one and then without a score; every backend failure reaches the app with the backend's detail as its message |
| ApiClient.AnalyzeThroughBackend | frontend/src/services/api.ts:9-47 | the app's analysis of a position via the backend: a result only for that position and from a decoded 2xx engine answer, a mate exactly when the engine reports one with its distance, the engine's score otherwise; it fails exactly when the backend fails |
| ApiClient.HealthyWhenReached | frontend/src/services/api.ts:54-61 | the backend's health answer is always 2xx, so the probe is healthy exactly when it reaches the backend |
| Backend.ReadRequest | backend/main.py:22-24 | the request's depth defaults to 12 |
| Backend.HealthStatus | backend/main.py:44-46 | the health endpoint always answers with a success status |
| Backend.Payload | backend/main.py:55-62 | the engine is asked for the request's position and depth |
| Backend.Respond | backend/main.py:67-81 | the response is rejected exactly when the continuation is an explicit null; otherwise it is for the requested position, a mate exactly when the engine reports one and then without a score, and a missing continuation is empty |
| Backend.AnalyzePosition | backend/main.py:49-97 | an engine error status is passed on with "Chess API error: " and its text; an unreachable engine is 503; an undecodable or rejected body is 500; a response is always for the requested position |
| Backend.ErrorsDescribed | backend/main.py:83-97 | every error has a non-empty detail and a non-2xx status |
| Backend.MateZeroIsMate | backend/main.py:67-69 | an engine mate at distance 0 still counts as a mate, without a score |
| ChesscogService.Failure | chesscog-service/api.py:32-38 | a failed detection sets only the error; it is never valid and carries no position or link |
| ChesscogService.TurnColor | chesscog-service/api.py:103 | White exactly when the turn text lower-cases to "white" |
| ChesscogService.TurnExamples | chesscog-service/api.py:103 | "white", "White" and "WHITE" read as White; "black", "w" and the empty text read as Black |
| ChesscogService.TurnColorIgnoresCase | chesscog-service/api.py:103 | texts equal once lower-cased get the same side, and White needs five letters that lower-case to "white" |
| ChesscogService.ProcessImage | chesscog-service/api.py:81-127 | without a model it fails with the fixed message; a raising recognizer fails with the exception's text; a prediction succeeds with both FENs, its legality and the editor link to its placement |
| ChesscogService.ResponseShape | chesscog-service/api.py:115-127 | success exactly when a position is present, and exactly when there is no error; a failure is never valid and has no link |
| ChesscogService.NoModelIgnoresInput | chesscog-service/api.py:85-89 | without a model, the answer depends on neither the image nor the side |
| ChesscogService.EditorLinkDeterminesBoard | chesscog-service/api.py:120 | two successes with the same editor link detected the same placement |
| ChesscogService.ModelLoaded | chesscog-service/api.py:72-78 | "model loaded" exactly when a recognizer is present; without one, every detection fails with the fixed message |
| ChesscogService.DetectFromUpload | chesscog-service/api.py:130-145 | a failed read is 400 with the error's text; otherwise the bytes are processed, with the side defaulting to "white" |
| ChesscogService.UploadSameAsBase64 | chesscog-service/api.py:130-166 | a base64 text that decodes to some bytes gets the same answer as an upload of those bytes with the same side |
| ChesscogService.StripDataUrl | chesscog-service/api.py:157-160 | without a comma the text is kept; with one, the result is the text after the first comma up to the next comma or the end |
| ChesscogService.StripDataUrlKeepsPayload | chesscog-service/api.py:157-160 | a data URL's header is dropped and its comma-free payload is kept whole |
| ChesscogService.DetectFromBase64 | chesscog-service/api.py:148-166 | the stripped text is decoded; a decoding failure is 400 with its message; otherwise the bytes are processed, with the side defaulting to "white" |
| ChesscogService.DataUrlSameAsBare | chesscog-service/api.py:157-164 | a data URL and its bare payload are the same request |
| Flows.PropsOf | frontend/src/screens/AnalysisScreen.tsx:35 | the analysis screen reads its image and position from the route |
| Flows.ManualEntryIsAnalysed | frontend/src/screens/ManualFenScreen.tsx:58-64 | a valid non-empty entry opens the analysis screen, which analyses exactly that position, outside the editor and without detection |
| Flows.EmptyManualEntryStartsEditing | frontend/src/screens/AnalysisScreen.tsx:116-124 | an empty entry the validator accepts opens the analysis screen idle, in the editor, on the starting position; the app reaches this only if its validator accepts the empty text |
| Flows.PhotoIsDetected | frontend/src/screens/CameraScreen.tsx:93-97 | a confirmed photo opens the analysis screen, which detects that image from White's side and analyses nothing yet |
| Flows.EngineMateShown | frontend/src/components/EvaluationBar.tsx:17-35 | an engine mate reaches the panel and the bar with the same distance; the bar is all white for a positive distance and all black otherwise, so a mate at distance 0 is "Mate in 0" beside an all-black bar with "M0" |
| Flows.EngineScoreShown | frontend/src/screens/AnalysisScreen.tsx:190-197 | without a mate, the engine's score reaches the panel and the bar unchanged, with a "+" on both exactly when it is positive, and the bar is filled on the linear scale |

## Left out

- Rendering: layout, styles, colours, the glyph table, spinners' text, and the captured-image show/hide toggle are left out. Nothing in them decides behaviour.
- AnalysisScreen.ResultPanel: a depth of 0 is modelled as no depth line. The source's `analysis.depth && (...)` then renders a bare `0` inside a `View` rather than nothing; that rendering is not modelled.
- Number formatting: `toFixed` with 1 or 2 decimals for the evaluation, and with 1 decimal for the win chance, is left out. Scores stay exact reals.
- Camera permission: the request screens before permission is granted are left out. They are platform UI.
- `Linking.openURL`, `console.error`, the `Alert` texts, the HTTP headers, CORS, base URLs, timeouts and `uvicorn` startup are left out. Only the link's text and the fact that an alert is raised are modelled.
- chess.js validation and parsing, `encodeURIComponent`, the recognizer with its image decoding, base64 decoding and the upload read are foreign code. Each is a parameter.
- `detectBoard` is called by the analysis screen, but `frontend/src/services/api.ts` does not define it. Its reply is an input event.
- The backend's and the recognition service's request-validation errors (422) and their `/` bodies are left out. Of the `/health` bodies only the backend's status and the recognition service's `model_loaded` are modelled.
- `ChesscogService.ProcessImage`: the model's startup download and load is reduced to whether a recognizer is present.
- HomeScreen and App.tsx are not part of this model.
- AnalysisScreen.EvaluationText: does not model the `toFixed(2)` text of a score, only its sign and value.
- EvaluationBar.DisplayText: does not model the `toFixed(1)` text of a score, only its sign and value.
- LichessApi.FromPv: assumes `cp` is present whenever `mate` is absent, because a missing `cp` gives NaN in JavaScript and NaN is not modelled. It also does not tell an explicit `null` mate from a missing one.
- Backend.Respond: the only rejection modelled is an explicit `null` continuation. Other ill-typed engine fields are not modelled, because the engine body's fields are typed. The text of the rejection message is a parameter.
- Backend.AnalyzePosition: `raise_for_status` is taken to raise for every status outside 2xx.
- ApiClient.AnalyzePosition: requires that a 2xx body which decodes is an analysis object. The client reads its fields unchecked, so a body of another shape gives `undefined` fields, which are not modelled.
- ChesscogService.TurnColor and AnalysisScreen.FormatMove: case mapping covers ASCII letters only. Python's `lower` and JavaScript's `toUpperCase` also map other scripts.
- AnalysisScreen.Step: events are applied one at a time, each seeing the state left by the one before (React re-renders between them). Batched updates within one render are not modelled, apart from the detect button's stale closure.
