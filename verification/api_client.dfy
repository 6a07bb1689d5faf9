/** The app's client of the analysis backend: the `/analyze` request, the mapping of the
    snake_case response onto `AnalysisResult`, the error message of a failed call, the
    analysis-board link and the health probe. A reply is the HTTP status with the decoded
    JSON body, or the error `fetch` threw. */
module ApiClient {
  import opened Types
  import Text
  import Backend
  import LichessApi

  const DefaultDepth: int := 12

  datatype RequestBody = RequestBody(fen: string, depth: int)

  /** The posted body: the position and the depth, 12 when the caller gives none. */
  function AnalyzeBody(fen: string, depth: Option<int>): (b: RequestBody)
    ensures b.fen == fen
    ensures depth.Some? ==> b.depth == depth.value
    ensures depth.None? ==> b.depth == 12
  {
    RequestBody(fen, depth.GetOr(DefaultDepth))
  }

  /** The two shapes of body the backend sends: an analysis, or an error with `detail`. */
  datatype Wire =
    | AnalysisBody(
        fen: string,
        evaluation: Option<real>,
        best_move: Option<string>,
        best_move_san: Option<string>,
        continuation: Option<seq<string>>,
        is_mate: bool,
        mate_in: Option<int>,
        depth: Option<int>,
        win_chance: Option<real>)
    | ErrorBody(detail: Option<string>)

  datatype Reply = Response(status: nat, body: Json<Wire>) | NetworkFailure(message: string)

  predicate IsOk(status: nat)
  {
    200 <= status <= 299
  }

  /** A 2xx body that decodes is an analysis (the client reads its fields unchecked). */
  predicate WellShaped(reply: Reply)
  {
    reply.Response? && reply.body.Parsed? && IsOk(reply.status) ==> reply.body.value.AnalysisBody?
  }

  /** `error.detail` of a decoded error body; a body of any other shape has none. */
  function Detail(w: Wire): (d: Option<string>)
    ensures w.ErrorBody? ==> d == w.detail
    ensures w.AnalysisBody? ==> d.None?
  {
    if w.ErrorBody? then w.detail else None
  }

  /** The field-by-field mapping of an analysis body. */
  function ToResult(w: Wire): (a: AnalysisResult)
    requires w.AnalysisBody?
    ensures a.fen == w.fen && a.evaluation == w.evaluation
    ensures a.bestMove == w.best_move && a.bestMoveSan == w.best_move_san
    ensures a.continuation == w.continuation.GetOr([])
    ensures a.isMate == w.is_mate && a.mateIn == w.mate_in
    ensures a.depth == w.depth && a.winChance == w.win_chance
  {
    AnalysisResult(w.fen, w.evaluation, w.best_move, w.best_move_san, w.continuation.GetOr([]),
                   w.is_mate, w.mate_in, w.depth, w.win_chance)
  }

  /** `analyzePosition`: a non-ok reply is an error carrying the server's `detail`, or
      `API error: <status>` when there is none; a reply that cannot be decoded, and a network
      failure, rethrow their own error. */
  function AnalyzePosition(reply: Reply): (r: Result<AnalysisResult, string>)
    requires WellShaped(reply)
    ensures reply.NetworkFailure? ==> r == Err(reply.message)
    ensures reply.Response? && reply.body.Unparsable? ==> r == Err(reply.body.message)
    ensures reply.Response? && reply.body.Parsed? && !IsOk(reply.status) ==>
      r == Err(OrElse(Detail(reply.body.value), "API error: " + Text.Decimal(reply.status)))
    ensures reply.Response? && reply.body.Parsed? && IsOk(reply.status) ==>
      r == Ok(ToResult(reply.body.value))
  {
    match reply
    case NetworkFailure(message) => Err(message)
    case Response(status, body) =>
      match body
      case Unparsable(message) => Err(message)
      case Parsed(w) =>
        if !IsOk(status) then Err(OrElse(Detail(w), "API error: " + Text.Decimal(status)))
        else Ok(ToResult(w))
  }

  /** `generateAnalysisUrl`: the same link as the Lichess client's, for every position. */
  function AnalysisUrl(encode: string -> string, fen: string): (url: string)
    ensures url == LichessApi.AnalysisUrl(encode, fen)
  {
    "https://lichess.org/analysis?fen=" + encode(fen)
  }

  /** `healthCheck`: the status of `/health`, or `None` when `fetch` threw. */
  function HealthCheck(status: Option<nat>): (healthy: bool)
    ensures healthy <==> status.Some? && 200 <= status.value <= 299
  {
    match status
    case None => false
    case Some(s) => IsOk(s)
  }

  // ---------------------------------------------------------------------------------------
  // Against the backend

  /** The body FastAPI sends for the backend's outcome. */
  function Serve(r: Result<Backend.AnalysisResponse, HttpError>): Reply
  {
    match r
    case Ok(a) =>
      Response(200, Parsed(AnalysisBody(a.fen, a.evaluation, a.best_move, a.best_move_san, Some(a.continuation),
                                        a.is_mate, a.mate_in, a.depth, a.win_chance)))
    case Err(e) => Response(e.status, Parsed(ErrorBody(Some(e.detail))))
  }

  /** End to end: the app's request reaches the engine with its position and depth; an
      answer comes back for that position, a mate exactly when the engine reports one (even at
      distance 0), without an evaluation when it is a mate; every backend failure surfaces in
      the app with the backend's detail as its message. */
  lemma EndToEnd(fen: string, depth: Option<int>, up: Backend.Upstream, rejection: string)
    ensures var body := AnalyzeBody(fen, depth);
      var req := Backend.ReadRequest(body.fen, Some(body.depth));
      && Backend.Payload(req) == Backend.UpstreamPayload(fen, depth.GetOr(12))
      && var served := Serve(Backend.AnalyzePosition(req, up, rejection));
      && WellShaped(served)
      && var r := AnalyzePosition(served);
      && (r.Ok? ==>
            && r.value.fen == fen
            && up.Answered? && up.body.Parsed?
            && (r.value.isMate <==> up.body.value.mate.Present?)
            && (r.value.isMate ==> r.value.evaluation.None?)
            && r.value.mateIn == Backend.Get(up.body.value.mate))
      && (r.Err? ==> r == Err(Backend.AnalyzePosition(req, up, rejection).error.detail))
  {
    var body := AnalyzeBody(fen, depth);
    var req := Backend.ReadRequest(body.fen, Some(body.depth));
    Backend.ErrorsDescribed(req, up, rejection);
  }

  /** What the app's `analyzePosition(fen)` comes to against the backend when the engine
      service answers `up`: a result only for that position and only from a decoded engine
      answer, carrying the engine's mate; every failure is the backend's detail. */
  function AnalyzeThroughBackend(fen: string, up: Backend.Upstream, rejection: string): (r: Result<AnalysisResult, string>)
    ensures r.Ok? ==> r.value.fen == fen
    ensures r.Ok? ==> up.Answered? && Backend.IsSuccess(up.status) && up.body.Parsed?
    ensures r.Ok? ==>
      && (r.value.isMate <==> up.body.value.mate.Present?)
      && r.value.mateIn == Backend.Get(up.body.value.mate)
      && (!r.value.isMate ==> r.value.evaluation == Backend.Get(up.body.value.eval))
    ensures r.Err? <==> Backend.AnalyzePosition(Backend.ReadRequest(fen, Some(DefaultDepth)), up, rejection).Err?
  {
    var body := AnalyzeBody(fen, None);
    EndToEnd(fen, None, up, rejection);
    AnalyzePosition(Serve(Backend.AnalyzePosition(Backend.ReadRequest(body.fen, Some(body.depth)), up, rejection)))
  }

  /** The backend's `/health` always answers 200, so the probe reports healthy exactly when
      it reaches the backend. */
  lemma HealthyWhenReached(reached: bool)
    ensures HealthCheck(if reached then Some(Backend.HealthStatus()) else None) <==> reached
  {
  }
}
