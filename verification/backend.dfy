/** The analysis backend's `/analyze` endpoint: the request model with its default depth, the
    call to the upstream engine service, the mapping of its answer onto `AnalysisResponse`, and
    the mapping of each kind of failure onto an HTTP error. The upstream call is an input. */
module Backend {
  import opened Types

  const DefaultDepth: int := 12

  /** `/health`: the status of its answer, which never fails. */
  function HealthStatus(): (status: nat)
    ensures IsSuccess(status)
  {
    200
  }

  datatype AnalysisRequest = AnalysisRequest(fen: string, depth: int)

  /** Pydantic's reading of the request body: `depth` defaults to 12. */
  function ReadRequest(fen: string, depth: Option<int>): (r: AnalysisRequest)
    ensures r.fen == fen
    ensures r.depth == depth.GetOr(DefaultDepth)
  {
    AnalysisRequest(fen, depth.GetOr(DefaultDepth))
  }

  /** The JSON body posted upstream. */
  datatype UpstreamPayload = UpstreamPayload(fen: string, depth: int)

  function Payload(req: AnalysisRequest): (u: UpstreamPayload)
    ensures u.fen == req.fen && u.depth == req.depth
  {
    UpstreamPayload(req.fen, req.depth)
  }

  /** A JSON key that may be missing, present with `null`, or present with a value. */
  datatype Field<+T> = Missing | Null | Present(value: T)

  /** `data.get(key)`: missing and `null` both read as `None`. */
  function Get<T>(f: Field<T>): Option<T>
  {
    match f
    case Present(v) => Some(v)
    case _ => None
  }

  /** The upstream answer's keys (`mate`, `eval`, `move`, `san`, `continuationArr`, `depth`,
      `winChance`). */
  datatype UpstreamBody = UpstreamBody(
    mate: Field<int>,
    eval: Field<real>,
    move: Field<string>,
    san: Field<string>,
    continuationArr: Field<seq<string>>,
    depth: Field<int>,
    winChance: Field<real>)

  /** What the upstream call came to: an HTTP answer (status, raw text, decoded body), or an
      `httpx.RequestError` (connection failure, timeout) with its text. */
  datatype Upstream = Answered(status: nat, text: string, body: Json<UpstreamBody>) | RequestFailed(reason: string)

  datatype AnalysisResponse = AnalysisResponse(
    fen: string,
    evaluation: Option<real>,
    best_move: Option<string>,
    best_move_san: Option<string>,
    continuation: seq<string>,
    is_mate: bool,
    mate_in: Option<int>,
    depth: Option<int>,
    win_chance: Option<real>)

  /** `raise_for_status` raises for every status outside 2xx. */
  predicate IsSuccess(status: nat)
  {
    200 <= status <= 299
  }

  /** The response built from a decoded upstream body, or `None` when pydantic rejects it: an
      explicit `null` under `continuationArr` is not a list. */
  function Respond(req: AnalysisRequest, data: UpstreamBody): (r: Option<AnalysisResponse>)
    ensures r.None? <==> data.continuationArr.Null?
    ensures r.Some? ==>
      var a := r.value;
      && a.fen == req.fen
      && (a.is_mate <==> data.mate.Present?)
      && (a.is_mate ==> a.evaluation.None?)
      && (!a.is_mate ==> a.evaluation == Get(data.eval))
      && a.mate_in == Get(data.mate)
      && a.continuation == (if data.continuationArr.Present? then data.continuationArr.value else [])
      && a.best_move == Get(data.move) && a.best_move_san == Get(data.san)
      && a.depth == Get(data.depth) && a.win_chance == Get(data.winChance)
  {
    var isMate := Get(data.mate).Some?;
    match data.continuationArr
    case Null => None
    case _ =>
      Some(AnalysisResponse(
        req.fen,
        if isMate then None else Get(data.eval),
        Get(data.move),
        Get(data.san),
        match data.continuationArr case Present(c) => c case _ => [],
        isMate,
        Get(data.mate),
        Get(data.depth),
        Get(data.winChance)))
  }

  /** `analyze_position`. An upstream error status is passed on with its text; a failure to
      reach upstream is 503; anything else that goes wrong (an undecodable body, a body the
      response model rejects, whose message is `rejection`) is 500. */
  function AnalyzePosition(req: AnalysisRequest, up: Upstream, rejection: string): (r: Result<AnalysisResponse, HttpError>)
    ensures up.Answered? && !IsSuccess(up.status) ==>
      r == Err(HttpError(up.status, "Chess API error: " + up.text))
    ensures up.RequestFailed? ==> r == Err(HttpError(503, "Failed to connect to Chess API: " + up.reason))
    ensures up.Answered? && IsSuccess(up.status) && up.body.Unparsable? ==>
      r == Err(HttpError(500, "Internal server error: " + up.body.message))
    ensures up.Answered? && IsSuccess(up.status) && up.body.Parsed? ==>
      match Respond(req, up.body.value)
      case Some(a) => r == Ok(a)
      case None => r == Err(HttpError(500, "Internal server error: " + rejection))
    ensures r.Ok? ==> r.value.fen == req.fen
  {
    match up
    case RequestFailed(reason) => Err(HttpError(503, "Failed to connect to Chess API: " + reason))
    case Answered(status, text, body) =>
      if !IsSuccess(status) then Err(HttpError(status, "Chess API error: " + text))
      else
        match body
        case Unparsable(message) => Err(HttpError(500, "Internal server error: " + message))
        case Parsed(data) =>
          match Respond(req, data)
          case Some(a) => Ok(a)
          case None => Err(HttpError(500, "Internal server error: " + rejection))
  }

  /** Every error carries a non-empty detail and a status that is an error status, 503 or 500
      for the backend's own failures. */
  lemma ErrorsDescribed(req: AnalysisRequest, up: Upstream, rejection: string)
    ensures var r := AnalyzePosition(req, up, rejection);
      r.Err? ==> r.error.detail != "" && !IsSuccess(r.error.status)
  {
  }

  /** A mate at distance 0 still counts as a mate. */
  lemma MateZeroIsMate(req: AnalysisRequest, data: UpstreamBody)
    requires data.mate == Present(0) && !data.continuationArr.Null?
    ensures Respond(req, data).value.is_mate && Respond(req, data).value.mate_in == Some(0)
    ensures Respond(req, data).value.evaluation.None?
  {
  }
}
