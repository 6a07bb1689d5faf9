/** The Lichess client: cloud-evaluation lookup mapped to an `AnalysisResult`, opening-name
    lookup, and the analysis-board link. `encode` stands for `encodeURIComponent`; a server
    reply is its HTTP status and, where it is read, the decoded JSON body. */
module LichessApi {
  import opened Types
  import Text

  const ApiBase: string := "https://lichess.org/api"
  const AnalysisBase: string := "https://lichess.org/analysis?fen="

  /** One principal variation: centipawns (read only when there is no mate), the signed mate
      distance when the line mates, and the UCI moves separated by spaces. */
  datatype Pv = Pv(cp: int, mate: Option<int>, moves: Option<string>)

  /** The cloud-evaluation body; `pvs` is `None` when the key is missing. */
  datatype CloudEval = CloudEval(pvs: Option<seq<Pv>>)

  /** A reply from `fetch`: a response with status and body, or a network failure. */
  datatype Reply<T> = Response(status: nat, body: Json<T>) | NetworkFailure(message: string)

  /** `response.ok`. */
  predicate IsOk(status: nat)
  {
    200 <= status <= 299
  }

  /** The cloud-evaluation lookup for one principal variation of the encoded position. */
  function CloudEvalUrl(encode: string -> string, fen: string): (url: string)
    ensures ApiBase + "/cloud-eval?fen=" <= url
    ensures url[|ApiBase + "/cloud-eval?fen="|..] == encode(fen) + "&multiPv=1"
  {
    ApiBase + "/cloud-eval?fen=" + encode(fen) + "&multiPv=1"
  }

  /** With an injective encoder, distinct positions are looked up under distinct links. */
  lemma CloudEvalUrlInjective(encode: string -> string, f1: string, f2: string)
    requires forall a, b :: encode(a) == encode(b) ==> a == b
    requires CloudEvalUrl(encode, f1) == CloudEvalUrl(encode, f2)
    ensures f1 == f2
  {
    var n := |ApiBase + "/cloud-eval?fen="|;
    assert CloudEvalUrl(encode, f1)[n..] == CloudEvalUrl(encode, f2)[n..];
    var a := encode(f1) + "&multiPv=1";
    var b := encode(f2) + "&multiPv=1";
    assert |encode(f1)| == |encode(f2)| by { assert |a| == |b|; }
    assert a[..|encode(f1)|] == encode(f1);
    assert b[..|encode(f2)|] == encode(f2);
  }

  /** The result when Lichess has no evaluation for the position. */
  function NoEvaluation(fen: string): (r: AnalysisResult)
    ensures r.fen == fen && r.evaluation.None? && r.bestMove.None? && r.continuation == []
    ensures !r.isMate && r.mateIn.None?
  {
    AnalysisResult(fen, None, None, None, [], false, None, None, None)
  }

  /** The result read from a principal variation. */
  function FromPv(fen: string, pv: Pv): (r: AnalysisResult)
    ensures r.fen == fen
    ensures r.isMate <==> pv.mate.Some?
    ensures r.evaluation == (if pv.mate.Some? then None else Some(pv.cp as real / 100.0))
    ensures pv.moves.None? ==> r.continuation == []
    ensures pv.moves.Some? ==> r.continuation == Text.Split(pv.moves.value, ' ')
    ensures r.bestMove.Some? <==> |r.continuation| > 0 && r.continuation[0] != ""
    ensures r.bestMove.Some? ==> r.bestMove.value == r.continuation[0]
    ensures r.mateIn == (if pv.mate.Some? && pv.mate.value != 0 then pv.mate else None)
    ensures r.bestMoveSan.None? && r.depth.None? && r.winChance.None?
  {
    var isMate := pv.mate.Some?;
    var continuation := if pv.moves.Some? then Text.Split(pv.moves.value, ' ') else [];
    AnalysisResult(
      fen,
      if isMate then None else Some(pv.cp as real / 100.0),
      if pv.moves.Some? && continuation[0] != "" then Some(continuation[0]) else None,
      None,
      continuation,
      isMate,
      if pv.mate.Some? && pv.mate.value != 0 then pv.mate else None,
      None,
      None)
  }

  /** `analyzePosition`: 404 means "no evaluation" (a result, not an error), any other
      non-ok status is an error, and a body without a first variation is also "no
      evaluation". Failures to reach the server or to decode the body are rethrown. */
  function AnalyzePosition(fen: string, reply: Reply<CloudEval>): (r: Result<AnalysisResult, string>)
    ensures reply.Response? && reply.status == 404 ==> r == Ok(NoEvaluation(fen))
    ensures reply.Response? && !IsOk(reply.status) && reply.status != 404 ==>
      r == Err("Lichess API error: " + Text.Decimal(reply.status))
    ensures reply.NetworkFailure? ==> r == Err(reply.message)
    ensures reply.Response? && IsOk(reply.status) && reply.body.Unparsable? ==> r == Err(reply.body.message)
    ensures r.Ok? ==> r.value.fen == fen
  {
    match reply
    case NetworkFailure(message) => Err(message)
    case Response(status, body) =>
      if !IsOk(status) then
        (if status == 404 then Ok(NoEvaluation(fen)) else Err("Lichess API error: " + Text.Decimal(status)))
      else
        match body
        case Unparsable(message) => Err(message)
        case Parsed(data) =>
          if data.pvs.None? || |data.pvs.value| == 0 then Ok(NoEvaluation(fen))
          else Ok(FromPv(fen, data.pvs.value[0]))
  }

  /** A successful lookup maps the first variation, and a missing one reads as 404 does. */
  lemma FirstVariationUsed(fen: string, status: nat, data: CloudEval)
    requires IsOk(status)
    ensures data.pvs.Some? && |data.pvs.value| > 0 ==>
      AnalyzePosition(fen, Response(status, Parsed(data))) == Ok(FromPv(fen, data.pvs.value[0]))
    ensures data.pvs.None? || |data.pvs.value| == 0 ==>
      AnalyzePosition(fen, Response(status, Parsed(data))) == AnalyzePosition(fen, Response(404, Unparsable("")))
  {
  }

  /** The continuation, joined back with spaces, is the variation's move text, and its moves
      contain no spaces. */
  lemma ContinuationIsMoves(fen: string, pv: Pv)
    requires pv.moves.Some?
    ensures Text.Join(FromPv(fen, pv).continuation, ' ') == pv.moves.value
    ensures forall i :: 0 <= i < |FromPv(fen, pv).continuation| ==> ' ' !in FromPv(fen, pv).continuation[i]
  {
    Text.JoinSplit(pv.moves.value, ' ');
    Text.SplitPiecesFree(pv.moves.value, ' ');
  }

  /** A mate reported as distance 0 reads as a mate without a distance. */
  lemma MateZeroLosesDistance(fen: string, pv: Pv)
    requires pv.mate == Some(0)
    ensures FromPv(fen, pv).isMate && FromPv(fen, pv).mateIn.None? && FromPv(fen, pv).evaluation.None?
  {
  }

  /** The masters-explorer body: the opening's name when the key path is present. */
  datatype Explorer = Explorer(openingName: Option<string>)

  /** `getOpeningName`: never fails; every failure and an empty name give `None`. */
  function OpeningName(reply: Reply<Explorer>): (name: Option<string>)
    ensures name.Some? ==> name.value != ""
    ensures name.Some? <==>
      reply.Response? && IsOk(reply.status) && reply.body.Parsed? && Truthy(reply.body.value.openingName)
    ensures name.Some? ==> name == reply.body.value.openingName
  {
    match reply
    case NetworkFailure(_) => None
    case Response(status, body) =>
      if !IsOk(status) then None
      else
        match body
        case Unparsable(_) => None
        case Parsed(data) => if Truthy(data.openingName) then data.openingName else None
  }

  /** The explorer lookup as it would behave without its `catch`: a failure to reach the
      server or to decode the body is thrown, a non-ok status gives no name. */
  function UncaughtOpeningName(reply: Reply<Explorer>): Result<Option<string>, string>
  {
    match reply
    case NetworkFailure(message) => Err(message)
    case Response(status, body) =>
      if !IsOk(status) then Ok(None)
      else
        match body
        case Unparsable(message) => Err(message)
        case Parsed(data) => Ok(if Truthy(data.openingName) then data.openingName else None)
  }

  /** `getOpeningName` is the uncaught lookup with every thrown error turned into "no name":
      it never fails, and what the lookup finds is passed through unchanged. */
  lemma OpeningNameCatchesAll(reply: Reply<Explorer>)
    ensures UncaughtOpeningName(reply).Err? ==> OpeningName(reply).None?
    ensures UncaughtOpeningName(reply).Ok? ==> OpeningName(reply) == UncaughtOpeningName(reply).value
  {
  }

  /** `generateLichessAnalysisUrl`. */
  function AnalysisUrl(encode: string -> string, fen: string): (url: string)
    ensures AnalysisBase <= url
    ensures url[|AnalysisBase|..] == encode(fen)
  {
    AnalysisBase + encode(fen)
  }

  /** With an injective encoder, distinct positions get distinct links. */
  lemma AnalysisUrlInjective(encode: string -> string, f1: string, f2: string)
    requires forall a, b :: encode(a) == encode(b) ==> a == b
    requires AnalysisUrl(encode, f1) == AnalysisUrl(encode, f2)
    ensures f1 == f2
  {
    assert AnalysisUrl(encode, f1)[|AnalysisBase|..] == AnalysisUrl(encode, f2)[|AnalysisBase|..];
  }
}
