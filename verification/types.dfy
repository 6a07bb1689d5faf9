/** The records shared by the screens and the services: the analysis result, the navigation
    routes with their parameters, and the optional / fallible wrappers used in place of
    JavaScript `null` and thrown exceptions. */
module Types {

  datatype Option<+T> = None | Some(value: T) {
    function GetOr(default: T): T
    {
      match this
      case Some(v) => v
      case None => default
    }
  }

  /** A value, or the error a call raised instead. */
  datatype Result<+T, +E> = Ok(value: T) | Err(error: E)

  /** The outcome of reading a JSON body: the decoded object, or the decoder's error message. */
  datatype Json<+T> = Parsed(value: T) | Unparsable(message: string)

  /** JavaScript truthiness of an optional string: present and not empty. */
  predicate Truthy(s: Option<string>)
  {
    s.Some? && s.value != ""
  }

  /** JavaScript's `s || fallback` for an optional string. */
  function OrElse(s: Option<string>, fallback: string): (r: string)
    ensures Truthy(s) ==> r == s.value
    ensures !Truthy(s) ==> r == fallback
  {
    if Truthy(s) then s.value else fallback
  }

  /** `AnalysisResult`: `evaluation` is in pawns from White's side; `mateIn` is the signed
      distance to mate; the optional TypeScript fields `bestMoveSan`, `depth` and `winChance`
      are `None` when absent. */
  datatype AnalysisResult = AnalysisResult(
    fen: string,
    evaluation: Option<real>,
    bestMove: Option<string>,
    bestMoveSan: Option<string>,
    continuation: seq<string>,
    isMate: bool,
    mateIn: Option<int>,
    depth: Option<int>,
    winChance: Option<real>)

  /** FastAPI's `HTTPException`: the status and the `detail` text of the error body. */
  datatype HttpError = HttpError(status: nat, detail: string)

  /** The navigation stack's routes with their parameters (`RootStackParamList`). */
  datatype Route =
    | Home
    | Camera
    | Analysis(imageUri: string, fen: Option<string>)
    | ManualFen

  /** The standard starting position. */
  const StartFen: string := "rnbqkbnr/pppppppp/8/8/8/8/PPPPPPPP/RNBQKBNR w KQkq - 0 1"
}
