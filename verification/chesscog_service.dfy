/** The board-recognition service: the detection response, the processing of an image with
    the recognizer (absent when the model failed to load), and the two endpoints that feed it,
    a file upload and a base64 text that may carry a data-URL prefix. The recognizer, the file
    read and the base64 decoder are inputs. */
module ChesscogService {
  import opened Types
  import Text

  const ModelNotLoaded: string := "Model not loaded. Please ensure chesscog is properly installed."
  const EditorBase: string := "https://lichess.org/editor/"
  const DefaultTurn: string := "white"

  /** `DetectionResponse`; `isValid` defaults to false and the optional fields to `None`. */
  datatype DetectionResponse = DetectionResponse(
    success: bool,
    fen: Option<string>,
    boardFen: Option<string>,
    isValid: bool,
    error: Option<string>,
    lichessUrl: Option<string>)

  /** A failed detection: only `success` and `error` are set. */
  function Failure(message: string): (r: DetectionResponse)
    ensures !r.success && r.error == Some(message)
    ensures r.fen.None? && r.boardFen.None? && !r.isValid && r.lichessUrl.None?
  {
    DetectionResponse(false, None, None, false, Some(message), None)
  }

  datatype Color = White | Black

  /** What running the recognizer on an image came to: the recognized board's placement, its
      full FEN and whether the position is legal, or the text of the exception raised while
      opening the image or predicting. */
  datatype Prediction = Predicted(boardFen: string, fen: string, valid: bool) | Raised(message: string)

  type Recognizer = (seq<bv8>, Color) -> Prediction

  /** The side the picture is taken from: White exactly when the text is "white" in any
      letter case, Black for everything else. */
  function TurnColor(turn: string): (c: Color)
    ensures c == White <==> Text.LowerString(turn) == "white"
  {
    if Text.LowerString(turn) == "white" then White else Black
  }

  /** `process_image`: never raises. */
  function ProcessImage(recognizer: Option<Recognizer>, image: seq<bv8>, turn: string): (r: DetectionResponse)
    ensures recognizer.None? ==> r == Failure(ModelNotLoaded)
    ensures recognizer.Some? ==>
      match recognizer.value(image, TurnColor(turn))
      case Raised(m) => r == Failure(m)
      case Predicted(board, fen, valid) =>
        && r.success && r.fen == Some(fen) && r.boardFen == Some(board) && r.isValid == valid
        && r.error.None? && r.lichessUrl == Some(EditorBase + board)
  {
    match recognizer
    case None => Failure(ModelNotLoaded)
    case Some(recognize) =>
      match recognize(image, TurnColor(turn))
      case Raised(m) => Failure(m)
      case Predicted(board, fen, valid) =>
        DetectionResponse(true, Some(fen), Some(board), valid, None, Some(EditorBase + board))
  }

  /** The response's shape: a success carries both FENs and the editor link to the detected
      placement and no error; a failure carries an error, no position, and is never valid. */
  lemma ResponseShape(recognizer: Option<Recognizer>, image: seq<bv8>, turn: string)
    ensures var r := ProcessImage(recognizer, image, turn);
      && (r.success <==> r.fen.Some?)
      && (r.success <==> r.error.None?)
      && (r.success ==> r.boardFen.Some? && r.lichessUrl == Some(EditorBase + r.boardFen.value))
      && (!r.success ==> !r.isValid && r.boardFen.None? && r.lichessUrl.None?)
  {
  }

  /** Without a loaded model the answer does not depend on the image or the side. */
  lemma NoModelIgnoresInput(a: seq<bv8>, b: seq<bv8>, t: string, u: string)
    ensures ProcessImage(None, a, t) == ProcessImage(None, b, u)
    ensures ProcessImage(None, a, t).error == Some(ModelNotLoaded)
  {
  }

  /** The editor link names the placement: two successes with the same link detected the
      same placement. */
  lemma EditorLinkDeterminesBoard(r1: DetectionResponse, r2: DetectionResponse, recognizer: Option<Recognizer>,
                                  i1: seq<bv8>, i2: seq<bv8>, t1: string, t2: string)
    requires r1 == ProcessImage(recognizer, i1, t1) && r2 == ProcessImage(recognizer, i2, t2)
    requires r1.success && r2.success && r1.lichessUrl == r2.lichessUrl
    ensures r1.boardFen == r2.boardFen
  {
    assert r1.lichessUrl.value[|EditorBase|..] == r1.boardFen.value;
    assert r2.lichessUrl.value[|EditorBase|..] == r2.boardFen.value;
  }

  /** Upper- and mixed-case "white" read as White; anything else, "w" included, reads as Black. */
  lemma TurnExamples()
    ensures TurnColor("white") == White && TurnColor("White") == White && TurnColor("WHITE") == White
    ensures TurnColor("black") == Black && TurnColor("w") == Black && TurnColor("") == Black
  {
    assert Text.LowerString("White") == "white";
    assert Text.LowerString("WHITE") == "white";
    assert Text.LowerString("black")[0] == 'b';
    assert |Text.LowerString("w")| == 1;
  }

  /** Only the letters' case is ignored: texts equal once lower-cased get the same side, and
      White needs a five-letter text whose letters lower-case to "white". */
  lemma TurnColorIgnoresCase(t: string, u: string)
    requires Text.LowerString(t) == Text.LowerString(u)
    ensures TurnColor(t) == TurnColor(u)
    ensures TurnColor(t) == White ==> |t| == 5 && forall i :: 0 <= i < 5 ==> Text.Lower(t[i]) == "white"[i]
  {
    if TurnColor(t) == White {
      assert Text.LowerString(t) == "white";
      forall i | 0 <= i < 5
        ensures Text.Lower(t[i]) == "white"[i]
      {
        assert Text.LowerString(t)[i] == Text.Lower(t[i]);
      }
    }
  }

  /** `/detect`: the uploaded file's bytes (or the error reading them raised) and the form's
      `turn`, "white" when absent. A failed read is a 400 with the error's text. */
  function DetectFromUpload(recognizer: Option<Recognizer>, contents: Result<seq<bv8>, string>,
                            turn: Option<string>): (r: Result<DetectionResponse, HttpError>)
    ensures contents.Err? ==> r == Err(HttpError(400, contents.error))
    ensures contents.Ok? ==> r == Ok(ProcessImage(recognizer, contents.value, turn.GetOr(DefaultTurn)))
  {
    match contents
    case Err(m) => Err(HttpError(400, m))
    case Ok(bytes) => Ok(ProcessImage(recognizer, bytes, turn.GetOr(DefaultTurn)))
  }

  /** The data-URL prefix removal: with a comma present, the text between the first comma and
      the next one (or the end); without one, the text itself. */
  function StripDataUrl(image: string): (payload: string)
    ensures ',' !in image ==> payload == image
    ensures ',' in image ==>
      var rest := image[Text.IndexOf(image, ',') + 1..];
      && payload <= rest && ',' !in payload
      && (|payload| == |rest| || rest[|payload|] == ',')
  {
    if ',' in image then
      var i := Text.IndexOf(image, ',');
      Text.SplitAtFirst(image, ',', i);
      Text.SplitHead(image[i + 1..], ',');
      Text.Split(image, ',')[1]
    else image
  }

  /** A data URL's header is dropped and its comma-free payload kept whole. */
  lemma {:induction false} StripDataUrlKeepsPayload(header: string, payload: string)
    requires ',' !in header && ',' !in payload
    ensures StripDataUrl(header + "," + payload) == payload
  {
    var s := header + "," + payload;
    assert s[|header|] == ',' && s[..|header|] == header;
    Text.IndexOfFirst(s, ',', |header|);
    assert s[|header| + 1..] == payload;
    Text.SplitHead(payload, ',');
    Text.SplitNoSeparator(payload, ',');
  }

  /** `/detect/base64`: the body's `image` (prefix removed, then decoded) and `turn`, "white"
      when absent. A payload that does not decode is a 400 with the decoder's message. */
  function DetectFromBase64(recognizer: Option<Recognizer>, decode: string -> Result<seq<bv8>, string>,
                            image: string, turn: Option<string>): (r: Result<DetectionResponse, HttpError>)
    ensures decode(StripDataUrl(image)).Err? ==> r == Err(HttpError(400, decode(StripDataUrl(image)).error))
    ensures decode(StripDataUrl(image)).Ok? ==>
      r == Ok(ProcessImage(recognizer, decode(StripDataUrl(image)).value, turn.GetOr(DefaultTurn)))
  {
    match decode(StripDataUrl(image))
    case Err(m) => Err(HttpError(400, m))
    case Ok(bytes) => Ok(ProcessImage(recognizer, bytes, turn.GetOr(DefaultTurn)))
  }

  /** A data URL and its bare payload are the same request. */
  lemma DataUrlSameAsBare(recognizer: Option<Recognizer>, decode: string -> Result<seq<bv8>, string>,
                          header: string, payload: string, turn: Option<string>)
    requires ',' !in header && ',' !in payload
    ensures DetectFromBase64(recognizer, decode, header + "," + payload, turn)
         == DetectFromBase64(recognizer, decode, payload, turn)
  {
    StripDataUrlKeepsPayload(header, payload);
  }

  /** The two endpoints agree: a base64 text that decodes to some bytes gets the same answer as
      an upload of those bytes with the same side. */
  lemma UploadSameAsBase64(recognizer: Option<Recognizer>, decode: string -> Result<seq<bv8>, string>,
                           image: string, turn: Option<string>)
    requires decode(StripDataUrl(image)).Ok?
    ensures DetectFromBase64(recognizer, decode, image, turn)
         == DetectFromUpload(recognizer, Ok(decode(StripDataUrl(image)).value), turn)
  {
  }

  /** The `/health` body's `model_loaded`. */
  function ModelLoaded(recognizer: Option<Recognizer>): (loaded: bool)
    ensures loaded <==> recognizer.Some?
    ensures !loaded ==> forall image, turn :: ProcessImage(recognizer, image, turn) == Failure(ModelNotLoaded)
    ensures loaded ==> forall image, turn ::
      ProcessImage(recognizer, image, turn).success <==> recognizer.value(image, TurnColor(turn)).Predicted?
  {
    recognizer.Some?
  }
}
