/** The capture screen once camera permission is granted: the lens facing, the captured
    image awaiting confirmation, and the hand-over of that image to the analysis screen. What
    the camera and the photo library return is an input of the events. */
module CameraScreen {
  import opened Types

  datatype Facing = Back | Front

  /** `capturedImage`: the captured URI, `None` for `null`. */
  datatype State = State(facing: Facing, captured: Option<string>)

  /** What `takePictureAsync` did: no camera mounted, resolved with no photo, resolved with a
      photo at `uri`, or threw. */
  datatype Shot = NoCamera | NoPhoto | Photo(uri: string) | ShotFailed

  /** What the library picker resolved to: cancelled or not, and its first asset's URI. */
  datatype Pick = Pick(canceled: bool, firstAsset: Option<string>)

  datatype Event = Toggle | TakePicture(shot: Shot) | PickImage(pick: Pick) | Retake | UsePhoto

  datatype Effect = Effect(next: State, navigate: Option<Route>, failureAlert: bool)

  function Initial(): (s: State)
    ensures s.facing == Back && s.captured.None?
  {
    State(Back, None)
  }

  /** Whether an image is awaiting confirmation (`if (capturedImage)`: set and not empty). */
  predicate HasImage(s: State)
  {
    Truthy(s.captured)
  }

  function Flip(f: Facing): (g: Facing)
    ensures g != f
  {
    if f == Back then Front else Back
  }

  lemma FlipTwice(f: Facing)
    ensures Flip(Flip(f)) == f
  {
  }

  function Step(s: State, e: Event): (eff: Effect)
    ensures e.Toggle? ==> eff.next == s.(facing := Flip(s.facing))
    ensures e.TakePicture? ==>
      && (e.shot.Photo? ==> eff.next == s.(captured := Some(e.shot.uri)))
      && (!e.shot.Photo? ==> eff.next == s)
      && (eff.failureAlert <==> e.shot.ShotFailed?)
    ensures e.PickImage? ==>
      (!e.pick.canceled && e.pick.firstAsset.Some? ==> eff.next == s.(captured := e.pick.firstAsset))
      && (e.pick.canceled || e.pick.firstAsset.None? ==> eff.next == s)
    ensures e.Retake? ==> eff.next == s.(captured := None)
    ensures e.UsePhoto? ==> eff.next == s
    ensures eff.navigate.Some? <==> e.UsePhoto? && HasImage(s)
    ensures eff.failureAlert ==> e.TakePicture? && e.shot.ShotFailed?
    ensures eff.navigate.Some? ==> eff.navigate.value == Analysis(s.captured.value, None)
  {
    match e
    case Toggle => Effect(s.(facing := Flip(s.facing)), None, false)
    case TakePicture(shot) =>
      (match shot
       case Photo(uri) => Effect(s.(captured := Some(uri)), None, false)
       case ShotFailed => Effect(s, None, true)
       case _ => Effect(s, None, false))
    case PickImage(pick) =>
      if !pick.canceled && pick.firstAsset.Some? then Effect(s.(captured := pick.firstAsset), None, false)
      else Effect(s, None, false)
    case Retake => Effect(s.(captured := None), None, false)
    case UsePhoto =>
      if HasImage(s) then Effect(s, Some(Analysis(s.captured.value, None)), false)
      else Effect(s, None, false)
  }

  /** The live camera view offers the shutter, the library and the flip; the preview offers
      Retake and Analyze. */
  predicate Offered(s: State, e: Event)
  {
    if HasImage(s) then e.Retake? || e.UsePhoto? else e.Toggle? || e.TakePicture? || e.PickImage?
  }

  /** Among the offered events, exactly Analyze hands the image on, and only the preview
      offers it; the live view never navigates. */
  lemma OnlyPreviewNavigates(s: State, e: Event)
    requires Offered(s, e)
    ensures Step(s, e).navigate.Some? <==> e.UsePhoto?
    ensures e.UsePhoto? ==> HasImage(s)
  {
  }

  /** Flipping never disturbs a captured image, and two flips restore the lens. */
  lemma ToggleTwiceRestores(s: State)
    ensures Step(Step(s, Toggle).next, Toggle).next == s
  {
  }

  /** After Retake the screen is back on the live camera with its lens unchanged. */
  lemma RetakeReturnsToCamera(s: State)
    ensures !HasImage(Step(s, Retake).next) && Step(s, Retake).next.facing == s.facing
    ensures Offered(Step(s, Retake).next, Toggle)
  {
  }
}
