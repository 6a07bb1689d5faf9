/** The manual-entry screen: a position text with its validity flag, five preset positions,
    a preview board and the guarded hand-over to the analysis screen. Validation (chess.js) is
    the parameter `valid`. */
module ManualFenScreen {
  import opened Types

  datatype Preset = Preset(name: string, fen: string)

  const Presets: seq<Preset> := [
    Preset("Starting Position", "rnbqkbnr/pppppppp/8/8/8/8/PPPPPPPP/RNBQKBNR w KQkq - 0 1"),
    Preset("Italian Game", "r1bqkbnr/pppp1ppp/2n5/4p3/2B1P3/5N2/PPPP1PPP/RNBQK2R b KQkq - 3 3"),
    Preset("Sicilian Defense", "rnbqkbnr/pp1ppppp/8/2p5/4P3/8/PPPP1PPP/RNBQKBNR w KQkq c6 0 2"),
    Preset("Queen's Gambit", "rnbqkbnr/ppp1pppp/8/3p4/2PP4/8/PP2PPPP/RNBQKBNR b KQkq c3 0 2"),
    Preset("Ruy Lopez", "r1bqkbnr/pppp1ppp/2n5/1B2p3/4P3/5N2/PPPP1PPP/RNBQK2R b KQkq - 3 3")
  ]

  datatype State = State(fen: string, isValid: bool)

  datatype Event = TypeFen(text: string) | SelectPreset(index: nat) | PressAnalyze

  /** The next state, the navigation it triggers, and whether it raises the invalid alert. */
  datatype Effect = Effect(next: State, navigate: Option<Route>, invalidAlert: bool)

  /** The screen opens on the first preset and assumes it valid without checking. */
  function Initial(): (s: State)
    ensures s.fen == Presets[0].fen && s.fen == StartFen && s.isValid
  {
    State(Presets[0].fen, true)
  }

  /** `validateAndSetFen`. */
  function ValidateAndSetFen(valid: string -> bool, text: string): (s: State)
    ensures s.fen == text
    ensures s.isValid <==> valid(text)
  {
    State(text, valid(text))
  }

  /** `analyzePosition`: hands the position to the analysis screen, without an image, only
      when it is valid; otherwise alerts. */
  function AnalyzePosition(s: State): (e: Effect)
    ensures e.next == s
    ensures s.isValid ==> e.navigate == Some(Analysis("", Some(s.fen))) && !e.invalidAlert
    ensures !s.isValid ==> e.navigate.None? && e.invalidAlert
  {
    if !s.isValid then Effect(s, None, true)
    else Effect(s, Some(Analysis("", Some(s.fen))), false)
  }

  predicate WellFormed(e: Event)
  {
    e.SelectPreset? ==> e.index < |Presets|
  }

  function Step(valid: string -> bool, s: State, e: Event): (eff: Effect)
    requires WellFormed(e)
    ensures e.SelectPreset? ==> eff == Effect(ValidateAndSetFen(valid, Presets[e.index].fen), None, false)
    ensures e.TypeFen? ==> eff == Effect(ValidateAndSetFen(valid, e.text), None, false)
    ensures e.PressAnalyze? ==> eff == AnalyzePosition(s)
    ensures eff.navigate.Some? ==> e.PressAnalyze? && s.isValid
  {
    match e
    case TypeFen(text) => Effect(ValidateAndSetFen(valid, text), None, false)
    case SelectPreset(i) => Effect(ValidateAndSetFen(valid, Presets[i].fen), None, false)
    case PressAnalyze => AnalyzePosition(s)
  }

  /** The Analyze button is disabled while the entry is invalid. */
  predicate Offered(s: State, e: Event)
  {
    WellFormed(e) && (e.PressAnalyze? ==> s.isValid)
  }

  /** With Analyze disabled while the entry is invalid, no event on offer raises the invalid
      alert, and an offered Analyze always navigates. */
  lemma OfferedNeverAlerts(valid: string -> bool, s: State, e: Event)
    requires Offered(s, e)
    ensures !Step(valid, s, e).invalidAlert
    ensures e.PressAnalyze? ==> Step(valid, s, e).navigate == Some(Analysis("", Some(s.fen)))
  {
  }

  function RunFrom(valid: string -> bool, s: State, trace: seq<Event>): State
    requires forall i :: 0 <= i < |trace| ==> WellFormed(trace[i])
    decreases |trace|
  {
    if |trace| == 0 then s else RunFrom(valid, Step(valid, s, trace[0]).next, trace[1..])
  }

  /** The validity flag describes the shown text in every state reached from one where it
      does. */
  lemma {:induction false} FlagTracksText(valid: string -> bool, s: State, trace: seq<Event>)
    requires forall i :: 0 <= i < |trace| ==> WellFormed(trace[i])
    requires s.isValid == valid(s.fen)
    ensures RunFrom(valid, s, trace).isValid == valid(RunFrom(valid, s, trace).fen)
    decreases |trace|
  {
    if |trace| > 0 {
      FlagTracksText(valid, Step(valid, s, trace[0]).next, trace[1..]);
    }
  }

  /** Given that the first preset is valid, the flag describes the text from the start, so the
      screen only ever hands a valid position to the analysis screen. */
  lemma NavigatesOnlyValid(valid: string -> bool, trace: seq<Event>, e: Event)
    requires valid(Presets[0].fen)
    requires forall i :: 0 <= i < |trace| ==> WellFormed(trace[i])
    requires WellFormed(e)
    ensures var s := RunFrom(valid, Initial(), trace);
      Step(valid, s, e).navigate.Some? ==>
        Step(valid, s, e).navigate == Some(Analysis("", Some(s.fen))) && valid(s.fen)
  {
    FlagTracksText(valid, Initial(), trace);
  }

  /** A preset button is highlighted exactly when the text is that preset's position. */
  predicate PresetActive(s: State, i: nat)
    requires i < |Presets|
  {
    s.fen == Presets[i].fen
  }

  /** The presets are distinct, so at most one is highlighted at a time. */
  lemma AtMostOneActive(s: State, i: nat, j: nat)
    requires i < |Presets| && j < |Presets|
    requires PresetActive(s, i) && PresetActive(s, j)
    ensures i == j
  {
    assert Presets[i].fen == Presets[j].fen;
  }

  /** Choosing a preset marks it, and only it, as active. */
  lemma SelectMarksPreset(valid: string -> bool, s: State, i: nat, j: nat)
    requires i < |Presets| && j < |Presets|
    ensures PresetActive(Step(valid, s, SelectPreset(i)).next, j) <==> i == j
  {
    if PresetActive(Step(valid, s, SelectPreset(i)).next, j) {
      AtMostOneActive(Step(valid, s, SelectPreset(i)).next, i, j);
    }
  }

  /** The preview board shows the entry while it is valid, else the starting position. */
  function PreviewFen(s: State): (f: string)
    ensures s.isValid ==> f == s.fen
    ensures !s.isValid ==> f == StartFen
  {
    if s.isValid then s.fen else Presets[0].fen
  }

  /** Given that the first preset is valid, the preview board always shows a position the
      validator accepts: the entry once it validates, the starting position while it does
      not. */
  lemma PreviewAlwaysValid(valid: string -> bool, trace: seq<Event>)
    requires valid(Presets[0].fen)
    requires forall i :: 0 <= i < |trace| ==> WellFormed(trace[i])
    ensures var s := RunFrom(valid, Initial(), trace);
      && valid(PreviewFen(s))
      && (valid(s.fen) ==> PreviewFen(s) == s.fen)
      && (!valid(s.fen) ==> PreviewFen(s) == StartFen)
  {
    FlagTracksText(valid, Initial(), trace);
  }
}
