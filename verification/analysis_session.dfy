/** The analysis screen together with its environment: which service calls are outstanding,
    which positions have ever been sent for analysis and which positions the detector has
    returned. A completion can only arrive for an outstanding call, and a user event only when
    the screen offers it; any other event in a trace is one that cannot occur and is skipped.
    Over every trace this proves what the screen keeps true, and exhibits runs showing that it
    neither limits itself to one analysis at a time nor discards late replies. */
module AnalysisSession {
  import opened Types
  import opened AnalysisScreen
  import ApiClient
  import Backend

  datatype Session = Session(
    screen: Screen,
    pendingDetections: nat,
    pendingAnalyses: multiset<string>,
    requested: set<string>,
    detected: set<string>)

  /** The positions among `rs` that are sent for analysis. */
  function AnalysisTargets(rs: seq<Request>): seq<string>
    decreases |rs|
  {
    if |rs| == 0 then []
    else (if rs[0].AnalyzeRequest? then [rs[0].fen] else []) + AnalysisTargets(rs[1..])
  }

  function DetectionCount(rs: seq<Request>): nat
    decreases |rs|
  {
    if |rs| == 0 then 0
    else (if rs[0].DetectRequest? then 1 else 0) + DetectionCount(rs[1..])
  }

  /** Adds the calls `rs` starts to the bookkeeping. */
  function Issue(s: Session, next: Screen, rs: seq<Request>): Session
  {
    var targets := AnalysisTargets(rs);
    Session(next,
            s.pendingDetections + DetectionCount(rs),
            s.pendingAnalyses + multiset(targets),
            s.requested + set i | 0 <= i < |targets| :: targets[i],
            s.detected)
  }

  /** The session once the screen has mounted. */
  function Start(p: Props): Session
  {
    var m := Mount(p);
    Issue(Session(Initial(p), 0, multiset{}, {}, {}), m.next, m.requests)
  }

  /** The reply `runAnalysis` receives for `f` when the app's client calls the backend and the
      engine service answers `up`; a rejected call is the thrown error the screen catches. */
  function BackendReply(f: string, up: Backend.Upstream, rejection: string): (r: AnalysisReply)
    ensures r.Analyzed? <==> ApiClient.AnalyzeThroughBackend(f, up, rejection).Ok?
    ensures r.Analyzed? ==> r.result == ApiClient.AnalyzeThroughBackend(f, up, rejection).value
  {
    match ApiClient.AnalyzeThroughBackend(f, up, rejection)
    case Ok(a) => Analyzed(a)
    case Err(_) => AnalysisThrew
  }

  /** A completion is admissible only for an outstanding call, and a result it delivers is
      for the position that call asked about (`BackendRepliesAdmissible` shows every reply of
      the modelled client and backend is). */
  predicate Admissible(p: Props, s: Session, e: Event)
  {
    match e
    case DetectionDone(_) => s.pendingDetections > 0
    case AnalysisDone(f, r) => f in s.pendingAnalyses && (r.Analyzed? ==> r.result.fen == f)
    case _ => Offered(p, s.screen, e)
  }

  /** Whatever the engine service answers, the reply the client and backend deliver for an
      outstanding call is admissible: the assumption on results in `Admissible` holds of them. */
  lemma BackendRepliesAdmissible(p: Props, s: Session, f: string, up: Backend.Upstream, rejection: string)
    requires f in s.pendingAnalyses
    ensures Admissible(p, s, AnalysisDone(f, BackendReply(f, up, rejection)))
  {
  }

  /** Retires the call an event completes. */
  function Retire(s: Session, e: Event): Session
  {
    match e
    case DetectionDone(r) =>
      s.(pendingDetections := if s.pendingDetections > 0 then s.pendingDetections - 1 else 0,
         detected := if Succeeded(r) then s.detected + {r.fen.value} else s.detected)
    case AnalysisDone(f, _) => s.(pendingAnalyses := s.pendingAnalyses - multiset{f})
    case _ => s
  }

  function Apply(p: Props, valid: string -> bool, s: Session, e: Event): Session
  {
    if !Admissible(p, s, e) then s
    else
      var eff := Step(p, valid, s.screen, e);
      Issue(Retire(s, e), eff.next, eff.requests)
  }

  function RunFrom(p: Props, valid: string -> bool, s: Session, trace: seq<Event>): Session
    decreases |trace|
  {
    if |trace| == 0 then s else RunFrom(p, valid, Apply(p, valid, s, trace[0]), trace[1..])
  }

  function Run(p: Props, valid: string -> bool, trace: seq<Event>): Session
  {
    RunFrom(p, valid, Start(p), trace)
  }

  /** Where a shown or analysed position can come from: the position the screen opened on, an
      entry that passed validation, or a position the detector returned. */
  predicate Sourced(p: Props, valid: string -> bool, s: Session, f: string)
  {
    f == OpeningFen(p) || valid(f) || f in s.detected
  }

  predicate Inv(p: Props, valid: string -> bool, s: Session)
  {
    // at most one detection runs, and the spinner shows exactly while one does
    && s.pendingDetections <= 1
    && (s.screen.detecting <==> s.pendingDetections == 1)
    && (s.screen.detecting ==> s.screen.detectionAttempted)
    // the analysis spinner never shows with nothing outstanding
    && (s.screen.loading ==> |s.pendingAnalyses| > 0)
    // outside the editor the text field holds the shown position
    && (!s.screen.isEditing ==> s.screen.fen == s.screen.fenInput)
    // an error, when present, has text (so the Retry button appears with it)
    && (s.screen.error.Some? ==> s.screen.error.value != "")
    && Sourced(p, valid, s, s.screen.fen)
    && (forall f :: f in s.requested ==> Sourced(p, valid, s, f))
    && (forall f :: f in s.pendingAnalyses ==> f in s.requested)
    // a shown analysis answers a position that was sent for analysis
    && (s.screen.analysis.Some? ==> s.screen.analysis.value.fen in s.requested)
  }

  lemma TargetsOfOneRequest(rs: seq<Request>)
    requires |rs| <= 1
    ensures |rs| == 0 ==> AnalysisTargets(rs) == [] && DetectionCount(rs) == 0
    ensures |rs| == 1 && rs[0].AnalyzeRequest? ==> AnalysisTargets(rs) == [rs[0].fen] && DetectionCount(rs) == 0
    ensures |rs| == 1 && rs[0].DetectRequest? ==> AnalysisTargets(rs) == [] && DetectionCount(rs) == 1
  {
    if |rs| == 1 {
      assert rs[1..] == [];
    }
  }

  /** What `Issue` does with at most one call. */
  lemma IssueOne(s: Session, next: Screen, rs: seq<Request>)
    requires |rs| <= 1
    ensures var t := Issue(s, next, rs);
      && t.screen == next && t.detected == s.detected
      && (|rs| == 0 ==> t.pendingDetections == s.pendingDetections && t.pendingAnalyses == s.pendingAnalyses && t.requested == s.requested)
      && (|rs| == 1 && rs[0].DetectRequest? ==>
            t.pendingDetections == s.pendingDetections + 1 && t.pendingAnalyses == s.pendingAnalyses && t.requested == s.requested)
      && (|rs| == 1 && rs[0].AnalyzeRequest? ==>
            && t.pendingDetections == s.pendingDetections
            && t.pendingAnalyses == s.pendingAnalyses + multiset{rs[0].fen}
            && t.requested == s.requested + {rs[0].fen})
  {
    TargetsOfOneRequest(rs);
    var targets := AnalysisTargets(rs);
    if |rs| == 1 && rs[0].AnalyzeRequest? {
      assert (set i | 0 <= i < |targets| :: targets[i]) == {rs[0].fen};
    } else {
      assert (set i | 0 <= i < |targets| :: targets[i]) == {};
    }
  }

  lemma StartInv(p: Props, valid: string -> bool)
    ensures Inv(p, valid, Start(p))
  {
    IssueOne(Session(Initial(p), 0, multiset{}, {}, {}), Mount(p).next, Mount(p).requests);
  }

  /** A user event that starts no call and leaves the shown position alone. */
  lemma QuietEventInv(p: Props, valid: string -> bool, s: Session, e: Event)
    requires Inv(p, valid, s)
    requires e.TypeFen? || e.PressReset? || e.PressEdit?
    requires Offered(p, s.screen, e)
    ensures Inv(p, valid, Apply(p, valid, s, e))
  {
    var eff := Step(p, valid, s.screen, e);
    IssueOne(s, eff.next, eff.requests);
  }

  lemma DetectPressInv(p: Props, valid: string -> bool, s: Session)
    requires Inv(p, valid, s)
    requires Offered(p, s.screen, PressDetect)
    ensures Inv(p, valid, Apply(p, valid, s, PressDetect))
  {
    var eff := Step(p, valid, s.screen, PressDetect);
    IssueOne(s, eff.next, eff.requests);
  }

  lemma ApplyPressInv(p: Props, valid: string -> bool, s: Session)
    requires Inv(p, valid, s)
    requires Offered(p, s.screen, PressApply)
    ensures Inv(p, valid, Apply(p, valid, s, PressApply))
  {
    var eff := ApplyFen(valid, s.screen);
    assert Step(p, valid, s.screen, PressApply) == eff;
    IssueOne(s, eff.next, eff.requests);
    var t := Issue(s, eff.next, eff.requests);
    assert Apply(p, valid, s, PressApply) == t;
    if valid(s.screen.fenInput) {
      assert t.requested == s.requested + {s.screen.fenInput} && t.detected == s.detected;
    } else {
      assert t == s;
    }
  }

  lemma RetryPressInv(p: Props, valid: string -> bool, s: Session)
    requires Inv(p, valid, s)
    requires Offered(p, s.screen, PressRetry)
    ensures Inv(p, valid, Apply(p, valid, s, PressRetry))
  {
    var eff := StartAnalysis(s.screen, s.screen.fen);
    assert Step(p, valid, s.screen, PressRetry) == eff;
    IssueOne(s, eff.next, eff.requests);
    var t := Issue(s, eff.next, eff.requests);
    assert Apply(p, valid, s, PressRetry) == t;
    assert t.requested == s.requested + {s.screen.fen} && t.detected == s.detected;
  }

  lemma DetectionDoneInv(p: Props, valid: string -> bool, s: Session, d: DetectReply)
    requires Inv(p, valid, s)
    requires s.pendingDetections > 0
    ensures Inv(p, valid, Apply(p, valid, s, DetectionDone(d)))
  {
    var e := DetectionDone(d);
    var eff := Step(p, valid, s.screen, e);
    var r := Retire(s, e);
    assert r.pendingDetections == 0 && s.detected <= r.detected;
    IssueOne(r, eff.next, eff.requests);
  }

  lemma AnalysisDoneInv(p: Props, valid: string -> bool, s: Session, f: string, o: AnalysisReply)
    requires Inv(p, valid, s)
    requires f in s.pendingAnalyses && (o.Analyzed? ==> o.result.fen == f)
    ensures Inv(p, valid, Apply(p, valid, s, AnalysisDone(f, o)))
  {
    var e := AnalysisDone(f, o);
    var eff := Step(p, valid, s.screen, e);
    var r := Retire(s, e);
    IssueOne(r, eff.next, eff.requests);
    assert r.pendingAnalyses <= s.pendingAnalyses;
  }

  lemma ApplyInv(p: Props, valid: string -> bool, s: Session, e: Event)
    requires Inv(p, valid, s)
    ensures Inv(p, valid, Apply(p, valid, s, e))
  {
    if Admissible(p, s, e) {
      match e {
        case DetectionDone(d) => DetectionDoneInv(p, valid, s, d);
        case AnalysisDone(f, o) => AnalysisDoneInv(p, valid, s, f, o);
        case PressApply => ApplyPressInv(p, valid, s);
        case PressRetry => RetryPressInv(p, valid, s);
        case PressDetect => DetectPressInv(p, valid, s);
        case TypeFen(_) => QuietEventInv(p, valid, s, e);
        case PressReset => QuietEventInv(p, valid, s, e);
        case PressEdit => QuietEventInv(p, valid, s, e);
      }
    }
  }

  lemma {:induction false} RunFromInv(p: Props, valid: string -> bool, s: Session, trace: seq<Event>)
    requires Inv(p, valid, s)
    ensures Inv(p, valid, RunFrom(p, valid, s, trace))
    decreases |trace|
  {
    if |trace| > 0 {
      ApplyInv(p, valid, s, trace[0]);
      RunFromInv(p, valid, Apply(p, valid, s, trace[0]), trace[1..]);
    }
  }

  /** The invariant holds after every trace of events. */
  lemma RunInv(p: Props, valid: string -> bool, trace: seq<Event>)
    ensures Inv(p, valid, Run(p, valid, trace))
  {
    StartInv(p, valid);
    RunFromInv(p, valid, Start(p), trace);
  }

  /** Every position ever sent for analysis is the opening position, a validated entry or a
      detected position: an unvalidated edit never reaches the analysis service, but a detected
      position is analysed without validation. */
  lemma AnalysedPositionsSourced(p: Props, valid: string -> bool, trace: seq<Event>, f: string)
    requires f in Run(p, valid, trace).requested
    ensures f == OpeningFen(p) || valid(f) || f in Run(p, valid, trace).detected
  {
    RunInv(p, valid, trace);
  }

  lemma EditStep(p: Props, valid: string -> bool, s: Session)
    requires !s.screen.isEditing
    ensures var t := Apply(p, valid, s, PressEdit);
      && t.screen.isEditing && t.screen.fen == s.screen.fen && t.screen.fenInput == s.screen.fen
      && t.pendingAnalyses == s.pendingAnalyses
  {
    IssueOne(s, Step(p, valid, s.screen, PressEdit).next, []);
  }

  lemma TypeStep(p: Props, valid: string -> bool, s: Session, text: string)
    requires s.screen.isEditing
    ensures Apply(p, valid, s, TypeFen(text)) == s.(screen := s.screen.(fenInput := text))
    ensures var t := Apply(p, valid, s, TypeFen(text));
      && t.screen.isEditing && t.screen.fenInput == text && t.screen.fen == s.screen.fen
      && t.pendingAnalyses == s.pendingAnalyses
  {
    IssueOne(s, Step(p, valid, s.screen, TypeFen(text)).next, []);
  }

  lemma ApplyStep(p: Props, valid: string -> bool, s: Session)
    requires s.screen.isEditing && valid(s.screen.fenInput)
    ensures var t := Apply(p, valid, s, PressApply);
      && t.screen.fen == s.screen.fenInput && !t.screen.isEditing
      && t.pendingAnalyses == s.pendingAnalyses + multiset{s.screen.fenInput}
  {
    var eff := Step(p, valid, s.screen, PressApply);
    IssueOne(s, eff.next, eff.requests);
  }

  lemma ReplyStep(p: Props, valid: string -> bool, s: Session, f: string, r: AnalysisResult)
    requires f in s.pendingAnalyses && r.fen == f
    ensures var t := Apply(p, valid, s, AnalysisDone(f, Analyzed(r)));
      && t.screen.fen == s.screen.fen && t.screen.analysis == Some(r)
      && t.pendingAnalyses == s.pendingAnalyses - multiset{f}
  {
    var e := AnalysisDone(f, Analyzed(r));
    IssueOne(Retire(s, e), Step(p, valid, s.screen, e).next, []);
  }

  lemma StartOnPosition(p: Props, valid: string -> bool)
    requires Truthy(p.initialFen)
    ensures var s := Start(p);
      !s.screen.isEditing && s.screen.fen == p.initialFen.value && s.pendingAnalyses == multiset{p.initialFen.value}
  {
    IssueOne(Session(Initial(p), 0, multiset{}, {}, {}), Mount(p).next, Mount(p).requests);
  }

  /** The screen does not keep analysis single-flight: opening on a position, pressing Edit
      and then Apply leaves two analyses outstanding. */
  lemma TwoAnalysesOutstanding(valid: string -> bool, f: string)
    requires f != "" && valid(f)
    ensures |Run(Props("", Some(f)), valid, [PressEdit, PressApply]).pendingAnalyses| == 2
  {
    var p := Props("", Some(f));
    var s0 := Start(p);
    StartOnPosition(p, valid);
    EditStep(p, valid, s0);
    var s1 := Apply(p, valid, s0, PressEdit);
    ApplyStep(p, valid, s1);
    assert Apply(p, valid, s1, PressApply).pendingAnalyses == multiset{f, f};
    RunFromTwo(p, valid, s0, [PressEdit, PressApply]);
  }

  /** A two-event run is two applications in turn. */
  lemma {:induction false} RunFromTwo(p: Props, valid: string -> bool, s: Session, trace: seq<Event>)
    requires |trace| == 2
    ensures RunFrom(p, valid, s, trace) == Apply(p, valid, Apply(p, valid, s, trace[0]), trace[1])
  {
    var s1 := Apply(p, valid, s, trace[0]);
    var s2 := Apply(p, valid, s1, trace[1]);
    assert RunFrom(p, valid, s1, trace[1..]) == RunFrom(p, valid, s2, trace[1..][1..]);
    assert trace[1..][1..] == [];
    assert RunFrom(p, valid, s, trace) == RunFrom(p, valid, s1, trace[1..]);
  }

  /** A five-event run is five applications in turn. */
  lemma {:induction false} RunFromFive(p: Props, valid: string -> bool, s: Session, trace: seq<Event>)
    requires |trace| == 5
    ensures RunFrom(p, valid, s, trace) ==
      Apply(p, valid, Apply(p, valid, Apply(p, valid, Apply(p, valid, Apply(p, valid, s, trace[0]), trace[1]), trace[2]), trace[3]), trace[4])
  {
    var s1 := Apply(p, valid, s, trace[0]);
    var s2 := Apply(p, valid, s1, trace[1]);
    var s3 := Apply(p, valid, s2, trace[2]);
    var s4 := Apply(p, valid, s3, trace[3]);
    var s5 := Apply(p, valid, s4, trace[4]);
    assert RunFrom(p, valid, s4, trace[4..]) == RunFrom(p, valid, s5, trace[5..]);
    assert RunFrom(p, valid, s3, trace[3..]) == RunFrom(p, valid, s4, trace[3..][1..]);
    assert trace[3..][1..] == trace[4..];
    assert RunFrom(p, valid, s2, trace[2..]) == RunFrom(p, valid, s3, trace[2..][1..]);
    assert trace[2..][1..] == trace[3..];
    assert RunFrom(p, valid, s1, trace[1..]) == RunFrom(p, valid, s2, trace[1..][1..]);
    assert trace[1..][1..] == trace[2..];
    assert RunFrom(p, valid, s, trace) == RunFrom(p, valid, s1, trace[1..]);
  }

  /** Editing, typing a valid position and applying it shows that position and adds one
      outstanding analysis of it. */
  lemma EditTypeApply(p: Props, valid: string -> bool, s: Session, f: string)
    requires !s.screen.isEditing && valid(f)
    ensures var t := Apply(p, valid, Apply(p, valid, Apply(p, valid, s, PressEdit), TypeFen(f)), PressApply);
      t.screen.fen == f && t.pendingAnalyses == s.pendingAnalyses + multiset{f}
  {
    EditStep(p, valid, s);
    var s1 := Apply(p, valid, s, PressEdit);
    TypeStep(p, valid, s1, f);
    var s2 := Apply(p, valid, s1, TypeFen(f));
    ApplyStep(p, valid, s2);
  }

  /** With both analyses outstanding, the replies applied newer first leave the older one
      shown. */
  lemma RepliesNewerFirst(p: Props, valid: string -> bool, s: Session, f1: string, f2: string,
                          r1: AnalysisResult, r2: AnalysisResult)
    requires s.pendingAnalyses == multiset{f1, f2} && r1.fen == f1 && r2.fen == f2
    ensures var t := Apply(p, valid, Apply(p, valid, s, AnalysisDone(f2, Analyzed(r2))), AnalysisDone(f1, Analyzed(r1)));
      t.screen.fen == s.screen.fen && t.screen.analysis == Some(r1)
  {
    ReplyStep(p, valid, s, f2, r2);
    var s4 := Apply(p, valid, s, AnalysisDone(f2, Analyzed(r2)));
    assert s4.pendingAnalyses == multiset{f1};
    ReplyStep(p, valid, s4, f1, r1);
  }

  /** A late reply overwrites: after the user applies a second position, the reply for the
      first one arriving last is shown over the board of the second. */
  lemma LateReplyShown(valid: string -> bool, f1: string, f2: string, r1: AnalysisResult, r2: AnalysisResult)
    requires f1 != "" && valid(f2) && f1 != f2
    requires r1.fen == f1 && r2.fen == f2
    ensures var s := Run(Props("", Some(f1)), valid,
                         [PressEdit, TypeFen(f2), PressApply, AnalysisDone(f2, Analyzed(r2)), AnalysisDone(f1, Analyzed(r1))]);
      s.screen.fen == f2 && s.screen.analysis == Some(r1) && r1.fen != s.screen.fen
  {
    var p := Props("", Some(f1));
    var trace := [PressEdit, TypeFen(f2), PressApply, AnalysisDone(f2, Analyzed(r2)), AnalysisDone(f1, Analyzed(r1))];
    var s0 := Start(p);
    StartOnPosition(p, valid);
    EditTypeApply(p, valid, s0, f2);
    var s3 := Apply(p, valid, Apply(p, valid, Apply(p, valid, s0, PressEdit), TypeFen(f2)), PressApply);
    assert s3.pendingAnalyses == multiset{f1, f2};
    RepliesNewerFirst(p, valid, s3, f1, f2, r1, r2);
    RunFromFive(p, valid, s0, trace);
  }
}
