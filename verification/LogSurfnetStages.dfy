/** Which earlier attack a misfiled detail needs, told from the events alone. */
module LogSurfnetStages {
  import opened LogSurfnet
  import opened LogSurfnetRuns

  predicate Reports(e: Event) {
    e.Dialogue? || e.Shellcode?
  }

  predicate ListedAccept(e: Event) {
    e.Accept? && e.listed
  }

  /** What neither opens a logged socket nor closes one. */
  predicate PassesBy(e: Event) {
    Reports(e) || (e.Accept? && !e.listed)
  }

  /** The events of one key. */
  function About(events: seq<Event>, k: Key): seq<Event> {
    if events == [] then []
    else
      var n := |events| - 1;
      About(events[..n], k) + if events[n].k == k then [events[n]] else []
  }

  /**
   * The newest attack of a key brought no detail and its socket closed before its id came; the id came then, and no
   * socket of the key was closed, and none that is listed opened, since.
   */
  ghost predicate LeftBehind(h: seq<Event>) {
    exists n: nat :: LeftBehindAt(h, n)
  }

  predicate LeftBehindAt(h: seq<Event>, n: nat) {
    && n + 3 <= |h| && ListedAccept(h[n]) && h[n + 1].Close? && h[n + 2].Success?
    && forall j :: n + 3 <= j < |h| ==> PassesBy(h[j])
  }

  // ---------------------------------------------------------------- stages of a key

  /** reported: there was a detail before the id. */
  datatype Stage = Clean | Waiting(reported: bool) | Known | Closed(reported: bool) | Behind

  /** Events that are not possible at a stage lead to Clean. */
  function NextStage(stage: Stage, e: Event): Stage {
    match e
    case Accept(_, listed, _) => if listed then Waiting(false) else if stage == Behind then Behind else Clean
    case Close(_) => if stage.Waiting? then Closed(stage.reported) else Clean
    case Failure(_) => Clean
    case Success(_, _) =>
      if stage.Waiting? then Known else if stage == Closed(false) then Behind else Clean
    case _ => if stage.Waiting? then Waiting(true) else if stage.Closed? then Clean else stage
  }

  function StageOf(h: seq<Event>): Stage {
    if h == [] then Clean else NextStage(StageOf(h[..|h| - 1]), h[|h| - 1])
  }

  predicate StageOk(w: World, k: Key, stage: Stage) {
    var c := At(w.logger.tracker, k);
    match stage
    case Clean => k !in w.pending && k !in w.logger.tracker && (k in w.open ==> w.open[k].Ignored?)
    case Waiting(reported) =>
      && k in w.open && w.open[k].Logged? && k in w.pending && w.pending[k] > 0 && k in w.logger.tracker
      && c.attackID == 0 && !c.closed && (c.details != [] <==> reported)
    case Known =>
      && k in w.open && w.open[k].Logged? && k !in w.pending && k in w.logger.tracker
      && c.attackID > 0 && !c.closed && c.details == []
    case Closed(reported) =>
      && k !in w.open && k in w.pending && w.pending[k] > 0 && (k in w.logger.tracker <==> reported)
      && (reported ==> c.attackID == 0 && c.closed && c.details != [])
    case Behind =>
      && k !in w.pending && k in w.logger.tracker && (k in w.open ==> w.open[k].Ignored?)
      && c.attackID > 0 && !c.closed && c.details == []
  }

  /** What is known of a key is the same in both worlds. */
  predicate SameAt(w: World, w': World, k: Key) {
    && (k in w'.open <==> k in w.open) && (k in w.open ==> w'.open[k] == w.open[k])
    && (k in w'.pending <==> k in w.pending) && (k in w.pending ==> w'.pending[k] == w.pending[k])
    && (k in w'.logger.tracker <==> k in w.logger.tracker)
    && At(w'.logger.tracker, k) == At(w.logger.tracker, k)
  }

  lemma LogsOther(s: State, e: Event, k: Key)
    requires e.k != k
    ensures k in Log(s, e).tracker <==> k in s.tracker
    ensures At(Log(s, e).tracker, k) == At(s.tracker, k)
  {
  }

  lemma OtherKept(w: World, e: Event, k: Key)
    requires Enabled(w, e) && e.k != k
    ensures SameAt(w, Step(w, e), k)
  {
    LogsOther(w.logger, e, k);
    var logged, w' := Log(w.logger, e), Step(w, e);
    assert w'.logger == logged;
    match e
    case Accept(_, _, _) =>
    case Close(_) => assert w'.pending == w.pending;
    case Success(_, _) => assert w'.open == w.open;
    case Failure(_) =>
    case _ => assert w'.open == w.open && w'.pending == w.pending;
  }

  lemma SameStage(w: World, w': World, k: Key, stage: Stage)
    requires SameAt(w, w', k) && StageOk(w, k, stage)
    ensures StageOk(w', k, stage)
  {
  }

  lemma AcceptStage(w: World, e: Event, stage: Stage)
    requires Enabled(w, e) && StageOk(w, e.k, stage) && e.Accept?
    ensures StageOk(Step(w, e), e.k, NextStage(stage, e))
  {
  }

  lemma ReportStage(w: World, e: Event, stage: Stage)
    requires Enabled(w, e) && StageOk(w, e.k, stage) && Reports(e)
    ensures StageOk(Step(w, e), e.k, NextStage(stage, e))
  {
    if e.k in w.logger.tracker && w.logger.tracker[e.k].attackID > 0 {
      assert Step(w, e).logger.tracker == w.logger.tracker;
    }
  }

  lemma CloseStage(w: World, e: Event, stage: Stage)
    requires Enabled(w, e) && StageOk(w, e.k, stage) && e.Close?
    ensures StageOk(Step(w, e), e.k, NextStage(stage, e))
  {
  }

  lemma SuccessStage(w: World, e: Event, stage: Stage)
    requires Enabled(w, e) && StageOk(w, e.k, stage) && e.Success?
    ensures StageOk(Step(w, e), e.k, NextStage(stage, e))
  {
  }

  lemma FailureStage(w: World, e: Event, stage: Stage)
    requires Enabled(w, e) && StageOk(w, e.k, stage) && e.Failure?
    ensures StageOk(Step(w, e), e.k, NextStage(stage, e))
  {
  }

  lemma StageStep(w: World, e: Event, k: Key, stage: Stage)
    requires Enabled(w, e) && StageOk(w, k, stage)
    ensures StageOk(Step(w, e), k, if e.k == k then NextStage(stage, e) else stage)
  {
    if e.k != k {
      OtherKept(w, e, k);
      SameStage(w, Step(w, e), k, stage);
    } else {
      match e
      case Accept(_, _, _) => AcceptStage(w, e, stage);
      case Close(_) => CloseStage(w, e, stage);
      case Success(_, _) => SuccessStage(w, e, stage);
      case Failure(_) => FailureStage(w, e, stage);
      case _ => ReportStage(w, e, stage);
    }
  }

  lemma MisfiledAtStage(w: World, e: Event, stage: Stage)
    requires Enabled(w, e) && StageOk(w, e.k, stage)
    ensures Misfiled(w, e) <==> Reports(e) && stage == Behind
  {
  }

  // ---------------------------------------------------------------- what the stages mean

  lemma StageIs(h: seq<Event>)
    ensures var n := |h|;
            && (StageOf(h) == Waiting(false) <==> n >= 1 && ListedAccept(h[n - 1]))
            && (StageOf(h) == Closed(false) <==> n >= 2 && ListedAccept(h[n - 2]) && h[n - 1].Close?)
  {
    var n := |h|;
    if n >= 2 {
      assert h[..n - 1][n - 2] == h[n - 2];
      assert StageOf(h[..n - 1]) == NextStage(StageOf(h[..n - 1][..n - 2]), h[n - 2]);
    }
  }

  lemma OneMoreEvent(h: seq<Event>, h': seq<Event>, e: Event)
    requires h' == h + [e]
    ensures LeftBehind(h') <==>
              || (LeftBehind(h) && PassesBy(e))
              || (|h| >= 2 && ListedAccept(h[|h| - 2]) && h[|h| - 1].Close? && e.Success?)
  {
    if LeftBehind(h') {
      var n: nat :| LeftBehindAt(h', n);
      assert forall j :: n + 3 <= j < |h| ==> h'[j] == h[j];
      if n + 3 <= |h| {
        assert LeftBehindAt(h, n) && h'[|h|] == e;
      }
    }
    if LeftBehind(h) && PassesBy(e) {
      var n: nat :| LeftBehindAt(h, n);
      assert LeftBehindAt(h', n);
    }
    if |h| >= 2 && ListedAccept(h[|h| - 2]) && h[|h| - 1].Close? && e.Success? {
      assert LeftBehindAt(h', |h| - 2);
    }
  }

  lemma {:induction false} BehindMeans(h: seq<Event>)
    ensures StageOf(h) == Behind <==> LeftBehind(h)
    decreases |h|
  {
    if h != [] {
      var n := |h| - 1;
      BehindMeans(h[..n]);
      StageIs(h[..n]);
      assert h == h[..n] + [h[n]];
      OneMoreEvent(h[..n], h, h[n]);
    }
  }

  // ---------------------------------------------------------------- runs

  ghost predicate AllStagesOk(w: World, before: seq<Event>) {
    forall k: Key :: StageOk(w, k, StageOf(About(before, k)))
  }

  lemma StagesStep(w: World, e: Event, before: seq<Event>, after: seq<Event>)
    requires Enabled(w, e) && AllStagesOk(w, before) && after == before + [e]
    ensures AllStagesOk(Step(w, e), after)
  {
    assert after[..|after| - 1] == before && after[|after| - 1] == e;
    forall k: Key ensures StageOk(Step(w, e), k, StageOf(About(after, k))) {
      var h := About(before, k);
      StageStep(w, e, k, StageOf(h));
      if e.k == k {
        assert (h + [e])[..|h|] == h;
      } else {
        assert h + [] == h;
      }
    }
  }

  /** No event reports for a key that an attack was left behind under. */
  ghost predicate NoneLeftBehind(before: seq<Event>, events: seq<Event>) {
    forall i :: 0 <= i < |events| && Reports(events[i]) ==> !LeftBehind(About(before + events[..i], events[i].k))
  }

  lemma FirstAndLater(before: seq<Event>, events: seq<Event>, after: seq<Event>)
    requires events != [] && after == before + [events[0]]
    ensures NoneLeftBehind(before, events) <==>
              && (Reports(events[0]) ==> !LeftBehind(About(before, events[0].k)))
              && NoneLeftBehind(after, events[1..])
  {
    assert before + events[..0] == before;
    forall i | 0 <= i < |events| - 1 ensures after + events[1..][..i] == before + events[..i + 1] {
    }
    assert forall i :: 0 <= i < |events| - 1 ==> events[1..][i] == events[i + 1];
    if NoneLeftBehind(before, events) {
      forall i | 0 <= i < |events[1..]| && Reports(events[1..][i])
        ensures !LeftBehind(About(after + events[1..][..i], events[1..][i].k))
      {
        var j := i + 1;
        assert !LeftBehind(About(before + events[..j], events[j].k));
      }
    }
    if NoneLeftBehind(after, events[1..]) && (Reports(events[0]) ==> !LeftBehind(About(before, events[0].k))) {
      forall j | 0 <= j < |events| && Reports(events[j])
        ensures !LeftBehind(About(before + events[..j], events[j].k))
      {
        if j > 0 {
          var i := j - 1;
          assert !LeftBehind(About(after + events[1..][..i], events[1..][i].k));
        }
      }
    }
  }

  lemma {:induction false} MisfiledMeans(w: World, before: seq<Event>, events: seq<Event>)
    requires AllEnabled(w, events) && AllStagesOk(w, before)
    ensures NoneMisfiled(w, events) <==> NoneLeftBehind(before, events)
    decreases |events|
  {
    if events != [] {
      var e, after := events[0], before + [events[0]];
      StagesStep(w, e, before, after);
      MisfiledAtStage(w, e, StageOf(About(before, e.k)));
      BehindMeans(About(before, e.k));
      MisfiledMeans(Step(w, e), after, events[1..]);
      FirstAndLater(before, events, after);
    }
  }

  /**
   * Whenever the ids arrive, what is logged is exact at all times if and only if no event reports for a key whose
   * newest attack was closed without a detail before its id came, with no socket of the key closed and no listed one
   * accepted since the id.
   */
  lemma ExactUnlessLeftBehind(events: seq<Event>)
    requires AllEnabled(Start, events)
    ensures AlwaysExact(Start, events)
       <==> forall i :: 0 <= i < |events| && Reports(events[i]) ==> !LeftBehind(About(events[..i], events[i].k))
  {
    ArrivalDoesNotMatter(events);
    MisfiledMeans(Start, [], events);
    assert forall i :: 0 <= i < |events| ==> [] + events[..i] == events[..i];
  }
}
