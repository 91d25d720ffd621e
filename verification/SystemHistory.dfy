// The detector and the correlation maps inside the whole system behave as they do alone: the
// results about their runs hold in every run of the services together.
module SystemHistory {
  import opened Prelude
  import opened Schemas
  import opened Correlation
  import opened DetectorRuns
  import opened DetectorGuards
  import opened Protocol
  import opened Guarantees
  import Flagging
  import Cluster
  import Detector
  import Decision
  import Executor

  // The detector's messages among the steps.
  function EventsOf(steps: seq<Step>): seq<Event> {
    if steps == [] then []
    else
      var step := steps[|steps| - 1];
      EventsOf(steps[..|steps| - 1])
      + if step.CostIn? then [CostEvent(step.cost)] else if step.TrafficIn? then [TrafficEvent(step.traffic)] else []
  }

  lemma {:induction false} DetectorInsideSystem(u: Setup, cluster: Cluster.State, clock: int, steps: seq<Step>)
    ensures After(u, Initial(cluster, clock), steps).detector == Run(u.root, Detector.FRESH, EventsOf(steps))
  {
    if steps != [] {
      var earlier, step := steps[..|steps| - 1], steps[|steps| - 1];
      DetectorInsideSystem(u, cluster, clock, earlier);
      DetectorStep(u, After(u, Initial(cluster, clock), earlier), step);
      var events := EventsOf(earlier);
      if step.CostIn? {
        assert (events + [CostEvent(step.cost)])[..|events|] == events;
      } else if step.TrafficIn? {
        assert (events + [TrafficEvent(step.traffic)])[..|events|] == events;
      } else {
        assert events + [] == events;
      }
    }
  }

  lemma DetectorStep(u: Setup, s: System, step: Step)
    ensures Apply(u, s, step).detector ==
            if step.CostIn? then Detector.CostStep(u.root, s.detector, step.cost)
            else if step.TrafficIn? then Detector.TrafficStep(u.root, s.detector, step.traffic)
            else s.detector
  {
    StepFrame(u, s, step);
    hide Called;
    hide Published;
    hide Finished;
    hide Decided;
    hide Executor.Gate;
    hide Detector.CostStep;
    hide Detector.TrafficStep;
    hide Detector.CostFinding;
  }

  // In the running system, a cost reading puts an anomaly on the bus only if it and the
  // service's two previous readings qualified; what is published asks at most for approval.
  lemma PublishedOnlyAfterDwell(u: Setup, cluster: Cluster.State, clock: int, steps: seq<Step>, m: Detector.CostMessage, id: nat, up: bool)
    requires !m.cpu.Null?
    requires
      var s := After(u, Initial(cluster, clock), steps);
      Apply(u, s, CostIn(m, id, up)).inbox != s.inbox
    ensures
      var log := Log(u.root, Detector.FRESH, m.service, EventsOf(steps) + [CostEvent(m)]);
      |log| >= 3 && log[|log| - 1].qualified && log[|log| - 2].qualified && log[|log| - 3].qualified
    ensures
      var s := After(u, Initial(cluster, clock), steps);
      exists a :: Apply(u, s, CostIn(m, id, up)).inbox == s.inbox + [a]
                  && a.service == m.service && a.verdict == Some(Unclassified) && Decision.ConfidenceOf(a) <= 0.80
  {
    hide After;
    hide Apply;
    hide Run;
    hide Log;
    hide EventsOf;
    hide Detector.CostFinding;
    DetectorInsideSystem(u, cluster, clock, steps);
    FlaggedIffThreeQualify(u.root, EventsOf(steps), m);
    var s := After(u, Initial(cluster, clock), steps);
    PublishedIsFinding(u, s, m, id, up);
  }

  lemma PublishedIsFinding(u: Setup, s: System, m: Detector.CostMessage, id: nat, up: bool)
    requires !m.cpu.Null? && Apply(u, s, CostIn(m, id, up)).inbox != s.inbox
    ensures Detector.CostFinding(u.root, s.detector, m).Some?
    ensures exists a :: Apply(u, s, CostIn(m, id, up)).inbox == s.inbox + [a]
                        && a.service == m.service && a.verdict == Some(Unclassified) && Decision.ConfidenceOf(a) <= 0.80
  {
    hide Detector.CostStep;
    hide Detector.CostFinding;
    FindingFacts(u.root, s.detector, m);
    var a := Flagging.MessageFor(id, Detector.CostFinding(u.root, s.detector, m).value);
    assert Apply(u, s, CostIn(m, id, up)).inbox == s.inbox + [a];
  }

  // ---------------------------------------------------------------- from reading to action

  // m is at least the third reading of its service in a row that qualifies.
  ghost predicate ThirdInARow(u: Setup, events: seq<Event>, m: Detector.CostMessage) {
    var log := Log(u.root, Detector.FRESH, m.service, events + [CostEvent(m)]);
    |log| >= 3 && log[|log| - 1].qualified && log[|log| - 2].qualified && log[|log| - 3].qualified
  }

  // The n-th step put a on the bus.
  ghost predicate Announced(u: Setup, s0: System, steps: seq<Step>, n: int, a: Decision.AnomalyMessage) {
    && 0 <= n < |steps| && steps[n].CostIn? && !steps[n].cost.cpu.Null?
    && a.id == steps[n].id && a.service == steps[n].cost.service
    && Apply(u, After(u, s0, steps[..n]), steps[n]).inbox != After(u, s0, steps[..n]).inbox
  }

  lemma AnnouncedLater(u: Setup, s0: System, steps: seq<Step>, n: int, a: Decision.AnomalyMessage)
    requires steps != [] && Announced(u, s0, steps[..|steps| - 1], n, a)
    ensures Announced(u, s0, steps, n, a)
  {
    hide Apply;
    hide After;
    assert steps[..|steps| - 1][..n] == steps[..n];
  }

  lemma CostAnnounces(u: Setup, s: System, m: Detector.CostMessage, id: nat, up: bool, a: Decision.AnomalyMessage)
    requires a in CostHandled(u, s, m, id, up).inbox && a !in s.inbox
    ensures !m.cpu.Null? && a.id == id && a.service == m.service && CostHandled(u, s, m, id, up).inbox != s.inbox
  {
    hide Detector.CostStep;
    hide Detector.CostFinding;
    FindingIsOfReading(u, s, m);
  }

  lemma FindingIsOfReading(u: Setup, s: System, m: Detector.CostMessage)
    ensures Detector.CostFinding(u.root, s.detector, m).Some? ==>
              !m.cpu.Null? && Detector.CostFinding(u.root, s.detector, m).value.service == m.service
  {
    hide Detector.ScoresOf;
    hide Detector.ConditionOf;
    hide Detector.CostProfile;
  }

  lemma {:induction false} EveryAnomalyAnnounced(u: Setup, cluster: Cluster.State, clock: int, steps: seq<Step>, a: Decision.AnomalyMessage)
    requires FedByDetector(steps) && a in After(u, Initial(cluster, clock), steps).inbox
    ensures exists n :: Announced(u, Initial(cluster, clock), steps, n, a)
  {
    if steps != [] {
      var s0 := Initial(cluster, clock);
      var earlier, last := steps[..|steps| - 1], |steps| - 1;
      var s := After(u, s0, earlier);
      assert forall e :: e in earlier ==> e in steps;
      assert steps[last] in steps;
      AfterLast(u, s0, steps);
      StepFrame(u, s, steps[last]);
      hide After;
      if a in s.inbox {
        EveryAnomalyAnnounced(u, cluster, clock, earlier, a);
        var n :| Announced(u, s0, earlier, n, a);
        AnnouncedLater(u, s0, steps, n, a);
      } else {
        var step := steps[last];
        AppliesCost(u, s, step);
        hide Apply;
        CostAnnounces(u, s, step.cost, step.id, step.up, a);
        assert Announced(u, s0, steps, last, a);
      }
    }
  }

  lemma AppliesCost(u: Setup, s: System, step: Step)
    ensures step.CostIn? ==> Apply(u, s, step) == CostHandled(u, s, step.cost, step.id, step.up)
  {
    if !step.CostIn? {
      hide Apply;
    }
    hide CostHandled;
  }

  // In a system fed by the detector and the services, every executed action goes back to an
  // anomaly of its own service, announced by a reading that was the third in a row to qualify.
  lemma ExecutedOnlyAfterDwell(u: Setup, cluster: Cluster.State, clock: int, steps: seq<Step>, i: int)
    requires FedByServices(steps) && FedByDetector(steps)
    requires 0 <= i < |After(u, Initial(cluster, clock), steps).rows|
    requires After(u, Initial(cluster, clock), steps).rows[i].result.Executed?
    ensures
      var r := After(u, Initial(cluster, clock), steps).rows[i];
      exists n :: 0 <= n < |steps| && steps[n].CostIn? && r.anomaly == Some(steps[n].id) && r.service == steps[n].cost.service
                  && ThirdInARow(u, EventsOf(steps[..n]), steps[n].cost)
  {
    hide After;
    hide Apply;
    hide ThirdInARow;
    var s0 := Initial(cluster, clock);
    var s := After(u, s0, steps);
    var g := GroundsOf(u, cluster, clock, steps, i);
    AlwaysBecauseOfInbox(u, cluster, clock, steps);
    EveryAnomalyAnnounced(u, cluster, clock, steps, g.message);
    var n :| Announced(u, s0, steps, n, g.message);
    DwellBehind(u, cluster, clock, steps, n, g.message);
  }

  lemma DwellBehind(u: Setup, cluster: Cluster.State, clock: int, steps: seq<Step>, n: int, a: Decision.AnomalyMessage)
    requires Announced(u, Initial(cluster, clock), steps, n, a)
    ensures ThirdInARow(u, EventsOf(steps[..n]), steps[n].cost)
  {
    hide After;
    hide Apply;
    hide Log;
    hide EventsOf;
    PublishedOnlyAfterDwell(u, cluster, clock, steps[..n], steps[n].cost, steps[n].id, steps[n].up);
  }

  // What the decision behind an executed row was made from.
  lemma GroundsOf(u: Setup, cluster: Cluster.State, clock: int, steps: seq<Step>, i: int) returns (g: Grounds)
    requires FedByServices(steps)
    requires 0 <= i < |After(u, Initial(cluster, clock), steps).rows|
    requires After(u, Initial(cluster, clock), steps).rows[i].result.Executed?
    ensures
      var s := After(u, Initial(cluster, clock), steps);
      && (exists k :: k in s.because && s.because[k] == g)
      && s.rows[i].anomaly == Some(g.message.id) && s.rows[i].service == g.message.service
  {
    hide After;
    ExecutedIsAuthorised(u, cluster, clock, steps, i);
    var s := After(u, Initial(cluster, clock), steps);
    g := s.because[Decider(s.rows, i)];
  }

  // ---------------------------------------------------------------- the correlation maps

  // The lifecycle events and security signals among the steps, with the time each was handled.
  function HistoryOf(u: Setup, s: System, steps: seq<Step>): seq<Observation> {
    if steps == [] then []
    else
      var earlier, step := steps[..|steps| - 1], steps[|steps| - 1];
      var now := After(u, s, earlier).clock;
      HistoryOf(u, s, earlier)
      + if step.LifecycleIn? then [SawLifecycle(now, step.event)]
        else if step.SignalIn? then [SawSignal(now, step.signal)] else []
  }

  ghost predicate UpTo(history: seq<Observation>, now: int) {
    Ordered(history) && forall i :: 0 <= i < |history| ==> history[i].at <= now
  }

  lemma OneMore(history: seq<Observation>, o: Observation)
    requires UpTo(history, o.at)
    ensures UpTo(history + [o], o.at)
    ensures MapsAfter(history + [o]) == OnObservation(MapsAfter(history), o)
  {
    assert (history + [o])[..|history|] == history;
  }

  lemma Later(history: seq<Observation>, now: int, now': int)
    requires UpTo(history, now) && now <= now'
    ensures UpTo(history, now')
  {
  }

  lemma {:induction false} CorrelationInsideSystem(u: Setup, cluster: Cluster.State, clock: int, steps: seq<Step>)
    ensures
      var s, history := After(u, Initial(cluster, clock), steps), HistoryOf(u, Initial(cluster, clock), steps);
      s.maps == MapsAfter(history) && UpTo(history, s.clock)
  {
    if steps == [] {
      assert UpTo([], clock);
    } else {
      var earlier, step := steps[..|steps| - 1], steps[|steps| - 1];
      CorrelationInsideSystem(u, cluster, clock, earlier);
      var s, history := After(u, Initial(cluster, clock), earlier), HistoryOf(u, Initial(cluster, clock), earlier);
      MapsStep(u, s, step);
      OnlyAppends(u, s, step);
      assert history + [] == history;
      hide Apply;
      hide MapsAfter;
      hide UpTo;
      hide OnLifecycle;
      hide OnSignal;
      Later(history, s.clock, After(u, Initial(cluster, clock), steps).clock);
      if step.LifecycleIn? {
        OneMore(history, SawLifecycle(s.clock, step.event));
      } else if step.SignalIn? {
        OneMore(history, SawSignal(s.clock, step.signal));
      }
    }
  }

  lemma MapsStep(u: Setup, s: System, step: Step)
    ensures Apply(u, s, step).maps ==
            if step.LifecycleIn? then OnLifecycle(s.maps, step.event, s.clock)
            else if step.SignalIn? then OnSignal(s.maps, step.signal, s.clock)
            else s.maps
  {
    StepFrame(u, s, step);
    hide Called;
    hide Published;
    hide Finished;
    hide Decided;
    hide Executor.Gate;
    hide CostHandled;
    hide Detector.TrafficStep;
    hide OnLifecycle;
    hide OnSignal;
  }

  // Whatever interleaving came before, the classification a decision uses is the one its
  // whole history supports.
  lemma DecisionsUseWholeHistory(u: Setup, cluster: Cluster.State, clock: int, steps: seq<Step>, service: string, verdict: Option<Classification>)
    ensures
      var s := After(u, Initial(cluster, clock), steps);
      Classify(s.maps, u.decision.windows, service, verdict, s.clock)
      == ClassifyHistory(HistoryOf(u, Initial(cluster, clock), steps), u.decision.windows, service, verdict, s.clock)
  {
    CorrelationInsideSystem(u, cluster, clock, steps);
    var s := After(u, Initial(cluster, clock), steps);
    ClassifyAgrees(HistoryOf(u, Initial(cluster, clock), steps), u.decision.windows, service, verdict, s.clock);
  }
}
