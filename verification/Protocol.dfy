// The services together: one state machine whose steps are the handlers of the detector,
// decision-policy, the API and the executor, the passing of time, and the environment.
//
// A step that is not enabled leaves the state alone, so every sequence of steps is a run.
module Protocol {
  import opened Prelude
  import opened Schemas
  import opened Ledger
  import opened Correlation
  import opened Policy
  import Detector
  import opened Flagging
  import Decision
  import Executor
  import Cluster
  import Undo
  import Api

  datatype Setup = Setup(root: real -> real, executor: Executor.Config, decision: Decision.Config)

  // What the executor is in the middle of: a delivery it gated at checkedAt.
  datatype Job = Job(message: Message, plan: Executor.Plan, checkedAt: int)

  // Why a decision row was written.
  datatype Grounds = Grounds(message: Decision.AnomalyMessage, classification: Classification, table: seq<PolicyRow>, policy: PolicyRow)

  // How the publish of a committed dispatch ended: taken by the broker, turned down by it, or
  // never reported because the process died first.
  datatype Fate = Sent | TurnedDown | Lost

  // waiting: requests of committed dispatches that their handlers have yet to publish.
  // because, checked and fate are history: they record, and nothing reads them.
  datatype System = System(
    detector: Detector.State, maps: Maps,
    anomalies: Anomalies, inbox: seq<Decision.AnomalyMessage>,
    rows: seq<Row>, waiting: map<nat, Message>, published: seq<Message>,
    cluster: Cluster.State, clock: int, job: Option<Job>,
    because: map<nat, Grounds>, checked: map<nat, int>, fate: map<nat, Fate>)

  // up: whether the broker takes what the step publishes. Ids of new anomalies are fresh.
  // Die: a handler dies, or cannot store its failure row, after committing the dispatch id.
  datatype Step =
    | TrafficIn(traffic: Detector.TrafficMessage)
    | CostIn(cost: Detector.CostMessage, id: nat, up: bool)
    | ForeignAnomaly(anomaly: Decision.AnomalyMessage)
    | LifecycleIn(event: Lifecycle)
    | SignalIn(signal: Signal)
    | DecideOn(k: nat, table: seq<PolicyRow>)
    | ApproveCall(anomalyId: nat)
    | RollbackCall(anomalyId: nat)
    | Publish(id: nat, up: bool)
    | Die(id: nat)
    | Deliver(k: nat)
    | Inject(message: Message)
    | Finish(recorded: bool)
    | Abort
    | ReportReplicas(ns: string, hpa: string, count: Option<int>)
    | Tick(delay: nat)

  function Initial(cluster: Cluster.State, clock: int): System {
    System(Detector.FRESH, NO_MAPS, map[], [], [], map[], [], cluster, clock, None, map[], map[], map[])
  }

  // The detector stores the reading, then inserts and publishes what it found; an id already
  // in use makes the insert raise, after the reading was stored.
  function CostHandled(u: Setup, s: System, m: Detector.CostMessage, id: nat, up: bool): System {
    var next := s.(detector := Detector.CostStep(u.root, s.detector, m));
    match Detector.CostFinding(u.root, s.detector, m)
    case None => next
    case Some(f) =>
      if id in s.anomalies then next
      else
        next.(anomalies := s.anomalies[id := RowFor(f)],
              inbox := if up then s.inbox + [MessageFor(id, f)] else s.inbox)
  }

  // An anomaly from another producer, such as a detector build with a different scorer.
  function ForeignHandled(s: System, m: Decision.AnomalyMessage): System {
    if m.id in s.anomalies then s
    else
      s.(anomalies := s.anomalies[m.id := AnomalyRow(m.service, Decision.ConfidenceOf(m), Unclassified)],
         inbox := s.inbox + [m])
  }

  // A handler commits a row; if that dispatches something, the request is still to be sent.
  function Committed(s: System, row: Row, request: Option<Message>): System {
    if !Accepts(s.rows, s.anomalies, row) then s
    else
      s.(rows := s.rows + [row],
         waiting := if request.Some? then s.waiting[|s.rows| := request.value] else s.waiting)
  }

  function Decided(u: Setup, s: System, m: Decision.AnomalyMessage, table: seq<PolicyRow>): System {
    var c := Classify(s.maps, u.decision.windows, m.service, m.verdict, s.clock);
    var v := Decision.Decide(u.decision, s.maps, table, m, s.clock);
    var next := s.(anomalies := Reclassify(s.anomalies, m.id, c));
    if v.Silent? || !Accepts(s.rows, next.anomalies, Decision.DecisionRow(m, v, s.clock)) then next
    else
      Committed(next.(because := s.because[|s.rows| := Grounds(m, c, table, v.policy)]),
                Decision.DecisionRow(m, v, s.clock),
                if Decision.Autonomy(v) == 2 then Some(Decision.DispatchMessage(|s.rows|, m, v.policy.action)) else None)
  }

  function Called(s: System, ticket: Option<Api.Ticket>): System {
    if ticket.None? then s else Committed(s, ticket.value.row, Some(ticket.value.message))
  }

  // Dispatches the API made, on a human's word.
  predicate FromApi(row: Row) {
    row.result.Dispatched? && row.mode == Approved
  }

  // A publish the broker turns down is a row of its own in the API. In decision-policy it
  // only raises.
  function Published(s: System, id: nat, up: bool): System {
    if id !in s.waiting || id >= |s.rows| then s
    else
      var failure := Api.FailureRow(id, s.rows[id], s.waiting[id], s.clock);
      s.(waiting := s.waiting - {id},
         published := if up then s.published + [s.waiting[id]] else s.published,
         rows := if !up && FromApi(s.rows[id]) then Append(s.rows, s.anomalies, failure) else s.rows,
         fate := s.fate[id := if up then Sent else TurnedDown])
  }

  function Died(s: System, id: nat): System {
    if id !in s.waiting then s else s.(waiting := s.waiting - {id}, fate := s.fate[id := Lost])
  }

  function Gated(u: Setup, s: System, m: Message): System {
    if s.job.Some? then s else s.(job := Some(Job(m, Executor.Gate(u.executor, s.rows, m, s.clock), s.clock)))
  }

  // recorded is false when the executor dies between the patch and the insert.
  function Finished(u: Setup, s: System, recorded: bool): System {
    if s.job.None? then s
    else
      var job := s.job.value;
      var outcome := Executor.Conclude(u.executor, s.cluster, job.message, job.plan, s.clock);
      var rows := if recorded then Executor.AppendOutcome(s.rows, s.anomalies, outcome) else s.rows;
      s.(cluster := outcome.cluster, rows := rows, job := None,
         checked := if rows == s.rows then s.checked else s.checked[|s.rows| := job.checkedAt])
  }

  function Apply(u: Setup, s: System, step: Step): System {
    match step
    case TrafficIn(m) => s.(detector := Detector.TrafficStep(u.root, s.detector, m))
    case CostIn(m, id, up) => CostHandled(u, s, m, id, up)
    case ForeignAnomaly(m) => ForeignHandled(s, m)
    case LifecycleIn(m) => s.(maps := OnLifecycle(s.maps, m, s.clock))
    case SignalIn(m) => s.(maps := OnSignal(s.maps, m, s.clock))
    case DecideOn(k, table) =>
      if k < |s.inbox| && ByPriority(table) then Decided(u, s, s.inbox[k], table) else s
    case ApproveCall(id) => Called(s, Api.ApprovalTicket(s.rows, s.anomalies, id, s.clock))
    case RollbackCall(id) => Called(s, Api.RollbackTicket(s.rows, id, s.clock))
    case Publish(id, up) => Published(s, id, up)
    case Die(id) => Died(s, id)
    case Deliver(k) => if k < |s.published| then Gated(u, s, s.published[k]) else s
    case Inject(m) => Gated(u, s, m)
    case Finish(recorded) => Finished(u, s, recorded)
    case Abort => s.(job := None)
    case ReportReplicas(ns, hpa, count) => s.(cluster := Undo.Report(s.cluster, ns, hpa, count))
    case Tick(delay) => s.(clock := s.clock + delay)
  }

  function After(u: Setup, s: System, steps: seq<Step>): System {
    if steps == [] then s else Apply(u, After(u, s, steps[..|steps| - 1]), steps[|steps| - 1])
  }

  lemma AfterLast(u: Setup, s: System, steps: seq<Step>)
    requires steps != []
    ensures After(u, s, steps) == Apply(u, After(u, s, steps[..|steps| - 1]), steps[|steps| - 1])
  {
    hide Apply;
  }

  lemma AfterOneMore(u: Setup, s: System, steps: seq<Step>, step: Step)
    ensures After(u, s, steps + [step]) == Apply(u, After(u, s, steps), step)
  {
    hide Apply;
    assert (steps + [step])[..|steps|] == steps;
  }

  // Only the services put requests on the remediation queue.
  predicate FedByServices(steps: seq<Step>) {
    forall step :: step in steps ==> !step.Inject?
  }

  // Only the detector publishes anomalies.
  predicate FedByDetector(steps: seq<Step>) {
    forall step :: step in steps ==> !step.ForeignAnomaly?
  }

  // ---------------------------------------------------------------- who writes what

  lemma HandlerFrames(u: Setup, s: System)
    ensures forall ticket :: var s' := Called(s, ticket); s' == s.(rows := s'.rows, waiting := s'.waiting)
    ensures forall id, up ::
              var s' := Published(s, id, up);
              s' == s.(rows := s'.rows, waiting := s'.waiting, published := s'.published, fate := s'.fate)
    ensures forall recorded ::
              var s' := Finished(u, s, recorded);
              s' == s.(cluster := s'.cluster, rows := s'.rows, job := s'.job, checked := s'.checked)
  {
    hide Accepts;
    hide Executor.Conclude;
  }

  lemma DecidedFrame(u: Setup, s: System, m: Decision.AnomalyMessage, table: seq<PolicyRow>)
    ensures
      var s' := Decided(u, s, m, table);
      s' == s.(anomalies := s'.anomalies, rows := s'.rows, waiting := s'.waiting, because := s'.because)
  {
    hide Accepts;
    hide Decision.Decide;
    hide Classify;
  }

  lemma CostFrame(u: Setup, s: System, m: Detector.CostMessage, id: nat, up: bool)
    ensures
      var s' := CostHandled(u, s, m, id, up);
      s' == s.(detector := s'.detector, anomalies := s'.anomalies, inbox := s'.inbox)
  {
    hide Detector.CostStep;
    hide Detector.CostFinding;
  }

  // What a step leaves alone: the tables and the bus.
  lemma TablesFrame(u: Setup, s: System, step: Step)
    ensures
      var s' := Apply(u, s, step);
      && (s'.anomalies == s.anomalies || step.CostIn? || step.ForeignAnomaly? || step.DecideOn?)
      && (s'.inbox == s.inbox || step.CostIn? || step.ForeignAnomaly?)
      && (s'.rows == s.rows || step.DecideOn? || step.ApproveCall? || step.RollbackCall? || step.Publish? || step.Finish?)
      && (s'.waiting == s.waiting || step.DecideOn? || step.ApproveCall? || step.RollbackCall? || step.Publish? || step.Die?)
      && (s'.published == s.published || step.Publish?)
      && (s'.fate == s.fate || step.Publish? || step.Die?)
  {
    hide Called;
    hide Published;
    hide Finished;
    hide Decided;
    hide CostHandled;
    hide Detector.TrafficStep;
    hide Executor.Gate;
    hide Undo.Report;
    hide ByPriority;
    hide Api.ApprovalTicket;
    hide Api.RollbackTicket;
    hide OnLifecycle;
    hide OnSignal;
    HandlerFrames(u, s);
    if step.DecideOn? && step.k < |s.inbox| {
      DecidedFrame(u, s, s.inbox[step.k], step.table);
    } else if step.CostIn? {
      CostFrame(u, s, step.cost, step.id, step.up);
    }
  }

  // The services' own state, the cluster and the clock.
  lemma ServicesFrame(u: Setup, s: System, step: Step)
    ensures
      var s' := Apply(u, s, step);
      && (s'.detector == s.detector || step.CostIn? || step.TrafficIn?)
      && (s'.maps == s.maps || step.LifecycleIn? || step.SignalIn?)
      && (s'.cluster == s.cluster || step.Finish? || step.ReportReplicas?)
      && (s'.job == s.job || step.Deliver? || step.Inject? || step.Finish? || step.Abort?)
      && (s'.because == s.because || step.DecideOn?)
      && (s'.checked == s.checked || step.Finish?)
      && (s'.clock == s.clock || step.Tick?) && s.clock <= s'.clock
  {
    hide Called;
    hide Published;
    hide Finished;
    hide Decided;
    hide CostHandled;
    hide Detector.TrafficStep;
    hide Executor.Gate;
    hide Undo.Report;
    hide ByPriority;
    hide Api.ApprovalTicket;
    hide Api.RollbackTicket;
    hide OnLifecycle;
    hide OnSignal;
    HandlerFrames(u, s);
    if step.DecideOn? && step.k < |s.inbox| {
      DecidedFrame(u, s, s.inbox[step.k], step.table);
    } else if step.CostIn? {
      CostFrame(u, s, step.cost, step.id, step.up);
    }
  }

  // Which steps write which part of the system.
  lemma StepFrame(u: Setup, s: System, step: Step)
    ensures
      var s' := Apply(u, s, step);
      && (s'.detector == s.detector || step.CostIn? || step.TrafficIn?)
      && (s'.maps == s.maps || step.LifecycleIn? || step.SignalIn?)
      && (s'.anomalies == s.anomalies || step.CostIn? || step.ForeignAnomaly? || step.DecideOn?)
      && (s'.inbox == s.inbox || step.CostIn? || step.ForeignAnomaly?)
      && (s'.rows == s.rows || step.DecideOn? || step.ApproveCall? || step.RollbackCall? || step.Publish? || step.Finish?)
      && (s'.waiting == s.waiting || step.DecideOn? || step.ApproveCall? || step.RollbackCall? || step.Publish? || step.Die?)
      && (s'.published == s.published || step.Publish?)
      && (s'.cluster == s.cluster || step.Finish? || step.ReportReplicas?)
      && (s'.job == s.job || step.Deliver? || step.Inject? || step.Finish? || step.Abort?)
      && (s'.because == s.because || step.DecideOn?)
      && (s'.checked == s.checked || step.Finish?)
      && (s'.fate == s.fate || step.Publish? || step.Die?)
      && (s'.clock == s.clock || step.Tick?) && s.clock <= s'.clock
  {
    hide Apply;
    TablesFrame(u, s, step);
    ServicesFrame(u, s, step);
  }

  predicate Extends(s: System, s': System) {
    && s.rows <= s'.rows && |s'.rows| <= |s.rows| + 1
    && s.published <= s'.published
    && s.clock <= s'.clock
    && s.anomalies.Keys <= s'.anomalies.Keys
  }

  lemma HandlersExtend(u: Setup, s: System)
    ensures forall row, request :: Extends(s, Committed(s, row, request))
    ensures forall ticket :: Extends(s, Called(s, ticket))
    ensures forall id, up :: Extends(s, Published(s, id, up))
    ensures forall recorded :: Extends(s, Finished(u, s, recorded))
  {
    hide Accepts;
    hide Executor.Conclude;
  }

  lemma AnomalyHandlersExtend(u: Setup, s: System)
    ensures forall m, table :: Extends(s, Decided(u, s, m, table))
    ensures forall m, id, up :: Extends(s, CostHandled(u, s, m, id, up))
  {
    hide Accepts;
    hide Decision.Decide;
    hide Classify;
    hide Detector.CostStep;
    hide Detector.CostFinding;
  }

  // Every step appends at most one row and takes nothing back.
  lemma OnlyAppends(u: Setup, s: System, step: Step)
    ensures Extends(s, Apply(u, s, step))
  {
    HandlersExtend(u, s);
    AnomalyHandlersExtend(u, s);
    hide Called;
    hide Published;
    hide Finished;
    hide Decided;
    hide CostHandled;
    hide Detector.TrafficStep;
    hide Executor.Gate;
    hide Undo.Report;
    hide ByPriority;
    hide Api.ApprovalTicket;
    hide Api.RollbackTicket;
    hide OnLifecycle;
    hide OnSignal;
  }

  // The ledger only grows over any run.
  lemma {:induction false} LedgerOnlyGrows(u: Setup, s: System, steps: seq<Step>)
    ensures s.rows <= After(u, s, steps).rows
    ensures s.published <= After(u, s, steps).published
    ensures s.clock <= After(u, s, steps).clock
  {
    if steps != [] {
      LedgerOnlyGrows(u, s, steps[..|steps| - 1]);
      OnlyAppends(u, After(u, s, steps[..|steps| - 1]), steps[|steps| - 1]);
    }
  }
}
