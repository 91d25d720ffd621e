// The services, as objects that update tables, maps, queues and the cluster in place, take
// exactly the steps of the protocol: each method starts from objects that hold a state of the
// system and ends with objects that hold the next one.
module Refinement {
  import opened Prelude
  import opened Ledger
  import opened Protocol
  import opened Policy
  import Decision
  import Detector
  import Executor
  import Correlation
  import Flagging
  import Requests
  import Api

  method CostTakesStep(u: Setup, ghost s: System, service: Flagging.Service, m: Detector.CostMessage, id: nat, up: bool)
    requires service.engine.root == u.root && service.engine.Abstract() == s.detector
    requires service.db.anomalies == s.anomalies && service.inbox == s.inbox
    modifies service, service.engine, service.db`anomalies
    ensures
      var s' := Apply(u, s, CostIn(m, id, up));
      service.engine.Abstract() == s'.detector && service.db.anomalies == s'.anomalies && service.inbox == s'.inbox
  {
    hide Detector.CostStep;
    hide Detector.CostFinding;
    service.HandleCost(m, id, up);
  }

  method TrafficTakesStep(u: Setup, ghost s: System, engine: Detector.Engine, m: Detector.TrafficMessage)
    requires engine.root == u.root && engine.Abstract() == s.detector
    modifies engine
    ensures engine.Abstract() == Apply(u, s, TrafficIn(m)).detector
  {
    engine.HandleTraffic(m);
  }

  method LifecycleTakesStep(u: Setup, ghost s: System, service: Decision.Service, m: Correlation.Lifecycle, now: int)
    requires service.Recent() == s.maps && now == s.clock
    modifies service
    ensures service.Recent() == Apply(u, s, LifecycleIn(m)).maps
  {
    service.HandleLifecycle(m, now);
  }

  method SignalTakesStep(u: Setup, ghost s: System, service: Decision.Service, m: Correlation.Signal, now: int)
    requires service.Recent() == s.maps && now == s.clock
    modifies service
    ensures service.Recent() == Apply(u, s, SignalIn(m)).maps
  {
    service.HandleSecuritySignal(m, now);
  }

  lemma DecisionSettles(u: Setup, s: System, m: Decision.AnomalyMessage, table: seq<PolicyRow>, up: bool)
    requires forall i :: i in s.waiting ==> i < |s.rows|
    ensures
      var v := Decision.Decide(u.decision, s.maps, table, m, s.clock);
      var anomalies := Reclassify(s.anomalies, m.id, Correlation.Classify(s.maps, u.decision.windows, m.service, m.verdict, s.clock));
      var s' := Published(Decided(u, s, m, table), |s.rows|, up);
      && s'.anomalies == anomalies && s'.waiting == s.waiting
      && s'.rows == (if v.Silent? then s.rows else Append(s.rows, anomalies, Decision.DecisionRow(m, v, s.clock)))
      && s'.published == s.published
           + if Decision.Autonomy(v) == 2 && up && m.id in anomalies
             then [Decision.DispatchMessage(|s.rows|, m, v.policy.action)] else []
  {
    hide Decision.Decide;
    hide Correlation.Classify;
    hide Reclassify;
    Requests.DecisionResults(u, s, m, table);
    assert s.published + [] == s.published;
  }

  // An anomaly handled without interruption is two steps: the row, then the publish.
  method DecisionTakesSteps(
    u: Setup, ghost s: System, service: Decision.Service, m: Decision.AnomalyMessage, k: nat, table: seq<PolicyRow>, now: int, up: bool)
    requires service.cfg == u.decision && service.Recent() == s.maps && now == s.clock
    requires service.db.rows == s.rows && service.db.anomalies == s.anomalies && service.bus.published == s.published
    requires k < |s.inbox| && s.inbox[k] == m && ByPriority(table)
    requires forall i :: i in s.waiting ==> i < |s.rows|
    modifies service.db, service.bus
    ensures
      var s' := Apply(u, Apply(u, s, DecideOn(k, table)), Publish(|s.rows|, up));
      && service.db.rows == s'.rows && service.db.anomalies == s'.anomalies && service.bus.published == s'.published
      && s'.waiting == s.waiting
  {
    hide Decided;
    hide Published;
    hide Decision.Decide;
    DecisionSettles(u, s, m, table, up);
    service.HandleAnomaly(m, table, now, up);
  }

  function CallThenPublish(s: System, ticket: Option<Api.Ticket>, up: bool, delay: nat): System {
    Published(Called(s, ticket).(clock := s.clock + delay), |s.rows|, up)
  }

  lemma CallSettles(s: System, ticket: Option<Api.Ticket>, up: bool, delay: nat)
    requires forall i :: i in s.waiting ==> i < |s.rows|
    requires ticket.Some? ==> FromApi(ticket.value.row)
    ensures
      var e := Api.Dispatch(s.rows, s.anomalies, s.published, ticket, up, s.clock + delay);
      var s' := CallThenPublish(s, ticket, up, delay);
      s'.rows == e.rows && s'.published == e.published && s'.waiting == s.waiting
  {
    if ticket.Some? && Accepts(s.rows, s.anomalies, ticket.value.row) {
      assert s.waiting[|s.rows| := ticket.value.message] - {|s.rows|} == s.waiting;
    }
  }

  lemma PublishAfterTick(u: Setup, s: System, delay: nat, id: nat, up: bool)
    ensures Apply(u, Apply(u, s, Tick(delay)), Publish(id, up)) == Published(s.(clock := s.clock + delay), id, up)
  {
    hide Published;
  }

  lemma CallSteps(u: Setup, s: System, anomaly: nat, up: bool, delay: nat)
    ensures Apply(u, Apply(u, Apply(u, s, ApproveCall(anomaly)), Tick(delay)), Publish(|s.rows|, up))
         == CallThenPublish(s, Api.ApprovalTicket(s.rows, s.anomalies, anomaly, s.clock), up, delay)
    ensures Apply(u, Apply(u, Apply(u, s, RollbackCall(anomaly)), Tick(delay)), Publish(|s.rows|, up))
         == CallThenPublish(s, Api.RollbackTicket(s.rows, anomaly, s.clock), up, delay)
  {
    hide Called;
    hide Published;
    hide Api.ApprovalTicket;
    hide Api.RollbackTicket;
    var approved, reversed := Apply(u, s, ApproveCall(anomaly)), Apply(u, s, RollbackCall(anomaly));
    assert approved == Called(s, Api.ApprovalTicket(s.rows, s.anomalies, anomaly, s.clock));
    assert reversed == Called(s, Api.RollbackTicket(s.rows, anomaly, s.clock));
    PublishAfterTick(u, approved, delay, |s.rows|, up);
    PublishAfterTick(u, reversed, delay, |s.rows|, up);
    CalledKeepsClock(s, Api.ApprovalTicket(s.rows, s.anomalies, anomaly, s.clock));
    CalledKeepsClock(s, Api.RollbackTicket(s.rows, anomaly, s.clock));
    hide Apply;
  }

  lemma CalledKeepsClock(s: System, ticket: Option<Api.Ticket>)
    ensures Called(s, ticket).clock == s.clock
  {
  }

  lemma TicketsAreDispatches(s: System, anomaly: nat)
    ensures
      var approval, rollback := Api.ApprovalTicket(s.rows, s.anomalies, anomaly, s.clock), Api.RollbackTicket(s.rows, anomaly, s.clock);
      && (approval.Some? ==> FromApi(approval.value.row))
      && (rollback.Some? ==> FromApi(rollback.value.row))
  {
    hide Latest;
  }

  // An API call is three: the row, time passing, the publish or its failure row.
  method ApprovalTakesSteps(u: Setup, ghost s: System, service: Api.Service, anomaly: nat, now: int, up: bool, delay: nat)
    requires service.db.rows == s.rows && service.db.anomalies == s.anomalies && service.bus.published == s.published
    requires now == s.clock && forall i :: i in s.waiting ==> i < |s.rows|
    modifies service.db`rows, service.bus
    ensures
      var s' := Apply(u, Apply(u, Apply(u, s, ApproveCall(anomaly)), Tick(delay)), Publish(|s.rows|, up));
      service.db.rows == s'.rows && service.bus.published == s'.published && s'.waiting == s.waiting
  {
    hide Apply;
    hide CallThenPublish;
    hide Api.Dispatch;
    hide Api.ApprovalTicket;
    CallSteps(u, s, anomaly, up, delay);
    TicketsAreDispatches(s, anomaly);
    CallSettles(s, Api.ApprovalTicket(s.rows, s.anomalies, anomaly, now), up, delay);
    var _ := service.ApproveAction(anomaly, now, up, now + delay);
  }

  method RollbackCallTakesSteps(u: Setup, ghost s: System, service: Api.Service, anomaly: nat, now: int, up: bool, delay: nat)
    requires service.db.rows == s.rows && service.db.anomalies == s.anomalies && service.bus.published == s.published
    requires now == s.clock && forall i :: i in s.waiting ==> i < |s.rows|
    modifies service.db`rows, service.bus
    ensures
      var s' := Apply(u, Apply(u, Apply(u, s, RollbackCall(anomaly)), Tick(delay)), Publish(|s.rows|, up));
      service.db.rows == s'.rows && service.bus.published == s'.published && s'.waiting == s.waiting
  {
    hide Apply;
    hide CallThenPublish;
    hide Api.Dispatch;
    hide Api.RollbackTicket;
    CallSteps(u, s, anomaly, up, delay);
    TicketsAreDispatches(s, anomaly);
    CallSettles(s, Api.RollbackTicket(s.rows, anomaly, now), up, delay);
    var _ := service.RollbackAction(anomaly, now, up, now + delay);
  }

  lemma DeliverySteps(u: Setup, s: System, m: Message, delay: nat)
    requires s.job.None?
    ensures
      var outcome := Executor.Conclude(u.executor, s.cluster, m, Executor.Gate(u.executor, s.rows, m, s.clock), s.clock + delay);
      var s' := Apply(u, Apply(u, Apply(u, s, Inject(m)), Tick(delay)), Finish(true));
      && s'.cluster == outcome.cluster && s'.job.None?
      && s'.rows == Executor.AppendOutcome(s.rows, s.anomalies, outcome)
  {
    hide Called;
    hide Published;
    hide Decided;
    hide CostHandled;
    hide Executor.Gate;
    hide Executor.Conclude;
    hide Detector.TrafficStep;
  }

  // One uninterrupted delivery is three steps: gate, time passing, patch and record.
  method ExecutorTakesSteps(u: Setup, ghost s: System, service: Executor.Service, m: Message, now: int, delay: nat)
    requires service.cfg == u.executor && now == s.clock && s.job.None?
    requires service.db.rows == s.rows && service.db.anomalies == s.anomalies && service.cluster.Abstract() == s.cluster
    modifies service.db`rows, service.cluster
    ensures
      var s' := Apply(u, Apply(u, Apply(u, s, Inject(m)), Tick(delay)), Finish(true));
      service.db.rows == s'.rows && service.cluster.Abstract() == s'.cluster && s'.job.None?
  {
    hide Apply;
    hide Executor.Gate;
    hide Executor.Conclude;
    DeliverySteps(u, s, m, delay);
    service.Handle(m, now, now + delay);
  }
}
