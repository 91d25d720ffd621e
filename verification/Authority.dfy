// Where authority comes from, in every run whose remediation queue is fed only by the
// services: each row's ancestry, and the decision every executed action goes back to.
module Authority {
  import opened Prelude
  import opened Ledger
  import opened Policy
  import opened Confidence
  import opened Protocol
  import opened LedgerSafety
  import Correlation
  import Cluster
  import Decision
  import Detector
  import Executor
  import Api

  // A least-priority matching rule asked for this action on an unprotected target, and the
  // anomaly's confidence reaches the threshold.
  ghost predicate Justifies(u: Setup, g: Grounds, row: Row, threshold: real) {
    && row.anomaly == Some(g.message.id) && row.service == g.message.service && row.action == g.policy.action
    && !row.action.Rollback? && !row.action.AlertOnly?
    && ByPriority(g.table)
    && FirstMatch(g.table, g.classification, g.message.service, Decision.CostOf(g.message), Decision.ConfidenceOf(g.message))
       == Some(g.policy)
    && !IsProtected(row.service, u.decision.prefixes)
    && Decision.ConfidenceOf(g.message) >= threshold
  }

  ghost predicate SameSubject(a: Row, b: Row) {
    a.anomaly == b.anomaly && a.action == b.action
  }

  // An outcome repeats the subject, service and mode of the dispatch it answers; the outcome of
  // a rollback names no service and counts as autonomous; a report of a failed publish is the
  // API's.
  ghost predicate Answers(r: Row, d: Row) {
    && d.result.Dispatched? && SameSubject(r, d)
    && if r.result.DispatchFailed? then r.service == d.service && r.mode == Approved
       else if r.action.Rollback? then r.service == "" && r.mode == Autonomous
       else r.service == d.service && r.mode == d.mode
  }

  // The ancestry of row i.
  ghost predicate Lineage(u: Setup, rows: seq<Row>, because: map<nat, Grounds>, i: int)
    requires 0 <= i < |rows|
  {
    var r := rows[i];
    && (r.parent.Some? ==> r.parent.value < i)
    && match r.result
       case PendingApproval =>
         r.parent.None? && i in because && Justifies(u, because[i], r, APPROVAL_THRESHOLD)
       case Dispatched =>
         if r.parent.None? then
           && r.mode == Autonomous && i in because && Justifies(u, because[i], r, AUTONOMOUS_THRESHOLD)
           && !because[i].policy.rule.requiresApproval
         else
           var p := rows[r.parent.value];
           && r.mode == Approved && r.anomaly == p.anomaly && r.service == p.service
           && if r.action.Rollback? then p.result.Executed? && r.rollbackRef == r.parent
              else p.result.PendingApproval? && SameSubject(r, p)
       case Executed =>
         r.parent.Some? && Answers(r, rows[r.parent.value]) && !r.action.Rollback?
       case RolledBack =>
         && r.parent.Some? && Answers(r, rows[r.parent.value])
         && r.action.Rollback? && r.rollbackRef == rows[r.parent.value].rollbackRef
       case _ =>
         r.parent.Some? ==> Answers(r, rows[r.parent.value])
  }

  // A request goes back to a committed dispatch of the same subject.
  ghost predicate Backed(rows: seq<Row>, m: Message) {
    && m.actionId < |rows|
    && var d := rows[m.actionId];
       && d.result.Dispatched? && m.anomaly == d.anomaly && m.action == d.action
       && if m.action.Rollback? then m.service == "" && m.mode.None? && m.target == d.rollbackRef
          else m.service == d.service && m.mode == Some(d.mode) && !d.mode.OtherMode?
  }

  ghost predicate Named(anomalies: Anomalies, id: Option<nat>, service: string) {
    id.Some? && id.value in anomalies && anomalies[id.value].service == service
  }

  ghost predicate Fed(u: Setup, s: System) {
    && (forall i :: 0 <= i < |s.rows| ==> Lineage(u, s.rows, s.because, i))
    && (forall i :: 0 <= i < |s.rows| && s.rows[i].parent.None? ==> Named(s.anomalies, s.rows[i].anomaly, s.rows[i].service))
    && (forall i :: 0 <= i < |s.rows| ==> s.rows[i].anomaly.Some? && s.rows[i].anomaly.value in s.anomalies)
    && (forall m :: m in s.inbox ==> Named(s.anomalies, Some(m.id), m.service))
    && (forall i :: i in s.waiting ==> s.waiting[i].actionId == i && Backed(s.rows, s.waiting[i]))
    && (forall m :: m in s.published ==> Backed(s.rows, m))
    && (s.job.Some? ==>
          && Backed(s.rows, s.job.value.message)
          && (s.job.value.plan.Reverse? ==> s.job.value.message.target == Some(s.job.value.plan.target)))
  }

  // ---------------------------------------------------------------- growth

  lemma LineageGrows(u: Setup, rows: seq<Row>, rows': seq<Row>, because: map<nat, Grounds>, because': map<nat, Grounds>, i: int)
    requires 0 <= i < |rows| && rows <= rows' && Lineage(u, rows, because, i)
    requires forall k :: k in because && k < |rows| ==> k in because' && because'[k] == because[k]
    ensures Lineage(u, rows', because', i)
  {
  }

  lemma BackedGrows(rows: seq<Row>, rows': seq<Row>, m: Message)
    requires Backed(rows, m) && rows <= rows'
    ensures Backed(rows', m)
  {
  }

  // What the invariant asks of a step, row by row.
  lemma FedGrows(u: Setup, s: System, s': System)
    requires Fed(u, s) && s.rows <= s'.rows && s.published <= s'.published
    requires forall k :: k in s.because && k < |s.rows| ==> k in s'.because && s'.because[k] == s.because[k]
    requires forall a :: a in s.anomalies ==> a in s'.anomalies && s'.anomalies[a].service == s.anomalies[a].service
    requires forall i :: |s.rows| <= i < |s'.rows| ==>
               && Lineage(u, s'.rows, s'.because, i)
               && (s'.rows[i].parent.None? ==> Named(s'.anomalies, s'.rows[i].anomaly, s'.rows[i].service))
               && s'.rows[i].anomaly.Some? && s'.rows[i].anomaly.value in s'.anomalies
    requires forall m :: m in s'.inbox && m !in s.inbox ==> Named(s'.anomalies, Some(m.id), m.service)
    requires forall i :: i in s'.waiting ==>
               || (i in s.waiting && s'.waiting[i] == s.waiting[i])
               || (s'.waiting[i].actionId == i && Backed(s'.rows, s'.waiting[i]))
    requires forall k :: |s.published| <= k < |s'.published| ==> Backed(s'.rows, s'.published[k])
    requires s'.job.Some? && s'.job != s.job ==>
               && Backed(s.rows, s'.job.value.message)
               && (s'.job.value.plan.Reverse? ==> s'.job.value.message.target == Some(s'.job.value.plan.target))
    ensures Fed(u, s')
  {
    forall i | 0 <= i < |s'.rows| ensures Lineage(u, s'.rows, s'.because, i) {
      if i < |s.rows| {
        LineageGrows(u, s.rows, s'.rows, s.because, s'.because, i);
      }
    }
    hide Lineage;
    forall i | i in s'.waiting ensures s'.waiting[i].actionId == i && Backed(s'.rows, s'.waiting[i]) {
      if i in s.waiting && s'.waiting[i] == s.waiting[i] {
        BackedGrows(s.rows, s'.rows, s.waiting[i]);
      }
    }
    forall m | m in s'.published ensures Backed(s'.rows, m) {
      var k :| 0 <= k < |s'.published| && s'.published[k] == m;
      if k < |s.published| {
        assert m in s.published;
        BackedGrows(s.rows, s'.rows, m);
      }
    }
    if s'.job.Some? {
      BackedGrows(s.rows, s'.rows, s'.job.value.message);
    }
    hide Backed;
    forall i | 0 <= i < |s'.rows| && s'.rows[i].parent.None?
      ensures Named(s'.anomalies, s'.rows[i].anomaly, s'.rows[i].service)
    {
      if i < |s.rows| {
        assert Named(s.anomalies, s.rows[i].anomaly, s.rows[i].service);
      }
    }
  }

  // ---------------------------------------------------------------- each step

  // A decision that asks or acts is justified by what it was decided from.
  lemma VerdictJustified(u: Setup, s: System, m: Decision.AnomalyMessage, table: seq<PolicyRow>)
    requires ByPriority(table)
    ensures
      var v := Decision.Decide(u.decision, s.maps, table, m, s.clock);
      v.Logged? ==>
        var row := Decision.DecisionRow(m, v, s.clock);
        var g := Grounds(m, Correlation.Classify(s.maps, u.decision.windows, m.service, m.verdict, s.clock), table, v.policy);
        && !row.result.Executed? && !row.result.RolledBack?
        && (row.result.PendingApproval? ==> Justifies(u, g, row, APPROVAL_THRESHOLD))
        && (row.result.Dispatched? ==>
              Justifies(u, g, row, AUTONOMOUS_THRESHOLD) && row.mode == Autonomous && !v.policy.rule.requiresApproval)
  {
  }

  lemma DecisionLineage(u: Setup, s: System, m: Decision.AnomalyMessage, table: seq<PolicyRow>)
    requires ByPriority(table) && Named(s.anomalies, Some(m.id), m.service)
    ensures
      var s', n := Decided(u, s, m, table), |s.rows|;
      && (|s'.rows| > n ==>
            && Lineage(u, s'.rows, s'.because, n)
            && Named(s'.anomalies, s'.rows[n].anomaly, s'.rows[n].service))
      && (s'.waiting == s.waiting
          || (|s'.rows| > n && s'.waiting == s.waiting[n := s'.waiting[n]]
              && s'.waiting[n].actionId == n && Backed(s'.rows, s'.waiting[n])))
  {
    hide Decision.Decide;
    hide Correlation.Classify;
    hide Justifies;
    hide ByPriority;
    VerdictJustified(u, s, m, table);
  }

  lemma DecidedAnomalies(u: Setup, s: System, m: Decision.AnomalyMessage, table: seq<PolicyRow>)
    ensures
      var s' := Decided(u, s, m, table);
      forall a :: a in s.anomalies ==> a in s'.anomalies && s'.anomalies[a].service == s.anomalies[a].service
    ensures
      var s' := Decided(u, s, m, table);
      forall k :: k in s.because && k < |s.rows| ==> k in s'.because && s'.because[k] == s.because[k]
  {
    hide Decision.Decide;
    hide Correlation.Classify;
    hide Accepts;
  }

  lemma DecideKeepsFed(u: Setup, s: System, m: Decision.AnomalyMessage, table: seq<PolicyRow>)
    requires Fed(u, s) && ByPriority(table) && Named(s.anomalies, Some(m.id), m.service)
    ensures Fed(u, Decided(u, s, m, table))
  {
    hide Fed;
    hide Lineage;
    hide Backed;
    hide Decided;
    hide Called;
    hide Published;
    hide Finished;
    hide CostHandled;
    hide ByPriority;
    DecisionLineage(u, s, m, table);
    DecidedAnomalies(u, s, m, table);
    AnomalyHandlersExtend(u, s);
    DecidedFrame(u, s, m, table);
    FedGrows(u, s, Decided(u, s, m, table));
  }

  lemma CallKeepsFed(u: Setup, s: System, t: Api.Ticket)
    requires Fed(u, s) && t.row.anomaly.Some? && t.row.parent.Some?
    requires Accepts(s.rows, s.anomalies, t.row)
    requires Lineage(u, s.rows + [t.row], s.because, |s.rows|)
    requires t.message.actionId == |s.rows| && Backed(s.rows + [t.row], t.message)
    ensures Fed(u, Called(s, Some(t)))
  {
    hide Lineage;
    hide Backed;
    FedGrows(u, s, Called(s, Some(t)));
  }

  lemma ApproveKeepsFed(u: Setup, s: System, id: nat)
    requires Fed(u, s)
    ensures Fed(u, Called(s, Api.ApprovalTicket(s.rows, s.anomalies, id, s.clock)))
  {
    var pending := Latest(s.rows, id, PendingApproval);
    if pending.Some? {
      var p := pending.value;
      assert Lineage(u, s.rows, s.because, p);
      assert Named(s.anomalies, s.rows[p].anomaly, s.rows[p].service);
      hide Fed;
      hide Justifies;
      var t := Api.ApprovalTicket(s.rows, s.anomalies, id, s.clock).value;
      assert (s.rows + [t.row])[p] == s.rows[p];
      CallKeepsFed(u, s, t);
    }
  }

  lemma RollbackCallKeepsFed(u: Setup, s: System, id: nat)
    requires Fed(u, s)
    ensures Fed(u, Called(s, Api.RollbackTicket(s.rows, id, s.clock)))
  {
    var executed := Latest(s.rows, id, Executed);
    if executed.Some? {
      var p := executed.value;
      assert s.rows[p].anomaly.value in s.anomalies;
      hide Fed;
      var t := Api.RollbackTicket(s.rows, id, s.clock).value;
      assert (s.rows + [t.row])[p] == s.rows[p];
      CallKeepsFed(u, s, t);
    }
  }

  // The failure row descends from the dispatch it is about.
  lemma FailureLineage(u: Setup, s: System, id: nat)
    requires Fed(u, s) && id in s.waiting
    ensures id < |s.rows|
    ensures
      var failure := Api.FailureRow(id, s.rows[id], s.waiting[id], s.clock);
      Lineage(u, s.rows + [failure], s.because, |s.rows|) && failure.anomaly.Some? && failure.anomaly.value in s.anomalies
  {
    hide Lineage;
    assert Backed(s.rows, s.waiting[id]);
    var failure := Api.FailureRow(id, s.rows[id], s.waiting[id], s.clock);
    FailureDescends(u, s.rows, s.because, failure);
  }

  lemma FailureDescends(u: Setup, rows: seq<Row>, because: map<nat, Grounds>, failure: Row)
    requires failure.result.DispatchFailed? && failure.parent.Some? && failure.parent.value < |rows|
    requires Answers(failure, rows[failure.parent.value])
    ensures Lineage(u, rows + [failure], because, |rows|)
  {
  }

  lemma PublishedLineage(u: Setup, s: System, id: nat, up: bool)
    requires Fed(u, s) && id in s.waiting
    ensures
      var s', n := Published(s, id, up), |s.rows|;
      && s'.waiting == s.waiting - {id}
      && (|s'.rows| > n ==>
            && Lineage(u, s'.rows, s'.because, n)
            && s'.rows[n].parent.Some? && s'.rows[n].anomaly.Some? && s'.rows[n].anomaly.value in s'.anomalies)
      && (s'.published == s.published
          || (s'.published == s.published + [s.waiting[id]] && Backed(s'.rows, s.waiting[id])))
  {
    FailureLineage(u, s, id);
    assert Backed(s.rows, s.waiting[id]);
    hide Lineage;
    hide Fed;
  }

  lemma PublishKeepsFed(u: Setup, s: System, id: nat, up: bool)
    requires Fed(u, s)
    ensures Fed(u, Published(s, id, up))
  {
    hide Lineage;
    hide Backed;
    hide Fed;
    if id in s.waiting {
      PublishedLineage(u, s, id, up);
      HandlersExtend(u, s);
      HandlerFrames(u, s);
      hide Published;
      FedGrows(u, s, Published(s, id, up));
    }
  }

  lemma OutcomeLineage(u: Setup, s: System)
    requires Sound(u, s) && Fed(u, s) && s.job.Some?
    ensures
      var outcome := Executor.Conclude(u.executor, s.cluster, s.job.value.message, s.job.value.plan, s.clock);
      outcome.row.Some? ==>
        var row := outcome.row.value;
        && Lineage(u, s.rows + [row], s.because, |s.rows|)
        && row.parent.Some? && row.anomaly.Some? && row.anomaly.value in s.anomalies
  {
    var job := s.job.value;
    var d := job.message.actionId;
    assert Lineage(u, s.rows, s.because, d);
    if job.plan.Reverse? {
      assert s.rows[d].rollbackRef == Some(job.plan.target);
    }
  }

  lemma FinishedLineage(u: Setup, s: System, recorded: bool)
    requires Sound(u, s) && Fed(u, s)
    ensures
      var s', n := Finished(u, s, recorded), |s.rows|;
      && (s'.job.Some? ==> s'.job == s.job)
      && (|s'.rows| > n ==>
            && Lineage(u, s'.rows, s'.because, n)
            && s'.rows[n].parent.Some? && s'.rows[n].anomaly.Some? && s'.rows[n].anomaly.value in s'.anomalies)
  {
    if s.job.Some? {
      OutcomeLineage(u, s);
    }
    hide Executor.Conclude;
    hide Lineage;
    hide Fed;
    hide Sound;
  }

  lemma FinishKeepsFed(u: Setup, s: System, recorded: bool)
    requires Sound(u, s) && Fed(u, s)
    ensures Fed(u, Finished(u, s, recorded))
  {
    hide Finished;
    hide Lineage;
    hide Backed;
    hide Fed;
    hide Sound;
    FinishedLineage(u, s, recorded);
    HandlersExtend(u, s);
    HandlerFrames(u, s);
    FedGrows(u, s, Finished(u, s, recorded));
  }

  lemma GateTarget(cfg: Executor.Config, rows: seq<Row>, m: Message, now: int)
    ensures
      var plan := Executor.Gate(cfg, rows, m, now);
      plan.Reverse? ==> m.target == Some(plan.target)
  {
    hide Executor.RateLimit;
  }

  lemma DeliverKeepsFed(u: Setup, s: System, m: Message)
    requires Fed(u, s) && m in s.published
    ensures Fed(u, Gated(u, s, m))
  {
    GateTarget(u.executor, s.rows, m, s.clock);
    hide Executor.Gate;
    hide Backed;
    hide Lineage;
    FedGrows(u, s, Gated(u, s, m));
  }

  lemma FindingNamesService(root: real -> real, st: Detector.State, m: Detector.CostMessage)
    ensures Detector.CostFinding(root, st, m).Some? ==> Detector.CostFinding(root, st, m).value.service == m.service
  {
    hide Detector.ScoresOf;
    hide Detector.ConditionOf;
    hide Detector.CostProfile;
  }

  lemma CostKeepsFed(u: Setup, s: System, m: Detector.CostMessage, id: nat, up: bool)
    requires Fed(u, s)
    ensures Fed(u, CostHandled(u, s, m, id, up))
  {
    FindingNamesService(u.root, s.detector, m);
    hide Detector.CostFinding;
    hide Detector.CostStep;
    hide Lineage;
    hide Backed;
    FedGrows(u, s, CostHandled(u, s, m, id, up));
  }

  lemma ForeignKeepsFed(u: Setup, s: System, m: Decision.AnomalyMessage)
    requires Fed(u, s)
    ensures Fed(u, ForeignHandled(s, m))
  {
    hide Lineage;
    hide Backed;
    FedGrows(u, s, ForeignHandled(s, m));
  }

  lemma OthersKeepFed(u: Setup, s: System, step: Step)
    requires Fed(u, s)
    requires step.TrafficIn? || step.LifecycleIn? || step.SignalIn? || step.Die? || step.Abort? || step.ReportReplicas? || step.Tick?
    ensures Fed(u, Apply(u, s, step))
  {
    StepFrame(u, s, step);
    OnlyAppends(u, s, step);
    hide Lineage;
    hide Backed;
    hide Called;
    hide Published;
    hide Finished;
    hide Decided;
    hide CostHandled;
    hide Executor.Gate;
    hide Detector.TrafficStep;
    FedGrows(u, s, Apply(u, s, step));
  }

  lemma InboxNamed(u: Setup, s: System, k: nat)
    requires Fed(u, s) && k < |s.inbox|
    ensures Named(s.anomalies, Some(s.inbox[k].id), s.inbox[k].service)
  {
    assert s.inbox[k] in s.inbox;
    hide Lineage;
    hide Backed;
  }

  lemma StepKeepsFed(u: Setup, s: System, step: Step)
    requires Sound(u, s) && Fed(u, s) && !step.Inject?
    ensures Fed(u, Apply(u, s, step))
  {
    hide Fed;
    hide Sound;
    match step
    case DecideOn(k, table) =>
      if k < |s.inbox| && ByPriority(table) {
        InboxNamed(u, s, k);
        DecideKeepsFed(u, s, s.inbox[k], table);
      }
    case ApproveCall(id) => ApproveKeepsFed(u, s, id);
    case RollbackCall(id) => RollbackCallKeepsFed(u, s, id);
    case Publish(id, up) => PublishKeepsFed(u, s, id, up);
    case Finish(recorded) => FinishKeepsFed(u, s, recorded);
    case Deliver(k) =>
      if k < |s.published| {
        DeliverKeepsFed(u, s, s.published[k]);
      }
    case CostIn(m, id, up) => CostKeepsFed(u, s, m, id, up);
    case ForeignAnomaly(m) => ForeignKeepsFed(u, s, m);
    case _ => OthersKeepFed(u, s, step);
  }

  lemma {:induction false} AlwaysFed(u: Setup, cluster: Cluster.State, clock: int, steps: seq<Step>)
    requires FedByServices(steps)
    ensures Fed(u, After(u, Initial(cluster, clock), steps))
  {
    if steps != [] {
      var earlier, step := steps[..|steps| - 1], steps[|steps| - 1];
      assert forall e :: e in earlier ==> e in steps;
      AlwaysFed(u, cluster, clock, earlier);
      AlwaysSound(u, cluster, clock, earlier);
      assert step in steps;
      StepKeepsFed(u, After(u, Initial(cluster, clock), earlier), step);
    }
  }
}
