// The authority results, stated over whole runs: who authorised an executed action, how deep
// a chain can be, what a caller of the API sees, and that a detector-fed system always asks a
// human.
module Guarantees {
  import opened Prelude
  import opened Schemas
  import opened Ledger
  import opened Policy
  import opened Protocol
  import Flagging
  import opened LedgerSafety
  import opened Authority
  import Cluster
  import Correlation
  import Decision
  import Detector
  import DetectorGuards
  import Executor
  import Undo
  import Api

  // The decision row an executed row's chain ends at: its dispatch, or what that dispatch approved.
  function Decider(rows: seq<Row>, i: int): int
    requires 0 <= i < |rows|
  {
    if rows[i].parent.Some? && rows[i].parent.value < i then
      var d := rows[i].parent.value;
      if rows[d].parent.Some? then rows[d].parent.value else d
    else -1
  }

  // Every executed row, in every run fed by the services, goes back to a decision for the same
  // anomaly, service and action, on a target neither service protects, under a matching rule
  // of least priority: dispatched alone at 0.85 or more under a rule that asks for no
  // approval, or approved by a human from a pending row at 0.60 or more.
  lemma ExecutedIsAuthorised(u: Setup, cluster: Cluster.State, clock: int, steps: seq<Step>, i: int)
    requires FedByServices(steps)
    requires 0 <= i < |After(u, Initial(cluster, clock), steps).rows|
    requires After(u, Initial(cluster, clock), steps).rows[i].result.Executed?
    ensures
      var s := After(u, Initial(cluster, clock), steps);
      var r, k := s.rows[i], Decider(s.rows, i);
      && 0 <= k < i && k in s.because && s.rows[k].parent.None?
      && var g := s.because[k];
      && r.anomaly == s.rows[k].anomaly == Some(g.message.id)
      && r.service == s.rows[k].service == g.message.service
      && r.action == s.rows[k].action == g.policy.action
      && !IsProtected(r.service, u.decision.prefixes) && !IsProtected(r.service, u.executor.prefixes)
      && g.policy in g.table
      && PolicyMatches(g.policy.rule, g.classification, r.service, Decision.CostOf(g.message), Decision.ConfidenceOf(g.message))
      && (forall p :: p in g.table
            && PolicyMatches(p.rule, g.classification, r.service, Decision.CostOf(g.message), Decision.ConfidenceOf(g.message))
            ==> g.policy.priority <= p.priority)
      && var d := s.rows[r.parent.value];
      && d.result.Dispatched?
      && (if r.parent.value == k
          then d.mode == Autonomous && Decision.ConfidenceOf(g.message) >= 0.85 && !g.policy.rule.requiresApproval
          else d.mode == Approved && d.parent == Some(k) && s.rows[k].result.PendingApproval?
               && Decision.ConfidenceOf(g.message) >= 0.60)
  {
    hide After;
    AlwaysFed(u, cluster, clock, steps);
    AlwaysSound(u, cluster, clock, steps);
    var s := After(u, Initial(cluster, clock), steps);
    assert RowSound(u.executor, s.rows, i);
    assert Lineage(u, s.rows, s.because, i);
    var d := s.rows[i].parent.value;
    assert Lineage(u, s.rows, s.because, d);
    var k := Decider(s.rows, i);
    assert Lineage(u, s.rows, s.because, k);
    var g := s.because[k];
    LeastPriorityDecides(g.table, g.classification, g.message.service, Decision.CostOf(g.message), Decision.ConfidenceOf(g.message));
  }

  // The rule behind an executed row holds of it: its prefix starts the service, the message's
  // cost and confidence reach its thresholds, and the classification is among its own. Of the
  // rules in the table of which that is true, it has the least priority number.
  lemma ExecutedObeysRule(u: Setup, cluster: Cluster.State, clock: int, steps: seq<Step>, i: int)
    requires FedByServices(steps)
    requires 0 <= i < |After(u, Initial(cluster, clock), steps).rows|
    requires After(u, Initial(cluster, clock), steps).rows[i].result.Executed?
    ensures
      var s := After(u, Initial(cluster, clock), steps);
      var r, k := s.rows[i], Decider(s.rows, i);
      && k in s.because
      && var g := s.because[k];
      var cost, confidence := Decision.CostOf(g.message), Decision.ConfidenceOf(g.message);
      && g.policy.action == r.action
      && g.policy.rule.servicePrefix <= r.service
      && (g.policy.rule.minCost.Some? ==> g.policy.rule.minCost.value <= cost)
      && (g.policy.rule.minConfidence.Some? ==> g.policy.rule.minConfidence.value <= confidence)
      && (g.policy.rule.classifications != [] ==> g.classification in g.policy.rule.classifications)
      && forall p :: p in g.table && p.rule.servicePrefix <= r.service
                     && (p.rule.minCost.None? || p.rule.minCost.value <= cost)
                     && (p.rule.minConfidence.None? || p.rule.minConfidence.value <= confidence)
                     && (p.rule.classifications == [] || g.classification in p.rule.classifications)
                     ==> g.policy.priority <= p.priority
  {
    hide After;
    ExecutedIsAuthorised(u, cluster, clock, steps, i);
    var s := After(u, Initial(cluster, clock), steps);
    var r, g := s.rows[i], s.because[Decider(s.rows, i)];
    var cost, confidence := Decision.CostOf(g.message), Decision.ConfidenceOf(g.message);
    MatchesUnlessVetoed(g.policy.rule, g.classification, r.service, cost, confidence);
    forall p | p in g.table
      ensures PolicyMatches(p.rule, g.classification, r.service, cost, confidence) <==>
              && (p.rule.minConfidence.None? || p.rule.minConfidence.value <= confidence)
              && (p.rule.minCost.None? || p.rule.minCost.value <= cost)
              && (p.rule.classifications == [] || g.classification in p.rule.classifications)
              && p.rule.servicePrefix <= r.service
    {
      MatchesUnlessVetoed(p.rule, g.classification, r.service, cost, confidence);
    }
    hide PolicyMatches;
    hide Decider;
  }

  // Every row that answers a dispatch says on whose authority: an outcome carries the mode of
  // its dispatch, but a rollback's is autonomous and a failed publish is the API's. So an
  // executed row says approved exactly when its dispatch approved a pending row.
  lemma OutcomesSayWho(u: Setup, cluster: Cluster.State, clock: int, steps: seq<Step>, i: int)
    requires FedByServices(steps)
    requires 0 <= i < |After(u, Initial(cluster, clock), steps).rows|
    requires
      var r := After(u, Initial(cluster, clock), steps).rows[i];
      r.parent.Some? && !r.result.Dispatched?
    ensures
      var rows := After(u, Initial(cluster, clock), steps).rows;
      var r := rows[i];
      && r.parent.value < i
      && var d := rows[r.parent.value];
      && d.result.Dispatched? && r.anomaly == d.anomaly && r.action == d.action
      && r.mode == (if r.result.DispatchFailed? then Approved else if r.action.Rollback? then Autonomous else d.mode)
      && r.service == (if r.action.Rollback? && !r.result.DispatchFailed? then "" else d.service)
      && (r.result.Executed? ==>
            (r.mode == Approved <==> d.parent.Some? && d.parent.value < i && rows[d.parent.value].result.PendingApproval?))
  {
    hide After;
    AlwaysFed(u, cluster, clock, steps);
    var s := After(u, Initial(cluster, clock), steps);
    assert Lineage(u, s.rows, s.because, i);
    hide Justifies;
    assert Lineage(u, s.rows, s.because, s.rows[i].parent.value);
  }

  // An applied rollback answers a dispatch that named exactly the row it reversed. It carries
  // no service, so it never uses up a named service's own budget.
  lemma RollbackAnswersRequest(u: Setup, cluster: Cluster.State, clock: int, steps: seq<Step>, i: int)
    requires FedByServices(steps)
    requires 0 <= i < |After(u, Initial(cluster, clock), steps).rows|
    requires After(u, Initial(cluster, clock), steps).rows[i].result.RolledBack?
    ensures
      var s := After(u, Initial(cluster, clock), steps);
      var r := s.rows[i];
      && r.parent.Some? && r.rollbackRef.Some? && r.rollbackRef.value < r.parent.value < i
      && s.rows[r.parent.value].result.Dispatched? && s.rows[r.parent.value].parent == r.rollbackRef
      && s.rows[r.rollbackRef.value].result.Executed?
      && r.anomaly == s.rows[r.rollbackRef.value].anomaly
      && r.service == ""
  {
    hide After;
    AlwaysFed(u, cluster, clock, steps);
    AlwaysSound(u, cluster, clock, steps);
    var s := After(u, Initial(cluster, clock), steps);
    assert RowSound(u.executor, s.rows, i);
    assert Lineage(u, s.rows, s.because, i);
    var d := s.rows[i].parent.value;
    assert Lineage(u, s.rows, s.because, d);
    RollbackDispatchHasParent(u, s, d);
  }

  lemma RollbackDispatchHasParent(u: Setup, s: System, d: int)
    requires 0 <= d < |s.rows| && Lineage(u, s.rows, s.because, d)
    requires s.rows[d].result.Dispatched? && s.rows[d].action.Rollback?
    ensures s.rows[d].parent.Some?
  {
  }

  // Namespaces have names, as the API server enforces.
  predicate NamespacesNamed(c: Cluster.State) {
    (forall key :: key in c.deployments ==> key.0 != "") && c.HpasIn("") == []
  }

  lemma EffectsKeepNames(c: Cluster.State, m: Message)
    requires NamespacesNamed(c)
    ensures
      var effect := Executor.EffectOf(c, m);
      effect.Applied? ==> NamespacesNamed(effect.after) && m.service != ""
  {
  }

  lemma RollbackKeepsNames(c: Cluster.State, prior: PriorState)
    requires NamespacesNamed(c)
    ensures
      var r := Cluster.RollbackEffect(c, prior);
      r.Restored? ==> NamespacesNamed(r.after)
  {
  }

  ghost predicate ExecutedNamed(s: System) {
    && NamespacesNamed(s.cluster)
    && forall i :: 0 <= i < |s.rows| && s.rows[i].result.Executed? ==> s.rows[i].service != ""
  }

  lemma ReportKeepsNames(c: Cluster.State, ns: string, hpa: string, count: Option<int>)
    requires NamespacesNamed(c)
    ensures NamespacesNamed(Undo.Report(c, ns, hpa, count))
  {
  }

  lemma OthersKeepNames(u: Setup, s: System, step: Step)
    requires ExecutedNamed(s) && !step.Finish?
    ensures ExecutedNamed(Apply(u, s, step))
  {
    hide Apply;
    hide NamespacesNamed;
    hide Undo.Report;
    OnlyAppends(u, s, step);
    OthersAppendInert(u, s, step);
    ClusterChangesOnlyIn(u, s, step);
    if step.ReportReplicas? {
      ReportKeepsNames(s.cluster, step.ns, step.hpa, step.count);
    }
  }

  lemma StepKeepsNames(u: Setup, s: System, step: Step)
    requires Sound(u, s) && ExecutedNamed(s)
    ensures ExecutedNamed(Apply(u, s, step))
  {
    hide Sound;
    hide ExecutedNamed;
    if step.Finish? {
      if s.job.Some? {
        FinishKeepsNames(u, s, step.recorded);
        hide Finished;
      }
    } else {
      OthersKeepNames(u, s, step);
      hide Apply;
    }
  }

  lemma FinishKeepsNames(u: Setup, s: System, recorded: bool)
    requires Sound(u, s) && ExecutedNamed(s) && s.job.Some?
    ensures ExecutedNamed(Finished(u, s, recorded))
  {
    hide Executor.EffectOf;
    hide Cluster.RollbackEffect;
    hide NamespacesNamed;
    hide RowsSound;
    hide ChecksSound;
    var plan := s.job.value.plan;
    EffectsKeepNames(s.cluster, s.job.value.message);
    if plan.Reverse? {
      RollbackKeepsNames(s.cluster, plan.prior);
    }
  }

  lemma {:induction false} AlwaysNamed(u: Setup, cluster: Cluster.State, clock: int, steps: seq<Step>)
    requires NamespacesNamed(cluster)
    ensures ExecutedNamed(After(u, Initial(cluster, clock), steps))
  {
    hide Apply;
    hide NamespacesNamed;
    if steps != [] {
      var earlier := steps[..|steps| - 1];
      AlwaysNamed(u, cluster, clock, earlier);
      AlwaysSound(u, cluster, clock, earlier);
      hide Sound;
      hide ExecutedNamed;
      StepKeepsNames(u, After(u, Initial(cluster, clock), earlier), steps[|steps| - 1]);
    }
  }

  // A rolled-back row never uses up the budget of the service it was applied to: that service
  // has a name, the row does not carry it, and the count for it is what it was before.
  lemma RolledBackSparesService(u: Setup, cluster: Cluster.State, clock: int, steps: seq<Step>, i: int, since: int)
    requires NamespacesNamed(cluster) && FedByServices(steps)
    requires 0 <= i < |After(u, Initial(cluster, clock), steps).rows|
    requires After(u, Initial(cluster, clock), steps).rows[i].result.RolledBack?
    ensures
      var rows := After(u, Initial(cluster, clock), steps).rows;
      && rows[i].rollbackRef.Some? && rows[i].rollbackRef.value < i
      && var service := rows[rows[i].rollbackRef.value].service;
      && service != "" && rows[i].service != service
      && Executor.CountSince(rows[..i + 1], since, Some(service)) == Executor.CountSince(rows[..i], since, Some(service))
  {
    hide After;
    RollbackAnswersRequest(u, cluster, clock, steps, i);
    AlwaysNamed(u, cluster, clock, steps);
    var rows := After(u, Initial(cluster, clock), steps).rows;
    assert rows[..i + 1][..i] == rows[..i];
  }

  // ---------------------------------------------------------------- chains

  function Depth(rows: seq<Row>, i: int): nat
    requires 0 <= i < |rows|
    decreases i
  {
    if rows[i].parent.Some? && rows[i].parent.value < i then 1 + Depth(rows, rows[i].parent.value) else 1
  }

  // decision, approval, execution, rollback request, rollback outcome.
  function DepthBound(r: Row): nat {
    if r.parent.None? then 1
    else if r.result.Dispatched? then if r.action.Rollback? then 4 else 2
    else if r.action.Rollback? then 5 else 3
  }

  lemma {:induction false} DepthWithin(u: Setup, rows: seq<Row>, because: map<nat, Grounds>, i: int)
    requires forall j :: 0 <= j < |rows| ==> Lineage(u, rows, because, j)
    requires 0 <= i < |rows|
    ensures Depth(rows, i) <= DepthBound(rows[i]) <= 5
    decreases i
  {
    hide Justifies;
    assert Lineage(u, rows, because, i);
    if rows[i].parent.Some? {
      assert Lineage(u, rows, because, rows[i].parent.value);
      DepthWithin(u, rows, because, rows[i].parent.value);
    }
  }

  // Ancestry is finite, strictly backwards and at most five rows deep.
  lemma ChainsAreShort(u: Setup, cluster: Cluster.State, clock: int, steps: seq<Step>, i: int)
    requires FedByServices(steps)
    requires 0 <= i < |After(u, Initial(cluster, clock), steps).rows|
    ensures
      var rows := After(u, Initial(cluster, clock), steps).rows;
      && Depth(rows, i) <= 5
      && (rows[i].parent.Some? ==> rows[i].parent.value < i)
      && (rows[i].rollbackRef.Some? ==> rows[i].rollbackRef.value < i)
  {
    AlwaysFed(u, cluster, clock, steps);
    AlwaysSound(u, cluster, clock, steps);
    var s := After(u, Initial(cluster, clock), steps);
    assert RowSound(u.executor, s.rows, i);
    DepthWithin(u, s.rows, s.because, i);
  }

  // ---------------------------------------------------------------- what a caller sees

  // What a caller sees is what happened, when nothing interrupts the call: 404 exactly when
  // nothing is pending (executed, for a rollback) and then nothing changed; success is one row
  // and one request; 503 is two rows and no request; and no insert is refused.
  lemma CallOutcome(u: Setup, s: System, id: nat, up: bool, later: int)
    requires Fed(u, s)
    ensures
      var ticket := Api.ApprovalTicket(s.rows, s.anomalies, id, s.clock);
      ReplyMatches(s, Api.Dispatch(s.rows, s.anomalies, s.published, ticket, up, later),
                   Latest(s.rows, id, PendingApproval).Some?, up)
    ensures
      var ticket := Api.RollbackTicket(s.rows, id, s.clock);
      ReplyMatches(s, Api.Dispatch(s.rows, s.anomalies, s.published, ticket, up, later), Latest(s.rows, id, Executed).Some?, up)
  {
    CommittedAnomaly(u, s);
    hide Fed;
    var approval, rollback := Api.ApprovalTicket(s.rows, s.anomalies, id, s.clock), Api.RollbackTicket(s.rows, id, s.clock);
    if approval.Some? {
      DispatchReply(s, approval.value, up, later);
    }
    if rollback.Some? {
      DispatchReply(s, rollback.value, up, later);
    }
    hide ReplyMatches;
    NothingFound(s);
  }

  lemma CommittedAnomaly(u: Setup, s: System)
    requires Fed(u, s)
    ensures forall i :: 0 <= i < |s.rows| ==> s.rows[i].anomaly.Some? && s.rows[i].anomaly.value in s.anomalies
  {
    hide Lineage;
    hide Backed;
  }

  lemma DispatchReply(s: System, t: Api.Ticket, up: bool, later: int)
    requires Accepts(s.rows, s.anomalies, t.row) && FromApi(t.row)
    requires t.message.actionId == |s.rows| && t.message.anomaly == t.row.anomaly
    ensures ReplyMatches(s, Api.Dispatch(s.rows, s.anomalies, s.published, Some(t), up, later), true, up)
  {
  }

  lemma NothingFound(s: System)
    ensures forall up :: ReplyMatches(s, Api.Effect(s.rows, s.published, Api.NotFound), false, up)
  {
  }

  predicate ReplyMatches(s: System, e: Api.Effect, found: bool, up: bool) {
    && (!found ==> e == Api.Effect(s.rows, s.published, Api.NotFound))
    && (found && up ==>
          && |e.rows| == |s.rows| + 1 && s.rows <= e.rows && FromApi(e.rows[|s.rows|])
          && |e.published| == |s.published| + 1 && s.published <= e.published
          && e.published[|s.published|].actionId == |s.rows| && e.reply == Api.Accepted(|s.rows|))
    && (found && !up ==>
          && |e.rows| == |s.rows| + 2 && s.rows <= e.rows && FromApi(e.rows[|s.rows|])
          && e.rows[|s.rows| + 1].result.DispatchFailed? && e.rows[|s.rows| + 1].parent == Some(|s.rows|)
          && e.published == s.published && e.reply == Api.Unavailable)
  }

  // ---------------------------------------------------------------- the human gate

  ghost predicate Capped(m: Decision.AnomalyMessage) {
    Decision.ConfidenceOf(m) <= 0.80 && m.verdict == Some(Unclassified)
  }

  lemma CostCaps(u: Setup, s: System, m: Detector.CostMessage, id: nat, up: bool)
    requires forall a :: a in s.inbox ==> Capped(a)
    ensures forall a :: a in CostHandled(u, s, m, id, up).inbox ==> Capped(a)
  {
    hide Capped;
    hide Detector.CostStep;
    hide Detector.CostFinding;
    if Detector.CostFinding(u.root, s.detector, m).Some? {
      FindingCapped(u, s, m, id);
    }
  }

  lemma FindingCapped(u: Setup, s: System, m: Detector.CostMessage, id: nat)
    requires Detector.CostFinding(u.root, s.detector, m).Some?
    ensures Capped(Flagging.MessageFor(id, Detector.CostFinding(u.root, s.detector, m).value))
  {
    DetectorGuards.FindingFacts(u.root, s.detector, m);
    hide Detector.CostFinding;
  }

  lemma StepCaps(u: Setup, s: System, step: Step)
    requires !step.ForeignAnomaly? && forall m :: m in s.inbox ==> Capped(m)
    ensures forall m :: m in Apply(u, s, step).inbox ==> Capped(m)
  {
    StepFrame(u, s, step);
    if step.CostIn? {
      CostCaps(u, s, step.cost, step.id, step.up);
    } else {
      hide Apply;
    }
    hide Capped;
    hide CostHandled;
  }

  lemma {:induction false} DetectorNeverEarnsAutonomy(u: Setup, cluster: Cluster.State, clock: int, steps: seq<Step>)
    requires FedByDetector(steps)
    ensures forall m :: m in After(u, Initial(cluster, clock), steps).inbox ==> Capped(m)
  {
    if steps != [] {
      var earlier, step := steps[..|steps| - 1], steps[|steps| - 1];
      DetectorNeverEarnsAutonomy(u, cluster, clock, earlier);
      assert step in steps;
      StepCaps(u, After(u, Initial(cluster, clock), earlier), step);
    }
  }

  // The messages decisions were made from all came from the inbox.
  ghost predicate BecauseOfInbox(s: System) {
    forall k :: k in s.because ==> s.because[k].message in s.inbox
  }

  lemma {:induction false} AlwaysBecauseOfInbox(u: Setup, cluster: Cluster.State, clock: int, steps: seq<Step>)
    ensures BecauseOfInbox(After(u, Initial(cluster, clock), steps))
  {
    if steps != [] {
      var earlier, step := steps[..|steps| - 1], steps[|steps| - 1];
      AlwaysBecauseOfInbox(u, cluster, clock, earlier);
      var s := After(u, Initial(cluster, clock), earlier);
      BecauseStep(u, s, step);
    }
  }

  lemma BecauseStep(u: Setup, s: System, step: Step)
    requires BecauseOfInbox(s)
    ensures BecauseOfInbox(Apply(u, s, step))
  {
    StepFrame(u, s, step);
    hide Called;
    hide Published;
    hide Finished;
    hide Decision.Decide;
    hide Correlation.Classify;
    hide Executor.Gate;
    hide Detector.TrafficStep;
    hide Detector.CostStep;
    hide Detector.CostFinding;
  }

  // While anomalies come from the detector alone, nothing is ever dispatched without a human:
  // every dispatch that is not a rollback approves a pending row, and every executed action
  // has such an approval as its parent.
  lemma DetectorFedRunsAskAHuman(u: Setup, cluster: Cluster.State, clock: int, steps: seq<Step>, i: int)
    requires FedByServices(steps) && FedByDetector(steps)
    requires 0 <= i < |After(u, Initial(cluster, clock), steps).rows|
    ensures
      var rows := After(u, Initial(cluster, clock), steps).rows;
      && (rows[i].result.Dispatched? ==>
            rows[i].mode == Approved && rows[i].parent.Some? && rows[i].parent.value < i)
      && (rows[i].result.Dispatched? && !rows[i].action.Rollback? ==> rows[rows[i].parent.value].result.PendingApproval?)
      && (rows[i].result.Executed? ==>
            && rows[i].parent.Some? && rows[i].parent.value < i
            && rows[rows[i].parent.value].result.Dispatched? && rows[rows[i].parent.value].mode == Approved)
  {
    hide After;
    AlwaysFed(u, cluster, clock, steps);
    AlwaysBecauseOfInbox(u, cluster, clock, steps);
    DetectorNeverEarnsAutonomy(u, cluster, clock, steps);
    var s := After(u, Initial(cluster, clock), steps);
    assert Lineage(u, s.rows, s.because, i);
    if s.rows[i].result.Dispatched? {
      NotAutonomous(u, s, i);
    } else if s.rows[i].result.Executed? {
      var d := s.rows[i].parent.value;
      assert Lineage(u, s.rows, s.because, d);
      NotAutonomous(u, s, d);
    }
  }

  lemma NotAutonomous(u: Setup, s: System, d: int)
    requires 0 <= d < |s.rows| && Lineage(u, s.rows, s.because, d) && s.rows[d].result.Dispatched?
    requires BecauseOfInbox(s) && forall m :: m in s.inbox ==> Capped(m)
    ensures s.rows[d].parent.Some?
  {
    if d in s.because {
      assert Capped(s.because[d].message);
    }
  }

  // ---------------------------------------------------------------- what the API can reach

  // Once an anomaly has a newer executed action, no rollback call ever targets the older one
  // again, in any continuation: the call takes the newest executed row and does not ask
  // whether it was already rolled back.
  lemma SupersededActionUnreachable(u: Setup, s: System, steps: seq<Step>, older: nat, newer: nat, anomaly: nat)
    requires older < |s.rows| && newer < |s.rows|
    requires Matches(s.rows[older], anomaly, Executed) && Matches(s.rows[newer], anomaly, Executed)
    requires s.rows[older].executedAt < s.rows[newer].executedAt
    ensures Latest(After(u, s, steps).rows, anomaly, Executed).Some?
    ensures Latest(After(u, s, steps).rows, anomaly, Executed).value != older
  {
    LedgerOnlyGrows(u, s, steps);
    var rows := After(u, s, steps).rows;
    assert Matches(rows[newer], anomaly, Executed) && rows[older] == s.rows[older];
  }
}
