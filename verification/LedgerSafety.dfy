// What holds in every run, whatever is on the remediation queue: requests injected by anyone,
// redelivered, reordered; the executor dying at any point; replica counts changing freely.
//
//  - the ledger is reversible exactly where it says it is, and only inside the window;
//  - nothing in a protected namespace ever changes.
module LedgerSafety {
  import opened Prelude
  import opened Ledger
  import opened Policy
  import opened Protocol
  import Api
  import Correlation
  import Decision
  import Detector
  import Executor
  import Cluster
  import Undo

  function NamespaceOf(prior: PriorState): Option<string> {
    match prior
    case CpuLimit(ns, _, _, _) => Some(ns)
    case MaxReplicas(ns, _, _) => Some(ns)
    case OtherKind(_) => None
  }

  // Row i, given the rows before it.
  ghost predicate RowSound(cfg: Executor.Config, rows: seq<Row>, i: int)
    requires 0 <= i < |rows|
  {
    var r := rows[i];
    && (r.parent.Some? ==> r.parent.value < i)
    && (r.rollbackRef.Some? ==> r.rollbackRef.value < i)
    && (r.prior.Some? <==> r.result.Executed?)
    && (r.deadline.Some? <==> r.result.Executed?)
    && (r.result.Executed? ==>
          && r.deadline.value == r.executedAt + cfg.rollbackWindow
          && (r.action.Throttle? || r.action.FreezeScaling?)
          && !IsProtected(r.service, cfg.prefixes)
          && NamespaceOf(r.prior.value) == Some(Cluster.Namespace(r.service)))
    && (r.result.RolledBack? ==> r.rollbackRef.Some? && rows[r.rollbackRef.value].result.Executed?)
  }

  ghost predicate RowsSound(cfg: Executor.Config, rows: seq<Row>) {
    forall i :: 0 <= i < |rows| ==> RowSound(cfg, rows, i)
  }

  // Results only the executor's own outcomes may carry are excluded from refusals.
  predicate IsRefusal(result: Result) {
    !result.Executed? && !result.RolledBack? && !result.Dispatched? && !result.PendingApproval? && !result.DispatchFailed?
  }

  ghost predicate JobSound(cfg: Executor.Config, rows: seq<Row>, clock: int, job: Job) {
    && job.checkedAt <= clock
    && match job.plan
       case Discard => true
       case Refuse(result, ref) => IsRefusal(result) && (ref.Some? ==> ref.value < |rows|)
       case Reverse(target, prior) =>
         && job.message.action.Rollback?
         && target < |rows| && rows[target].prior == Some(prior)
         && (rows[target].deadline.Some? ==> job.checkedAt <= rows[target].deadline.value)
       case Act =>
         && (job.message.action.Throttle? || job.message.action.FreezeScaling?)
         && !IsProtected(job.message.service, cfg.prefixes)
  }

  // A rollback that was applied had been checked before its target's deadline.
  ghost predicate ChecksSound(rows: seq<Row>, checked: map<nat, int>) {
    forall i :: 0 <= i < |rows| && rows[i].result.RolledBack? ==>
      && i in checked && checked[i] <= rows[i].executedAt
      && rows[i].rollbackRef.Some? && rows[i].rollbackRef.value < i
      && rows[rows[i].rollbackRef.value].deadline.Some?
      && checked[i] <= rows[rows[i].rollbackRef.value].deadline.value
  }

  ghost predicate Sound(u: Setup, s: System) {
    && RowsSound(u.executor, s.rows)
    && (s.job.Some? ==> JobSound(u.executor, s.rows, s.clock, s.job.value))
    && ChecksSound(s.rows, s.checked)
  }

  lemma AppendSound(cfg: Executor.Config, rows: seq<Row>, row: Row)
    requires RowsSound(cfg, rows) && RowSound(cfg, rows + [row], |rows|)
    ensures RowsSound(cfg, rows + [row])
  {
    forall i | 0 <= i < |rows| ensures RowSound(cfg, rows + [row], i) {
      assert RowSound(cfg, rows, i);
    }
  }

  // Rows that reverse nothing and can be reversed by nothing.
  predicate Inert(row: Row) {
    !row.result.Executed? && !row.result.RolledBack? && row.prior.None? && row.deadline.None?
  }

  // Rows from `from` on are inert and refer backwards.
  predicate InertFrom(rows: seq<Row>, from: nat) {
    forall i :: from <= i < |rows| ==>
      && Inert(rows[i]) && (rows[i].parent.Some? ==> rows[i].parent.value < i)
      && (rows[i].rollbackRef.Some? ==> rows[i].rollbackRef.value < i)
  }

  lemma CallsAppendInert(s: System)
    ensures forall id :: InertFrom(Called(s, Api.ApprovalTicket(s.rows, s.anomalies, id, s.clock)).rows, |s.rows|)
    ensures forall id :: InertFrom(Called(s, Api.RollbackTicket(s.rows, id, s.clock)).rows, |s.rows|)
    ensures forall id, up :: InertFrom(Published(s, id, up).rows, |s.rows|)
  {
    hide Latest;
  }

  lemma DecisionAppendsInert(u: Setup, s: System, m: Decision.AnomalyMessage, table: seq<PolicyRow>)
    ensures InertFrom(Decided(u, s, m, table).rows, |s.rows|)
  {
    hide Correlation.Classify;
    hide IsProtected;
    hide FirstMatch;
  }

  // Everything appended outside Finish is inert and refers backwards.
  lemma OthersAppendInert(u: Setup, s: System, step: Step)
    requires !step.Finish?
    ensures InertFrom(Apply(u, s, step).rows, |s.rows|)
  {
    StepFrame(u, s, step);
    CallsAppendInert(s);
    if step.DecideOn? && step.k < |s.inbox| {
      DecisionAppendsInert(u, s, s.inbox[step.k], step.table);
    }
    hide Called;
    hide Published;
    hide Finished;
    hide Decided;
    hide CostHandled;
    hide Executor.Gate;
    hide Detector.TrafficStep;
    hide Undo.Report;
    hide Api.ApprovalTicket;
    hide Api.RollbackTicket;
    hide ByPriority;
  }

  lemma InertSuffixSound(cfg: Executor.Config, rows: seq<Row>, rows': seq<Row>)
    requires RowsSound(cfg, rows) && rows <= rows' && InertFrom(rows', |rows|)
    ensures RowsSound(cfg, rows')
  {
    forall i | 0 <= i < |rows'| ensures RowSound(cfg, rows', i) {
      if i < |rows| {
        assert RowSound(cfg, rows, i);
      }
    }
  }

  lemma GateSound(cfg: Executor.Config, rows: seq<Row>, m: Message, now: int)
    requires RowsSound(cfg, rows)
    ensures JobSound(cfg, rows, now, Job(m, Executor.Gate(cfg, rows, m, now), now))
  {
    hide Executor.CountSince;
  }

  lemma ConcludeSound(u: Setup, s: System)
    requires Sound(u, s) && s.job.Some?
    ensures
      var outcome := Executor.Conclude(u.executor, s.cluster, s.job.value.message, s.job.value.plan, s.clock);
      outcome.row.Some? && Accepts(s.rows, s.anomalies, outcome.row.value) ==>
        && RowSound(u.executor, s.rows + [outcome.row.value], |s.rows|)
        && ChecksSound(s.rows + [outcome.row.value], s.checked[|s.rows| := s.job.value.checkedAt])
  {
    var job := s.job.value;
    if job.plan.Reverse? {
      assert RowSound(u.executor, s.rows, job.plan.target);
    } else if job.plan.Act? {
      EffectNamesNamespace(s.cluster, job.message.service);
    }
    hide Cluster.RollbackEffect;
    hide Cluster.ThrottleEffect;
    hide Cluster.FreezeEffect;
    hide RowsSound;
    var outcome := Executor.Conclude(u.executor, s.cluster, job.message, job.plan, s.clock);
    if outcome.row.Some? {
      ChecksAppend(s.rows, s.checked, job.checkedAt, outcome.row.value);
    }
    hide ChecksSound;
  }

  lemma EffectNamesNamespace(c: Cluster.State, service: string)
    ensures
      var t, f := Cluster.ThrottleEffect(c, service), Cluster.FreezeEffect(c, service);
      && (t.Applied? ==> NamespaceOf(t.prior) == Some(Cluster.Namespace(service)))
      && (f.Applied? ==> NamespaceOf(f.prior) == Some(Cluster.Namespace(service)))
  {
  }

  // The history entry for the row about to be written says nothing about those before it.
  lemma ChecksAppend(rows: seq<Row>, checked: map<nat, int>, at: int, row: Row)
    requires ChecksSound(rows, checked)
    requires row.result.RolledBack? ==>
               && row.rollbackRef.Some? && row.rollbackRef.value < |rows| && at <= row.executedAt
               && rows[row.rollbackRef.value].deadline.Some? && at <= rows[row.rollbackRef.value].deadline.value
    ensures ChecksSound(rows + [row], checked[|rows| := at])
  {
  }

  // Where a job comes from: a gate just now, or an earlier one.
  lemma JobOrigin(u: Setup, s: System, step: Step)
    ensures
      var s' := Apply(u, s, step);
      && (step.Finish? ==> s'.job.None?)
      && (!step.Finish? ==> s'.checked == s.checked)
      && (s'.job.Some? && s'.job != s.job ==>
            && (step.Deliver? || step.Inject?) && s'.rows == s.rows && s'.clock == s.clock
            && s'.job.value == Job(s'.job.value.message,
                                   Executor.Gate(u.executor, s.rows, s'.job.value.message, s.clock), s.clock))
  {
    StepFrame(u, s, step);
    hide Called;
    hide Published;
    hide Decided;
    hide CostHandled;
    hide Detector.TrafficStep;
    hide Executor.Gate;
    hide Executor.Conclude;
    hide Undo.Report;
  }

  lemma JobKept(cfg: Executor.Config, rows: seq<Row>, rows': seq<Row>, clock: int, clock': int, job: Job)
    requires JobSound(cfg, rows, clock, job) && rows <= rows' && clock <= clock'
    ensures JobSound(cfg, rows', clock', job)
  {
  }

  lemma ChecksKept(rows: seq<Row>, rows': seq<Row>, checked: map<nat, int>)
    requires ChecksSound(rows, checked) && rows <= rows' && InertFrom(rows', |rows|)
    ensures ChecksSound(rows', checked)
  {
    forall i | 0 <= i < |rows'| && rows'[i].result.RolledBack?
      ensures i in checked && checked[i] <= rows'[i].executedAt
      ensures rows'[i].rollbackRef.Some? && rows'[i].rollbackRef.value < i
      ensures rows'[rows'[i].rollbackRef.value].deadline.Some?
      ensures checked[i] <= rows'[rows'[i].rollbackRef.value].deadline.value
    {
      assert rows'[i] == rows[i];
      assert rows'[rows[i].rollbackRef.value] == rows[rows[i].rollbackRef.value];
    }
  }

  lemma FinishSound(u: Setup, s: System, recorded: bool)
    requires Sound(u, s)
    ensures Sound(u, Finished(u, s, recorded))
  {
    if s.job.Some? {
      ConcludeSound(u, s);
      var outcome := Executor.Conclude(u.executor, s.cluster, s.job.value.message, s.job.value.plan, s.clock);
      hide Executor.Conclude;
      hide RowSound;
      hide ChecksSound;
      if outcome.row.Some? && Accepts(s.rows, s.anomalies, outcome.row.value) {
        AppendSound(u.executor, s.rows, outcome.row.value);
        assert |s.rows + [outcome.row.value]| != |s.rows|;
      }
    }
  }

  // What the executor writes are outcomes, never dispatches or reports about them.
  lemma FinishIsQuiet(u: Setup, s: System, recorded: bool)
    requires Sound(u, s)
    ensures
      var rows := Finished(u, s, recorded).rows;
      forall i :: |s.rows| <= i < |rows| ==> !rows[i].result.Dispatched? && !rows[i].result.DispatchFailed?
  {
    hide RowsSound;
    hide ChecksSound;
  }

  // Any other step: rows are appended, and a job may arrive or go.
  lemma GrowthSound(u: Setup, s: System, s': System)
    requires Sound(u, s) && Extends(s, s') && InertFrom(s'.rows, |s.rows|) && s'.checked == s.checked
    requires s'.job.Some? && s'.job != s.job ==>
               && s'.rows == s.rows && s'.clock == s.clock
               && s'.job.value == Job(s'.job.value.message,
                                      Executor.Gate(u.executor, s.rows, s'.job.value.message, s.clock), s.clock)
    ensures Sound(u, s')
  {
    InertSuffixSound(u.executor, s.rows, s'.rows);
    ChecksKept(s.rows, s'.rows, s.checked);
    hide RowsSound;
    hide JobSound;
    hide ChecksSound;
    hide InertFrom;
    hide Executor.Gate;
    if s'.job.Some? {
      if s'.job == s.job {
        JobKept(u.executor, s.rows, s'.rows, s.clock, s'.clock, s.job.value);
      } else {
        GateSound(u.executor, s.rows, s'.job.value.message, s.clock);
      }
    }
  }

  lemma StepSound(u: Setup, s: System, step: Step)
    requires Sound(u, s)
    ensures Sound(u, Apply(u, s, step))
  {
    hide Sound;
    if step.Finish? {
      FinishSound(u, s, step.recorded);
    } else {
      OnlyAppends(u, s, step);
      OthersAppendInert(u, s, step);
      JobOrigin(u, s, step);
      hide Apply;
      hide InertFrom;
      hide Extends;
      GrowthSound(u, s, Apply(u, s, step));
    }
  }

  lemma {:induction false} AlwaysSound(u: Setup, cluster: Cluster.State, clock: int, steps: seq<Step>)
    ensures Sound(u, After(u, Initial(cluster, clock), steps))
  {
    if steps != [] {
      AlwaysSound(u, cluster, clock, steps[..|steps| - 1]);
      StepSound(u, After(u, Initial(cluster, clock), steps[..|steps| - 1]), steps[|steps| - 1]);
    }
  }

  // In every run, a row can be reversed exactly when it records an executed action, its
  // deadline is its own time plus the window, every applied rollback reverses an executed row
  // and was checked no later than that row's deadline.
  lemma RollbackOnlyInsideWindow(u: Setup, cluster: Cluster.State, clock: int, steps: seq<Step>, i: int)
    requires 0 <= i < |After(u, Initial(cluster, clock), steps).rows|
    ensures
      var s := After(u, Initial(cluster, clock), steps);
      var r := s.rows[i];
      && (r.prior.Some? <==> r.result.Executed?) && (r.deadline.Some? <==> r.result.Executed?)
      && (r.result.Executed? ==> r.deadline.value == r.executedAt + u.executor.rollbackWindow)
      && (r.result.RolledBack? ==>
            && r.rollbackRef.Some? && r.rollbackRef.value < i && i in s.checked
            && var target := s.rows[r.rollbackRef.value];
               target.result.Executed? && s.checked[i] <= target.executedAt + u.executor.rollbackWindow)
  {
    AlwaysSound(u, cluster, clock, steps);
    var s := After(u, Initial(cluster, clock), steps);
    assert RowSound(u.executor, s.rows, i);
    if s.rows[i].result.RolledBack? {
      assert RowSound(u.executor, s.rows, s.rows[i].rollbackRef.value);
    }
  }

  // A rollback outcome is never itself reversed: asking for it is answered without touching
  // the cluster.
  lemma RollbackIsNotReversible(u: Setup, cluster: Cluster.State, clock: int, steps: seq<Step>, m: Message, now: int)
    requires m.action.Rollback? && m.target.Some?
    ensures
      var s := After(u, Initial(cluster, clock), steps);
      m.target.value >= |s.rows| || !s.rows[m.target.value].result.Executed? ==>
        Executor.Gate(u.executor, s.rows, m, now) == Executor.Refuse(RollbackFailedNoReference, None)
  {
    AlwaysSound(u, cluster, clock, steps);
    var s := After(u, Initial(cluster, clock), steps);
    if m.target.value < |s.rows| {
      assert RowSound(u.executor, s.rows, m.target.value);
    }
  }

  // ---------------------------------------------------------------- protected namespaces

  // c agrees with c0 on everything in ns but the replica counts HPAs report.
  ghost predicate SameIn(c0: Cluster.State, c: Cluster.State, ns: string) {
    && (forall d :: (ns, d) in c0.deployments <==> (ns, d) in c.deployments)
    && (forall d :: (ns, d) in c0.deployments ==> c0.deployments[(ns, d)] == c.deployments[(ns, d)])
    && Undo.Erase(c0.HpasIn(ns)) == Undo.Erase(c.HpasIn(ns))
  }

  lemma EffectSpares(c: Cluster.State, service: string, ns: string)
    requires Cluster.Namespace(service) != ns
    ensures
      var t, f := Cluster.ThrottleEffect(c, service), Cluster.FreezeEffect(c, service);
      && (t.Applied? ==> SameIn(c, t.after, ns))
      && (f.Applied? ==> SameIn(c, f.after, ns))
  {
  }

  lemma RollbackSpares(c: Cluster.State, prior: PriorState, ns: string)
    requires NamespaceOf(prior) != Some(ns)
    ensures Cluster.RollbackEffect(c, prior).Restored? ==> SameIn(c, Cluster.RollbackEffect(c, prior).after, ns)
  {
  }

  lemma ConcludeSpares(u: Setup, s: System, ns: string)
    requires Sound(u, s) && s.job.Some? && IsProtected(ns, u.executor.prefixes)
    ensures SameIn(s.cluster, Executor.Conclude(u.executor, s.cluster, s.job.value.message, s.job.value.plan, s.clock).cluster, ns)
  {
    hide Cluster.ThrottleEffect;
    hide Cluster.FreezeEffect;
    hide Cluster.RollbackEffect;
    hide IsProtected;
    hide Cluster.Namespace;
    SameInTransitive(s.cluster, s.cluster, s.cluster, ns);
    var job := s.job.value;
    if job.plan.Act? {
      ProtectionIsByNamespace(job.message.service, u.executor.prefixes);
      EffectSpares(s.cluster, job.message.service, ns);
    } else if job.plan.Reverse? {
      var target := s.rows[job.plan.target];
      assert RowSound(u.executor, s.rows, job.plan.target);
      ProtectionIsByNamespace(target.service, u.executor.prefixes);
      RollbackSpares(s.cluster, job.plan.prior, ns);
    }
  }

  lemma ReportSpares(c: Cluster.State, reportNs: string, hpa: string, count: Option<int>, ns: string)
    ensures SameIn(c, Undo.Report(c, reportNs, hpa, count), ns)
  {
    var hs, hs' := c.HpasIn(ns), Undo.Report(c, reportNs, hpa, count).HpasIn(ns);
    assert |hs| == |hs'|;
    assert Undo.Erase(hs) == Undo.Erase(hs');
  }

  // For any contents of the queue, arbitrary rollback requests included, and wherever the
  // executor dies, no Deployment and no replica ceiling in a protected namespace ever changes.
  lemma {:induction false} ProtectedNeverChanges(
    u: Setup, cluster: Cluster.State, clock: int, steps: seq<Step>, ns: string, prefix: string)
    requires prefix in u.executor.prefixes && prefix <= ns
    ensures SameIn(cluster, After(u, Initial(cluster, clock), steps).cluster, ns)
  {
    if steps != [] {
      var earlier, step := steps[..|steps| - 1], steps[|steps| - 1];
      ProtectedNeverChanges(u, cluster, clock, earlier, ns, prefix);
      assert StartsWith(ns, prefix);
      AlwaysSound(u, cluster, clock, earlier);
      var s := After(u, Initial(cluster, clock), earlier);
      ClusterChangesOnlyIn(u, s, step);
      var c := Apply(u, s, step).cluster;
      SameInTransitive(cluster, s.cluster, c, ns);
      hide Apply;
      hide SameIn;
      hide Sound;
      hide Executor.Conclude;
      if step.Finish? && s.job.Some? {
        ConcludeSpares(u, s, ns);
      } else if step.ReportReplicas? {
        ReportSpares(s.cluster, step.ns, step.hpa, step.count, ns);
      }
    }
  }

  lemma SameInTransitive(a: Cluster.State, b: Cluster.State, c: Cluster.State, ns: string)
    ensures SameIn(a, b, ns) && (SameIn(b, c, ns) || b == c) ==> SameIn(a, c, ns)
  {
  }

  lemma ClusterChangesOnlyIn(u: Setup, s: System, step: Step)
    ensures Apply(u, s, step).cluster ==
            if step.Finish? && s.job.Some?
            then Executor.Conclude(u.executor, s.cluster, s.job.value.message, s.job.value.plan, s.clock).cluster
            else if step.ReportReplicas? then Undo.Report(s.cluster, step.ns, step.hpa, step.count)
            else s.cluster
  {
    StepFrame(u, s, step);
    hide Called;
    hide Published;
    hide Decided;
    hide CostHandled;
    hide Detector.TrafficStep;
    hide Executor.Gate;
    hide Executor.Conclude;
  }
}
