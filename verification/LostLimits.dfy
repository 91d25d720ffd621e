// When the original CPU limit is lost. The executor patches first and inserts its row second:
// a Deployment stays capped with nothing to roll back exactly when that row was never stored,
// because the executor died in between or the database refused the row.
module LostLimits {
  import opened Prelude
  import opened Ledger
  import opened Policy
  import opened Protocol
  import opened LedgerSafety
  import opened Authority
  import opened OriginalLimit
  import Cluster
  import Executor

  function Target(service: string): (string, string) {
    (Cluster.Namespace(service), Cluster.Workload(service))
  }

  predicate Names(prior: PriorState, key: (string, string)) {
    prior.CpuLimit? && (prior.ns, prior.deployment) == key
  }

  ghost predicate HasReference(rows: seq<Row>, key: (string, string)) {
    exists i :: 0 <= i < |rows| && rows[i].prior.Some? && Names(rows[i].prior.value, key)
  }

  // The delivery in progress is about to cap the Deployment.
  predicate Caps(s: System, key: (string, string)) {
    && s.job.Some? && s.job.value.plan.Act? && s.job.value.message.action.Throttle?
    && Target(s.job.value.message.service) == key
    && Cluster.ThrottleEffect(s.cluster, s.job.value.message.service).Applied?
  }

  // The database takes an outcome that names a stored row, a stored anomaly and a known mode.
  predicate Storable(s: System, m: Message) {
    && m.actionId < |s.rows|
    && (m.anomaly.Some? ==> m.anomaly.value in s.anomalies)
    && (m.mode.Some? ==> !m.mode.value.OtherMode?)
  }

  // The delivery in progress is about to patch the cluster.
  predicate Patching(s: System) {
    && s.job.Some? && s.job.value.plan.Act?
    && Executor.EffectOf(s.cluster, s.job.value.message).Applied?
  }

  // The cluster is patched and no row says so.
  predicate UnrecordedPatch(s: System, step: Step) {
    step.Finish? && Patching(s) && !(step.recorded && Storable(s, s.job.value.message))
  }

  // The Deployment is patched and no row says so.
  predicate Unrecorded(s: System, step: Step, key: (string, string)) {
    step.Finish? && Caps(s, key) && !(step.recorded && Storable(s, s.job.value.message))
  }

  // Not what it was, and nothing in the ledger to put it back.
  ghost predicate LimitLost(c0: Cluster.State, s: System, key: (string, string)) {
    && key in c0.deployments && key in s.cluster.deployments
    && s.cluster.deployments[key] != c0.deployments[key]
    && !HasReference(s.rows, key)
  }

  // ---------------------------------------------------------------- one step

  lemma ReferenceAppended(rows: seq<Row>, row: Row, key: (string, string))
    ensures HasReference(rows + [row], key) <==>
            HasReference(rows, key) || (row.prior.Some? && Names(row.prior.value, key))
  {
    var rows' := rows + [row];
    if i :| 0 <= i < |rows| && rows[i].prior.Some? && Names(rows[i].prior.value, key) {
      assert rows'[i] == rows[i];
    }
    assert rows'[|rows|] == row;
  }

  // After a throttle was applied, the ledger can undo it exactly when it could before or the
  // row was stored.
  lemma FinishRecordsIff(u: Setup, s: System, recorded: bool, key: (string, string))
    requires Caps(s, key)
    ensures
      var s' := Apply(u, s, Finish(recorded));
      && s'.cluster == Cluster.ThrottleEffect(s.cluster, s.job.value.message.service).after
      && (HasReference(s'.rows, key) <==>
            HasReference(s.rows, key) || (recorded && Storable(s, s.job.value.message)))
  {
    hide HasReference;
    hide Cluster.ThrottleEffect;
    var m := s.job.value.message;
    Cluster.ThrottleCaps(s.cluster, m.service);
    var outcome := Executor.Conclude(u.executor, s.cluster, m, s.job.value.plan, s.clock);
    ReferenceAppended(s.rows, outcome.row.value, key);
  }

  // Any other delivery leaves a Deployment nobody can undo alone.
  lemma FinishSpares(u: Setup, s: System, recorded: bool, key: (string, string))
    requires Sound(u, s) && !Caps(s, key) && !HasReference(s.rows, key)
    ensures
      var s' := Finished(u, s, recorded);
      && !HasReference(s'.rows, key)
      && (key in s'.cluster.deployments <==> key in s.cluster.deployments)
      && (key in s.cluster.deployments ==> s'.cluster.deployments[key] == s.cluster.deployments[key])
  {
    if s.job.Some? {
      DeliverySpares(u, s, key);
      hide Executor.Conclude;
      var outcome := Executor.Conclude(u.executor, s.cluster, s.job.value.message, s.job.value.plan, s.clock);
      if outcome.row.Some? {
        ReferenceAppended(s.rows, outcome.row.value, key);
      }
      hide HasReference;
    }
  }

  lemma DeliverySpares(u: Setup, s: System, key: (string, string))
    requires Sound(u, s) && s.job.Some? && !Caps(s, key) && !HasReference(s.rows, key)
    ensures
      var outcome := Executor.Conclude(u.executor, s.cluster, s.job.value.message, s.job.value.plan, s.clock);
      && (outcome.row.Some? && outcome.row.value.prior.Some? ==> !Names(outcome.row.value.prior.value, key))
      && (key in outcome.cluster.deployments <==> key in s.cluster.deployments)
      && (key in s.cluster.deployments ==> outcome.cluster.deployments[key] == s.cluster.deployments[key])
  {
    var plan, m := s.job.value.plan, s.job.value.message;
    FreezeLeavesDeployments(s.cluster, m.service);
    Cluster.ThrottleCaps(s.cluster, m.service);
    if plan.Reverse? {
      assert s.rows[plan.target].prior == Some(plan.prior);
      ReversalSpares(s.cluster, plan.prior, key);
    }
    hide Cluster.ThrottleEffect;
    hide Cluster.FreezeEffect;
    hide Cluster.RollbackEffect;
    hide Sound;
  }

  lemma ReversalSpares(c: Cluster.State, prior: PriorState, key: (string, string))
    requires !Names(prior, key)
    ensures
      var r := Cluster.RollbackEffect(c, prior);
      r.Restored? ==>
        && (key in r.after.deployments <==> key in c.deployments)
        && (key in c.deployments ==> r.after.deployments[key] == c.deployments[key])
  {
  }

  // A Deployment that is about to be capped is as it started, and will not be.
  lemma CapChanges(c0: Cluster.State, s: System, key: (string, string))
    requires Origin(c0, s) && Caps(s, key)
    ensures key in c0.deployments && key in s.cluster.deployments && s.cluster.deployments[key] == c0.deployments[key]
    ensures
      var after := Cluster.ThrottleEffect(s.cluster, s.job.value.message.service).after;
      key in after.deployments && after.deployments[key] != c0.deployments[key]
  {
    ThrottleRecordsOriginal(c0, s.cluster, s.job.value.message.service);
    Cluster.ThrottleCaps(s.cluster, s.job.value.message.service);
    assert StartedAs(c0.deployments[key], s.cluster.deployments[key]);
    assert Capped(c0.deployments[key])[0].cpuLimit == CAP;
  }

  lemma LostStep(u: Setup, c0: Cluster.State, s: System, step: Step, key: (string, string))
    requires Sound(u, s) && Origin(c0, s)
    ensures LimitLost(c0, Apply(u, s, step), key) <==>
            LimitLost(c0, s, key) || (Unrecorded(s, step, key) && !HasReference(s.rows, key))
  {
    hide Sound;
    hide Origin;
    hide HasReference;
    hide Cluster.ThrottleEffect;
    var s' := Apply(u, s, step);
    ReferencesStay(u, s, step, key);
    if step.Finish? && Caps(s, key) {
      CapChanges(c0, s, key);
      FinishRecordsIff(u, s, step.recorded, key);
      hide Apply;
    } else if step.Finish? && !HasReference(s.rows, key) {
      FinishSpares(u, s, step.recorded, key);
      hide Finished;
    } else if !step.Finish? {
      OthersSpare(u, s, step, key);
      hide Apply;
    }
  }

  lemma ReferencesStay(u: Setup, s: System, step: Step, key: (string, string))
    ensures HasReference(s.rows, key) ==> HasReference(Apply(u, s, step).rows, key)
  {
    OnlyAppends(u, s, step);
    hide Apply;
    if HasReference(s.rows, key) {
      var rows := Apply(u, s, step).rows;
      var i :| 0 <= i < |s.rows| && s.rows[i].prior.Some? && Names(s.rows[i].prior.value, key);
      assert rows[i] == s.rows[i];
    }
  }

  lemma OthersSpare(u: Setup, s: System, step: Step, key: (string, string))
    requires !step.Finish?
    ensures Apply(u, s, step).cluster.deployments == s.cluster.deployments
    ensures HasReference(Apply(u, s, step).rows, key) <==> HasReference(s.rows, key)
  {
    ClusterChangesOnlyIn(u, s, step);
    OnlyAppends(u, s, step);
    OthersAppendInert(u, s, step);
    ReferencesStay(u, s, step, key);
    hide Apply;
    var rows := Apply(u, s, step).rows;
    if i :| 0 <= i < |rows| && rows[i].prior.Some? && Names(rows[i].prior.value, key) {
      assert rows[i] == s.rows[i];
    }
  }

  // ---------------------------------------------------------------- whole runs

  // The n-th step patched the Deployment, was not recorded, and no earlier reference helps.
  ghost predicate LosesLimit(u: Setup, s0: System, steps: seq<Step>, n: int, key: (string, string)) {
    && 0 <= n < |steps|
    && var s := After(u, s0, steps[..n]);
       Unrecorded(s, steps[n], key) && !HasReference(s.rows, key)
  }

  lemma LosesEarlier(u: Setup, s0: System, steps: seq<Step>, n: int, key: (string, string))
    requires steps != [] && n != |steps| - 1
    ensures LosesLimit(u, s0, steps[..|steps| - 1], n, key) == LosesLimit(u, s0, steps, n, key)
  {
    hide After;
    hide Unrecorded;
    hide HasReference;
    if 0 <= n < |steps| {
      assert steps[..|steps| - 1][..n] == steps[..n];
    }
  }

  // In every run - any queue contents, rollbacks, redeliveries, crashes - a Deployment differs
  // from how it started without a reference to put it back exactly when some delivery capped
  // it, with no reference recorded before, and its row was not stored. Once lost, a limit
  // stays lost.
  lemma {:induction false} LimitLostIff(u: Setup, c0: Cluster.State, clock: int, steps: seq<Step>, key: (string, string))
    ensures LimitLost(c0, After(u, Initial(c0, clock), steps), key) <==>
            exists n :: LosesLimit(u, Initial(c0, clock), steps, n, key)
  {
    hide After;
    hide Apply;
    hide Sound;
    hide Origin;
    hide LimitLost;
    hide LosesLimit;
    hide HasReference;
    hide Unrecorded;
    if steps == [] {
      NothingLostYet(u, c0, clock, key);
    } else {
      var s0, earlier := Initial(c0, clock), steps[..|steps| - 1];
      LimitLostIff(u, c0, clock, earlier, key);
      AlwaysSound(u, c0, clock, earlier);
      AlwaysOrigin(u, c0, clock, earlier);
      LostStep(u, c0, After(u, s0, earlier), steps[|steps| - 1], key);
      AfterLast(u, s0, steps);
      AnyLoses(u, s0, steps, key);
    }
  }

  lemma NothingLostYet(u: Setup, c0: Cluster.State, clock: int, key: (string, string))
    ensures !LimitLost(c0, After(u, Initial(c0, clock), []), key)
    ensures forall n :: !LosesLimit(u, Initial(c0, clock), [], n, key)
  {
  }

  lemma AnyLoses(u: Setup, s0: System, steps: seq<Step>, key: (string, string))
    requires steps != []
    ensures
      var earlier, step := steps[..|steps| - 1], steps[|steps| - 1];
      var s := After(u, s0, earlier);
      (exists n :: LosesLimit(u, s0, steps, n, key)) <==>
        (exists n :: LosesLimit(u, s0, earlier, n, key)) || (Unrecorded(s, step, key) && !HasReference(s.rows, key))
  {
    hide After;
    hide HasReference;
    hide Unrecorded;
    var earlier, last := steps[..|steps| - 1], |steps| - 1;
    assert LosesLimit(u, s0, steps, last, key) <==>
           Unrecorded(After(u, s0, earlier), steps[last], key) && !HasReference(After(u, s0, earlier).rows, key);
    assert !LosesLimit(u, s0, earlier, last, key);
    forall n | n != last ensures LosesLimit(u, s0, earlier, n, key) == LosesLimit(u, s0, steps, n, key) {
      LosesEarlier(u, s0, steps, n, key);
    }
    hide LosesLimit;
  }

  // What the services ask for is always storable.
  lemma FedIsStorable(u: Setup, s: System)
    requires Fed(u, s) && s.job.Some? && !s.job.value.message.action.Rollback?
    ensures Storable(s, s.job.value.message)
  {
    hide Lineage;
    assert Backed(s.rows, s.job.value.message);
    assert s.rows[s.job.value.message.actionId].anomaly.value in s.anomalies;
  }

  // In every run fed by the services in which the executor never dies between patch and row,
  // rollbacks allowed, each Deployment that differs from how it started has an executed row
  // that holds its original limit.
  lemma LimitsStayRecoverable(u: Setup, c0: Cluster.State, clock: int, steps: seq<Step>, key: (string, string))
    requires FedByServices(steps) && Finish(false) !in steps
    requires key in c0.deployments
    ensures
      var s := After(u, Initial(c0, clock), steps);
      && key in s.cluster.deployments
      && (s.cluster.deployments[key] != c0.deployments[key] ==>
            && c0.deployments[key] != []
            && exists i :: 0 <= i < |s.rows| && s.rows[i].result.Executed?
                 && s.rows[i].prior == Some(CpuLimit(key.0, key.1, c0.deployments[key][0].name, c0.deployments[key][0].cpuLimit)))
  {
    var s0 := Initial(c0, clock);
    var s := After(u, s0, steps);
    NothingLost(u, c0, clock, steps, key);
    AlwaysOrigin(u, c0, clock, steps);
    AlwaysSound(u, c0, clock, steps);
    hide After;
    if s.cluster.deployments[key] != c0.deployments[key] {
      var i :| 0 <= i < |s.rows| && s.rows[i].prior.Some? && Names(s.rows[i].prior.value, key);
      assert RowSound(u.executor, s.rows, i);
      assert RecordsOriginal(c0, s.rows[i].prior.value);
    }
  }

  lemma NothingLost(u: Setup, c0: Cluster.State, clock: int, steps: seq<Step>, key: (string, string))
    requires FedByServices(steps) && Finish(false) !in steps
    ensures !LimitLost(c0, After(u, Initial(c0, clock), steps), key)
  {
    hide After;
    hide LimitLost;
    var s0 := Initial(c0, clock);
    LimitLostIff(u, c0, clock, steps, key);
    if n :| LosesLimit(u, s0, steps, n, key) {
      assert steps[n] in steps;
      assert forall e :: e in steps[..n] ==> e in steps;
      AlwaysFed(u, c0, clock, steps[..n]);
      FedIsStorable(u, After(u, s0, steps[..n]));
    }
  }

  // ---------------------------------------------------------------- how it is lost

  // Whatever the reason the row was not stored, a redelivered throttle finds the Deployment
  // capped already and has nothing to record.
  lemma UnrecordedIsNotRetried(u: Setup, s: System, step: Step, key: (string, string), later: Message)
    requires Unrecorded(s, step, key)
    requires later.action.Throttle? && later.service == s.job.value.message.service
    ensures
      var s' := Apply(u, s, step);
      && s'.rows == s.rows && s'.cluster != s.cluster
      && Executor.Conclude(u.executor, s'.cluster, later, Executor.Act, s'.clock)
         == Executor.Outcome(s'.cluster, Some(Executor.Record(later, NoOp, None, None, None, s'.clock)))
  {
    hide Cluster.ThrottleEffect;
    Cluster.ThrottleCaps(s.cluster, later.service);
    var after := Cluster.ThrottleEffect(s.cluster, later.service).after;
    assert after.deployments[key][0].cpuLimit == CAP != s.cluster.deployments[key][0].cpuLimit;
    SkipsCapped(after, later.service);
  }

  lemma SkipsCapped(c: Cluster.State, service: string)
    requires Target(service) in c.deployments && c.deployments[Target(service)] != []
    requires c.deployments[Target(service)][0].cpuLimit == CAP
    ensures Cluster.ThrottleEffect(c, service) == Cluster.Skipped
  {
  }

  // No crash is needed: a request whose action id was never committed is acted on, and the
  // foreign key then refuses its row. Two steps lose the limit.
  lemma UnknownActionLosesLimit(u: Setup, c0: Cluster.State, clock: int, m: Message)
    requires m.action.Throttle? && !IsProtected(m.service, u.executor.prefixes)
    requires u.executor.maxGlobal > 0 && u.executor.maxPerService > 0
    requires Cluster.ThrottleEffect(c0, m.service).Applied?
    ensures LimitLost(c0, After(u, Initial(c0, clock), [Inject(m), Finish(true)]), Target(m.service))
  {
    var s0, steps, key := Initial(c0, clock), [Inject(m), Finish(true)], Target(m.service);
    assert steps[..1] == [Inject(m)] && [Inject(m)][..0] == [];
    assert After(u, s0, []) == s0;
    assert After(u, s0, steps[..1]) == Apply(u, s0, Inject(m));
    InjectedActs(u, s0, m);
    hide After;
    hide Apply;
    hide Cluster.ThrottleEffect;
    assert LosesLimit(u, s0, steps, 1, key);
    LimitLostIff(u, c0, clock, steps, key);
  }

  lemma InjectedActs(u: Setup, s: System, m: Message)
    requires s.rows == [] && s.job.None?
    requires m.action.Throttle? && !IsProtected(m.service, u.executor.prefixes)
    requires u.executor.maxGlobal > 0 && u.executor.maxPerService > 0
    ensures
      var s' := Apply(u, s, Inject(m));
      && s'.rows == [] && s'.cluster == s.cluster && s'.clock == s.clock
      && s'.job == Some(Job(m, Executor.Act, s.clock))
  {
  }
}
