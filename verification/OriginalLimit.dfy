// The original CPU limit is never overwritten in the ledger: as long as only the executor
// writes Deployments, every executed throttle recorded the limit the Deployment started with.
module OriginalLimit {
  import opened Prelude
  import opened Ledger
  import opened Protocol
  import opened LedgerSafety
  import Executor
  import Cluster

  const CAP := Some(Cluster.THROTTLE_CPU_LIMIT)

  // cs is cs0, or cs0 with its first container capped.
  predicate StartedAs(cs0: seq<Cluster.Container>, cs: seq<Cluster.Container>) {
    cs == cs0 || (cs0 != [] && cs == Capped(cs0))
  }

  function Capped(cs: seq<Cluster.Container>): seq<Cluster.Container>
    requires cs != []
  {
    cs[0 := cs[0].(cpuLimit := CAP)]
  }

  ghost predicate DeploymentsStartedAs(c0: Cluster.State, c: Cluster.State) {
    && c.deployments.Keys == c0.deployments.Keys
    && forall key :: key in c0.deployments ==> StartedAs(c0.deployments[key], c.deployments[key])
  }

  // A reference to the limit c0 gave the Deployment's first container, which was not the cap.
  predicate RecordsOriginal(c0: Cluster.State, prior: PriorState) {
    prior.CpuLimit? ==>
      var key := (prior.ns, prior.deployment);
      && key in c0.deployments && c0.deployments[key] != []
      && prior.container == c0.deployments[key][0].name
      && prior.previousLimit == c0.deployments[key][0].cpuLimit
      && prior.previousLimit != CAP
  }

  ghost predicate Origin(c0: Cluster.State, s: System) {
    && DeploymentsStartedAs(c0, s.cluster)
    && forall i :: 0 <= i < |s.rows| && s.rows[i].prior.Some? ==> RecordsOriginal(c0, s.rows[i].prior.value)
  }

  lemma ThrottleRecordsOriginal(c0: Cluster.State, c: Cluster.State, service: string)
    requires DeploymentsStartedAs(c0, c)
    ensures
      var effect := Cluster.ThrottleEffect(c, service);
      effect.Applied? ==>
        && DeploymentsStartedAs(c0, effect.after) && RecordsOriginal(c0, effect.prior)
        && var key := (Cluster.Namespace(service), Cluster.Workload(service));
           key in c0.deployments && c0.deployments[key] != []
           && effect.after.deployments == c.deployments[key := Capped(c0.deployments[key])]
  {
    var key := (Cluster.Namespace(service), Cluster.Workload(service));
    if Cluster.ThrottleEffect(c, service).Applied? {
      assert key in c0.deployments;
      assert StartedAs(c0.deployments[key], c.deployments[key]);
      assert Cluster.ContainerAt(c.deployments[key], c.deployments[key][0].name) == 0;
    }
  }

  lemma FreezeLeavesDeployments(c: Cluster.State, service: string)
    ensures
      var effect := Cluster.FreezeEffect(c, service);
      effect.Applied? ==> effect.after.deployments == c.deployments && effect.prior.MaxReplicas?
  {
  }

  // Whatever state the Deployment is in, such a reference puts back all of its containers.
  lemma RollbackRestoresOriginal(c0: Cluster.State, c: Cluster.State, prior: PriorState)
    requires DeploymentsStartedAs(c0, c) && RecordsOriginal(c0, prior)
    ensures
      var r := Cluster.RollbackEffect(c, prior);
      && (r.Restored? ==> DeploymentsStartedAs(c0, r.after))
      && (prior.CpuLimit? ==>
            && r.Restored?
            && r.after.deployments[(prior.ns, prior.deployment)] == c0.deployments[(prior.ns, prior.deployment)])
  {
    if prior.CpuLimit? {
      var key := (prior.ns, prior.deployment);
      var cs0, cs := c0.deployments[key], c.deployments[key];
      assert StartedAs(cs0, cs);
      assert Cluster.ContainerAt(cs, prior.container) == 0;
      assert cs[0 := cs[0].(cpuLimit := prior.previousLimit)] == cs0;
    }
  }

  lemma ConcludeKeepsOrigin(u: Setup, c0: Cluster.State, s: System)
    requires Sound(u, s) && Origin(c0, s) && s.job.Some?
    ensures
      var outcome := Executor.Conclude(u.executor, s.cluster, s.job.value.message, s.job.value.plan, s.clock);
      && DeploymentsStartedAs(c0, outcome.cluster)
      && (outcome.row.Some? && outcome.row.value.prior.Some? ==> RecordsOriginal(c0, outcome.row.value.prior.value))
  {
    hide Cluster.ThrottleEffect;
    hide Cluster.FreezeEffect;
    hide Cluster.RollbackEffect;
    hide DeploymentsStartedAs;
    var m, plan := s.job.value.message, s.job.value.plan;
    ThrottleRecordsOriginal(c0, s.cluster, m.service);
    FreezeLeavesDeployments(s.cluster, m.service);
    if plan.Reverse? {
      assert s.rows[plan.target].prior == Some(plan.prior);
      RollbackRestoresOriginal(c0, s.cluster, plan.prior);
    }
    SameDeployments(c0, s.cluster, Executor.Conclude(u.executor, s.cluster, m, plan, s.clock).cluster);
  }

  lemma FinishKeepsOrigin(u: Setup, c0: Cluster.State, s: System, recorded: bool)
    requires Sound(u, s) && Origin(c0, s)
    ensures Origin(c0, Finished(u, s, recorded))
  {
    hide Sound;
    hide Executor.Conclude;
    hide DeploymentsStartedAs;
    hide RecordsOriginal;
    hide Accepts;
    if s.job.Some? {
      ConcludeKeepsOrigin(u, c0, s);
    }
  }

  lemma SameDeployments(c0: Cluster.State, c: Cluster.State, c': Cluster.State)
    requires DeploymentsStartedAs(c0, c)
    ensures c'.deployments == c.deployments ==> DeploymentsStartedAs(c0, c')
  {
  }

  lemma StepKeepsOrigin(u: Setup, c0: Cluster.State, s: System, step: Step)
    requires Sound(u, s) && Origin(c0, s)
    ensures Origin(c0, Apply(u, s, step))
  {
    if step.Finish? {
      FinishKeepsOrigin(u, c0, s, step.recorded);
    } else {
      OnlyAppends(u, s, step);
      OthersAppendInert(u, s, step);
      ClusterChangesOnlyIn(u, s, step);
      SameDeployments(c0, s.cluster, Apply(u, s, step).cluster);
      hide Apply;
      var rows := Apply(u, s, step).rows;
      forall i | 0 <= i < |rows| && rows[i].prior.Some? ensures RecordsOriginal(c0, rows[i].prior.value) {
        assert rows[i] == s.rows[i];
      }
    }
  }

  lemma {:induction false} AlwaysOrigin(u: Setup, c0: Cluster.State, clock: int, steps: seq<Step>)
    ensures Origin(c0, After(u, Initial(c0, clock), steps))
  {
    if steps != [] {
      var earlier := steps[..|steps| - 1];
      AlwaysOrigin(u, c0, clock, earlier);
      AlwaysSound(u, c0, clock, earlier);
      StepKeepsOrigin(u, c0, After(u, Initial(c0, clock), earlier), steps[|steps| - 1]);
    }
  }

  // In every run, each throttle reference in the ledger holds the Deployment's initial limit
  // and not the cap, and applying it - in any later state, in any order, any number of times -
  // restores the Deployment exactly as it started.
  lemma OriginalLimitNeverLost(u: Setup, c0: Cluster.State, clock: int, steps: seq<Step>, later: seq<Step>, i: int)
    requires
      var s := After(u, Initial(c0, clock), steps);
      0 <= i < |s.rows| && s.rows[i].prior.Some? && s.rows[i].prior.value.CpuLimit?
    ensures
      var prior := After(u, Initial(c0, clock), steps).rows[i].prior.value;
      var key := (prior.ns, prior.deployment);
      var r := Cluster.RollbackEffect(After(u, Initial(c0, clock), steps + later).cluster, prior);
      && key in c0.deployments && c0.deployments[key] != []
      && prior.previousLimit == c0.deployments[key][0].cpuLimit != CAP
      && r.Restored? && r.after.deployments[key] == c0.deployments[key]
  {
    AlwaysOrigin(u, c0, clock, steps);
    AlwaysOrigin(u, c0, clock, steps + later);
    var prior := After(u, Initial(c0, clock), steps).rows[i].prior.value;
    assert RecordsOriginal(c0, prior);
    RollbackRestoresOriginal(c0, After(u, Initial(c0, clock), steps + later).cluster, prior);
  }
}
