// The original replica ceiling. Unlike a CPU limit it is not recorded by every freeze: each one
// records the ceiling it found. The first one on record holds the original unless a freeze
// before it went unrecorded and left another ceiling.
module OriginalCeiling {
  import opened Prelude
  import opened Ledger
  import opened Protocol
  import opened LedgerSafety
  import opened Authority
  import opened LostLimits
  import opened Undo
  import Cluster
  import Executor

  predicate About(row: Row, ns: string, hpa: string) {
    row.prior.Some? && row.prior.value.MaxReplicas? && row.prior.value.ns == ns && row.prior.value.hpa == hpa
  }

  ghost predicate NoneAbout(rows: seq<Row>, ns: string, hpa: string) {
    forall i :: 0 <= i < |rows| ==> !About(rows[i], ns, hpa)
  }

  // The earliest row on record that can restore this HPA.
  ghost predicate FirstAbout(rows: seq<Row>, i: int, ns: string, hpa: string) {
    0 <= i < |rows| && About(rows[i], ns, hpa) && NoneAbout(rows[..i], ns, hpa)
  }

  // The delivery in progress is about to pin the HPA.
  predicate Pins(s: System, ns: string, hpa: string) {
    && s.job.Some? && s.job.value.plan.Act? && s.job.value.message.action.FreezeScaling?
    && var effect := Cluster.FreezeEffect(s.cluster, s.job.value.message.service);
       effect.Applied? && effect.prior.MaxReplicas? && effect.prior.ns == ns && effect.prior.hpa == hpa
  }

  predicate UnrecordedPin(s: System, step: Step, ns: string, hpa: string) {
    step.Finish? && Pins(s, ns, hpa) && !(step.recorded && Storable(s, s.job.value.message))
  }

  // ---------------------------------------------------------------- the cluster

  // A patch by name changes that HPA's ceiling and no other.
  lemma PatchedCeiling(c: Cluster.State, ns: string, hpa: string, max: int, ns': string, hpa': string)
    requires Cluster.PatchMax(c, ns, hpa, max).Some?
    ensures MaxOf(Cluster.PatchMax(c, ns, hpa, max).value, ns', hpa')
         == if ns == ns' && hpa == hpa' then Some(max) else MaxOf(c, ns', hpa')
  {
    var after := Cluster.PatchMax(c, ns, hpa, max).value;
    Cluster.HpaAtUnique(after.HpasIn(ns'), hpa', Cluster.HpaAt(c.HpasIn(ns'), hpa'));
  }

  lemma ReportedCeiling(c: Cluster.State, ns: string, hpa: string, count: Option<int>, ns': string, hpa': string)
    ensures MaxOf(Report(c, ns, hpa, count), ns', hpa') == MaxOf(c, ns', hpa')
  {
    var after := Report(c, ns, hpa, count);
    Cluster.HpaAtUnique(after.HpasIn(ns'), hpa', Cluster.HpaAt(c.HpasIn(ns'), hpa'));
  }

  // A freeze records the ceiling it found.
  lemma FreezeRecordsFound(c: Cluster.State, service: string, ns: string, hpa: string)
    requires Cluster.WellFormed(c) && Cluster.FreezeEffect(c, service).Applied?
    ensures
      var effect := Cluster.FreezeEffect(c, service);
      && effect.prior.MaxReplicas?
      && MaxOf(c, effect.prior.ns, effect.prior.hpa) == Some(effect.prior.previousMax)
      && (MaxOf(c, ns, hpa).Some? ==> MaxOf(effect.after, ns, hpa).Some?)
      && (effect.prior.ns != ns || effect.prior.hpa != hpa ==> MaxOf(effect.after, ns, hpa) == MaxOf(c, ns, hpa))
  {
    Cluster.FreezePins(c, service);
    var hs := c.HpasIn(Cluster.Namespace(service));
    var h := hs[Cluster.Targeting(hs, Cluster.Workload(service))];
    Cluster.HpaAtUnique(hs, h.name, Cluster.Targeting(hs, Cluster.Workload(service)));
    PatchedCeiling(c, Cluster.Namespace(service), h.name, h.current.value, ns, hpa);
  }

  lemma RollbackCeiling(c: Cluster.State, prior: PriorState, ns: string, hpa: string)
    ensures
      var r := Cluster.RollbackEffect(c, prior);
      r.Restored? ==>
        if prior.MaxReplicas? && prior.ns == ns && prior.hpa == hpa then MaxOf(r.after, ns, hpa) == Some(prior.previousMax)
        else MaxOf(r.after, ns, hpa) == MaxOf(c, ns, hpa)
  {
    if prior.MaxReplicas? && Cluster.RollbackEffect(c, prior).Restored? {
      PatchedCeiling(c, prior.ns, prior.hpa, prior.previousMax, ns, hpa);
    }
  }

  // ---------------------------------------------------------------- the invariant

  // left: the ceiling this HPA was left with by whatever happened off the record.
  ghost predicate Ceilings(left: Option<int>, s: System, ns: string, hpa: string) {
    && Cluster.WellFormed(s.cluster) && MaxOf(s.cluster, ns, hpa).Some?
    && (NoneAbout(s.rows, ns, hpa) ==> MaxOf(s.cluster, ns, hpa) == left)
    && (forall i :: FirstAbout(s.rows, i, ns, hpa) ==> Some(s.rows[i].prior.value.previousMax) == left)
  }

  lemma AppendedFirst(rows: seq<Row>, row: Row, ns: string, hpa: string)
    ensures NoneAbout(rows + [row], ns, hpa) <==> NoneAbout(rows, ns, hpa) && !About(row, ns, hpa)
    ensures forall i :: 0 <= i < |rows| ==> (FirstAbout(rows + [row], i, ns, hpa) <==> FirstAbout(rows, i, ns, hpa))
    ensures FirstAbout(rows + [row], |rows|, ns, hpa) <==> NoneAbout(rows, ns, hpa) && About(row, ns, hpa)
  {
    var rows' := rows + [row];
    assert rows'[..|rows|] == rows && rows'[|rows|] == row;
    forall i | 0 <= i < |rows| ensures rows'[..i] == rows[..i] && rows'[i] == rows[i] {
    }
    if NoneAbout(rows', ns, hpa) {
      forall i | 0 <= i < |rows| ensures !About(rows[i], ns, hpa) {
        assert rows'[i] == rows[i];
      }
    }
  }

  lemma ReverseCeiling(u: Setup, s: System, ns: string, hpa: string)
    requires Sound(u, s) && s.job.Some? && Cluster.WellFormed(s.cluster) && MaxOf(s.cluster, ns, hpa).Some?
    requires s.job.value.plan.Reverse?
    ensures
      var r := Cluster.RollbackEffect(s.cluster, s.job.value.plan.prior);
      r.Restored? ==>
        && Cluster.WellFormed(r.after) && MaxOf(r.after, ns, hpa).Some?
        && (NoneAbout(s.rows, ns, hpa) ==> MaxOf(r.after, ns, hpa) == MaxOf(s.cluster, ns, hpa))
  {
    hide Cluster.RollbackEffect;
    hide Cluster.WellFormed;
    hide MaxOf;
    var plan := s.job.value.plan;
    RollbackKeepsWellFormed(s.cluster, plan.prior);
    RollbackCeiling(s.cluster, plan.prior, ns, hpa);
    assert s.rows[plan.target].prior == Some(plan.prior);
  }

  lemma ActCeiling(c: Cluster.State, m: Message, ns: string, hpa: string)
    requires Cluster.WellFormed(c) && MaxOf(c, ns, hpa).Some? && (m.action.Throttle? || m.action.FreezeScaling?)
    ensures
      var effect := Executor.EffectOf(c, m);
      effect.Applied? ==>
        && Cluster.WellFormed(effect.after) && MaxOf(effect.after, ns, hpa).Some?
        && (m.action.Throttle? ==> effect.prior.CpuLimit?)
        && if effect.prior.MaxReplicas? && effect.prior.ns == ns && effect.prior.hpa == hpa
           then Some(effect.prior.previousMax) == MaxOf(c, ns, hpa)
           else MaxOf(effect.after, ns, hpa) == MaxOf(c, ns, hpa)
  {
    if m.action.Throttle? {
      Cluster.ThrottleCaps(c, m.service);
    } else if Cluster.FreezeEffect(c, m.service).Applied? {
      PerformKeepsWellFormed(c, FreezeOp(m.service));
      FreezeRecordsFound(c, m.service, ns, hpa);
      hide Cluster.WellFormed;
      hide MaxOf;
    }
    hide Cluster.FreezeEffect;
    hide Cluster.ThrottleEffect;
  }

  predicate SameMode(row: Row, m: Message) {
    row.mode.OtherMode? <==> m.mode.Some? && m.mode.value.OtherMode?
  }

  // What one delivery does to this HPA's ceiling.
  lemma ConcludeCeiling(u: Setup, s: System, ns: string, hpa: string)
    requires Sound(u, s) && s.job.Some? && Cluster.WellFormed(s.cluster) && MaxOf(s.cluster, ns, hpa).Some?
    ensures
      var outcome := Executor.Conclude(u.executor, s.cluster, s.job.value.message, s.job.value.plan, s.clock);
      && Cluster.WellFormed(outcome.cluster) && MaxOf(outcome.cluster, ns, hpa).Some?
      && (outcome.row.Some? && About(outcome.row.value, ns, hpa) ==>
            Pins(s, ns, hpa) && Some(outcome.row.value.prior.value.previousMax) == MaxOf(s.cluster, ns, hpa))
      && (Pins(s, ns, hpa) ==>
            && outcome.row.Some? && About(outcome.row.value, ns, hpa)
            && outcome.row.value.parent == Some(s.job.value.message.actionId)
            && outcome.row.value.anomaly == s.job.value.message.anomaly && outcome.row.value.rollbackRef.None?
            && SameMode(outcome.row.value, s.job.value.message))
      && (NoneAbout(s.rows, ns, hpa) && !Pins(s, ns, hpa) ==> MaxOf(outcome.cluster, ns, hpa) == MaxOf(s.cluster, ns, hpa))
  {
    hide Cluster.ThrottleEffect;
    hide Cluster.FreezeEffect;
    hide Cluster.RollbackEffect;
    hide Cluster.WellFormed;
    hide MaxOf;
    hide NoneAbout;
    hide RowsSound;
    hide ChecksSound;
    var plan, m := s.job.value.plan, s.job.value.message;
    if plan.Reverse? {
      ReverseCeiling(u, s, ns, hpa);
    } else if plan.Act? {
      ActCeiling(s.cluster, m, ns, hpa);
    }
  }

  lemma FinishCeilings(u: Setup, left: Option<int>, s: System, recorded: bool, ns: string, hpa: string)
    requires Sound(u, s) && Ceilings(left, s, ns, hpa)
    requires UnrecordedPin(s, Finish(recorded), ns, hpa) ==> !NoneAbout(s.rows, ns, hpa)
    ensures Ceilings(left, Finished(u, s, recorded), ns, hpa)
  {
    hide Executor.Conclude;
    hide Cluster.WellFormed;
    hide MaxOf;
    hide NoneAbout;
    hide FirstAbout;
    hide About;
    hide Pins;
    hide Sound;
    if s.job.Some? {
      ConcludeCeiling(u, s, ns, hpa);
      var outcome := Executor.Conclude(u.executor, s.cluster, s.job.value.message, s.job.value.plan, s.clock);
      if outcome.row.Some? {
        AppendedFirst(s.rows, outcome.row.value, ns, hpa);
        FirstInRange(s.rows + [outcome.row.value], ns, hpa);
      }
    }
  }

  lemma FirstInRange(rows: seq<Row>, ns: string, hpa: string)
    ensures forall i :: FirstAbout(rows, i, ns, hpa) ==> 0 <= i < |rows| && rows[i].prior.Some? && rows[i].prior.value.MaxReplicas?
  {
  }

  lemma InertCeilings(left: Option<int>, s: System, s': System, ns: string, hpa: string)
    requires Ceilings(left, s, ns, hpa) && Extends(s, s') && InertFrom(s'.rows, |s.rows|)
    requires Cluster.WellFormed(s'.cluster) && MaxOf(s'.cluster, ns, hpa) == MaxOf(s.cluster, ns, hpa)
    ensures Ceilings(left, s', ns, hpa)
  {
    hide Cluster.WellFormed;
    hide MaxOf;
    hide NoneAbout;
    hide FirstAbout;
    if |s'.rows| > |s.rows| {
      var row := s'.rows[|s.rows|];
      assert s'.rows == s.rows + [row];
      AppendedFirst(s.rows, row, ns, hpa);
      FirstInRange(s'.rows, ns, hpa);
    } else {
      assert s'.rows == s.rows;
    }
  }

  lemma OthersCeilings(u: Setup, left: Option<int>, s: System, step: Step, ns: string, hpa: string)
    requires !step.Finish? && Ceilings(left, s, ns, hpa)
    ensures Ceilings(left, Apply(u, s, step), ns, hpa)
  {
    hide Apply;
    hide InertFrom;
    hide Extends;
    hide Cluster.WellFormed;
    hide MaxOf;
    hide Report;
    OnlyAppends(u, s, step);
    OthersAppendInert(u, s, step);
    ClusterChangesOnlyIn(u, s, step);
    if step.ReportReplicas? {
      PerformKeepsWellFormed(s.cluster, ReportOp(step.ns, step.hpa, step.count));
      ReportedCeiling(s.cluster, step.ns, step.hpa, step.count, ns, hpa);
    }
    InertCeilings(left, s, Apply(u, s, step), ns, hpa);
  }

  lemma StepCeilings(u: Setup, left: Option<int>, s: System, step: Step, ns: string, hpa: string)
    requires Sound(u, s) && Ceilings(left, s, ns, hpa)
    requires UnrecordedPin(s, step, ns, hpa) ==> !NoneAbout(s.rows, ns, hpa)
    ensures Ceilings(left, Apply(u, s, step), ns, hpa)
  {
    hide Sound;
    hide Ceilings;
    hide UnrecordedPin;
    hide NoneAbout;
    if step.Finish? {
      FinishCeilings(u, left, s, step.recorded, ns, hpa);
      hide Finished;
    } else {
      OthersCeilings(u, left, s, step, ns, hpa);
      hide Apply;
    }
  }

  // The pin that leaves the ceiling changed with nothing on record.
  lemma LossLeaves(u: Setup, s: System, step: Step, ns: string, hpa: string)
    requires Sound(u, s) && Cluster.WellFormed(s.cluster) && MaxOf(s.cluster, ns, hpa).Some?
    requires UnrecordedPin(s, step, ns, hpa) && NoneAbout(s.rows, ns, hpa)
    ensures Ceilings(MaxOf(Apply(u, s, step).cluster, ns, hpa), Apply(u, s, step), ns, hpa)
  {
    hide Executor.Conclude;
    hide Cluster.WellFormed;
    hide MaxOf;
    hide About;
    hide Sound;
    ConcludeCeiling(u, s, ns, hpa);
    ClusterChangesOnlyIn(u, s, step);
    assert Apply(u, s, step).rows == s.rows;
    hide Apply;
  }

  // ---------------------------------------------------------------- whole runs

  // The n-th step pinned the HPA while nothing was on record, and left nothing on record.
  ghost predicate LosesCeiling(u: Setup, s0: System, steps: seq<Step>, n: int, ns: string, hpa: string) {
    && 0 <= n < |steps|
    && var s := After(u, s0, steps[..n]);
       UnrecordedPin(s, steps[n], ns, hpa) && NoneAbout(s.rows, ns, hpa)
  }

  ghost predicate LastLoss(u: Setup, s0: System, steps: seq<Step>, n: int, ns: string, hpa: string) {
    LosesCeiling(u, s0, steps, n, ns, hpa) && forall m :: n < m ==> !LosesCeiling(u, s0, steps, m, ns, hpa)
  }

  // The ceiling after the last such step; the one at the start if there is none.
  ghost function CeilingLeft(u: Setup, s0: System, steps: seq<Step>, ns: string, hpa: string): Option<int> {
    if steps == [] then MaxOf(s0.cluster, ns, hpa)
    else if LosesCeiling(u, s0, steps, |steps| - 1, ns, hpa) then MaxOf(After(u, s0, steps).cluster, ns, hpa)
    else CeilingLeft(u, s0, steps[..|steps| - 1], ns, hpa)
  }

  lemma LosesCeilingEarlier(u: Setup, s0: System, steps: seq<Step>, n: int, ns: string, hpa: string)
    requires steps != [] && n != |steps| - 1
    ensures LosesCeiling(u, s0, steps[..|steps| - 1], n, ns, hpa) == LosesCeiling(u, s0, steps, n, ns, hpa)
  {
    hide After;
    hide UnrecordedPin;
    hide NoneAbout;
    if 0 <= n < |steps| {
      assert steps[..|steps| - 1][..n] == steps[..n];
    }
  }

  lemma {:induction false} LeftByLastLoss(u: Setup, s0: System, steps: seq<Step>, ns: string, hpa: string)
    ensures (forall n :: !LosesCeiling(u, s0, steps, n, ns, hpa)) ==> CeilingLeft(u, s0, steps, ns, hpa) == MaxOf(s0.cluster, ns, hpa)
    ensures (exists n :: LosesCeiling(u, s0, steps, n, ns, hpa)) ==> exists n :: LastLoss(u, s0, steps, n, ns, hpa)
    ensures forall n :: LastLoss(u, s0, steps, n, ns, hpa) ==>
              0 <= n < |steps| && CeilingLeft(u, s0, steps, ns, hpa) == MaxOf(After(u, s0, steps[..n + 1]).cluster, ns, hpa)
  {
    hide After;
    hide MaxOf;
    hide UnrecordedPin;
    hide NoneAbout;
    if steps != [] {
      var earlier, last := steps[..|steps| - 1], |steps| - 1;
      LeftByLastLoss(u, s0, earlier, ns, hpa);
      assert !LosesCeiling(u, s0, earlier, last, ns, hpa);
      forall n | n != last ensures LosesCeiling(u, s0, earlier, n, ns, hpa) == LosesCeiling(u, s0, steps, n, ns, hpa) {
        LosesCeilingEarlier(u, s0, steps, n, ns, hpa);
      }
      assert forall n :: n > last ==> !LosesCeiling(u, s0, steps, n, ns, hpa);
      assert steps[..last + 1] == steps;
      if LosesCeiling(u, s0, steps, last, ns, hpa) {
        assert LastLoss(u, s0, steps, last, ns, hpa);
      } else {
        forall n ensures LastLoss(u, s0, earlier, n, ns, hpa) == LastLoss(u, s0, steps, n, ns, hpa) {
        }
        forall n | LastLoss(u, s0, earlier, n, ns, hpa) ensures After(u, s0, earlier[..n + 1]) == After(u, s0, steps[..n + 1]) {
          assert earlier[..n + 1] == steps[..n + 1];
        }
      }
    }
  }

  lemma {:induction false} AlwaysCeilings(u: Setup, c0: Cluster.State, clock: int, steps: seq<Step>, ns: string, hpa: string)
    requires Cluster.WellFormed(c0) && MaxOf(c0, ns, hpa).Some?
    ensures Ceilings(CeilingLeft(u, Initial(c0, clock), steps, ns, hpa), After(u, Initial(c0, clock), steps), ns, hpa)
  {
    var s0 := Initial(c0, clock);
    if steps == [] {
      NothingYet(c0, clock, ns, hpa);
    } else {
      hide Apply;
      hide UnrecordedPin;
      hide Sound;
      hide NoneAbout;
      hide FirstAbout;
      hide MaxOf;
      hide Cluster.WellFormed;
      var earlier, step := steps[..|steps| - 1], steps[|steps| - 1];
      AlwaysCeilings(u, c0, clock, earlier, ns, hpa);
      AlwaysSound(u, c0, clock, earlier);
      var s := After(u, s0, earlier);
      if LosesCeiling(u, s0, steps, |steps| - 1, ns, hpa) {
        LossLeaves(u, s, step, ns, hpa);
      } else {
        StepCeilings(u, CeilingLeft(u, s0, earlier, ns, hpa), s, step, ns, hpa);
      }
    }
  }

  lemma NothingYet(c0: Cluster.State, clock: int, ns: string, hpa: string)
    requires Cluster.WellFormed(c0) && MaxOf(c0, ns, hpa).Some?
    ensures Ceilings(MaxOf(c0, ns, hpa), Initial(c0, clock), ns, hpa)
  {
    hide MaxOf;
    hide Cluster.WellFormed;
  }

  // ---------------------------------------------------------------- the results

  // In every run, the earliest freeze row of an HPA can be rolled back in any later state,
  // whatever was rolled back before, and sets the ceiling it recorded. That is the ceiling the
  // HPA started with exactly when the last freeze that went unrecorded before it, if any did,
  // left that ceiling.
  lemma EarliestFreezeRestoresIff(u: Setup, c0: Cluster.State, clock: int, steps: seq<Step>, more: seq<Step>, i: int, ns: string, hpa: string)
    requires Cluster.WellFormed(c0) && MaxOf(c0, ns, hpa).Some?
    requires FirstAbout(After(u, Initial(c0, clock), steps).rows, i, ns, hpa)
    ensures
      var s0 := Initial(c0, clock);
      var prior := After(u, s0, steps).rows[i].prior.value;
      var r := Cluster.RollbackEffect(After(u, s0, steps + more).cluster, prior);
      && r.Restored? && MaxOf(r.after, ns, hpa) == Some(prior.previousMax)
      && (Some(prior.previousMax) == MaxOf(c0, ns, hpa) <==>
            forall n :: LastLoss(u, s0, steps, n, ns, hpa) ==>
              MaxOf(After(u, s0, steps[..n + 1]).cluster, ns, hpa) == MaxOf(c0, ns, hpa))
  {
    hide After;
    hide LosesCeiling;
    hide LastLoss;
    hide CeilingLeft;
    hide MaxOf;
    var s0 := Initial(c0, clock);
    AlwaysCeilings(u, c0, clock, steps, ns, hpa);
    AlwaysCeilings(u, c0, clock, steps + more, ns, hpa);
    LeftByLastLoss(u, s0, steps, ns, hpa);
    var prior, later := After(u, s0, steps).rows[i].prior.value, After(u, s0, steps + more).cluster;
    HpaIsRestorable(later, prior);
    RollbackCeiling(later, prior, ns, hpa);
  }

  lemma HpaIsRestorable(c: Cluster.State, prior: PriorState)
    requires prior.MaxReplicas? && MaxOf(c, prior.ns, prior.hpa).Some?
    ensures Cluster.RollbackEffect(c, prior).Restored?
  {
  }

  // In every run, a ceiling is changed with nothing on record to restore it exactly when
  // nothing is on record and the last freeze that went unrecorded left another ceiling.
  lemma CeilingLostIff(u: Setup, c0: Cluster.State, clock: int, steps: seq<Step>, ns: string, hpa: string)
    requires Cluster.WellFormed(c0) && MaxOf(c0, ns, hpa).Some?
    ensures
      var s0 := Initial(c0, clock);
      var s := After(u, s0, steps);
      NoneAbout(s.rows, ns, hpa) ==>
        (MaxOf(s.cluster, ns, hpa) != MaxOf(c0, ns, hpa) <==>
           exists n :: LastLoss(u, s0, steps, n, ns, hpa)
                       && MaxOf(After(u, s0, steps[..n + 1]).cluster, ns, hpa) != MaxOf(c0, ns, hpa))
  {
    hide After;
    hide LosesCeiling;
    hide LastLoss;
    hide CeilingLeft;
    hide MaxOf;
    AlwaysCeilings(u, c0, clock, steps, ns, hpa);
    LeftByLastLoss(u, Initial(c0, clock), steps, ns, hpa);
    hide NoneAbout;
  }

  // In runs fed by the services in which the executor never dies between patch and row, no
  // freeze goes unrecorded, whatever is rolled back in them.
  lemma FedRunsRecordEveryPin(u: Setup, c0: Cluster.State, clock: int, steps: seq<Step>, n: int, ns: string, hpa: string)
    requires FedByServices(steps) && Finish(false) !in steps
    ensures !LosesCeiling(u, Initial(c0, clock), steps, n, ns, hpa)
  {
    hide After;
    var s0 := Initial(c0, clock);
    if LosesCeiling(u, s0, steps, n, ns, hpa) {
      assert steps[n] in steps;
      assert forall e :: e in steps[..n] ==> e in steps;
      AlwaysFed(u, c0, clock, steps[..n]);
      FedIsStorable(u, After(u, s0, steps[..n]));
    }
  }

  lemma {:induction false} FirstExists(rows: seq<Row>, ns: string, hpa: string)
    requires !NoneAbout(rows, ns, hpa)
    ensures exists i :: FirstAbout(rows, i, ns, hpa)
  {
    var n := |rows| - 1;
    var earlier, last := rows[..n], rows[n];
    assert rows == earlier + [last];
    AppendedFirst(earlier, last, ns, hpa);
    if NoneAbout(earlier, ns, hpa) {
      assert FirstAbout(rows, n, ns, hpa);
    } else {
      FirstExists(earlier, ns, hpa);
      var i :| FirstAbout(earlier, i, ns, hpa);
      assert FirstAbout(rows, i, ns, hpa);
    }
  }

  // So in every such run, each HPA whose ceiling is not what it was has its original ceiling
  // on record, in the first row about it.
  lemma CeilingsStayRecoverable(u: Setup, c0: Cluster.State, clock: int, steps: seq<Step>, ns: string, hpa: string)
    requires FedByServices(steps) && Finish(false) !in steps
    requires Cluster.WellFormed(c0) && MaxOf(c0, ns, hpa).Some?
    ensures
      var s := After(u, Initial(c0, clock), steps);
      MaxOf(s.cluster, ns, hpa) != MaxOf(c0, ns, hpa) ==>
        exists i :: FirstAbout(s.rows, i, ns, hpa) && s.rows[i].result.Executed?
                    && s.rows[i].prior == Some(MaxReplicas(ns, hpa, MaxOf(c0, ns, hpa).value))
  {
    hide After;
    hide MaxOf;
    hide NoneAbout;
    hide LosesCeiling;
    hide LastLoss;
    hide CeilingLeft;
    var s := After(u, Initial(c0, clock), steps);
    forall n ensures !LosesCeiling(u, Initial(c0, clock), steps, n, ns, hpa) {
      FedRunsRecordEveryPin(u, c0, clock, steps, n, ns, hpa);
    }
    LeftByLastLoss(u, Initial(c0, clock), steps, ns, hpa);
    AlwaysCeilings(u, c0, clock, steps, ns, hpa);
    AlwaysSound(u, c0, clock, steps);
    if MaxOf(s.cluster, ns, hpa) != MaxOf(c0, ns, hpa) {
      FirstExists(s.rows, ns, hpa);
      var i :| FirstAbout(s.rows, i, ns, hpa);
      assert RowSound(u.executor, s.rows, i);
    }
  }
}
