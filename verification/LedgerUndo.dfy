// The ledger as an undo log for whole runs: as long as every patch got its row, its prior
// states, newest first, take the cluster back to where it began - whatever was rolled back in
// the meantime.
module LedgerUndo {
  import opened Ledger
  import opened Protocol
  import opened LedgerSafety
  import opened Authority
  import opened Undo
  import opened LostLimits
  import Cluster
  import Executor

  // The prior states the ledger holds, oldest first.
  function Priors(rows: seq<Row>): seq<PriorState> {
    if rows == [] then []
    else
      var last := rows[|rows| - 1];
      Priors(rows[..|rows| - 1]) + if last.prior.Some? then [last.prior.value] else []
  }

  // Undoing what the ledger of s holds takes its cluster back to the limits of c0.
  ghost predicate Undoes(c0: Cluster.State, s: System) {
    && Cluster.WellFormed(s.cluster)
    && UndoAll(s.cluster, Priors(s.rows)).Some?
    && Limits(UndoAll(s.cluster, Priors(s.rows)).value) == Limits(c0)
  }

  lemma {:induction false} UndoAllRespectsLimits(a: Cluster.State, b: Cluster.State, refs: seq<PriorState>)
    requires Limits(a) == Limits(b)
    ensures UndoAll(a, refs).Some? == UndoAll(b, refs).Some?
    ensures UndoAll(a, refs).Some? ==> Limits(UndoAll(a, refs).value) == Limits(UndoAll(b, refs).value)
    decreases |refs|
  {
    if refs != [] {
      var last := refs[|refs| - 1];
      RollbackRespectsLimits(a, b, last);
      if Cluster.RollbackEffect(a, last).Restored? {
        UndoAllRespectsLimits(Cluster.RollbackEffect(a, last).after, Cluster.RollbackEffect(b, last).after, refs[..|refs| - 1]);
      }
    }
  }

  lemma {:induction false} PriorsIgnoreInert(rows: seq<Row>, rows': seq<Row>)
    requires rows <= rows' && forall i :: |rows| <= i < |rows'| ==> Inert(rows'[i])
    ensures Priors(rows') == Priors(rows)
    decreases |rows'|
  {
    if |rows'| > |rows| {
      PriorsIgnoreInert(rows, rows'[..|rows'| - 1]);
    } else {
      assert rows' == rows;
    }
  }

  lemma {:induction false} PriorsHold(rows: seq<Row>, i: int)
    requires 0 <= i < |rows| && rows[i].prior.Some?
    ensures rows[i].prior.value in Priors(rows)
  {
    var n := |rows| - 1;
    if i < n {
      PriorsHold(rows[..n], i);
    }
  }

  // What a delivery does to cluster and log: it adds a reference that takes it back, or it
  // applies one the log holds, or it changes nothing.
  lemma ConcludeUndone(u: Setup, s: System)
    requires Sound(u, s) && s.job.Some? && Cluster.WellFormed(s.cluster)
    ensures
      var plan := s.job.value.plan;
      var outcome := Executor.Conclude(u.executor, s.cluster, s.job.value.message, plan, s.clock);
      && Cluster.WellFormed(outcome.cluster)
      && if outcome.row.Some? && outcome.row.value.prior.Some?
         then Cluster.RollbackEffect(outcome.cluster, outcome.row.value.prior.value) == Cluster.Restored(s.cluster)
         else
           || outcome.cluster == s.cluster
           || (plan.Reverse? && Cluster.RollbackEffect(s.cluster, plan.prior) == Cluster.Restored(outcome.cluster))
  {
    hide Cluster.ThrottleEffect;
    hide Cluster.FreezeEffect;
    hide Cluster.RollbackEffect;
    hide Cluster.WellFormed;
    hide RowsSound;
    hide ChecksSound;
    var m, plan := s.job.value.message, s.job.value.plan;
    if plan.Reverse? {
      RollbackKeepsWellFormed(s.cluster, plan.prior);
    } else if plan.Act? && m.action.Throttle? {
      PerformKeepsWellFormed(s.cluster, ThrottleOp(m.service));
      if Cluster.ThrottleEffect(s.cluster, m.service).Applied? {
        ThrottleUndone(s.cluster, m.service);
      }
    } else if plan.Act? {
      PerformKeepsWellFormed(s.cluster, FreezeOp(m.service));
      if Cluster.FreezeEffect(s.cluster, m.service).Applied? {
        FreezeUndone(s.cluster, m.service);
      }
    }
  }

  // Writing a row whose prior state reverses the step to c' extends the undo log.
  lemma RowUndone(c: Cluster.State, c': Cluster.State, rows: seq<Row>, row: Row)
    requires row.prior.Some? ==> Cluster.RollbackEffect(c', row.prior.value) == Cluster.Restored(c)
    requires row.prior.None? ==> c' == c
    ensures UndoAll(c', Priors(rows + [row])) == UndoAll(c, Priors(rows))
  {
    hide Cluster.RollbackEffect;
    assert (rows + [row])[..|rows|] == rows;
    if row.prior.Some? {
      var refs := Priors(rows) + [row.prior.value];
      assert Priors(rows + [row]) == refs;
      assert refs[..|refs| - 1] == Priors(rows);
    } else {
      assert Priors(rows) + [] == Priors(rows);
    }
  }

  // What the executor appends: the row of its outcome, always if it is a recorded patch.
  lemma FinishStores(u: Setup, s: System, recorded: bool)
    requires Sound(u, s) && s.job.Some?
    ensures
      var outcome := Executor.Conclude(u.executor, s.cluster, s.job.value.message, s.job.value.plan, s.clock);
      var s' := Finished(u, s, recorded);
      && s'.cluster == outcome.cluster
      && (s'.rows == s.rows || (outcome.row.Some? && s'.rows == s.rows + [outcome.row.value]))
      && (outcome.row.Some? && outcome.row.value.prior.Some? && !UnrecordedPatch(s, Finish(recorded)) ==>
            s'.rows == s.rows + [outcome.row.value])
  {
    hide Cluster.ThrottleEffect;
    hide Cluster.FreezeEffect;
    hide Cluster.RollbackEffect;
    hide RowsSound;
    hide ChecksSound;
  }

  lemma FinishUndoes(u: Setup, c0: Cluster.State, s: System, recorded: bool)
    requires Sound(u, s) && Undoes(c0, s) && !UnrecordedPatch(s, Finish(recorded))
    ensures Undoes(c0, Finished(u, s, recorded))
  {
    if s.job.Some? {
      hide Executor.Conclude;
      hide RowsSound;
      hide ChecksSound;
      hide UnrecordedPatch;
      hide Limits;
      hide UndoAll;
      hide Priors;
      hide Cluster.RollbackEffect;
      hide Cluster.WellFormed;
      ConcludeUndone(u, s);
      FinishStores(u, s, recorded);
      var plan, rows := s.job.value.plan, s.rows;
      var outcome := Executor.Conclude(u.executor, s.cluster, s.job.value.message, plan, s.clock);
      if outcome.row.Some? && outcome.row.value.prior.Some? {
        RowUndone(s.cluster, outcome.cluster, rows, outcome.row.value);
      } else {
        if outcome.row.Some? {
          RowUndone(outcome.cluster, outcome.cluster, rows, outcome.row.value);
        }
        if outcome.cluster != s.cluster {
          PriorsHold(rows, plan.target);
          UndoAllAbsorbs(s.cluster, plan.prior, Priors(rows));
        }
      }
      hide Finished;
    }
  }

  lemma OthersUndo(u: Setup, c0: Cluster.State, s: System, step: Step)
    requires Undoes(c0, s) && !step.Finish?
    ensures Undoes(c0, Apply(u, s, step))
  {
    hide Apply;
    hide Limits;
    hide UndoAll;
    hide Priors;
    hide Report;
    hide Cluster.WellFormed;
    OnlyAppends(u, s, step);
    OthersAppendInert(u, s, step);
    ClusterChangesOnlyIn(u, s, step);
    var s' := Apply(u, s, step);
    PriorsIgnoreInert(s.rows, s'.rows);
    if step.ReportReplicas? {
      ReportKeepsLimits(s.cluster, step.ns, step.hpa, step.count);
      PerformKeepsWellFormed(s.cluster, ReportOp(step.ns, step.hpa, step.count));
      UndoAllRespectsLimits(s.cluster, s'.cluster, Priors(s.rows));
    }
  }

  lemma StepUndoes(u: Setup, c0: Cluster.State, s: System, step: Step)
    requires Sound(u, s) && Undoes(c0, s) && !UnrecordedPatch(s, step)
    ensures Undoes(c0, Apply(u, s, step))
  {
    hide Sound;
    hide Undoes;
    hide UnrecordedPatch;
    if step.Finish? {
      FinishUndoes(u, c0, s, step.recorded);
      hide Finished;
    } else {
      OthersUndo(u, c0, s, step);
      hide Apply;
    }
  }

  // In every run in which each patch got its row - any queue contents, decisions, approvals,
  // rollbacks in any order, redeliveries, crashes elsewhere and replica counts - applying the
  // ledger's prior states newest first puts every CPU limit and replica ceiling back.
  lemma {:induction false} RecordedRunIsUndone(u: Setup, cluster: Cluster.State, clock: int, steps: seq<Step>)
    requires Cluster.WellFormed(cluster)
    requires forall n :: 0 <= n < |steps| ==> !UnrecordedPatch(After(u, Initial(cluster, clock), steps[..n]), steps[n])
    ensures Undoes(cluster, After(u, Initial(cluster, clock), steps))
  {
    hide UnrecordedPatch;
    if steps != [] {
      var s0 := Initial(cluster, clock);
      var earlier, last := steps[..|steps| - 1], |steps| - 1;
      forall n | 0 <= n < last ensures !UnrecordedPatch(After(u, s0, earlier[..n]), earlier[n]) {
        assert earlier[..n] == steps[..n];
      }
      RecordedRunIsUndone(u, cluster, clock, earlier);
      AlwaysSound(u, cluster, clock, earlier);
      hide Sound;
      hide Undoes;
      hide Apply;
      StepUndoes(u, cluster, After(u, s0, earlier), steps[last]);
    }
  }

  // Runs fed by the services in which the executor never dies between patch and row are such
  // runs.
  lemma LedgerUndoesRun(u: Setup, cluster: Cluster.State, clock: int, steps: seq<Step>)
    requires Cluster.WellFormed(cluster) && FedByServices(steps) && Finish(false) !in steps
    ensures Undoes(cluster, After(u, Initial(cluster, clock), steps))
  {
    hide After;
    hide Undoes;
    var s0 := Initial(cluster, clock);
    forall n | 0 <= n < |steps| ensures !UnrecordedPatch(After(u, s0, steps[..n]), steps[n]) {
      if UnrecordedPatch(After(u, s0, steps[..n]), steps[n]) {
        assert steps[n] in steps;
        assert forall e :: e in steps[..n] ==> e in steps;
        AlwaysFed(u, cluster, clock, steps[..n]);
        AlwaysSound(u, cluster, clock, steps[..n]);
        FedIsStorable(u, After(u, s0, steps[..n]));
      }
    }
    RecordedRunIsUndone(u, cluster, clock, steps);
  }
}
