// The two ceilings over every run: no window of the configured length ever holds more
// executed rows than the ceiling, although the count is taken before the row is written and
// other services, deliveries and crashes come in between.
module BlastRadius {
  import opened Prelude
  import opened Ledger
  import opened Protocol
  import opened LedgerSafety
  import Executor
  import Cluster

  predicate Of(row: Row, service: Option<string>) {
    service.None? || row.service == service.value
  }

  // Executed rows, of one service or of all, in the closed interval [lo, hi].
  function ExecutedBetween(rows: seq<Row>, lo: int, hi: int, service: Option<string>): nat {
    if rows == [] then 0
    else
      var last := rows[|rows| - 1];
      ExecutedBetween(rows[..|rows| - 1], lo, hi, service)
      + if last.result.Executed? && lo <= last.executedAt <= hi && Of(last, service) then 1 else 0
  }

  // The rows themselves, by position.
  ghost function ExecutedIn(rows: seq<Row>, lo: int, hi: int, service: Option<string>): set<nat> {
    set i: nat | i < |rows| && rows[i].result.Executed? && lo <= rows[i].executedAt <= hi && Of(rows[i], service)
  }

  lemma {:induction false} ExecutedBetweenCounts(rows: seq<Row>, lo: int, hi: int, service: Option<string>)
    ensures ExecutedBetween(rows, lo, hi, service) == |ExecutedIn(rows, lo, hi, service)|
  {
    if rows != [] {
      var n := |rows| - 1;
      var earlier := rows[..n];
      ExecutedBetweenCounts(earlier, lo, hi, service);
      var before := ExecutedIn(earlier, lo, hi, service);
      if n in ExecutedIn(rows, lo, hi, service) {
        assert ExecutedIn(rows, lo, hi, service) == before + {n};
      } else {
        assert ExecutedIn(rows, lo, hi, service) == before;
      }
    }
  }

  // When row i was executed, fewer than the ceiling had acted in the window ending at it.
  ghost predicate RowInBudget(cfg: Executor.Config, rows: seq<Row>, i: int)
    requires 0 <= i < |rows|
  {
    rows[i].result.Executed? ==>
      && Executor.CountSince(rows[..i], rows[i].executedAt - cfg.globalWindow, None) < cfg.maxGlobal
      && Executor.CountSince(rows[..i], rows[i].executedAt - cfg.serviceWindow, Some(rows[i].service)) < cfg.maxPerService
  }

  ghost predicate InBudget(cfg: Executor.Config, s: System) {
    && (forall i :: 0 <= i < |s.rows| ==> RowInBudget(cfg, s.rows, i))
    && (s.job.Some? && s.job.value.plan.Act? ==> JobInBudget(cfg, s.rows, s.job.value))
  }

  ghost predicate JobInBudget(cfg: Executor.Config, rows: seq<Row>, job: Job) {
    && Executor.CountSince(rows, job.checkedAt - cfg.globalWindow, None) < cfg.maxGlobal
    && Executor.CountSince(rows, job.checkedAt - cfg.serviceWindow, Some(job.message.service)) < cfg.maxPerService
  }

  lemma {:induction false} CountLater(rows: seq<Row>, since: int, since': int, service: Option<string>)
    requires since <= since'
    ensures Executor.CountSince(rows, since', service) <= Executor.CountSince(rows, since, service)
  {
    if rows != [] {
      CountLater(rows[..|rows| - 1], since, since', service);
    }
  }

  // Rows that record no action taken do not count.
  lemma {:induction false} CountIgnoresInert(rows: seq<Row>, rows': seq<Row>, since: int, service: Option<string>)
    requires rows <= rows' && forall i :: |rows| <= i < |rows'| ==> Inert(rows'[i])
    ensures Executor.CountSince(rows', since, service) == Executor.CountSince(rows, since, service)
    decreases |rows'|
  {
    if |rows'| > |rows| {
      CountIgnoresInert(rows, rows'[..|rows'| - 1], since, service);
    } else {
      assert rows' == rows;
    }
  }

  lemma GateInBudget(cfg: Executor.Config, rows: seq<Row>, m: Message, now: int)
    requires Executor.Gate(cfg, rows, m, now).Act?
    ensures JobInBudget(cfg, rows, Job(m, Executor.Act, now))
  {
    hide Executor.CountSince;
  }

  // What Finish appends: at most one row, executed only if the job was to act, never earlier
  // than the gate.
  lemma FinishAppends(u: Setup, s: System, recorded: bool)
    requires s.job.Some? && JobSound(u.executor, s.rows, s.clock, s.job.value)
    ensures
      var rows := Finished(u, s, recorded).rows;
      rows == s.rows ||
      (|rows| == |s.rows| + 1 && s.rows <= rows && rows[|s.rows|].executedAt == s.clock
       && rows[|s.rows|].service == s.job.value.message.service
       && (rows[|s.rows|].result.Executed? ==> s.job.value.plan.Act?))
  {
    hide Executor.CountSince;
  }

  lemma RowStaysInBudget(cfg: Executor.Config, rows: seq<Row>, rows': seq<Row>, i: int)
    requires rows <= rows' && 0 <= i < |rows| && RowInBudget(cfg, rows, i)
    ensures RowInBudget(cfg, rows', i)
  {
    assert rows'[..i] == rows[..i];
  }

  // An executed row written at now under a job gated at checkedAt <= now.
  lemma NewRowInBudget(cfg: Executor.Config, rows: seq<Row>, row: Row, job: Job)
    requires JobInBudget(cfg, rows, job) && job.checkedAt <= row.executedAt && row.service == job.message.service
    ensures RowInBudget(cfg, rows + [row], |rows|)
  {
    assert (rows + [row])[..|rows|] == rows;
    CountLater(rows, job.checkedAt - cfg.globalWindow, row.executedAt - cfg.globalWindow, None);
    CountLater(rows, job.checkedAt - cfg.serviceWindow, row.executedAt - cfg.serviceWindow, Some(row.service));
  }

  lemma FinishInBudget(u: Setup, s: System, recorded: bool)
    requires Sound(u, s) && InBudget(u.executor, s) && s.job.Some?
    ensures forall i :: 0 <= i < |Finished(u, s, recorded).rows| ==> RowInBudget(u.executor, Finished(u, s, recorded).rows, i)
  {
    FinishAppends(u, s, recorded);
    var rows := Finished(u, s, recorded).rows;
    hide Finished;
    hide RowInBudget;
    forall i | 0 <= i < |rows| ensures RowInBudget(u.executor, rows, i) {
      if i < |s.rows| {
        RowStaysInBudget(u.executor, s.rows, rows, i);
      } else {
        assert rows == s.rows + [rows[i]];
        if rows[i].result.Executed? {
          NewRowInBudget(u.executor, s.rows, rows[i], s.job.value);
        } else {
          NotExecutedInBudget(u.executor, rows, i);
        }
      }
    }
  }

  lemma NotExecutedInBudget(cfg: Executor.Config, rows: seq<Row>, i: int)
    requires 0 <= i < |rows| && !rows[i].result.Executed?
    ensures RowInBudget(cfg, rows, i)
  {
  }

  lemma JobStaysInBudget(cfg: Executor.Config, rows: seq<Row>, rows': seq<Row>, job: Job)
    requires JobInBudget(cfg, rows, job) && rows <= rows'
    requires forall i :: |rows| <= i < |rows'| ==> Inert(rows'[i])
    ensures JobInBudget(cfg, rows', job)
  {
    CountIgnoresInert(rows, rows', job.checkedAt - cfg.globalWindow, None);
    CountIgnoresInert(rows, rows', job.checkedAt - cfg.serviceWindow, Some(job.message.service));
  }

  lemma OthersInBudget(u: Setup, s: System, step: Step)
    requires InBudget(u.executor, s) && !step.Finish?
    ensures InBudget(u.executor, Apply(u, s, step))
  {
    var cfg, s' := u.executor, Apply(u, s, step);
    OnlyAppends(u, s, step);
    JobOrigin(u, s, step);
    OthersAppendInert(u, s, step);
    hide Apply;
    hide RowInBudget;
    hide JobInBudget;
    forall i | 0 <= i < |s'.rows| ensures RowInBudget(cfg, s'.rows, i) {
      if i < |s.rows| {
        RowStaysInBudget(cfg, s.rows, s'.rows, i);
      } else {
        NotExecutedInBudget(cfg, s'.rows, i);
      }
    }
    if s'.job.Some? && s'.job.value.plan.Act? {
      if s'.job == s.job {
        JobStaysInBudget(cfg, s.rows, s'.rows, s.job.value);
      } else {
        GateInBudget(cfg, s.rows, s'.job.value.message, s.clock);
      }
    }
  }

  lemma StepInBudget(u: Setup, s: System, step: Step)
    requires Sound(u, s) && InBudget(u.executor, s)
    ensures InBudget(u.executor, Apply(u, s, step))
  {
    if step.Finish? {
      if s.job.Some? {
        FinishInBudget(u, s, step.recorded);
      }
    } else {
      OthersInBudget(u, s, step);
    }
  }

  lemma {:induction false} AlwaysInBudget(u: Setup, cluster: Cluster.State, clock: int, steps: seq<Step>)
    ensures InBudget(u.executor, After(u, Initial(cluster, clock), steps))
  {
    if steps != [] {
      var earlier := steps[..|steps| - 1];
      AlwaysInBudget(u, cluster, clock, earlier);
      AlwaysSound(u, cluster, clock, earlier);
      StepInBudget(u, After(u, Initial(cluster, clock), earlier), steps[|steps| - 1]);
    }
  }

  lemma {:induction false} BetweenIsCounted(rows: seq<Row>, lo: int, hi: int, since: int, service: Option<string>)
    requires since <= lo
    ensures ExecutedBetween(rows, lo, hi, service) <= Executor.CountSince(rows, since, service)
  {
    if rows != [] {
      BetweenIsCounted(rows[..|rows| - 1], lo, hi, since, service);
    }
  }

  // Only the last row of the interval matters: everything before it in the interval was counted.
  lemma {:induction false} BudgetBoundsWindow(cfg: Executor.Config, rows: seq<Row>, lo: int)
    requires forall i :: 0 <= i < |rows| ==> RowInBudget(cfg, rows, i)
    ensures ExecutedBetween(rows, lo, lo + cfg.globalWindow, None) <= Max(0, cfg.maxGlobal)
    ensures forall service :: ExecutedBetween(rows, lo, lo + cfg.serviceWindow, Some(service)) <= Max(0, cfg.maxPerService)
  {
    if rows != [] {
      var n := |rows| - 1;
      var earlier, last := rows[..n], rows[n];
      forall i | 0 <= i < n ensures RowInBudget(cfg, earlier, i) {
        assert RowInBudget(cfg, rows, i) && earlier[..i] == rows[..i];
      }
      BudgetBoundsWindow(cfg, earlier, lo);
      assert RowInBudget(cfg, rows, n);
      if last.result.Executed? && lo <= last.executedAt <= lo + cfg.globalWindow {
        BetweenIsCounted(earlier, lo, lo + cfg.globalWindow, last.executedAt - cfg.globalWindow, None);
      }
      forall service ensures ExecutedBetween(rows, lo, lo + cfg.serviceWindow, Some(service)) <= Max(0, cfg.maxPerService) {
        if last.result.Executed? && lo <= last.executedAt <= lo + cfg.serviceWindow && last.service == service {
          BetweenIsCounted(earlier, lo, lo + cfg.serviceWindow, last.executedAt - cfg.serviceWindow, Some(service));
        }
      }
    }
  }

  // In every run, any closed interval as long as a window holds at most its ceiling of
  // executed rows, over all services and for each one.
  lemma BlastRadiusBounded(u: Setup, cluster: Cluster.State, clock: int, steps: seq<Step>, lo: int, service: string)
    ensures
      var rows, cfg := After(u, Initial(cluster, clock), steps).rows, u.executor;
      && |ExecutedIn(rows, lo, lo + cfg.globalWindow, None)| <= Max(0, cfg.maxGlobal)
      && |ExecutedIn(rows, lo, lo + cfg.serviceWindow, Some(service))| <= Max(0, cfg.maxPerService)
  {
    hide After;
    hide ExecutedIn;
    hide ExecutedBetween;
    AlwaysInBudget(u, cluster, clock, steps);
    var rows := After(u, Initial(cluster, clock), steps).rows;
    BudgetBoundsWindow(u.executor, rows, lo);
    ExecutedBetweenCounts(rows, lo, lo + u.executor.globalWindow, None);
    ExecutedBetweenCounts(rows, lo, lo + u.executor.serviceWindow, Some(service));
  }
}
