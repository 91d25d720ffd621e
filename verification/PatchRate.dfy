// The two ceilings and the patches themselves. The executor counts rows, so a patch whose row
// was not stored is not counted: any window holds at most the ceiling of recorded patches, and
// of patches altogether exactly those and the unrecorded ones.
module PatchRate {
  import opened Prelude
  import opened Ledger
  import opened Policy
  import opened Protocol
  import opened LedgerSafety
  import opened Authority
  import opened LostLimits
  import opened BlastRadius
  import Cluster
  import Executor

  datatype Patch = Patch(at: int, service: string, recorded: bool)

  // Every throttle and freeze applied to the cluster, in order.
  function PatchesOf(u: Setup, s0: System, steps: seq<Step>): seq<Patch> {
    if steps == [] then []
    else PatchesOf(u, s0, steps[..|steps| - 1]) + PatchedBy(After(u, s0, steps[..|steps| - 1]), steps[|steps| - 1])
  }

  function PatchedBy(s: System, step: Step): seq<Patch> {
    if step.Finish? && Patching(s)
    then [Patch(s.clock, s.job.value.message.service, step.recorded && Storable(s, s.job.value.message))]
    else []
  }

  // recorded: None for all patches, otherwise those whose row was stored or was not.
  predicate Counted(p: Patch, lo: int, hi: int, service: Option<string>, recorded: Option<bool>) {
    && lo <= p.at <= hi && (service.None? || p.service == service.value)
    && (recorded.None? || p.recorded == recorded.value)
  }

  ghost function PatchedIn(ps: seq<Patch>, lo: int, hi: int, service: Option<string>, recorded: Option<bool>): set<nat> {
    set i: nat | i < |ps| && Counted(ps[i], lo, hi, service, recorded)
  }

  function PatchesBetween(ps: seq<Patch>, lo: int, hi: int, service: Option<string>, recorded: Option<bool>): nat {
    if ps == [] then 0
    else
      PatchesBetween(ps[..|ps| - 1], lo, hi, service, recorded)
      + if Counted(ps[|ps| - 1], lo, hi, service, recorded) then 1 else 0
  }

  lemma {:induction false} PatchesAreCounted(ps: seq<Patch>, lo: int, hi: int, service: Option<string>, recorded: Option<bool>)
    ensures PatchesBetween(ps, lo, hi, service, recorded) == |PatchedIn(ps, lo, hi, service, recorded)|
  {
    if ps != [] {
      var n := |ps| - 1;
      var earlier := ps[..n];
      PatchesAreCounted(earlier, lo, hi, service, recorded);
      var before := PatchedIn(earlier, lo, hi, service, recorded);
      if n in PatchedIn(ps, lo, hi, service, recorded) {
        assert PatchedIn(ps, lo, hi, service, recorded) == before + {n};
      } else {
        assert PatchedIn(ps, lo, hi, service, recorded) == before;
      }
    }
  }

  lemma {:induction false} RecordedOrNot(ps: seq<Patch>, lo: int, hi: int, service: Option<string>)
    ensures PatchesBetween(ps, lo, hi, service, None)
         == PatchesBetween(ps, lo, hi, service, Some(true)) + PatchesBetween(ps, lo, hi, service, Some(false))
  {
    if ps != [] {
      RecordedOrNot(ps[..|ps| - 1], lo, hi, service);
    }
  }

  // ---------------------------------------------------------------- recorded patches are executed rows

  lemma {:induction false} ExecutedIgnoresInert(rows: seq<Row>, rows': seq<Row>, lo: int, hi: int, service: Option<string>)
    requires rows <= rows' && forall i :: |rows| <= i < |rows'| ==> !rows'[i].result.Executed?
    ensures ExecutedBetween(rows', lo, hi, service) == ExecutedBetween(rows, lo, hi, service)
    decreases |rows'|
  {
    if |rows'| > |rows| {
      ExecutedIgnoresInert(rows, rows'[..|rows'| - 1], lo, hi, service);
    } else {
      assert rows' == rows;
    }
  }

  lemma FinishRecords(u: Setup, s: System, recorded: bool)
    requires Sound(u, s)
    ensures
      var rows := Finished(u, s, recorded).rows;
      if Patching(s) && recorded && Storable(s, s.job.value.message)
      then |rows| == |s.rows| + 1 && s.rows <= rows && rows[|s.rows|].result.Executed?
           && rows[|s.rows|].executedAt == s.clock && rows[|s.rows|].service == s.job.value.message.service
      else s.rows <= rows && forall i :: |s.rows| <= i < |rows| ==> !rows[i].result.Executed?
  {
    hide Cluster.ThrottleEffect;
    hide Cluster.FreezeEffect;
    hide Cluster.RollbackEffect;
    hide RowsSound;
    hide ChecksSound;
  }

  lemma OnePatch(s: System, step: Step, lo: int, hi: int, service: Option<string>)
    ensures PatchesBetween(PatchedBy(s, step), lo, hi, service, Some(true)) ==
            if step.Finish? && Patching(s) && step.recorded && Storable(s, s.job.value.message)
               && lo <= s.clock <= hi && (service.None? || s.job.value.message.service == service.value)
            then 1 else 0
  {
    hide Storable;
    var ps := PatchedBy(s, step);
    if ps != [] {
      assert ps[..|ps| - 1] == [];
    }
    hide Patching;
  }

  lemma RowCounts(rows: seq<Row>, row: Row, lo: int, hi: int, service: Option<string>)
    requires row.result.Executed?
    ensures ExecutedBetween(rows + [row], lo, hi, service)
         == ExecutedBetween(rows, lo, hi, service) + if lo <= row.executedAt <= hi && Of(row, service) then 1 else 0
  {
    assert (rows + [row])[..|rows|] == rows;
  }

  lemma FinishCounts(u: Setup, s: System, recorded: bool, lo: int, hi: int, service: Option<string>)
    requires Sound(u, s)
    ensures ExecutedBetween(Finished(u, s, recorded).rows, lo, hi, service)
         == ExecutedBetween(s.rows, lo, hi, service) + PatchesBetween(PatchedBy(s, Finish(recorded)), lo, hi, service, Some(true))
  {
    hide Sound;
    hide Finished;
    hide Executor.EffectOf;
    hide Storable;
    hide PatchesBetween;
    hide ExecutedBetween;
    hide PatchedBy;
    var rows := Finished(u, s, recorded).rows;
    FinishRecords(u, s, recorded);
    OnePatch(s, Finish(recorded), lo, hi, service);
    if Patching(s) && recorded && Storable(s, s.job.value.message) {
      assert rows == s.rows + [rows[|s.rows|]];
      RowCounts(s.rows, rows[|s.rows|], lo, hi, service);
    } else {
      ExecutedIgnoresInert(s.rows, rows, lo, hi, service);
    }
  }

  lemma OthersCount(u: Setup, s: System, step: Step, lo: int, hi: int, service: Option<string>)
    requires !step.Finish?
    ensures ExecutedBetween(Apply(u, s, step).rows, lo, hi, service) == ExecutedBetween(s.rows, lo, hi, service)
  {
    hide Apply;
    hide ExecutedBetween;
    OnlyAppends(u, s, step);
    OthersAppendInert(u, s, step);
    ExecutedIgnoresInert(s.rows, Apply(u, s, step).rows, lo, hi, service);
  }

  lemma StepRecords(u: Setup, s: System, step: Step, lo: int, hi: int, service: Option<string>)
    requires Sound(u, s)
    ensures ExecutedBetween(Apply(u, s, step).rows, lo, hi, service)
         == ExecutedBetween(s.rows, lo, hi, service) + PatchesBetween(PatchedBy(s, step), lo, hi, service, Some(true))
  {
    hide Sound;
    hide ExecutedBetween;
    hide PatchesBetween;
    hide PatchedBy;
    hide Patching;
    OnePatch(s, step, lo, hi, service);
    if step.Finish? {
      FinishCounts(u, s, step.recorded, lo, hi, service);
      hide Finished;
    } else {
      OthersCount(u, s, step, lo, hi, service);
      hide Apply;
    }
  }

  lemma {:induction false} Concatenated(ps: seq<Patch>, qs: seq<Patch>, lo: int, hi: int, service: Option<string>, recorded: Option<bool>)
    ensures PatchesBetween(ps + qs, lo, hi, service, recorded)
         == PatchesBetween(ps, lo, hi, service, recorded) + PatchesBetween(qs, lo, hi, service, recorded)
    decreases |qs|
  {
    if qs == [] {
      assert ps + qs == ps;
    } else {
      assert (ps + qs)[..|ps + qs| - 1] == ps + qs[..|qs| - 1];
      Concatenated(ps, qs[..|qs| - 1], lo, hi, service, recorded);
    }
  }

  lemma {:induction false} RecordedAreExecuted(
    u: Setup, cluster: Cluster.State, clock: int, steps: seq<Step>, lo: int, hi: int, service: Option<string>)
    ensures PatchesBetween(PatchesOf(u, Initial(cluster, clock), steps), lo, hi, service, Some(true))
         == ExecutedBetween(After(u, Initial(cluster, clock), steps).rows, lo, hi, service)
  {
    hide Apply;
    hide Sound;
    hide PatchedBy;
    if steps != [] {
      var s0 := Initial(cluster, clock);
      var earlier, step := steps[..|steps| - 1], steps[|steps| - 1];
      RecordedAreExecuted(u, cluster, clock, earlier, lo, hi, service);
      AlwaysSound(u, cluster, clock, earlier);
      StepRecords(u, After(u, s0, earlier), step, lo, hi, service);
      Concatenated(PatchesOf(u, s0, earlier), PatchedBy(After(u, s0, earlier), step), lo, hi, service, Some(true));
      AfterLast(u, s0, steps);
      hide PatchesBetween;
      hide ExecutedBetween;
    }
  }

  // ---------------------------------------------------------------- the results

  // In every run, any closed interval as long as a window holds at most its ceiling of patches
  // beyond those whose row was not stored, over all services and for each one.
  lemma PatchesBounded(u: Setup, cluster: Cluster.State, clock: int, steps: seq<Step>, lo: int, service: string)
    ensures
      var ps, cfg := PatchesOf(u, Initial(cluster, clock), steps), u.executor;
      && |PatchedIn(ps, lo, lo + cfg.globalWindow, None, None)|
         <= Max(0, cfg.maxGlobal) + |PatchedIn(ps, lo, lo + cfg.globalWindow, None, Some(false))|
      && |PatchedIn(ps, lo, lo + cfg.serviceWindow, Some(service), None)|
         <= Max(0, cfg.maxPerService) + |PatchedIn(ps, lo, lo + cfg.serviceWindow, Some(service), Some(false))|
  {
    hide After;
    hide PatchesOf;
    hide PatchedIn;
    hide PatchesBetween;
    hide ExecutedIn;
    BlastRadiusBounded(u, cluster, clock, steps, lo, service);
    PatchesSplit(u, cluster, clock, steps, lo, lo + u.executor.globalWindow, None);
    PatchesSplit(u, cluster, clock, steps, lo, lo + u.executor.serviceWindow, Some(service));
  }

  lemma PatchesSplit(u: Setup, cluster: Cluster.State, clock: int, steps: seq<Step>, lo: int, hi: int, service: Option<string>)
    ensures
      var s0 := Initial(cluster, clock);
      var ps := PatchesOf(u, s0, steps);
      |PatchedIn(ps, lo, hi, service, None)|
      == |ExecutedIn(After(u, s0, steps).rows, lo, hi, service)| + |PatchedIn(ps, lo, hi, service, Some(false))|
  {
    hide After;
    hide PatchesOf;
    hide PatchedIn;
    hide PatchesBetween;
    hide ExecutedIn;
    hide ExecutedBetween;
    var ps, rows := PatchesOf(u, Initial(cluster, clock), steps), After(u, Initial(cluster, clock), steps).rows;
    PatchesAreCounted(ps, lo, hi, service, None);
    PatchesAreCounted(ps, lo, hi, service, Some(false));
    RecordedOrNot(ps, lo, hi, service);
    RecordedAreExecuted(u, cluster, clock, steps, lo, hi, service);
    ExecutedBetweenCounts(rows, lo, hi, service);
  }

  lemma {:induction false} EveryPatchRecorded(u: Setup, cluster: Cluster.State, clock: int, steps: seq<Step>)
    requires FedByServices(steps) && Finish(false) !in steps
    ensures forall p :: p in PatchesOf(u, Initial(cluster, clock), steps) ==> p.recorded
  {
    hide After;
    hide Fed;
    hide Sound;
    if steps != [] {
      var s0 := Initial(cluster, clock);
      var earlier, step := steps[..|steps| - 1], steps[|steps| - 1];
      assert forall e :: e in earlier ==> e in steps;
      assert step in steps;
      EveryPatchRecorded(u, cluster, clock, earlier);
      AlwaysFed(u, cluster, clock, earlier);
      AlwaysSound(u, cluster, clock, earlier);
      var s := After(u, s0, earlier);
      if step.Finish? && Patching(s) {
        ActsAreNoRollbacks(u, s);
        FedIsStorable(u, s);
      }
      hide Patching;
      hide Storable;
    }
  }

  lemma ActsAreNoRollbacks(u: Setup, s: System)
    requires Sound(u, s) && Patching(s)
    ensures !s.job.value.message.action.Rollback?
  {
  }

  // Fed by the services, and with no death between patch and row, a window holds at most its
  // ceiling of patches.
  lemma FedPatchesWithinCeilings(u: Setup, cluster: Cluster.State, clock: int, steps: seq<Step>, lo: int, service: string)
    requires FedByServices(steps) && Finish(false) !in steps
    ensures
      var ps, cfg := PatchesOf(u, Initial(cluster, clock), steps), u.executor;
      && |PatchedIn(ps, lo, lo + cfg.globalWindow, None, None)| <= Max(0, cfg.maxGlobal)
      && |PatchedIn(ps, lo, lo + cfg.serviceWindow, Some(service), None)| <= Max(0, cfg.maxPerService)
  {
    var ps, cfg := PatchesOf(u, Initial(cluster, clock), steps), u.executor;
    PatchesBounded(u, cluster, clock, steps, lo, service);
    EveryPatchRecorded(u, cluster, clock, steps);
    hide PatchesOf;
    assert PatchedIn(ps, lo, lo + cfg.globalWindow, None, Some(false)) == {};
    assert PatchedIn(ps, lo, lo + cfg.serviceWindow, Some(service), Some(false)) == {};
  }

  // Otherwise it may hold more. Two requests whose action ids were never committed cap two
  // Deployments at one moment under ceilings of 1, and the ledger stays empty.
  lemma UnknownActionsEscapeCeilings(u: Setup, c0: Cluster.State, clock: int, m: Message, m': Message)
    requires m.action.Throttle? && m'.action.Throttle? && Target(m.service) != Target(m'.service)
    requires !IsProtected(m.service, u.executor.prefixes) && !IsProtected(m'.service, u.executor.prefixes)
    requires u.executor.maxGlobal == 1 && u.executor.maxPerService == 1
    requires Cluster.ThrottleEffect(c0, m.service).Applied? && Cluster.ThrottleEffect(c0, m'.service).Applied?
    ensures
      var s0, steps := Initial(c0, clock), [Inject(m), Finish(true), Inject(m'), Finish(true)];
      && After(u, s0, steps).rows == []
      && |PatchedIn(PatchesOf(u, s0, steps), clock, clock, None, None)| == 2
  {
    hide After;
    hide PatchesOf;
    hide Cluster.ThrottleEffect;
    var s0 := Initial(c0, clock);
    StartsAt(u, s0);
    RefusedThrottle(u, s0, [], m);
    ThrottleSparesOthers(c0, m.service, m'.service);
    assert [] + [Inject(m), Finish(true)] == [Inject(m), Finish(true)];
    RefusedThrottle(u, s0, [Inject(m), Finish(true)], m');
    assert [Inject(m), Finish(true)] + [Inject(m'), Finish(true)] == [Inject(m), Finish(true), Inject(m'), Finish(true)];
    var ps := PatchesOf(u, s0, [Inject(m), Finish(true), Inject(m'), Finish(true)]);
    assert ps == [Patch(clock, m.service, false), Patch(clock, m'.service, false)];
    assert PatchedIn(ps, clock, clock, None, None) == {0, 1};
  }

  // One such request, from an idle system with an empty ledger.
  lemma RefusedThrottle(u: Setup, s0: System, steps: seq<Step>, m: Message)
    requires m.action.Throttle? && !IsProtected(m.service, u.executor.prefixes)
    requires u.executor.maxGlobal > 0 && u.executor.maxPerService > 0
    requires
      var s := After(u, s0, steps);
      s.rows == [] && s.job.None? && Cluster.ThrottleEffect(s.cluster, m.service).Applied?
    ensures
      var s, s' := After(u, s0, steps), After(u, s0, steps + [Inject(m), Finish(true)]);
      && s'.rows == [] && s'.job.None? && s'.clock == s.clock
      && s'.cluster == Cluster.ThrottleEffect(s.cluster, m.service).after
      && PatchesOf(u, s0, steps + [Inject(m), Finish(true)]) == PatchesOf(u, s0, steps) + [Patch(s.clock, m.service, false)]
  {
    hide After;
    hide Apply;
    hide PatchesOf;
    hide Cluster.ThrottleEffect;
    var s := After(u, s0, steps);
    InjectedActs(u, s, m);
    ThrottleRefused(u, Apply(u, s, Inject(m)), m);
    OneMorePatch(u, s0, steps, Inject(m));
    OneMorePatch(u, s0, steps + [Inject(m)], Finish(true));
    assert steps + [Inject(m)] + [Finish(true)] == steps + [Inject(m), Finish(true)];
    assert PatchesOf(u, s0, steps) + [] == PatchesOf(u, s0, steps);
  }

  lemma StartsAt(u: Setup, s0: System)
    ensures After(u, s0, []) == s0 && PatchesOf(u, s0, []) == []
  {
  }

  lemma OneMorePatch(u: Setup, s0: System, steps: seq<Step>, step: Step)
    ensures After(u, s0, steps + [step]) == Apply(u, After(u, s0, steps), step)
    ensures PatchesOf(u, s0, steps + [step]) == PatchesOf(u, s0, steps) + PatchedBy(After(u, s0, steps), step)
  {
    hide Apply;
    hide PatchedBy;
    assert (steps + [step])[..|steps|] == steps;
  }

  // The patch is applied and its row refused: the ledger has no row it could descend from.
  lemma ThrottleRefused(u: Setup, s: System, m: Message)
    requires s.rows == [] && s.job == Some(Job(m, Executor.Act, s.clock)) && m.action.Throttle?
    requires Cluster.ThrottleEffect(s.cluster, m.service).Applied?
    ensures
      var s' := Apply(u, s, Finish(true));
      && s'.rows == [] && s'.job.None? && s'.clock == s.clock
      && s'.cluster == Cluster.ThrottleEffect(s.cluster, m.service).after
      && PatchedBy(s, Finish(true)) == [Patch(s.clock, m.service, false)]
  {
    hide Cluster.ThrottleEffect;
  }

  lemma ThrottleSparesOthers(c: Cluster.State, service: string, other: string)
    requires Target(service) != Target(other)
    requires Cluster.ThrottleEffect(c, service).Applied? && Cluster.ThrottleEffect(c, other).Applied?
    ensures Cluster.ThrottleEffect(Cluster.ThrottleEffect(c, service).after, other).Applied?
  {
    hide Cluster.ThrottleEffect;
    Cluster.ThrottleCaps(c, service);
    Cluster.ThrottleCaps(c, other);
    Cluster.ThrottleCaps(Cluster.ThrottleEffect(c, service).after, other);
  }
}
