// Concrete runs in which a documented promise fails: every step is one the services take, and
// every request on the queue was dispatched by decision-policy.
module Scenarios {
  import opened Prelude
  import opened Ledger
  import opened Policy
  import opened Protocol
  import opened Undo
  import opened Requests
  import opened OriginalCeiling
  import Cluster
  import Correlation
  import Decision
  import Executor
  import Api

  // An anomaly of a shop whose confidence earns autonomy, and one rule: freeze whatever comes.
  const SPIKE := Decision.AnomalyMessage(7, "shop/web", Some(50.0), Some(0.9), None, None)
  const FREEZE_ANYTHING := PolicyRow(1, Rule(None, [], None, "", false), FreezeScaling)
  const DISPATCH := Row(Some(7), None, None, FreezeScaling, Autonomous, 0, Dispatched, "shop/web", None, None)
  const REQUEST := Message(0, Some(7), "shop/web", FreezeScaling, Some(Autonomous), None)

  // Neither service protects the shop, and both ceilings leave room for an action.
  predicate Permits(u: Setup) {
    && !IsProtected("shop/web", u.decision.prefixes) && !IsProtected("shop/web", u.executor.prefixes)
    && u.executor.maxGlobal > 0 && u.executor.maxPerService > 0
  }

  // The shop's freeze has been dispatched, and the executor is idle.
  predicate Dispatching(s: System, max: int, current: int) {
    s.rows == [DISPATCH] && 7 in s.anomalies && s.job.None? && s.clock == 0 && s.cluster == Shop(max, current)
  }

  function Start(): System {
    Initial(Shop(10, 4), 0)
  }

  lemma SpikeIsDispatched(u: Setup, s: System)
    requires Permits(u) && 7 in s.anomalies && s.rows == [] && s.maps == Correlation.NO_MAPS && s.clock == 0
    requires s.waiting == map[]
    ensures
      var s' := Decided(u, s, SPIKE, [FREEZE_ANYTHING]);
      s'.rows == [DISPATCH] && s'.waiting == map[0 := REQUEST] && 7 in s'.anomalies
      && s'.published == s.published && s'.job == s.job && s'.clock == 0 && s'.cluster == s.cluster
  {
    var c := Correlation.Classify(s.maps, u.decision.windows, "shop/web", None, 0);
    assert c.MisconfigurationOrWaste?;
    assert FirstMatch([FREEZE_ANYTHING], c, "shop/web", 50.0, 0.9) == Some(FREEZE_ANYTHING);
    assert Decision.Decide(u.decision, s.maps, [FREEZE_ANYTHING], SPIKE, 0) == Decision.Logged(FREEZE_ANYTHING, Dispatched, Autonomous);
    hide Decision.Decide;
  }

  // The two steps every run here starts with.
  lemma SpikeDecided(u: Setup)
    requires Permits(u)
    ensures
      var s := After(u, Start(), [ForeignAnomaly(SPIKE), DecideOn(0, [FREEZE_ANYTHING])]);
      && Dispatching(s, 10, 4) && s.waiting == map[0 := REQUEST] && s.published == []
  {
    hide Shop;
    hide After;
    var s1 := Apply(u, Start(), ForeignAnomaly(SPIKE));
    StartsEmpty(u);
    AfterOneMore(u, Start(), [], ForeignAnomaly(SPIKE));
    AfterOneMore(u, Start(), [ForeignAnomaly(SPIKE)], DecideOn(0, [FREEZE_ANYTHING]));
    assert [] + [ForeignAnomaly(SPIKE)] == [ForeignAnomaly(SPIKE)];
    assert [ForeignAnomaly(SPIKE)] + [DecideOn(0, [FREEZE_ANYTHING])] == [ForeignAnomaly(SPIKE), DecideOn(0, [FREEZE_ANYTHING])];
    SpikeAnnounced(u);
    SpikeIsDispatched(u, s1);
    DecidesFirst(u, s1);
    hide Apply;
    hide Decided;
  }

  lemma StartsEmpty(u: Setup)
    ensures After(u, Start(), []) == Start()
  {
  }

  lemma SpikeAnnounced(u: Setup)
    ensures
      var s := Apply(u, Start(), ForeignAnomaly(SPIKE));
      && 7 in s.anomalies && s.inbox == [SPIKE] && s.rows == [] && s.waiting == map[] && s.published == []
      && s.maps == Correlation.NO_MAPS && s.clock == 0 && s.job.None? && s.cluster == Shop(10, 4)
  {
    hide Shop;
  }

  lemma DecidesFirst(u: Setup, s: System)
    requires s.inbox == [SPIKE]
    ensures Apply(u, s, DecideOn(0, [FREEZE_ANYTHING])) == Decided(u, s, SPIKE, [FREEZE_ANYTHING])
  {
    hide Decided;
  }

  // decision-policy commits a dispatch, the broker turns its publish down, and the ledger is
  // left with a dispatch nobody will ever be asked to execute and no row that says so.
  lemma TurnedDownDispatchIsSilent(u: Setup)
    requires Permits(u)
    ensures
      var steps := [ForeignAnomaly(SPIKE), DecideOn(0, [FREEZE_ANYTHING]), Publish(0, false)];
      var s := After(u, Start(), steps);
      && FedByServices(steps)
      && s.rows == [DISPATCH] && s.waiting == map[]
      && !Requested(s, 0) && !FailureNoted(s, 0)
  {
    hide After;
    hide Shop;
    var first := [ForeignAnomaly(SPIKE), DecideOn(0, [FREEZE_ANYTHING])];
    SpikeDecided(u);
    AfterOneMore(u, Start(), first, Publish(0, false));
    assert first + [Publish(0, false)] == [ForeignAnomaly(SPIKE), DecideOn(0, [FREEZE_ANYTHING]), Publish(0, false)];
    TurnsDown(u, After(u, Start(), first));
    hide Apply;
  }

  lemma TurnsDown(u: Setup, s: System)
    requires Dispatching(s, 10, 4) && s.waiting == map[0 := REQUEST] && s.published == []
    ensures
      var s' := Apply(u, s, Publish(0, false));
      s'.rows == [DISPATCH] && s'.waiting == map[] && s'.published == []
  {
    hide Shop;
  }

  // ---------------------------------------------------------------- a lost freeze

  lemma Sends(u: Setup, s: System)
    requires Dispatching(s, 10, 4) && s.waiting == map[0 := REQUEST] && s.published == []
    ensures
      var s' := Apply(u, s, Publish(0, true));
      Dispatching(s', 10, 4) && s'.published == [REQUEST] && s'.waiting == map[]
  {
    hide Shop;
  }

  // The gate lets the request through.
  lemma DeliveryActs(u: Setup, s: System, max: int, current: int)
    requires Permits(u) && Dispatching(s, max, current) && s.published == [REQUEST]
    ensures Apply(u, s, Deliver(0)) == s.(job := Some(Job(REQUEST, Executor.Act, 0)))
  {
    hide Shop;
    GatePasses(u);
    hide Executor.Gate;
  }

  lemma GatePasses(u: Setup)
    requires Permits(u)
    ensures Executor.Gate(u.executor, [DISPATCH], REQUEST, 0) == Executor.Act
  {
    assert [DISPATCH][..0] == [];
    assert Executor.CountSince([DISPATCH], -u.executor.globalWindow, None) == 0;
    assert Executor.CountSince([DISPATCH], -u.executor.serviceWindow, Some("shop/web")) == 0;
  }

  lemma ShopPinned(max: int, current: int)
    requires current != 0 && max != current
    ensures Cluster.FreezeEffect(Shop(max, current), "shop/web")
         == Cluster.Applied(Shop(current, current), MaxReplicas("shop", "web-hpa", max))
  {
    hide Shop;
    hide Cluster.FreezeEffect;
    ShopFreeze(max, current);
    assert [MaxReplicas("shop", "web-hpa", max)][0] == MaxReplicas("shop", "web-hpa", max);
  }

  lemma ShopReported(max: int, current: int, count: int)
    ensures Report(Shop(max, current), "shop", "web-hpa", Some(count)) == Shop(max, count)
  {
    hide Shop;
    hide Report;
    ShopReport(max, current, count);
  }

  // The executor dies after the patch.
  lemma PinIsLost(u: Setup, s: System)
    requires Dispatching(s.(job := None), 10, 4) && s.job == Some(Job(REQUEST, Executor.Act, 0))
    ensures
      var s' := Apply(u, s, Finish(false));
      Dispatching(s', 4, 4) && s'.published == s.published
  {
    hide Shop;
    hide Cluster.FreezeEffect;
    ShopPinned(10, 4);
  }

  lemma ReplicasDrop(u: Setup, s: System)
    requires Dispatching(s, 4, 4)
    ensures
      var s' := Apply(u, s, ReportReplicas("shop", "web-hpa", Some(2)));
      Dispatching(s', 4, 2) && s'.published == s.published
  {
    hide Shop;
    hide Report;
    ShopReported(4, 4, 2);
  }

  lemma PinIsRecorded(u: Setup, s: System)
    requires Dispatching(s.(job := None), 4, 2) && s.job == Some(Job(REQUEST, Executor.Act, 0))
    ensures
      var s' := Apply(u, s, Finish(true));
      && |s'.rows| == 2 && s'.rows[0] == DISPATCH && s'.rows[1].result.Executed?
      && s'.rows[1].prior == Some(MaxReplicas("shop", "web-hpa", 4))
  {
    hide Shop;
    hide Cluster.FreezeEffect;
    ShopPinned(4, 2);
  }

  // An HPA starts with a ceiling of 10. Its freeze at 4 is lost with the executor, it reports 2
  // replicas, and the redelivered freeze puts 4 on record as the ceiling to go back to.
  lemma LostPinIsRecordedAsOriginal(u: Setup)
    requires Permits(u)
    ensures
      var steps := [ForeignAnomaly(SPIKE), DecideOn(0, [FREEZE_ANYTHING]), Publish(0, true), Deliver(0), Finish(false),
                    ReportReplicas("shop", "web-hpa", Some(2)), Deliver(0), Finish(true)];
      var s := After(u, Start(), steps);
      && FedByServices(steps)
      && MaxOf(Start().cluster, "shop", "web-hpa") == Some(10)
      && |s.rows| == 2 && FirstAbout(s.rows, 1, "shop", "web-hpa") && s.rows[1].result.Executed?
      && s.rows[1].prior == Some(MaxReplicas("shop", "web-hpa", 4))
  {
    hide After;
    hide Apply;
    hide Shop;
    hide MaxOf;
    var s2 := After(u, Start(), [ForeignAnomaly(SPIKE), DecideOn(0, [FREEZE_ANYTHING])]);
    SpikeDecided(u);
    ShopMax(10, 4);
    Sends(u, s2);
    var s3 := Apply(u, s2, Publish(0, true));
    DeliveryActs(u, s3, 10, 4);
    var s4 := Apply(u, s3, Deliver(0));
    PinIsLost(u, s4);
    var s5 := Apply(u, s4, Finish(false));
    ReplicasDrop(u, s5);
    var s6 := Apply(u, s5, ReportReplicas("shop", "web-hpa", Some(2)));
    DeliveryActs(u, s6, 4, 2);
    var s7 := Apply(u, s6, Deliver(0));
    PinIsRecorded(u, s7);
    SixMore(u, Start(), [ForeignAnomaly(SPIKE), DecideOn(0, [FREEZE_ANYTHING])], Publish(0, true), Deliver(0), Finish(false),
            ReportReplicas("shop", "web-hpa", Some(2)), Deliver(0), Finish(true));
    var s8 := Apply(u, s7, Finish(true));
    assert s8.rows[..1] == [DISPATCH];
  }

  lemma SixMore(u: Setup, s: System, steps: seq<Step>, a: Step, b: Step, c: Step, d: Step, e: Step, f: Step)
    requires |steps| == 2
    ensures After(u, s, [steps[0], steps[1], a, b, c, d, e, f])
         == Apply(u, Apply(u, Apply(u, Apply(u, Apply(u, Apply(u, After(u, s, steps), a), b), c), d), e), f)
  {
    hide After;
    hide Apply;
    AfterOneMore(u, s, steps, a);
    AfterOneMore(u, s, steps + [a], b);
    AfterOneMore(u, s, steps + [a] + [b], c);
    AfterOneMore(u, s, steps + [a] + [b] + [c], d);
    AfterOneMore(u, s, steps + [a] + [b] + [c] + [d], e);
    AfterOneMore(u, s, steps + [a] + [b] + [c] + [d] + [e], f);
    assert steps + [a] + [b] + [c] + [d] + [e] + [f] == [steps[0], steps[1], a, b, c, d, e, f];
  }

  // ---------------------------------------------------------------- a rollback and the budget

  const CALL := Row(Some(7), Some(1), Some(1), Rollback, Approved, 0, Dispatched, "shop/web", None, None)
  const CALL_REQUEST := Message(2, Some(7), "", Rollback, None, Some(1))
  const UNDONE := Row(Some(7), Some(2), Some(1), Rollback, Autonomous, 0, RolledBack, "", None, None)

  function Frozen(u: Setup): Row {
    Row(Some(7), Some(0), None, FreezeScaling, Autonomous, 0, Executed, "shop/web",
        Some(MaxReplicas("shop", "web-hpa", 10)), Some(u.executor.rollbackWindow))
  }

  // The rows so far, with the executor idle.
  predicate Stands(s: System, rows: seq<Row>, current: int, max: int) {
    s.rows == rows && 7 in s.anomalies && s.job.None? && s.clock == 0 && s.cluster == Shop(max, current)
  }

  lemma PinIsStored(u: Setup, s: System)
    requires Dispatching(s.(job := None), 10, 4) && s.job == Some(Job(REQUEST, Executor.Act, 0))
    ensures
      var s' := Apply(u, s, Finish(true));
      Stands(s', [DISPATCH, Frozen(u)], 4, 4) && s'.published == s.published && s'.waiting == s.waiting
  {
    hide Shop;
    hide Cluster.FreezeEffect;
    ShopPinned(10, 4);
  }

  lemma RollbackIsCalled(u: Setup, s: System)
    requires Stands(s, [DISPATCH, Frozen(u)], 4, 4) && s.waiting == map[]
    ensures
      var s' := Apply(u, s, RollbackCall(7));
      Stands(s', [DISPATCH, Frozen(u), CALL], 4, 4) && s'.published == s.published && s'.waiting == map[2 := CALL_REQUEST]
  {
    hide Shop;
    var rows := [DISPATCH, Frozen(u)];
    assert rows[..1] == [DISPATCH] && [DISPATCH][..0] == [];
    assert Latest(rows, 7, Executed) == Some(1);
    assert Api.RollbackTicket(rows, 7, 0) == Some(Api.Ticket(CALL, CALL_REQUEST));
    hide Latest;
  }

  lemma CallIsSent(u: Setup, s: System)
    requires Stands(s, [DISPATCH, Frozen(u), CALL], 4, 4) && s.waiting == map[2 := CALL_REQUEST] && s.published == [REQUEST]
    ensures
      var s' := Apply(u, s, Publish(2, true));
      Stands(s', [DISPATCH, Frozen(u), CALL], 4, 4) && s'.published == [REQUEST, CALL_REQUEST]
  {
    hide Shop;
  }

  lemma CallIsGated(u: Setup, s: System)
    requires u.executor.rollbackWindow >= 0
    requires Stands(s, [DISPATCH, Frozen(u), CALL], 4, 4) && s.published == [REQUEST, CALL_REQUEST]
    ensures Apply(u, s, Deliver(1)) == s.(job := Some(Job(CALL_REQUEST, Executor.Reverse(1, MaxReplicas("shop", "web-hpa", 10)), 0)))
  {
    hide Shop;
  }

  lemma PinIsUndone(u: Setup, s: System)
    requires Stands(s.(job := None), [DISPATCH, Frozen(u), CALL], 4, 4)
    requires s.job == Some(Job(CALL_REQUEST, Executor.Reverse(1, MaxReplicas("shop", "web-hpa", 10)), 0))
    ensures Apply(u, s, Finish(true)).rows == [DISPATCH, Frozen(u), CALL, UNDONE]
  {
    hide Shop;
    hide Cluster.RollbackEffect;
    ShopUnpinned(4, 4, 10);
  }

  lemma ShopUnpinned(max: int, current: int, previous: int)
    ensures Cluster.RollbackEffect(Shop(max, current), MaxReplicas("shop", "web-hpa", previous)).Restored?
  {
    Cluster.HpaAtUnique(Shop(max, current).hpas["shop"], "web-hpa", 0);
  }

  // The shop is frozen and the freeze rolled back: two actions of everybody's budget are used
  // up, but only one of the shop's own.
  lemma RollbackIsFreeForTheShop(u: Setup)
    requires Permits(u) && u.executor.rollbackWindow >= 0
    ensures
      var steps := [ForeignAnomaly(SPIKE), DecideOn(0, [FREEZE_ANYTHING]), Publish(0, true), Deliver(0), Finish(true),
                    RollbackCall(7), Publish(2, true), Deliver(1), Finish(true)];
      var rows := After(u, Start(), steps).rows;
      && FedByServices(steps)
      && |rows| == 4 && rows[1].result.Executed? && rows[1].service == "shop/web" && rows[3].result.RolledBack?
      && Executor.CountSince(rows, 0, None) == 2
      && Executor.CountSince(rows, 0, Some("shop/web")) == 1
  {
    hide After;
    hide Apply;
    hide Shop;
    var first := [ForeignAnomaly(SPIKE), DecideOn(0, [FREEZE_ANYTHING])];
    var s2 := After(u, Start(), first);
    SpikeDecided(u);
    Sends(u, s2);
    var s3 := Apply(u, s2, Publish(0, true));
    DeliveryActs(u, s3, 10, 4);
    var s4 := Apply(u, s3, Deliver(0));
    PinIsStored(u, s4);
    var s5 := Apply(u, s4, Finish(true));
    RollbackIsCalled(u, s5);
    var s6 := Apply(u, s5, RollbackCall(7));
    CallIsSent(u, s6);
    var s7 := Apply(u, s6, Publish(2, true));
    CallIsGated(u, s7);
    var s8 := Apply(u, s7, Deliver(1));
    PinIsUndone(u, s8);
    SixMore(u, Start(), first, Publish(0, true), Deliver(0), Finish(true), RollbackCall(7), Publish(2, true), Deliver(1));
    AfterOneMore(u, Start(), [ForeignAnomaly(SPIKE), DecideOn(0, [FREEZE_ANYTHING]), Publish(0, true), Deliver(0), Finish(true),
                              RollbackCall(7), Publish(2, true), Deliver(1)], Finish(true));
    assert [ForeignAnomaly(SPIKE), DecideOn(0, [FREEZE_ANYTHING]), Publish(0, true), Deliver(0), Finish(true),
            RollbackCall(7), Publish(2, true), Deliver(1)] + [Finish(true)]
        == [ForeignAnomaly(SPIKE), DecideOn(0, [FREEZE_ANYTHING]), Publish(0, true), Deliver(0), Finish(true),
            RollbackCall(7), Publish(2, true), Deliver(1), Finish(true)];
    TwoActions(u);
  }

  lemma TwoActions(u: Setup)
    ensures Executor.CountSince([DISPATCH, Frozen(u), CALL, UNDONE], 0, None) == 2
    ensures Executor.CountSince([DISPATCH, Frozen(u), CALL, UNDONE], 0, Some("shop/web")) == 1
  {
    assert [] + [DISPATCH] == [DISPATCH] && [DISPATCH] + [Frozen(u)] == [DISPATCH, Frozen(u)];
    assert [DISPATCH, Frozen(u)] + [CALL] == [DISPATCH, Frozen(u), CALL];
    assert [DISPATCH, Frozen(u), CALL] + [UNDONE] == [DISPATCH, Frozen(u), CALL, UNDONE];
    CountOneMore([], DISPATCH);
    CountOneMore([DISPATCH], Frozen(u));
    CountOneMore([DISPATCH, Frozen(u)], CALL);
    CountOneMore([DISPATCH, Frozen(u), CALL], UNDONE);
  }

  lemma CountOneMore(rows: seq<Row>, row: Row)
    ensures Executor.CountSince([], 0, None) == 0 && Executor.CountSince([], 0, Some("shop/web")) == 0
    ensures Executor.CountSince(rows + [row], 0, None)
         == Executor.CountSince(rows, 0, None) + if Executor.Acted(row) && row.executedAt >= 0 then 1 else 0
    ensures Executor.CountSince(rows + [row], 0, Some("shop/web"))
         == Executor.CountSince(rows, 0, Some("shop/web"))
            + if Executor.Acted(row) && row.executedAt >= 0 && row.service == "shop/web" then 1 else 0
  {
    assert (rows + [row])[..|rows|] == rows;
  }
}
