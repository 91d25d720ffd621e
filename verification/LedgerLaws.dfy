// What each row of the ledger says about itself, in every run: when it was written, what it
// may refer to, and, for decisions and announced anomalies, what was decided and found.
module LedgerLaws {
  import opened Prelude
  import opened Schemas
  import opened Ledger
  import opened Policy
  import opened Correlation
  import opened Protocol
  import Api
  import Cluster
  import Decision
  import Detector
  import Executor
  import Flagging

  // ---------------------------------------------------------------- time

  // A row carries the time of the step that wrote it.
  lemma StepWritesNow(u: Setup, s: System, step: Step)
    ensures
      var rows := Apply(u, s, step).rows;
      forall i :: |s.rows| <= i < |rows| ==> rows[i].executedAt == s.clock
  {
    StepFrame(u, s, step);
    HandlersWriteNow(u, s);
    if step.DecideOn? && step.k < |s.inbox| {
      DecisionWritesNow(u, s, s.inbox[step.k], step.table);
    }
    hide Called;
    hide Published;
    hide Finished;
    hide Decided;
    hide CostHandled;
    hide Executor.Gate;
    hide Api.ApprovalTicket;
    hide Api.RollbackTicket;
    hide ByPriority;
  }

  lemma HandlersWriteNow(u: Setup, s: System)
    ensures
      forall id :: var rows := Called(s, Api.ApprovalTicket(s.rows, s.anomalies, id, s.clock)).rows;
        forall i :: |s.rows| <= i < |rows| ==> rows[i].executedAt == s.clock
    ensures
      forall id :: var rows := Called(s, Api.RollbackTicket(s.rows, id, s.clock)).rows;
        forall i :: |s.rows| <= i < |rows| ==> rows[i].executedAt == s.clock
    ensures
      forall id, up :: var rows := Published(s, id, up).rows;
        forall i :: |s.rows| <= i < |rows| ==> rows[i].executedAt == s.clock
    ensures
      forall recorded :: var rows := Finished(u, s, recorded).rows;
        forall i :: |s.rows| <= i < |rows| ==> rows[i].executedAt == s.clock
  {
    hide Latest;
    hide Accepts;
    hide Cluster.RollbackEffect;
    hide Executor.EffectOf;
  }

  lemma DecisionWritesNow(u: Setup, s: System, m: Decision.AnomalyMessage, table: seq<PolicyRow>)
    ensures
      var rows := Decided(u, s, m, table).rows;
      forall i :: |s.rows| <= i < |rows| ==> rows[i].executedAt == s.clock
  {
    hide Decision.Decide;
    hide Classify;
    hide Accepts;
  }

  ghost predicate InTimeOrder(s: System) {
    && (forall i, j :: 0 <= i <= j < |s.rows| ==> s.rows[i].executedAt <= s.rows[j].executedAt)
    && (forall i :: 0 <= i < |s.rows| ==> s.rows[i].executedAt <= s.clock)
  }

  lemma StepInTimeOrder(u: Setup, s: System, step: Step)
    requires InTimeOrder(s)
    ensures InTimeOrder(Apply(u, s, step))
  {
    OnlyAppends(u, s, step);
    StepWritesNow(u, s, step);
    hide Apply;
    var rows := Apply(u, s, step).rows;
    assert forall i :: 0 <= i < |s.rows| ==> rows[i] == s.rows[i];
  }

  // So the ledger is in time order, and nothing in it is later than now.
  lemma {:induction false} LedgerInTimeOrder(u: Setup, cluster: Cluster.State, clock: int, steps: seq<Step>)
    ensures InTimeOrder(After(u, Initial(cluster, clock), steps))
  {
    hide Apply;
    if steps != [] {
      var earlier := steps[..|steps| - 1];
      LedgerInTimeOrder(u, cluster, clock, earlier);
      StepInTimeOrder(u, After(u, Initial(cluster, clock), earlier), steps[|steps| - 1]);
    }
  }

  // ---------------------------------------------------------------- references

  // What the database enforces of the i-th row: it refers to a stored anomaly and to earlier
  // rows, and its mode is one of the three.
  predicate Constrained(rows: seq<Row>, anomalies: Anomalies, i: nat)
    requires i < |rows|
  {
    && (rows[i].anomaly.Some? ==> rows[i].anomaly.value in anomalies.Keys)
    && (rows[i].parent.Some? ==> rows[i].parent.value < i)
    && (rows[i].rollbackRef.Some? ==> rows[i].rollbackRef.value < i)
    && (rows[i].mode == Autonomous || rows[i].mode == Approved || rows[i].mode == DryRun)
  }

  lemma AppendedConstrained(rows: seq<Row>, anomalies: Anomalies, row: Row)
    ensures
      var rows' := Append(rows, anomalies, row);
      forall i :: |rows| <= i < |rows'| ==> Constrained(rows', anomalies, i)
  {
  }

  lemma StepConstrained(u: Setup, s: System, step: Step)
    ensures
      var s' := Apply(u, s, step);
      forall i :: |s.rows| <= i < |s'.rows| ==> Constrained(s'.rows, s'.anomalies, i)
  {
    StepFrame(u, s, step);
    HandlersConstrained(u, s);
    if step.DecideOn? && step.k < |s.inbox| {
      DecisionConstrained(u, s, s.inbox[step.k], step.table);
    }
    hide Called;
    hide Published;
    hide Finished;
    hide Decided;
    hide CostHandled;
    hide Executor.Gate;
    hide Api.ApprovalTicket;
    hide Api.RollbackTicket;
    hide ByPriority;
    hide Constrained;
  }

  lemma HandlersConstrained(u: Setup, s: System)
    ensures
      forall ticket :: var rows := Called(s, ticket).rows;
        forall i :: |s.rows| <= i < |rows| ==> Constrained(rows, s.anomalies, i)
    ensures
      forall id, up :: var rows := Published(s, id, up).rows;
        forall i :: |s.rows| <= i < |rows| ==> Constrained(rows, s.anomalies, i)
    ensures
      forall recorded :: var rows := Finished(u, s, recorded).rows;
        forall i :: |s.rows| <= i < |rows| ==> Constrained(rows, s.anomalies, i)
  {
    hide Executor.Conclude;
  }

  lemma DecisionConstrained(u: Setup, s: System, m: Decision.AnomalyMessage, table: seq<PolicyRow>)
    ensures
      var s' := Decided(u, s, m, table);
      forall i :: |s.rows| <= i < |s'.rows| ==> Constrained(s'.rows, s'.anomalies, i)
  {
    hide Decision.Decide;
    hide Classify;
    hide Reclassify;
    ReclassifyKeepsKeys(s.anomalies, m.id, Classify(s.maps, u.decision.windows, m.service, m.verdict, s.clock));
  }

  lemma ReclassifyKeepsKeys(anomalies: Anomalies, id: nat, c: Classification)
    ensures Reclassify(anomalies, id, c).Keys == anomalies.Keys
  {
  }

  ghost predicate AllConstrained(s: System) {
    forall i :: 0 <= i < |s.rows| ==> Constrained(s.rows, s.anomalies, i)
  }

  lemma StepKeepsConstraints(u: Setup, s: System, step: Step)
    requires AllConstrained(s)
    ensures AllConstrained(Apply(u, s, step))
  {
    OnlyAppends(u, s, step);
    StepConstrained(u, s, step);
    hide Apply;
    var s' := Apply(u, s, step);
    forall i | 0 <= i < |s'.rows| ensures Constrained(s'.rows, s'.anomalies, i) {
      if i < |s.rows| {
        assert Constrained(s.rows, s.anomalies, i) && s'.rows[i] == s.rows[i];
      }
    }
  }

  lemma {:induction false} ConstraintsHold(u: Setup, cluster: Cluster.State, clock: int, steps: seq<Step>)
    ensures AllConstrained(After(u, Initial(cluster, clock), steps))
  {
    hide Apply;
    if steps != [] {
      var earlier := steps[..|steps| - 1];
      ConstraintsHold(u, cluster, clock, earlier);
      StepKeepsConstraints(u, After(u, Initial(cluster, clock), earlier), steps[|steps| - 1]);
    }
  }

  // ---------------------------------------------------------------- decisions

  // Does this rule hold of the anomaly?
  predicate Holds(rule: Rule, c: Classification, m: Decision.AnomalyMessage) {
    && rule.servicePrefix <= m.service
    && (rule.minCost.None? || rule.minCost.value <= Decision.CostOf(m))
    && (rule.minConfidence.None? || rule.minConfidence.value <= Decision.ConfidenceOf(m))
    && (rule.classifications == [] || c in rule.classifications)
  }

  // The decision step in full. The stored anomaly takes the new classification. A row is
  // written exactly when the anomaly is stored, traffic does not explain it and the first rule
  // that holds of it, k, names an action; it says what, of what, why and when, and only a
  // dispatch leaves a request to publish.
  lemma DecisionRecorded(u: Setup, s: System, m: Decision.AnomalyMessage, table: seq<PolicyRow>, k: nat)
    requires k <= |table| && (forall j :: 0 <= j < k ==> !Holds(table[j].rule, NewClass(u, s, m), m))
    requires k < |table| ==> Holds(table[k].rule, NewClass(u, s, m), m)
    ensures
      var s', c := Decided(u, s, m, table), NewClass(u, s, m);
      && s'.anomalies == (if m.id in s.anomalies
                          then s.anomalies[m.id := AnomalyRow(s.anomalies[m.id].service, s.anomalies[m.id].confidence, c)]
                          else s.anomalies)
      && if m.id !in s.anomalies || m.verdict == Some(LegitimateTrafficGrowth) || k == |table|
            || table[k].action.Rollback? || table[k].action.OtherAction?
         then s'.rows == s.rows && s'.waiting == s.waiting
         else
           var confidence, p := Decision.ConfidenceOf(m), table[k];
           var floor := exists j :: 0 <= j < |u.decision.prefixes| && u.decision.prefixes[j] <= m.service;
           var result :=
             if floor then BlockedByProtectedFloor
             else if p.action.AlertOnly? then AlertOnlyNoActionTaken
             else if confidence < 0.60 then AlertOnlyLowConfidence
             else if confidence < 0.85 || p.rule.requiresApproval then PendingApproval
             else Dispatched;
           var mode := if result.PendingApproval? then Approved else Autonomous;
           && s'.rows == s.rows + [Row(Some(m.id), None, None, p.action, mode, s.clock, result, m.service, None, None)]
           && s'.waiting == (if result.Dispatched?
                             then s.waiting[|s.rows| := Message(|s.rows|, Some(m.id), m.service, p.action, Some(Autonomous), None)]
                             else s.waiting)
           && s'.because == s.because[|s.rows| := Grounds(m, c, table, p)]
  {
    hide Decision.Decide;
    hide Classify;
    hide FirstMatch;
    hide Holds;
    hide Decision.ConfidenceOf;
    hide Decision.CostOf;
    FirstThatHolds(table, k, NewClass(u, s, m), m);
    Decision.DecisionTable(u.decision, s.maps, table, m, s.clock);
  }

  function NewClass(u: Setup, s: System, m: Decision.AnomalyMessage): Classification {
    Classify(s.maps, u.decision.windows, m.service, m.verdict, s.clock)
  }

  lemma {:induction false} FirstThatHolds(table: seq<PolicyRow>, k: nat, c: Classification, m: Decision.AnomalyMessage)
    requires k <= |table| && (forall j :: 0 <= j < k ==> !Holds(table[j].rule, c, m))
    requires k < |table| ==> Holds(table[k].rule, c, m)
    ensures FirstMatch(table, c, m.service, Decision.CostOf(m), Decision.ConfidenceOf(m))
         == if k < |table| then Some(table[k]) else None
    decreases |table|
  {
    if table != [] {
      MatchesUnlessVetoed(table[0].rule, c, m.service, Decision.CostOf(m), Decision.ConfidenceOf(m));
      if k > 0 {
        forall j | 0 <= j < k - 1 ensures !Holds(table[1..][j].rule, c, m) {
          assert table[1..][j] == table[j + 1];
        }
        FirstThatHolds(table[1..], k - 1, c, m);
      }
      hide PolicyMatches;
    }
  }

  // ---------------------------------------------------------------- anomalies

  // A reading is announced exactly when the detector finds something in it, its id is new and
  // the broker takes it; it is stored in the first two cases. Both say what was found.
  lemma FindingIsStoredAndAnnounced(u: Setup, s: System, m: Detector.CostMessage, id: nat, up: bool)
    ensures
      var s' := CostHandled(u, s, m, id, up);
      var found := Detector.CostFinding(u.root, s.detector, m);
      if found.None? || id in s.anomalies then s'.anomalies == s.anomalies && s'.inbox == s.inbox
      else
        var f := found.value;
        && id in s'.anomalies && s'.anomalies[id].service == f.service
        && s'.anomalies[id].confidence == f.confidence && s'.anomalies[id].classification == f.classification
        && (forall a :: a != id ==> (a in s'.anomalies <==> a in s.anomalies) && (a in s.anomalies ==> s'.anomalies[a] == s.anomalies[a]))
        && (!up ==> s'.inbox == s.inbox)
        && (up ==> exists a :: s'.inbox == s.inbox + [a]
                     && a.id == id && a.service == f.service && a.verdict == Some(f.classification)
                     && a.confidence == a.evidenceConfidence == Some(f.confidence)
                     && Decision.CostOf(a) == f.value && Decision.ConfidenceOf(a) == f.confidence)
  {
    hide Detector.CostStep;
    hide Detector.CostFinding;
    var found := Detector.CostFinding(u.root, s.detector, m);
    if found.Some? && id !in s.anomalies && up {
      var a := Flagging.MessageFor(id, found.value);
      assert CostHandled(u, s, m, id, up).inbox == s.inbox + [a];
      Decision.MessageSays(a);
    }
  }
}
