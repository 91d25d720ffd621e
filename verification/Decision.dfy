// services/decision-policy/app/main.py: classify an anomaly, find the rule, decide how much
// authority its confidence earns, append the decision and, if it may act alone, dispatch.
module Decision {
  import opened Prelude
  import opened Schemas
  import opened Confidence
  import opened Ledger
  import opened Policy
  import opened Correlation

  datatype Config = Config(prefixes: seq<string>, windows: Windows)

  // An anomaly.flagged message; confidence may be at the top level, in the evidence, or absent.
  datatype AnomalyMessage = AnomalyMessage(
    id: nat, service: string, value: Option<real>, confidence: Option<real>, evidenceConfidence: Option<real>,
    verdict: Option<Classification>)

  function CostOf(m: AnomalyMessage): real {
    if m.value.Some? then m.value.value else 0.0
  }

  // float(message.confidence or evidence.confidence or 0.0): zero counts as absent.
  function ConfidenceOf(m: AnomalyMessage): real {
    if m.confidence.Some? && m.confidence.value != 0.0 then m.confidence.value
    else if m.evidenceConfidence.Some? then m.evidenceConfidence.value
    else 0.0
  }

  // Silent: no row and no message, whether nothing applies or the action is not one.
  datatype Verdict = Silent | Logged(policy: PolicyRow, result: Result, mode: Mode)

  function Decide(cfg: Config, maps: Maps, rows: seq<PolicyRow>, m: AnomalyMessage, now: int): Verdict {
    var c := Classify(maps, cfg.windows, m.service, m.verdict, now);
    if c.LegitimateTrafficGrowth? then Silent
    else
      match FirstMatch(rows, c, m.service, CostOf(m), ConfidenceOf(m))
      case None => Silent
      case Some(p) =>
        if !p.action.IsRemediation() then Silent
        else if IsProtected(m.service, cfg.prefixes) then Logged(p, BlockedByProtectedFloor, Autonomous)
        else if p.action.AlertOnly? then Logged(p, AlertOnlyNoActionTaken, Autonomous)
        else
          match AuthorityFor(ConfidenceOf(m))
          case AlertOnlyAuthority => Logged(p, AlertOnlyLowConfidence, Autonomous)
          case ApprovalAuthority => Logged(p, PendingApproval, Approved)
          case AutonomousAuthority =>
            if p.rule.requiresApproval then Logged(p, PendingApproval, Approved) else Logged(p, Dispatched, Autonomous)
  }

  function DecisionRow(m: AnomalyMessage, v: Verdict, now: int): Row
    requires v.Logged?
  {
    Row(Some(m.id), None, None, v.policy.action, v.mode, now, v.result, m.service, None, None)
  }

  function DispatchMessage(id: nat, m: AnomalyMessage, action: ActionType): Message {
    Message(id, Some(m.id), m.service, action, Some(Autonomous), None)
  }

  // How far a decision goes on its own: 2 acts, 1 asks, 0 only tells.
  function Autonomy(v: Verdict): nat {
    if v.Logged? && v.result.Dispatched? then 2 else if v.Logged? && v.result.PendingApproval? then 1 else 0
  }

  // Policy can narrow what confidence earns but never widen it, whatever the rules say.
  lemma PolicyNeverWidens(cfg: Config, maps: Maps, rows: seq<PolicyRow>, m: AnomalyMessage, now: int)
    ensures Autonomy(Decide(cfg, maps, rows, m, now)) <= AuthorityFor(ConfidenceOf(m)).Rank()
    ensures m.verdict == Some(LegitimateTrafficGrowth) ==> Decide(cfg, maps, rows, m, now) == Silent
    ensures IsProtected(m.service, cfg.prefixes) ==> Autonomy(Decide(cfg, maps, rows, m, now)) == 0
  {
  }

  // A decision goes ahead alone exactly when the deciding rule names a real action without
  // asking for approval, the target is unprotected and confidence is 0.85 or more; it asks
  // exactly when confidence is 0.60 or more and either it is below 0.85 or the rule insists.
  lemma DispatchedIff(cfg: Config, maps: Maps, rows: seq<PolicyRow>, m: AnomalyMessage, now: int)
    ensures
      var c, v := Classify(maps, cfg.windows, m.service, m.verdict, now), Decide(cfg, maps, rows, m, now);
      var p := FirstMatch(rows, c, m.service, CostOf(m), ConfidenceOf(m));
      var actionable := !c.LegitimateTrafficGrowth? && p.Some? && p.value.action.IsRemediation()
                        && !p.value.action.AlertOnly? && !IsProtected(m.service, cfg.prefixes);
      && (Autonomy(v) == 2 <==> actionable && ConfidenceOf(m) >= 0.85 && !p.value.rule.requiresApproval)
      && (Autonomy(v) == 1 <==> actionable && ConfidenceOf(m) >= 0.60
                                && (ConfidenceOf(m) < 0.85 || p.value.rule.requiresApproval))
      && (v.Logged? ==> v.policy == p.value)
  {
  }

  // What a message says: its cost, absent as zero; its confidence at the top level unless that
  // is missing or zero, then the one in the evidence, then zero.
  lemma MessageSays(m: AnomalyMessage)
    ensures m.value == Some(CostOf(m)) || (m.value.None? && CostOf(m) == 0.0)
    ensures (m.confidence.Some? && m.confidence != Some(0.0) ==> m.confidence == Some(ConfidenceOf(m)))
    ensures (m.confidence.None? || m.confidence == Some(0.0)) && m.evidenceConfidence.Some? ==>
              m.evidenceConfidence == Some(ConfidenceOf(m))
    ensures (m.confidence.None? || m.confidence == Some(0.0)) && m.evidenceConfidence.None? ==> ConfidenceOf(m) == 0.0
  {
  }

  // Every decision: nothing is written exactly when traffic explains the anomaly, no rule
  // matches or the rule's action is not one; otherwise the protected floor comes first, then
  // an action that only tells, then confidence, and what is left asks or goes ahead.
  lemma DecisionTable(cfg: Config, maps: Maps, rows: seq<PolicyRow>, m: AnomalyMessage, now: int)
    ensures
      var c, v := Classify(maps, cfg.windows, m.service, m.verdict, now), Decide(cfg, maps, rows, m, now);
      var rule := FirstMatch(rows, c, m.service, CostOf(m), ConfidenceOf(m));
      var confidence := ConfidenceOf(m);
      var floor := exists k :: 0 <= k < |cfg.prefixes| && cfg.prefixes[k] <= m.service;
      && (v.Silent? <==>
            || m.verdict == Some(LegitimateTrafficGrowth) || rule.None?
            || rule.value.action.Rollback? || rule.value.action.OtherAction?)
      && (v.Logged? ==>
            && v.policy == rule.value
            && (v.result == BlockedByProtectedFloor <==> floor)
            && (v.result == AlertOnlyNoActionTaken <==> !floor && v.policy.action.AlertOnly?)
            && (v.result == AlertOnlyLowConfidence <==> !floor && !v.policy.action.AlertOnly? && confidence < 0.60)
            && (v.result == PendingApproval <==>
                  !floor && !v.policy.action.AlertOnly? && confidence >= 0.60
                  && (confidence < 0.85 || v.policy.rule.requiresApproval))
            && (v.result == Dispatched <==>
                  !floor && !v.policy.action.AlertOnly? && confidence >= 0.85 && !v.policy.rule.requiresApproval)
            && v.mode == if v.result == PendingApproval then Approved else Autonomous)
  {
    hide Classify;
    hide FirstMatch;
    hide ConfidenceOf;
    ClassifyGrowth(maps, cfg.windows, m.service, m.verdict, now);
    ProtectedIff(m.service, cfg.prefixes);
    hide IsProtected;
  }

  lemma ClassifyGrowth(maps: Maps, w: Windows, service: string, verdict: Option<Classification>, now: int)
    ensures Classify(maps, w, service, verdict, now).LegitimateTrafficGrowth? <==> verdict == Some(LegitimateTrafficGrowth)
  {
  }

  class Service {
    const cfg: Config
    const db: Database
    const bus: Bus
    var events: map<string, int>
    var security: map<string, (int, string)>

    constructor (cfg: Config, db: Database, bus: Bus)
      ensures this.cfg == cfg && this.db == db && this.bus == bus && Recent() == NO_MAPS
    {
      this.cfg, this.db, this.bus := cfg, db, bus;
      events, security := map[], map[];
    }

    function Recent(): Maps
      reads this
    {
      Maps(events, security)
    }

    method HandleLifecycle(m: Lifecycle, now: int)
      modifies this
      ensures Recent() == OnLifecycle(old(Recent()), m, now)
    {
      if !m.kind.DeploymentLike() {
        return;
      }
      var key := KeyOf(m);
      if key.None? {
        return;
      }
      events := events[key.value := now];
    }

    method HandleSecuritySignal(m: Signal, now: int)
      modifies this
      ensures Recent() == OnSignal(old(Recent()), m, now)
    {
      security := security[m.service := (now, m.rule)];
    }

    method RecordAction(anomaly: nat, action: ActionType, result: Result, service: string, mode: Mode, now: int)
      returns (id: Option<nat>)
      modifies db`rows
      ensures
        var row := Row(Some(anomaly), None, None, action, mode, now, result, service, None, None);
        && db.rows == Append(old(db.rows), db.anomalies, row)
        && id == if Accepts(old(db.rows), db.anomalies, row) then Some(|old(db.rows)|) else None
    {
      id := db.Insert(Row(Some(anomaly), None, None, action, mode, now, result, service, None, None));
    }

    // up: does the broker take the message.
    method HandleAnomaly(m: AnomalyMessage, rows: seq<PolicyRow>, now: int, up: bool)
      modifies db, bus
      ensures db.anomalies == Reclassify(old(db.anomalies), m.id, Classify(Recent(), cfg.windows, m.service, m.verdict, now))
      ensures
        var v := Decide(cfg, Recent(), rows, m, now);
        && db.rows == (if v.Silent? then old(db.rows) else Append(old(db.rows), db.anomalies, DecisionRow(m, v, now)))
        && bus.published == old(bus.published)
             + if Autonomy(v) == 2 && up && m.id in db.anomalies
               then [DispatchMessage(|old(db.rows)|, m, v.policy.action)] else []
    {
      var c := Classify(Recent(), cfg.windows, m.service, m.verdict, now);
      db.SetClassification(m.id, c);
      if c.LegitimateTrafficGrowth? {
        return;
      }
      var matched := FindMatchingPolicy(rows, c, m.service, CostOf(m), ConfidenceOf(m));
      if matched.None? || !matched.value.action.IsRemediation() {
        return;
      }
      var p := matched.value;
      if IsProtected(m.service, cfg.prefixes) {
        var _ := RecordAction(m.id, p.action, BlockedByProtectedFloor, m.service, Autonomous, now);
        return;
      }
      if p.action.AlertOnly? {
        var _ := RecordAction(m.id, p.action, AlertOnlyNoActionTaken, m.service, Autonomous, now);
        return;
      }
      var authority := AuthorityFor(ConfidenceOf(m));
      if authority.AlertOnlyAuthority? {
        var _ := RecordAction(m.id, p.action, AlertOnlyLowConfidence, m.service, Autonomous, now);
        return;
      }
      if authority.ApprovalAuthority? || p.rule.requiresApproval {
        var _ := RecordAction(m.id, p.action, PendingApproval, m.service, Approved, now);
        return;
      }
      var id := RecordAction(m.id, p.action, Dispatched, m.service, Autonomous, now);
      if id.Some? {
        var _ := bus.Publish(DispatchMessage(id.value, m, p.action), up);
      }
    }
  }
}
