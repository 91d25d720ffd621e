// services/remediation-executor/app/main.py: gates, sliding windows, rollback deadline and
// the outcome row.
//
// handle() is two steps here, because the clock moves between them and other services append
// rows meanwhile: Gate reads the ledger and decides, Finish patches the cluster and records.
module Executor {
  import opened Prelude
  import opened Ledger
  import Cluster
  import Undo
  import opened Policy

  datatype Config = Config(
    prefixes: seq<string>, maxGlobal: int, globalWindow: int,
    maxPerService: int, serviceWindow: int, rollbackWindow: int)

  // Rows the two ceilings count.
  predicate Acted(row: Row) {
    row.result.Executed? || row.result.RolledBack?
  }

  // SELECT count(*) WHERE executed_at >= since AND result IN (executed, rolled_back), for one
  // service or for all.
  function CountSince(rows: seq<Row>, since: int, service: Option<string>): nat {
    if rows == [] then 0
    else
      var last := rows[|rows| - 1];
      CountSince(rows[..|rows| - 1], since, service)
      + if Acted(last) && last.executedAt >= since && (service.None? || last.service == service.value) then 1 else 0
  }

  // The rows themselves, by position.
  ghost function ActedSince(rows: seq<Row>, since: int, service: Option<string>): set<nat> {
    set i: nat | i < |rows| && Acted(rows[i]) && rows[i].executedAt >= since
                 && (service.None? || rows[i].service == service.value)
  }

  lemma {:induction false} CountIsCardinality(rows: seq<Row>, since: int, service: Option<string>)
    ensures CountSince(rows, since, service) == |ActedSince(rows, since, service)|
  {
    if rows != [] {
      var n := |rows| - 1;
      var earlier := rows[..n];
      CountIsCardinality(earlier, since, service);
      var before := ActedSince(earlier, since, service);
      if n in ActedSince(rows, since, service) {
        assert ActedSince(rows, since, service) == before + {n};
      } else {
        assert ActedSince(rows, since, service) == before;
      }
    }
  }

  function RateLimit(cfg: Config, rows: seq<Row>, service: string, now: int): Option<Result> {
    if CountSince(rows, now - cfg.globalWindow, None) >= cfg.maxGlobal then Some(BlockedByGlobalRateLimit)
    else if CountSince(rows, now - cfg.serviceWindow, Some(service)) >= cfg.maxPerService
    then Some(BlockedByPerServiceRateLimit)
    else None
  }

  // Discard: the message is malformed and the handler raises.
  datatype Plan =
    | Discard
    | Refuse(result: Result, ref: Option<nat>)
    | Reverse(target: nat, prior: PriorState)
    | Act

  function Gate(cfg: Config, rows: seq<Row>, m: Message, now: int): Plan {
    if m.action.Rollback? then
      if m.target.None? then Discard
      else if m.target.value >= |rows| || rows[m.target.value].prior.None? then Refuse(RollbackFailedNoReference, None)
      else
        var target := rows[m.target.value];
        if target.deadline.Some? && now > target.deadline.value then Refuse(RollbackWindowExpired, m.target)
        else Reverse(m.target.value, target.prior.value)
    else if IsProtected(m.service, cfg.prefixes) then Refuse(BlockedByProtectedFloor, None)
    else
      match RateLimit(cfg, rows, m.service, now)
      case Some(limit) => Refuse(limit, None)
      case None => if m.action.Throttle? || m.action.FreezeScaling? then Act else Refuse(UnsupportedAction(m.action), None)
  }

  function Record(m: Message, result: Result, ref: Option<nat>, prior: Option<PriorState>, deadline: Option<int>, now: int): Row {
    Row(m.anomaly, Some(m.actionId), ref, m.action, if m.mode.Some? then m.mode.value else Autonomous,
        now, result, m.service, prior, deadline)
  }

  function EffectOf(c: Cluster.State, m: Message): Cluster.Effect {
    if m.action.Throttle? then Cluster.ThrottleEffect(c, m.service) else Cluster.FreezeEffect(c, m.service)
  }

  // The cluster after Finish, and the outcome row it tries to insert, if any.
  datatype Outcome = Outcome(cluster: Cluster.State, row: Option<Row>)

  function Conclude(cfg: Config, c: Cluster.State, m: Message, plan: Plan, now: int): Outcome {
    match plan
    case Discard => Outcome(c, None)
    case Refuse(result, ref) => Outcome(c, Some(Record(m, result, ref, None, None, now)))
    case Reverse(target, prior) =>
      (match Cluster.RollbackEffect(c, prior)
       case Restored(after) => Outcome(after, Some(Record(m, RolledBack, Some(target), None, None, now)))
       case UnknownKind => Outcome(c, Some(Record(m, Failed, Some(target), None, None, now)))
       case RollbackRaised => Outcome(c, None))
    case Act =>
      (match EffectOf(c, m)
       case Applied(after, prior) =>
         Outcome(after, Some(Record(m, Executed, None, Some(prior), Some(now + cfg.rollbackWindow), now)))
       case Skipped => Outcome(c, Some(Record(m, NoOp, None, None, None, now)))
       case Raised => Outcome(c, None))
  }

  function AppendOutcome(rows: seq<Row>, anomalies: Anomalies, outcome: Outcome): seq<Row> {
    if outcome.row.None? then rows else Append(rows, anomalies, outcome.row.value)
  }

  // A delivery is acted on exactly when it passes every gate.
  lemma ActsIff(cfg: Config, rows: seq<Row>, m: Message, now: int)
    ensures Gate(cfg, rows, m, now).Act? <==>
            && (m.action.Throttle? || m.action.FreezeScaling?)
            && !IsProtected(m.service, cfg.prefixes)
            && |ActedSince(rows, now - cfg.globalWindow, None)| < cfg.maxGlobal
            && |ActedSince(rows, now - cfg.serviceWindow, Some(m.service))| < cfg.maxPerService
    ensures Gate(cfg, rows, m, now).Reverse? <==>
            && m.action.Rollback? && m.target.Some? && m.target.value < |rows| && rows[m.target.value].prior.Some?
            && (rows[m.target.value].deadline.Some? ==> now <= rows[m.target.value].deadline.value)
  {
    hide CountSince;
    hide ActedSince;
    CountIsCardinality(rows, now - cfg.globalWindow, None);
    CountIsCardinality(rows, now - cfg.serviceWindow, Some(m.service));
  }

  // Every gate decision. A rollback names the row it reverses; if that row has nothing to
  // restore it is answered without a reference, past its deadline with one. Anything else is
  // turned away by the protected floor first, then the global and the service's own ceiling,
  // and then if it is no action the executor knows.
  lemma GateTable(cfg: Config, rows: seq<Row>, m: Message, now: int)
    ensures
      var plan := Gate(cfg, rows, m, now);
      var global := |ActedSince(rows, now - cfg.globalWindow, None)|;
      var own := |ActedSince(rows, now - cfg.serviceWindow, Some(m.service))|;
      var floor := exists k :: 0 <= k < |cfg.prefixes| && cfg.prefixes[k] <= m.service;
      if m.action.Rollback? then
        if m.target.None? then plan == Discard
        else if !(m.target.value < |rows| && rows[m.target.value].prior.Some?) then plan == Refuse(RollbackFailedNoReference, None)
        else if rows[m.target.value].deadline.Some? && now > rows[m.target.value].deadline.value
        then plan == Refuse(RollbackWindowExpired, m.target)
        else plan == Reverse(m.target.value, rows[m.target.value].prior.value)
      else
        && (plan == Refuse(BlockedByProtectedFloor, None) <==> floor)
        && (plan == Refuse(BlockedByGlobalRateLimit, None) <==> !floor && global >= cfg.maxGlobal)
        && (plan == Refuse(BlockedByPerServiceRateLimit, None) <==> !floor && global < cfg.maxGlobal && own >= cfg.maxPerService)
        && (plan == Act <==> !floor && global < cfg.maxGlobal && own < cfg.maxPerService
                             && (m.action == Throttle || m.action == FreezeScaling))
        && (plan == Refuse(UnsupportedAction(m.action), None) <==>
              !floor && global < cfg.maxGlobal && own < cfg.maxPerService && m.action != Throttle && m.action != FreezeScaling)
  {
    hide CountSince;
    hide ActedSince;
    CountIsCardinality(rows, now - cfg.globalWindow, None);
    CountIsCardinality(rows, now - cfg.serviceWindow, Some(m.service));
    ProtectedIff(m.service, cfg.prefixes);
    hide IsProtected;
  }

  // Every outcome row answers its request: it descends from it, repeats its anomaly, action,
  // service and mode - autonomous where the request names none - and carries the time it was
  // written. What was done decides its result, and only an executed row can be reversed.
  lemma OutcomeTable(cfg: Config, c: Cluster.State, m: Message, plan: Plan, now: int)
    ensures
      var outcome := Conclude(cfg, c, m, plan, now);
      && (outcome.row.Some? ==>
            var r := outcome.row.value;
            && r.parent == Some(m.actionId) && r.anomaly == m.anomaly && r.action == m.action && r.service == m.service
            && r.executedAt == now && (m.mode == Some(r.mode) || (m.mode.None? && r.mode == Autonomous))
            && (r.prior.Some? <==> r.result == Executed && plan.Act?)
            && (r.deadline == if r.prior.Some? then Some(now + cfg.rollbackWindow) else None))
      && match plan
         case Discard => outcome.row.None?
         case Refuse(result, ref) =>
           outcome.row.Some? && outcome.row.value.result == result && outcome.row.value.rollbackRef == ref
         case Reverse(target, prior) =>
           var r := Cluster.RollbackEffect(c, prior);
           && (outcome.row.None? <==> r.RollbackRaised?)
           && (r.Restored? ==> outcome.cluster == r.after)
           && (outcome.row.Some? ==>
                 && outcome.row.value.rollbackRef == Some(target)
                 && outcome.row.value.result == if r.Restored? then RolledBack else Failed)
         case Act =>
           var effect := EffectOf(c, m);
           && (outcome.row.None? <==> effect.Raised?)
           && (effect.Applied? ==> outcome.cluster == effect.after)
           && (outcome.row.Some? ==>
                 && outcome.row.value.rollbackRef.None?
                 && outcome.row.value.result == (if effect.Applied? then Executed else NoOp)
                 && outcome.row.value.prior == if effect.Applied? then Some(effect.prior) else None)
  {
    hide EffectOf;
    hide Cluster.RollbackEffect;
  }

  lemma EffectUndone(c: Cluster.State, m: Message)
    requires Cluster.WellFormed(c)
    ensures
      var effect := EffectOf(c, m);
      effect.Applied? ==>
        var back := Cluster.RollbackEffect(effect.after, effect.prior);
        back.Restored? && Undo.Limits(back.after) == Undo.Limits(c)
  {
    hide Cluster.ThrottleEffect;
    hide Cluster.FreezeEffect;
    hide Cluster.RollbackEffect;
    hide Undo.Limits;
    Undo.PerformUndone(c, if m.action.Throttle? then Undo.ThrottleOp(m.service) else Undo.FreezeOp(m.service));
  }

  // The cluster is touched only under a row that says so, and whatever an executed row did,
  // its recorded prior state undoes: every limit is back where it was.
  lemma ExecutedRowIsReversible(cfg: Config, c: Cluster.State, m: Message, plan: Plan, now: int)
    requires Cluster.WellFormed(c)
    ensures
      var outcome := Conclude(cfg, c, m, plan, now);
      && (outcome.row.Some? && !Acted(outcome.row.value) ==> outcome.cluster == c)
      && (outcome.row.None? ==> outcome.cluster == c)
      && (plan.Act? && outcome.row.Some? && outcome.row.value.result.Executed? ==>
            && outcome.row.value.prior.Some?
            && var back := Cluster.RollbackEffect(outcome.cluster, outcome.row.value.prior.value);
               back.Restored? && Undo.Limits(back.after) == Undo.Limits(c))
  {
    hide Cluster.ThrottleEffect;
    hide Cluster.FreezeEffect;
    hide Cluster.RollbackEffect;
    hide Cluster.WellFormed;
    hide Undo.Limits;
    EffectUndone(c, m);
  }

  class Service {
    const cfg: Config
    const db: Database
    const cluster: Cluster.Live

    constructor (cfg: Config, db: Database, cluster: Cluster.Live)
      ensures this.cfg == cfg && this.db == db && this.cluster == cluster
    {
      this.cfg, this.db, this.cluster := cfg, db, cluster;
    }

    method Write(m: Message, result: Result, ref: Option<nat>, prior: Option<PriorState>, deadline: Option<int>, now: int)
      modifies db`rows
      ensures db.rows == Append(old(db.rows), db.anomalies, Record(m, result, ref, prior, deadline, now))
    {
      var _ := db.Insert(Record(m, result, ref, prior, deadline, now));
    }

    method RateLimitExceeded(service: string, now: int) returns (limit: Option<Result>)
      ensures
        var global := |ActedSince(db.rows, now - cfg.globalWindow, None)|;
        var own := |ActedSince(db.rows, now - cfg.serviceWindow, Some(service))|;
        && (limit == Some(BlockedByGlobalRateLimit) <==> global >= cfg.maxGlobal)
        && (limit == Some(BlockedByPerServiceRateLimit) <==> global < cfg.maxGlobal && own >= cfg.maxPerService)
        && (limit.None? <==> global < cfg.maxGlobal && own < cfg.maxPerService)
    {
      CountIsCardinality(db.rows, now - cfg.globalWindow, None);
      CountIsCardinality(db.rows, now - cfg.serviceWindow, Some(service));
      if CountSince(db.rows, now - cfg.globalWindow, None) >= cfg.maxGlobal {
        return Some(BlockedByGlobalRateLimit);
      }
      if CountSince(db.rows, now - cfg.serviceWindow, Some(service)) >= cfg.maxPerService {
        return Some(BlockedByPerServiceRateLimit);
      }
      limit := None;
    }

    // One delivery, uninterrupted: gated at checkedAt, recorded at recordedAt.
    method Handle(m: Message, checkedAt: int, recordedAt: int)
      modifies db`rows, cluster
      ensures
        var outcome := Conclude(cfg, old(cluster.Abstract()), m, Gate(cfg, old(db.rows), m, checkedAt), recordedAt);
        && cluster.Abstract() == outcome.cluster
        && db.rows == AppendOutcome(old(db.rows), db.anomalies, outcome)
    {
      hide CountSince;
      hide ActedSince;
      hide Cluster.RollbackEffect;
      hide Cluster.ThrottleEffect;
      hide Cluster.FreezeEffect;
      if m.action.Rollback? {
        if m.target.None? {
          return;
        }
        var id := m.target.value;
        if id >= |db.rows| || db.rows[id].prior.None? {
          Write(m, RollbackFailedNoReference, None, None, None, recordedAt);
          return;
        }
        var deadline := db.rows[id].deadline;
        if deadline.Some? && checkedAt > deadline.value {
          Write(m, RollbackWindowExpired, Some(id), None, None, recordedAt);
          return;
        }
        var undone := cluster.Reverse(db.rows[id].prior.value);
        if undone.Undone? {
          Write(m, RolledBack, Some(id), None, None, recordedAt);
        } else if undone.Unknown? {
          Write(m, Failed, Some(id), None, None, recordedAt);
        }
        return;
      }
      if IsProtected(m.service, cfg.prefixes) {
        Write(m, BlockedByProtectedFloor, None, None, None, recordedAt);
        return;
      }
      var limit := RateLimitExceeded(m.service, checkedAt);
      assert limit == RateLimit(cfg, db.rows, m.service, checkedAt) by {
        CountIsCardinality(db.rows, checkedAt - cfg.globalWindow, None);
        CountIsCardinality(db.rows, checkedAt - cfg.serviceWindow, Some(m.service));
      }
      if limit.Some? {
        Write(m, limit.value, None, None, None, recordedAt);
        return;
      }
      var report;
      if m.action.Throttle? {
        report := cluster.ThrottleService(m.service);
      } else if m.action.FreezeScaling? {
        report := cluster.FreezeService(m.service);
      } else {
        Write(m, UnsupportedAction(m.action), None, None, None, recordedAt);
        return;
      }
      match report
      case Done(prior) => Write(m, Executed, None, Some(prior), Some(recordedAt + cfg.rollbackWindow), recordedAt);
      case NothingDone => Write(m, NoOp, None, None, None, recordedAt);
      case Exception =>
    }
  }
}
