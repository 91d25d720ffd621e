// The append-only action ledger (infra/sql/init.sql), the anomalies table it refers to, and
// the bus the remediation requests travel on.
//
// A row's id is its position: a fresh id is the next position, and a reference points to an
// existing row exactly when it is smaller than the ledger is long.
module Ledger {
  import opened Prelude
  import opened Schemas

  datatype ActionType =
    | AlertOnly | Throttle | FreezeScaling | Quarantine | Terminate
    | Rollback
    | OtherAction(name: string)
  {
    // Members of the RemediationAction enumeration.
    predicate IsRemediation() {
      !Rollback? && !OtherAction?
    }
  }

  // The CHECK constraint on mode admits the first three.
  datatype Mode = Autonomous | Approved | DryRun | OtherMode(name: string)

  datatype Result =
    | Dispatched | PendingApproval
    | AlertOnlyNoActionTaken | AlertOnlyLowConfidence
    | Executed | NoOp | RolledBack | Failed
    | BlockedByProtectedFloor | BlockedByGlobalRateLimit | BlockedByPerServiceRateLimit
    | UnsupportedAction(action: ActionType)
    | RollbackFailedNoReference | RollbackWindowExpired
    | DispatchFailed

  // The JSON an executed row stores so that it can be reversed.
  datatype PriorState =
    | CpuLimit(ns: string, deployment: string, container: string, previousLimit: Option<string>)
    | MaxReplicas(ns: string, hpa: string, previousMax: int)
    | OtherKind(kind: string)

  datatype Row = Row(
    anomaly: Option<nat>, parent: Option<nat>, rollbackRef: Option<nat>,
    action: ActionType, mode: Mode, executedAt: int, result: Result, service: string,
    prior: Option<PriorState>, deadline: Option<int>)

  // A remediation.requested message. target is target_action_id, sent with rollbacks only.
  datatype Message = Message(
    actionId: nat, anomaly: Option<nat>, service: string, action: ActionType,
    mode: Option<Mode>, target: Option<nat>)

  datatype AnomalyRow = AnomalyRow(service: string, confidence: real, classification: Classification)

  type Anomalies = map<nat, AnomalyRow>

  // Foreign keys and the CHECK constraint: does the database accept this insert?
  predicate Accepts(rows: seq<Row>, anomalies: Anomalies, row: Row) {
    && (row.anomaly.Some? ==> row.anomaly.value in anomalies)
    && (row.parent.Some? ==> row.parent.value < |rows|)
    && (row.rollbackRef.Some? ==> row.rollbackRef.value < |rows|)
    && !row.mode.OtherMode?
  }

  function Append(rows: seq<Row>, anomalies: Anomalies, row: Row): seq<Row> {
    if Accepts(rows, anomalies, row) then rows + [row] else rows
  }

  class Database {
    var rows: seq<Row>
    var anomalies: Anomalies

    constructor ()
      ensures rows == [] && anomalies == map[]
    {
      rows, anomalies := [], map[];
    }

    // A refused insert raises in the caller and leaves the table as it was.
    method Insert(row: Row) returns (id: Option<nat>)
      modifies this`rows
      ensures rows == Append(old(rows), anomalies, row)
      ensures id == if Accepts(old(rows), anomalies, row) then Some(|old(rows)|) else None
    {
      if !Accepts(rows, anomalies, row) {
        return None;
      }
      id := Some(|rows|);
      rows := rows + [row];
    }

    method SetClassification(anomaly: nat, c: Classification)
      modifies this`anomalies
      ensures anomalies == Reclassify(old(anomalies), anomaly, c)
    {
      if anomaly in anomalies {
        anomalies := anomalies[anomaly := anomalies[anomaly].(classification := c)];
      }
    }
  }

  // UPDATE anomalies ... WHERE id = anomaly: no row, no effect.
  function Reclassify(anomalies: Anomalies, anomaly: nat, c: Classification): Anomalies {
    if anomaly in anomalies then anomalies[anomaly := anomalies[anomaly].(classification := c)] else anomalies
  }

  class Bus {
    // Every remediation request ever published, in order.
    var published: seq<Message>

    constructor ()
      ensures published == []
    {
      published := [];
    }

    method Publish(m: Message, up: bool) returns (ok: bool)
      modifies this
      ensures ok == up
      ensures published == if up then old(published) + [m] else old(published)
    {
      ok := up;
      if up {
        published := published + [m];
      }
    }
  }

  // ---------------------------------------------------------------- queries

  predicate Matches(row: Row, anomaly: nat, result: Result) {
    row.anomaly == Some(anomaly) && row.result == result
  }

  // WHERE anomaly_id = .. AND result = .. ORDER BY executed_at DESC LIMIT 1.
  // Equal times leave the choice to the database; here the later row is taken.
  function Latest(rows: seq<Row>, anomaly: nat, result: Result): (r: Option<nat>)
    ensures r.None? <==> forall i :: 0 <= i < |rows| ==> !Matches(rows[i], anomaly, result)
    ensures r.Some? ==>
              && r.value < |rows| && Matches(rows[r.value], anomaly, result)
              && forall i :: 0 <= i < |rows| && Matches(rows[i], anomaly, result) ==>
                   rows[i].executedAt <= rows[r.value].executedAt
  {
    if rows == [] then None
    else
      var n := |rows| - 1;
      var best := Latest(rows[..n], anomaly, result);
      if Matches(rows[n], anomaly, result) && (best.None? || rows[best.value].executedAt <= rows[n].executedAt)
      then Some(n) else best
  }
}
