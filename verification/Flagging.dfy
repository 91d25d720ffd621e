// services/behaviour-analysis/app/main.py, what surrounds the detector: a finding is stored as
// an anomaly and then announced as an anomaly.flagged message.
module Flagging {
  import opened Prelude
  import opened Ledger
  import Decision
  import Detector

  function MessageFor(id: nat, f: Detector.Finding): Decision.AnomalyMessage {
    Decision.AnomalyMessage(id, f.service, Some(f.value), Some(f.confidence), Some(f.confidence), Some(f.classification))
  }

  function RowFor(f: Detector.Finding): AnomalyRow {
    AnomalyRow(f.service, f.confidence, f.classification)
  }

  class Service {
    const engine: Detector.Engine
    const db: Database
    // Every anomaly ever announced, in order.
    var inbox: seq<Decision.AnomalyMessage>

    constructor (engine: Detector.Engine, db: Database)
      ensures this.engine == engine && this.db == db && inbox == []
    {
      this.engine, this.db, inbox := engine, db, [];
    }

    // An id already in use makes the insert raise, so that nothing is announced. up: does the
    // broker take the message.
    method FlagAnomaly(id: nat, f: Detector.Finding, up: bool)
      modifies db`anomalies, this`inbox
      ensures id in old(db.anomalies) ==> db.anomalies == old(db.anomalies) && inbox == old(inbox)
      ensures id !in old(db.anomalies) ==>
                && db.anomalies == old(db.anomalies)[id := RowFor(f)]
                && inbox == if up then old(inbox) + [MessageFor(id, f)] else old(inbox)
    {
      if id in db.anomalies {
        return;
      }
      db.anomalies := db.anomalies[id := RowFor(f)];
      if up {
        inbox := inbox + [MessageFor(id, f)];
      }
    }

    // The baselines are stored before the anomaly is.
    method HandleCost(m: Detector.CostMessage, id: nat, up: bool)
      modifies engine, db`anomalies, this`inbox
      ensures engine.Abstract() == Detector.CostStep(engine.root, old(engine.Abstract()), m)
      ensures
        var finding := Detector.CostFinding(engine.root, old(engine.Abstract()), m);
        if finding.None? || id in old(db.anomalies) then db.anomalies == old(db.anomalies) && inbox == old(inbox)
        else
          && db.anomalies == old(db.anomalies)[id := RowFor(finding.value)]
          && inbox == if up then old(inbox) + [MessageFor(id, finding.value)] else old(inbox)
    {
      var finding := engine.HandleCost(m);
      if finding.Some? {
        FlagAnomaly(id, finding.value, up);
      }
    }
  }
}
