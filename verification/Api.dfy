// services/api-bff/app/main.py: the human half of the ledger protocol. Approving and rolling
// back append a row and publish a request; a publish that fails is its own row.
module Api {
  import opened Prelude
  import opened Ledger

  datatype Reply = NotFound | ServerError | Unavailable | Accepted(id: nat)

  datatype Effect = Effect(rows: seq<Row>, published: seq<Message>, reply: Reply)

  // What a call commits to the ledger, and the request it publishes afterwards.
  datatype Ticket = Ticket(row: Row, message: Message)

  function FailureRow(id: nat, row: Row, message: Message, now: int): Row {
    Row(message.anomaly, Some(id), None, row.action, Approved, now, DispatchFailed, row.service, None, None)
  }

  function ApprovalRow(rows: seq<Row>, anomalies: Anomalies, anomaly: nat, pending: nat, now: int): Row
    requires pending < |rows|
  {
    var service := if anomaly in anomalies then anomalies[anomaly].service else "";
    Row(Some(anomaly), Some(pending), None, rows[pending].action, Approved, now, Dispatched, service, None, None)
  }

  function ApprovalMessage(id: nat, row: Row): Message {
    Message(id, row.anomaly, row.service, row.action, Some(Approved), None)
  }

  function ApprovalTicket(rows: seq<Row>, anomalies: Anomalies, anomaly: nat, now: int): Option<Ticket> {
    match Latest(rows, anomaly, PendingApproval)
    case None => None
    case Some(pending) =>
      var row := ApprovalRow(rows, anomalies, anomaly, pending, now);
      Some(Ticket(row, ApprovalMessage(|rows|, row)))
  }

  function RollbackRow(rows: seq<Row>, anomaly: nat, executed: nat, now: int): Row
    requires executed < |rows|
  {
    Row(Some(anomaly), Some(executed), Some(executed), Rollback, Approved, now, Dispatched, rows[executed].service, None, None)
  }

  // The request itself names no service and no mode.
  function RollbackMessage(id: nat, anomaly: nat, executed: nat): Message {
    Message(id, Some(anomaly), "", Rollback, None, Some(executed))
  }

  function RollbackTicket(rows: seq<Row>, anomaly: nat, now: int): Option<Ticket> {
    match Latest(rows, anomaly, Executed)
    case None => None
    case Some(executed) => Some(Ticket(RollbackRow(rows, anomaly, executed, now), RollbackMessage(|rows|, anomaly, executed)))
  }

  // A call that nothing interrupts: _append_action at once, _publish_or_fail later. up: does
  // the broker take the message.
  function Dispatch(
    rows: seq<Row>, anomalies: Anomalies, published: seq<Message>, ticket: Option<Ticket>, up: bool, later: int): Effect
  {
    match ticket
    case None => Effect(rows, published, NotFound)
    case Some(Ticket(row, message)) =>
      if !Accepts(rows, anomalies, row) then Effect(rows, published, ServerError)
      else if up then Effect(rows + [row], published + [message], Accepted(|rows|))
      else Effect(Append(rows + [row], anomalies, FailureRow(|rows|, row, message, later)), published, Unavailable)
  }

  // The reply says what happened, whatever the state of the tables: 404 without a ticket, 500
  // when the database refuses the row, 503 when only the broker is down.
  lemma RepliesTell(
    rows: seq<Row>, anomalies: Anomalies, published: seq<Message>, ticket: Option<Ticket>, up: bool, later: int)
    ensures
      var e := Dispatch(rows, anomalies, published, ticket, up, later);
      && (e.reply == NotFound <==> ticket.None?)
      && (e.reply == ServerError <==> ticket.Some? && !Accepts(rows, anomalies, ticket.value.row))
      && (e.reply == Unavailable <==> ticket.Some? && Accepts(rows, anomalies, ticket.value.row) && !up)
      && (e.reply == Accepted(|rows|) <==> ticket.Some? && Accepts(rows, anomalies, ticket.value.row) && up)
      && (e.reply == NotFound || e.reply == ServerError ==> e.rows == rows && e.published == published)
      && (e.reply.Accepted? ==> e.rows == rows + [ticket.value.row] && e.published == published + [ticket.value.message])
  {
  }

  class Service {
    const db: Database
    const bus: Bus

    constructor (db: Database, bus: Bus)
      ensures this.db == db && this.bus == bus
    {
      this.db, this.bus := db, bus;
    }

    method AppendAction(row: Row) returns (id: Option<nat>)
      modifies db`rows
      ensures db.rows == Append(old(db.rows), db.anomalies, row)
      ensures id == if Accepts(old(db.rows), db.anomalies, row) then Some(|old(db.rows)|) else None
    {
      id := db.Insert(row);
    }

    method PublishOrFail(id: nat, row: Row, message: Message, up: bool, later: int) returns (reply: Reply)
      modifies db`rows, bus
      ensures reply == if up then Accepted(id) else Unavailable
      ensures bus.published == if up then old(bus.published) + [message] else old(bus.published)
      ensures db.rows ==
              if up then old(db.rows)
              else Append(old(db.rows), db.anomalies, FailureRow(id, row, message, later))
    {
      var ok := bus.Publish(message, up);
      if ok {
        return Accepted(id);
      }
      var _ := AppendAction(FailureRow(id, row, message, later));
      reply := Unavailable;
    }

    method ApproveAction(anomaly: nat, now: int, up: bool, later: int) returns (reply: Reply)
      modifies db`rows, bus
      ensures Effect(db.rows, bus.published, reply)
           == Dispatch(old(db.rows), db.anomalies, old(bus.published),
                       ApprovalTicket(old(db.rows), db.anomalies, anomaly, now), up, later)
    {
      var pending := Latest(db.rows, anomaly, PendingApproval);
      if pending.None? {
        return NotFound;
      }
      var row := ApprovalRow(db.rows, db.anomalies, anomaly, pending.value, now);
      var id := AppendAction(row);
      if id.None? {
        return ServerError;
      }
      reply := PublishOrFail(id.value, row, ApprovalMessage(id.value, row), up, later);
    }

    method RollbackAction(anomaly: nat, now: int, up: bool, later: int) returns (reply: Reply)
      modifies db`rows, bus
      ensures Effect(db.rows, bus.published, reply)
           == Dispatch(old(db.rows), db.anomalies, old(bus.published),
                       RollbackTicket(old(db.rows), anomaly, now), up, later)
    {
      var executed := Latest(db.rows, anomaly, Executed);
      if executed.None? {
        return NotFound;
      }
      var row := RollbackRow(db.rows, anomaly, executed.value, now);
      var id := AppendAction(row);
      if id.None? {
        return ServerError;
      }
      reply := PublishOrFail(id.value, row, RollbackMessage(id.value, anomaly, executed.value), up, later);
    }
  }
}
