// services/api-bff/app/alert_stream.py: bounded fan-out of alerts to connected dashboards.
//
// The classes are the queues and the broadcaster, updated in place; the second half follows
// every client through an arbitrary interleaving of what all clients do.
module AlertStream {
  import opened Prelude

  const MAX_QUEUED_ALERTS_PER_CLIENT := 100

  // put_nowait: a full queue drops the alert.
  function Offer<A>(items: seq<A>, alert: A): seq<A> {
    if |items| < MAX_QUEUED_ALERTS_PER_CLIENT then items + [alert] else items
  }

  class AlertQueue<A> {
    var items: seq<A>

    constructor ()
      ensures items == []
    {
      items := [];
    }

    method PutNowait(alert: A) returns (full: bool)
      modifies this
      ensures items == Offer(old(items), alert)
      ensures full <==> |old(items)| >= 100
    {
      full := |items| >= MAX_QUEUED_ALERTS_PER_CLIENT;
      if !full {
        items := items + [alert];
      }
    }

    // None while there is nothing to hand over: the reader waits.
    method Get() returns (alert: Option<A>)
      modifies this
      ensures old(items) == [] ==> alert.None? && items == []
      ensures old(items) != [] ==> alert == Some(old(items)[0]) && items == old(items)[1..]
    {
      if items == [] {
        return None;
      }
      alert := Some(items[0]);
      items := items[1..];
    }
  }

  class Broadcaster<A> {
    var subscribers: set<AlertQueue<A>>
    var started: bool
    // Fan-outs handed to the event loop and not yet run.
    var scheduled: seq<A>

    constructor ()
      ensures subscribers == {} && !started && scheduled == []
    {
      subscribers, started, scheduled := {}, false, [];
    }

    method Start()
      modifies this`started
      ensures started
    {
      started := true;
    }

    method Subscribe() returns (queue: AlertQueue<A>)
      modifies this`subscribers
      ensures fresh(queue) && queue.items == [] && subscribers == old(subscribers) + {queue}
    {
      queue := new AlertQueue<A>();
      subscribers := subscribers + {queue};
    }

    method Unsubscribe(queue: AlertQueue<A>)
      modifies this`subscribers
      ensures subscribers == old(subscribers) - {queue}
    {
      subscribers := subscribers - {queue};
    }

    // The snapshot is visited in no particular order; the outcome does not depend on it.
    method FanOut(alert: A)
      modifies subscribers
      ensures forall q :: q in subscribers ==> q.items == Offer(old(q.items), alert)
    {
      var pending := subscribers;
      while pending != {}
        invariant pending <= subscribers
        invariant forall q :: q in pending ==> q.items == old(q.items)
        invariant forall q :: q in subscribers - pending ==> q.items == Offer(old(q.items), alert)
        decreases |pending|
      {
        var queue :| queue in pending;
        var _ := queue.PutNowait(alert);
        pending := pending - {queue};
      }
    }

    // Runs on the consumer's thread: the fan-out is only scheduled. Alerts that arrive before
    // the event loop is known are dropped.
    method OnMessage(alert: A)
      modifies this`scheduled
      ensures scheduled == if started then old(scheduled) + [alert] else old(scheduled)
    {
      if started {
        scheduled := scheduled + [alert];
      }
    }

    // The event loop runs what was scheduled in the order it was scheduled, for the clients
    // subscribed by then.
    method RunScheduled() returns (ran: bool)
      modifies this`scheduled, subscribers
      ensures ran <==> old(scheduled) != []
      ensures !ran ==> scheduled == [] && forall q :: q in subscribers ==> q.items == old(q.items)
      ensures ran ==>
                && scheduled == old(scheduled)[1..]
                && forall q :: q in subscribers ==> q.items == Offer(old(q.items), old(scheduled)[0])
    {
      ran := scheduled != [];
      if ran {
        FanOut(scheduled[0]);
        scheduled := scheduled[1..];
      }
    }
  }

  // ---------------------------------------------------------------- all clients, all interleavings

  // joined, offered and dropped are history: how many fan-outs had run when the client
  // subscribed, the alerts fanned out to it, and how many of them found the queue full.
  datatype Client<A> = Client(live: bool, queue: seq<A>, delivered: seq<A>, joined: nat, offered: seq<A>, dropped: nat)

  // arrived and fanned are history: the alerts received since the start, and those fanned out.
  datatype Hub<!K, A> = Hub(clients: map<K, Client<A>>, started: bool, scheduled: seq<A>, arrived: seq<A>, fanned: seq<A>)

  datatype Event<K, A> =
    | Started | Arrived(alert: A) | FannedOut
    | Subscribed(client: K) | Unsubscribed(client: K) | Taken(client: K)

  function Receive<A>(c: Client<A>, alert: A): Client<A> {
    if !c.live then c
    else
      c.(queue := Offer(c.queue, alert), offered := c.offered + [alert],
         dropped := if |c.queue| < MAX_QUEUED_ALERTS_PER_CLIENT then c.dropped else c.dropped + 1)
  }

  function Take<A>(c: Client<A>): Client<A> {
    if c.queue == [] then c else c.(queue := c.queue[1..], delivered := c.delivered + [c.queue[0]])
  }

  function RunNext<K(==), A>(hub: Hub<K, A>): Hub<K, A> {
    if hub.scheduled == [] then hub
    else
      var alert := hub.scheduled[0];
      hub.(scheduled := hub.scheduled[1..], fanned := hub.fanned + [alert],
           clients := map k | k in hub.clients :: Receive(hub.clients[k], alert))
  }

  // Every subscription is a new queue, so a client subscribes once.
  function HubStep<K(==), A>(hub: Hub<K, A>, e: Event<K, A>): Hub<K, A> {
    match e
    case Started => hub.(started := true)
    case Arrived(alert) =>
      if hub.started then hub.(scheduled := hub.scheduled + [alert], arrived := hub.arrived + [alert]) else hub
    case FannedOut => RunNext(hub)
    case Subscribed(k) =>
      if k in hub.clients then hub
      else hub.(clients := hub.clients[k := Client(true, [], [], |hub.fanned|, [], 0)])
    case Unsubscribed(k) =>
      if k in hub.clients then hub.(clients := hub.clients[k := hub.clients[k].(live := false)]) else hub
    case Taken(k) => if k in hub.clients then hub.(clients := hub.clients[k := Take(hub.clients[k])]) else hub
  }

  function HubAfter<K(==), A>(events: seq<Event<K, A>>): Hub<K, A> {
    if events == [] then Hub(map[], false, [], [], []) else HubStep(HubAfter(events[..|events| - 1]), events[|events| - 1])
  }

  // a can be got from b by leaving elements out.
  predicate Subsequence<A(==)>(a: seq<A>, b: seq<A>) {
    if a == [] then true
    else if b == [] then false
    else if a[|a| - 1] == b[|b| - 1] && Subsequence(a[..|a| - 1], b[..|b| - 1]) then true
    else Subsequence(a, b[..|b| - 1])
  }

  ghost predicate ClientSound<A>(c: Client<A>) {
    && |c.queue| <= 100
    && Subsequence(c.delivered + c.queue, c.offered)
    && |c.delivered| + |c.queue| + c.dropped == |c.offered|
    && (c.dropped == 0 <==> c.delivered + c.queue == c.offered)
  }

  // An alert is dropped exactly when 100 wait already; a client that left gets nothing.
  lemma DropsOnlyWhenFull<A>(c: Client<A>, alert: A)
    ensures
      var c' := Receive(c, alert);
      if !c.live then c' == c
      else
        && c'.live && c'.delivered == c.delivered && c'.joined == c.joined && c'.offered == c.offered + [alert]
        && (|c.queue| < 100 ==> c'.queue == c.queue + [alert] && c'.dropped == c.dropped)
        && (|c.queue| >= 100 ==> c'.queue == c.queue && c'.dropped == c.dropped + 1)
  {
  }

  lemma ReceiveSound<A>(c: Client<A>, alert: A)
    requires ClientSound(c)
    ensures ClientSound(Receive(c, alert))
  {
    if c.live {
      var kept, offered := c.delivered + c.queue, c.offered + [alert];
      assert offered[..|offered| - 1] == c.offered;
      if |c.queue| < MAX_QUEUED_ALERTS_PER_CLIENT {
        assert c.delivered + (c.queue + [alert]) == kept + [alert];
        assert (kept + [alert])[..|kept|] == kept;
        if c.dropped != 0 {
          assert |kept + [alert]| < |offered|;
        }
      } else {
        assert Subsequence(kept, offered);
        assert |kept| < |offered|;
      }
    }
  }

  lemma TakeSound<A>(c: Client<A>)
    requires ClientSound(c)
    ensures ClientSound(Take(c))
  {
    if c.queue != [] {
      assert c.delivered + [c.queue[0]] + c.queue[1..] == c.delivered + c.queue;
    }
  }

  // For every interleaving and every client: at most 100 alerts wait, what was delivered
  // followed by what waits is an in-order subsequence of what was fanned out to it, and all
  // of it exactly when no fan-out found the queue full.
  lemma {:induction false} EveryClientSound<K, A>(events: seq<Event<K, A>>, k: K)
    requires k in HubAfter(events).clients
    ensures ClientSound(HubAfter(events).clients[k])
  {
    if events != [] {
      var earlier, e := events[..|events| - 1], events[|events| - 1];
      var hub := HubAfter(earlier);
      if k in hub.clients {
        EveryClientSound(earlier, k);
        if e.FannedOut? && hub.scheduled != [] {
          ReceiveSound(hub.clients[k], hub.scheduled[0]);
        } else if e == Taken(k) {
          TakeSound(hub.clients[k]);
        }
      }
    }
  }

  ghost predicate InOrder<K, A>(hub: Hub<K, A>) {
    hub.fanned + hub.scheduled == hub.arrived
  }

  ghost predicate OfferedFrom<A>(c: Client<A>, fanned: seq<A>) {
    && c.joined <= |fanned| && c.offered <= fanned[c.joined..]
    && (c.live ==> c.offered == fanned[c.joined..])
  }

  lemma ReceivesNext<A>(c: Client<A>, fanned: seq<A>, alert: A)
    requires OfferedFrom(c, fanned)
    ensures OfferedFrom(Receive(c, alert), fanned + [alert])
  {
    assert (fanned + [alert])[c.joined..] == fanned[c.joined..] + [alert];
  }

  lemma StepInOrder<K, A>(hub: Hub<K, A>, e: Event<K, A>)
    requires InOrder(hub)
    ensures InOrder(HubStep(hub, e))
  {
    if e.FannedOut? && hub.scheduled != [] {
      assert hub.fanned + [hub.scheduled[0]] + hub.scheduled[1..] == hub.fanned + hub.scheduled;
    } else if e.Arrived? {
      assert hub.fanned + (hub.scheduled + [e.alert]) == hub.fanned + hub.scheduled + [e.alert];
    }
  }

  // The hand-over to the event loop loses and reorders nothing: what was fanned out followed
  // by what is still scheduled is what arrived since the start. A client was offered exactly
  // the fan-outs that ran from its subscription on, until it left - including alerts that
  // had arrived before it subscribed.
  lemma {:induction false} OfferedSinceJoining<K, A>(events: seq<Event<K, A>>)
    ensures
      var hub := HubAfter(events);
      && hub.fanned + hub.scheduled == hub.arrived
      && forall k :: k in hub.clients ==>
           var c := hub.clients[k];
           && c.joined <= |hub.fanned| && c.offered <= hub.fanned[c.joined..]
           && (c.live ==> c.offered == hub.fanned[c.joined..])
  {
    if events != [] {
      var earlier, e := events[..|events| - 1], events[|events| - 1];
      OfferedSinceJoining(earlier);
      var hub, hub' := HubAfter(earlier), HubAfter(events);
      StepInOrder(hub, e);
      forall k | k in hub'.clients ensures OfferedFrom(hub'.clients[k], hub'.fanned) {
        if k in hub.clients {
          assert OfferedFrom(hub.clients[k], hub.fanned);
          if e.FannedOut? && hub.scheduled != [] {
            ReceivesNext(hub.clients[k], hub.fanned, hub.scheduled[0]);
          }
        }
      }
    }
  }

  // A client is there from its first subscription on, and live until it first leaves.
  datatype Standing = Absent | Live | Gone

  function StandingAfter<K(==), A>(events: seq<Event<K, A>>, k: K): Standing {
    if events == [] then Absent
    else
      var before, e := StandingAfter(events[..|events| - 1], k), events[|events| - 1];
      if e.Subscribed? && e.client == k && before.Absent? then Live
      else if e.Unsubscribed? && e.client == k && before.Live? then Gone
      else before
  }

  // The alerts that arrived after the loop was known.
  function ArrivedSinceStart<K(==), A(==)>(events: seq<Event<K, A>>): seq<A> {
    if events == [] then []
    else
      var earlier, e := events[..|events| - 1], events[|events| - 1];
      ArrivedSinceStart(earlier) + if e.Arrived? && Started in earlier then [e.alert] else []
  }

  lemma StepKeepsLive<K, A>(hub: Hub<K, A>, k: K)
    ensures k in hub.clients ==>
              && (forall alert :: Receive(hub.clients[k], alert).live == hub.clients[k].live)
              && Take(hub.clients[k]).live == hub.clients[k].live
  {
  }

  lemma {:induction false} HubFollowsEvents<K, A>(events: seq<Event<K, A>>, k: K)
    ensures
      var hub := HubAfter(events);
      && (k in hub.clients <==> !StandingAfter(events, k).Absent?)
      && (k in hub.clients ==> (hub.clients[k].live <==> StandingAfter(events, k).Live?))
      && (hub.started <==> Started in events)
      && hub.arrived == ArrivedSinceStart(events)
  {
    if events != [] {
      hide Receive;
      hide Take;
      var earlier, e := events[..|events| - 1], events[|events| - 1];
      HubFollowsEvents(earlier, k);
      StepKeepsLive(HubAfter(earlier), k);
      assert events == earlier + [e];
      assert ArrivedSinceStart(earlier) + [] == ArrivedSinceStart(earlier);
    }
  }

  predicate Concerns<K(==), A>(e: Event<K, A>, k: K) {
    e.Started? || e.Arrived? || e.FannedOut? || e.client == k
  }

  // What concerns one client: its own events, the arrivals and the fan-outs.
  function Own<K(==), A>(events: seq<Event<K, A>>, k: K): seq<Event<K, A>> {
    if events == [] then []
    else
      var e := events[|events| - 1];
      Own(events[..|events| - 1], k) + if Concerns(e, k) then [e] else []
  }

  // The two hubs differ in other clients only.
  ghost predicate SameFor<K, A>(a: Hub<K, A>, b: Hub<K, A>, k: K) {
    && a.started == b.started && a.scheduled == b.scheduled && a.arrived == b.arrived && a.fanned == b.fanned
    && (k in a.clients <==> k in b.clients)
    && (k in a.clients ==> a.clients[k] == b.clients[k])
  }

  lemma StepSameFor<K, A>(a: Hub<K, A>, b: Hub<K, A>, e: Event<K, A>, k: K)
    requires SameFor(a, b, k)
    ensures if Concerns(e, k) then SameFor(HubStep(a, e), HubStep(b, e), k) else SameFor(HubStep(a, e), b, k)
  {
    hide Receive;
    hide Take;
  }

  // No client's contents depend on what the others do.
  lemma {:induction false} ClientsAreIndependent<K, A>(events: seq<Event<K, A>>, k: K)
    ensures SameFor(HubAfter(events), HubAfter(Own(events, k)), k)
  {
    if events != [] {
      hide SameFor;
      hide HubStep;
      var earlier, e := events[..|events| - 1], events[|events| - 1];
      ClientsAreIndependent(earlier, k);
      var own := Own(earlier, k);
      StepSameFor(HubAfter(earlier), HubAfter(own), e, k);
      if Concerns(e, k) {
        assert (own + [e])[..|own|] == own;
      } else {
        assert own + [] == own;
      }
    } else {
      assert Own(events, k) == events;
    }
  }

  // ---------------------------------------------------------------- the objects take these steps

  // The broadcaster and the queues it handed out hold the state of the hub: each client has
  // its own queue, which is subscribed while the client is live.
  ghost predicate Holds<K, A>(b: Broadcaster<A>, queues: map<K, AlertQueue<A>>, hub: Hub<K, A>)
    reads b, queues.Values
  {
    && b.started == hub.started && b.scheduled == hub.scheduled
    && queues.Keys == hub.clients.Keys && b.subscribers <= queues.Values
    && (forall j, k :: j in queues && k in queues && j != k ==> queues[j] != queues[k])
    && (forall k :: k in queues ==> queues[k].items == hub.clients[k].queue)
    && (forall k :: k in queues ==> (queues[k] in b.subscribers <==> hub.clients[k].live))
  }

  method StartTakesStep<K, A>(b: Broadcaster<A>, ghost queues: map<K, AlertQueue<A>>, ghost hub: Hub<K, A>)
    requires Holds(b, queues, hub)
    modifies b
    ensures Holds(b, queues, HubStep(hub, Started))
  {
    b.Start();
  }

  method SubscribeTakesStep<K, A>(b: Broadcaster<A>, ghost k: K, ghost queues: map<K, AlertQueue<A>>, ghost hub: Hub<K, A>)
    returns (queue: AlertQueue<A>)
    requires Holds(b, queues, hub) && k !in hub.clients
    modifies b
    ensures Holds(b, queues[k := queue], HubStep(hub, Subscribed(k)))
  {
    queue := b.Subscribe();
    ghost var queues' := queues[k := queue];
    assert k in queues' && queue in queues'.Values;
    assert forall j :: j in queues ==> queues'[j] == queues[j] && queues'[j] in queues'.Values;
    assert forall q :: q in queues.Values ==> exists j :: j in queues && queues[j] == q;
  }

  method UnsubscribeTakesStep<K, A>(
    b: Broadcaster<A>, queue: AlertQueue<A>, ghost k: K, ghost queues: map<K, AlertQueue<A>>, ghost hub: Hub<K, A>)
    requires Holds(b, queues, hub) && k in queues && queues[k] == queue
    modifies b
    ensures Holds(b, queues, HubStep(hub, Unsubscribed(k)))
  {
    b.Unsubscribe(queue);
  }

  method OnMessageTakesStep<K, A>(b: Broadcaster<A>, alert: A, ghost queues: map<K, AlertQueue<A>>, ghost hub: Hub<K, A>)
    requires Holds(b, queues, hub)
    modifies b
    ensures Holds(b, queues, HubStep(hub, Arrived(alert)))
  {
    b.OnMessage(alert);
  }

  method RunScheduledTakesStep<K, A>(b: Broadcaster<A>, ghost queues: map<K, AlertQueue<A>>, ghost hub: Hub<K, A>)
    requires Holds(b, queues, hub)
    modifies b, b.subscribers
    ensures Holds(b, queues, HubStep(hub, FannedOut))
  {
    var _ := b.RunScheduled();
  }

  method GetTakesStep<K, A>(
    b: Broadcaster<A>, queue: AlertQueue<A>, ghost k: K, ghost queues: map<K, AlertQueue<A>>, ghost hub: Hub<K, A>)
    returns (alert: Option<A>)
    requires Holds(b, queues, hub) && k in queues && queues[k] == queue
    modifies queue
    ensures Holds(b, queues, HubStep(hub, Taken(k)))
    ensures hub.clients[k].delivered + (if alert.Some? then [alert.value] else []) == HubStep(hub, Taken(k)).clients[k].delivered
  {
    alert := queue.Get();
    assert hub.clients[k].delivered + [] == hub.clients[k].delivered;
  }
}
