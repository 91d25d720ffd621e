// What becomes of a dispatch. Its row is committed first and its request published later; in
// between the broker may go away, the handler may die, and every other service may act.
//
// Everything here holds in every run, whatever is put on the remediation queue by others.
module Requests {
  import opened Prelude
  import opened Ledger
  import opened Policy
  import opened Protocol
  import opened LedgerSafety
  import Cluster
  import Correlation
  import Decision
  import Api

  // m asks for what row i dispatched.
  predicate AsksFor(rows: seq<Row>, i: nat, m: Message) {
    && i < |rows| && rows[i].result.Dispatched?
    && m.actionId == i && m.anomaly == rows[i].anomaly && m.action == rows[i].action
  }

  ghost predicate Requested(s: System, i: nat) {
    exists k :: 0 <= k < |s.published| && s.published[k].actionId == i
  }

  ghost predicate FailureNoted(s: System, i: nat) {
    exists j :: 0 <= j < |s.rows| && s.rows[j].result.DispatchFailed? && s.rows[j].parent == Some(i)
  }

  // Every dispatch either waits or has met its fate.
  ghost predicate Accounted(s: System) {
    && (forall i :: i in s.waiting ==> i !in s.fate && AsksFor(s.rows, i, s.waiting[i]))
    && (forall i :: i in s.fate ==> i < |s.rows| && s.rows[i].result.Dispatched?)
    && (forall i :: 0 <= i < |s.rows| && s.rows[i].result.Dispatched? ==>
          && (i in s.waiting || i in s.fate)
          && (s.rows[i].anomaly.Some? ==> s.rows[i].anomaly.value in s.anomalies))
  }

  // The published requests are those whose fate says so, each once.
  ghost predicate RequestsMatch(s: System) {
    && (forall k :: 0 <= k < |s.published| ==> IsSent(s, s.published[k]))
    && (forall j, k :: 0 <= j < k < |s.published| ==> s.published[j].actionId != s.published[k].actionId)
    && (forall i :: i in s.fate && s.fate[i].Sent? ==> Requested(s, i))
  }

  predicate IsSent(s: System, m: Message) {
    m.actionId in s.fate && s.fate[m.actionId].Sent? && AsksFor(s.rows, m.actionId, m)
  }

  predicate NotesRefusal(s: System, row: Row) {
    && row.parent.Some? && row.parent.value < |s.rows| && FromApi(s.rows[row.parent.value])
    && row.parent.value in s.fate && s.fate[row.parent.value].TurnedDown?
  }

  ghost predicate FailuresMatch(s: System) {
    && (forall j :: 0 <= j < |s.rows| && s.rows[j].result.DispatchFailed? ==> NotesRefusal(s, s.rows[j]))
    && (forall i :: 0 <= i < |s.rows| && FromApi(s.rows[i]) && i in s.fate && s.fate[i].TurnedDown? ==> FailureNoted(s, i))
  }

  ghost predicate Settling(s: System) {
    Accounted(s) && RequestsMatch(s) && FailuresMatch(s)
  }

  // ---------------------------------------------------------------- each step

  // A step that dispatches nothing, publishes nothing and reports no failure.
  lemma QuietKeepsSettling(s: System, s': System)
    requires Settling(s) && s.rows <= s'.rows && s.anomalies.Keys <= s'.anomalies.Keys
    requires s'.waiting == s.waiting && s'.fate == s.fate && s'.published == s.published
    requires forall i :: |s.rows| <= i < |s'.rows| ==> !s'.rows[i].result.Dispatched? && !s'.rows[i].result.DispatchFailed?
    ensures Settling(s')
  {
    forall i | i in s'.fate && s'.fate[i].Sent? ensures Requested(s', i) {
      assert Requested(s, i);
    }
    forall k | 0 <= k < |s'.published| ensures IsSent(s', s'.published[k]) {
      assert IsSent(s, s.published[k]);
    }
    FailuresGrow(s, s');
  }

  lemma FailuresGrow(s: System, s': System)
    requires FailuresMatch(s) && s.rows <= s'.rows && s'.fate == s.fate
    requires forall i :: |s.rows| <= i < |s'.rows| && s'.rows[i].result.Dispatched? ==> i !in s'.fate
    requires forall i :: |s.rows| <= i < |s'.rows| ==> !s'.rows[i].result.DispatchFailed?
    ensures FailuresMatch(s')
  {
    forall j | 0 <= j < |s'.rows| && s'.rows[j].result.DispatchFailed? ensures NotesRefusal(s', s'.rows[j]) {
      assert NotesRefusal(s, s.rows[j]);
    }
    forall i | 0 <= i < |s'.rows| && FromApi(s'.rows[i]) && i in s'.fate && s'.fate[i].TurnedDown? ensures FailureNoted(s', i) {
      var j :| 0 <= j < |s.rows| && s.rows[j].result.DispatchFailed? && s.rows[j].parent == Some(i);
      assert s'.rows[j] == s.rows[j];
    }
  }

  // A committed dispatch starts to wait.
  lemma CommitKeepsSettling(s: System, row: Row, request: Option<Message>)
    requires Settling(s) && !row.result.DispatchFailed?
    requires row.result.Dispatched? <==> request.Some?
    requires request.Some? ==>
               && request.value.actionId == |s.rows| && request.value.anomaly == row.anomaly && request.value.action == row.action
    ensures Settling(Committed(s, row, request))
  {
    var s' := Committed(s, row, request);
    if s' != s {
      forall i | i in s'.fate && s'.fate[i].Sent? ensures Requested(s', i) {
        assert Requested(s, i);
      }
      forall k | 0 <= k < |s'.published| ensures IsSent(s', s'.published[k]) {
        assert IsSent(s, s.published[k]);
      }
      FailuresGrow(s, s');
    }
  }

  // The publish settles it.
  lemma PublishKeepsSettling(s: System, id: nat, up: bool)
    requires Settling(s)
    ensures Settling(Published(s, id, up))
  {
    hide Accounted;
    hide RequestsMatch;
    hide FailuresMatch;
    if id in s.waiting {
      PublishKeepsAccounts(s, id, up);
      PublishKeepsRequests(s, id, up);
      PublishKeepsFailures(s, id, up);
    }
  }

  lemma PublishKeepsAccounts(s: System, id: nat, up: bool)
    requires Accounted(s) && id in s.waiting
    ensures Accounted(Published(s, id, up))
  {
    hide Accepts;
    var s' := Published(s, id, up);
    assert AsksFor(s.rows, id, s.waiting[id]);
    assert s.rows <= s'.rows && s'.fate.Keys == s.fate.Keys + {id} && s'.waiting == s.waiting - {id};
    assert forall i :: |s.rows| <= i < |s'.rows| ==> !s'.rows[i].result.Dispatched?;
    assert s'.anomalies == s.anomalies;
    hide Published;
  }

  lemma PublishKeepsRequests(s: System, id: nat, up: bool)
    requires Accounted(s) && RequestsMatch(s) && id in s.waiting
    ensures RequestsMatch(Published(s, id, up))
  {
    var s' := Published(s, id, up);
    assert AsksFor(s.rows, id, s.waiting[id]);
    hide Accounted;
    hide RequestsMatch;
    RequestsOf(s, s', id, up);
    hide Published;
  }

  lemma RequestsOf(s: System, s': System, id: nat, up: bool)
    requires RequestsMatch(s) && id in s.waiting && id !in s.fate && AsksFor(s.rows, id, s.waiting[id])
    requires s.rows <= s'.rows && s'.fate == s.fate[id := if up then Sent else TurnedDown]
    requires s'.published == if up then s.published + [s.waiting[id]] else s.published
    ensures RequestsMatch(s')
  {
    forall k | 0 <= k < |s'.published| ensures IsSent(s', s'.published[k]) {
      if k < |s.published| {
        assert IsSent(s, s.published[k]);
      }
    }
    forall i | i in s'.fate && s'.fate[i].Sent? ensures Requested(s', i) {
      if i == id {
        assert s'.published[|s.published|].actionId == id;
      } else {
        var k :| 0 <= k < |s.published| && s.published[k].actionId == i;
        assert s'.published[k].actionId == i;
      }
    }
    forall j, k | 0 <= j < k < |s'.published| ensures s'.published[j].actionId != s'.published[k].actionId {
      assert IsSent(s, s.published[j]);
    }
  }

  lemma PublishKeepsFailures(s: System, id: nat, up: bool)
    requires Accounted(s) && FailuresMatch(s) && id in s.waiting
    ensures FailuresMatch(Published(s, id, up))
  {
    var s' := Published(s, id, up);
    assert s.rows <= s'.rows && s'.fate == s.fate[id := if up then Sent else TurnedDown];
    assert |s'.rows| > |s.rows| ==> NotesRefusal(s', s'.rows[|s.rows|]);
    assert FromApi(s'.rows[id]) && !up ==>
             |s'.rows| > |s.rows| && s'.rows[|s.rows|].result.DispatchFailed? && s'.rows[|s.rows|].parent == Some(id);
    FailuresOf(s, s', id);
  }

  lemma FailuresOf(s: System, s': System, id: nat)
    requires FailuresMatch(s) && s.rows <= s'.rows && |s'.rows| <= |s.rows| + 1 && id < |s.rows|
    requires id !in s.fate && id in s'.fate && s'.fate == s.fate[id := s'.fate[id]]
    requires |s'.rows| > |s.rows| ==> NotesRefusal(s', s'.rows[|s.rows|]) && !FromApi(s'.rows[|s.rows|])
    requires FromApi(s'.rows[id]) && s'.fate[id].TurnedDown? ==> FailureNoted(s', id)
    ensures FailuresMatch(s')
  {
    forall j | 0 <= j < |s'.rows| && s'.rows[j].result.DispatchFailed? ensures NotesRefusal(s', s'.rows[j]) {
      if j < |s.rows| {
        assert NotesRefusal(s, s.rows[j]);
      }
    }
    forall i | 0 <= i < |s'.rows| && FromApi(s'.rows[i]) && i in s'.fate && s'.fate[i].TurnedDown? ensures FailureNoted(s', i) {
      if i != id && i < |s.rows| {
        var j :| 0 <= j < |s.rows| && s.rows[j].result.DispatchFailed? && s.rows[j].parent == Some(i);
        assert s'.rows[j] == s.rows[j];
      }
    }
  }

  lemma DieKeepsSettling(s: System, id: nat)
    requires Settling(s)
    ensures Settling(Died(s, id))
  {
    if id in s.waiting {
      var s' := Died(s, id);
      forall i | i in s'.fate && s'.fate[i].Sent? ensures Requested(s', i) {
        assert Requested(s, i);
      }
      forall k | 0 <= k < |s'.published| ensures IsSent(s', s'.published[k]) {
        assert IsSent(s, s.published[k]);
      }
      forall j | 0 <= j < |s'.rows| && s'.rows[j].result.DispatchFailed? ensures NotesRefusal(s', s'.rows[j]) {
        assert NotesRefusal(s, s.rows[j]);
      }
      forall i | 0 <= i < |s'.rows| && FromApi(s'.rows[i]) && i in s'.fate && s'.fate[i].TurnedDown? ensures FailureNoted(s', i) {
        assert FailureNoted(s, i);
      }
    }
  }

  lemma CallKeepsSettling(s: System, ticket: Option<Api.Ticket>)
    requires Settling(s)
    requires ticket.Some? ==>
               && FromApi(ticket.value.row) && ticket.value.message.actionId == |s.rows|
               && ticket.value.message.anomaly == ticket.value.row.anomaly && ticket.value.message.action == ticket.value.row.action
    ensures Settling(Called(s, ticket))
  {
    hide Settling;
    if ticket.Some? {
      CommitKeepsSettling(s, ticket.value.row, Some(ticket.value.message));
    }
  }

  lemma DecideKeepsSettling(u: Setup, s: System, m: Decision.AnomalyMessage, table: seq<PolicyRow>)
    requires Settling(s)
    ensures Settling(Decided(u, s, m, table))
  {
    var c := Correlation.Classify(s.maps, u.decision.windows, m.service, m.verdict, s.clock);
    var v := Decision.Decide(u.decision, s.maps, table, m, s.clock);
    DecisionResults(u, s, m, table);
    hide Decision.Decide;
    hide Correlation.Classify;
    var next := s.(anomalies := Reclassify(s.anomalies, m.id, c));
    QuietKeepsSettling(s, next);
    if v.Logged? {
      var reasoned := next.(because := s.because[|s.rows| := Grounds(m, c, table, v.policy)]);
      QuietKeepsSettling(next, reasoned);
      hide Settling;
      CommitKeepsSettling(reasoned, Decision.DecisionRow(m, v, s.clock),
                          if Decision.Autonomy(v) == 2 then Some(Decision.DispatchMessage(|s.rows|, m, v.policy.action)) else None);
    }
  }

  lemma DecisionResults(u: Setup, s: System, m: Decision.AnomalyMessage, table: seq<PolicyRow>)
    ensures
      var v := Decision.Decide(u.decision, s.maps, table, m, s.clock);
      v.Logged? ==> !v.result.DispatchFailed? && (v.result.Dispatched? ==> v.mode == Autonomous)
  {
  }

  // What no handler of a dispatch does.
  lemma OthersKeepSettling(u: Setup, s: System, step: Step)
    requires Sound(u, s) && Settling(s)
    requires !step.DecideOn? && !step.ApproveCall? && !step.RollbackCall? && !step.Publish? && !step.Die?
    ensures Settling(Apply(u, s, step))
  {
    StepFrame(u, s, step);
    OnlyAppends(u, s, step);
    if step.Finish? {
      FinishIsQuiet(u, s, step.recorded);
    }
    hide Sound;
    hide Settling;
    hide Finished;
    if !step.Finish? {
      hide Apply;
    }
    QuietKeepsSettling(s, Apply(u, s, step));
  }

  lemma StepKeepsSettling(u: Setup, s: System, step: Step)
    requires Sound(u, s) && Settling(s)
    ensures Settling(Apply(u, s, step))
  {
    hide Sound;
    hide Settling;
    match step
    case DecideOn(k, table) =>
      if k < |s.inbox| && ByPriority(table) {
        DecideKeepsSettling(u, s, s.inbox[k], table);
      }
    case ApproveCall(id) => CallKeepsSettling(s, Api.ApprovalTicket(s.rows, s.anomalies, id, s.clock));
    case RollbackCall(id) => CallKeepsSettling(s, Api.RollbackTicket(s.rows, id, s.clock));
    case Publish(id, up) => PublishKeepsSettling(s, id, up);
    case Die(id) => DieKeepsSettling(s, id);
    case _ => OthersKeepSettling(u, s, step);
  }

  lemma {:induction false} AlwaysSettling(u: Setup, cluster: Cluster.State, clock: int, steps: seq<Step>)
    ensures Settling(After(u, Initial(cluster, clock), steps))
  {
    if steps != [] {
      var earlier := steps[..|steps| - 1];
      AlwaysSettling(u, cluster, clock, earlier);
      AlwaysSound(u, cluster, clock, earlier);
      StepKeepsSettling(u, After(u, Initial(cluster, clock), earlier), steps[|steps| - 1]);
    }
  }

  // ---------------------------------------------------------------- the results

  // In every run, a dispatch has its request on the queue or a failure row that says it has
  // not - never both - except exactly when its handler has still to publish it, died before
  // doing so, or was decision-policy and the broker turned it down.
  lemma DispatchAnsweredIff(u: Setup, cluster: Cluster.State, clock: int, steps: seq<Step>, i: nat)
    requires
      var s := After(u, Initial(cluster, clock), steps);
      i < |s.rows| && s.rows[i].result.Dispatched?
    ensures
      var s := After(u, Initial(cluster, clock), steps);
      && (Requested(s, i) || FailureNoted(s, i) <==>
            i !in s.waiting && i in s.fate && !s.fate[i].Lost? && (s.fate[i].TurnedDown? ==> FromApi(s.rows[i])))
      && !(Requested(s, i) && FailureNoted(s, i))
      && (FailureNoted(s, i) ==> FromApi(s.rows[i]))
  {
    AlwaysSettling(u, cluster, clock, steps);
    var s := After(u, Initial(cluster, clock), steps);
    hide After;
    if Requested(s, i) {
      var k :| 0 <= k < |s.published| && s.published[k].actionId == i;
      assert IsSent(s, s.published[k]);
    }
    if FailureNoted(s, i) {
      var j :| 0 <= j < |s.rows| && s.rows[j].result.DispatchFailed? && s.rows[j].parent == Some(i);
      assert NotesRefusal(s, s.rows[j]);
    }
  }

  // The step that gives a dispatch its fate.
  function StepOf(i: nat, fate: Fate): Step {
    match fate
    case Sent => Publish(i, true)
    case TurnedDown => Publish(i, false)
    case Lost => Die(i)
  }

  // The n-th step gave dispatch i this fate.
  ghost predicate Settles(u: Setup, s0: System, steps: seq<Step>, n: int, i: nat, fate: Fate) {
    0 <= n < |steps| && i in After(u, s0, steps[..n]).waiting && steps[n] == StepOf(i, fate)
  }

  lemma SettlesEarlier(u: Setup, s0: System, steps: seq<Step>, n: int, i: nat, fate: Fate)
    requires steps != [] && n != |steps| - 1
    ensures Settles(u, s0, steps[..|steps| - 1], n, i, fate) == Settles(u, s0, steps, n, i, fate)
  {
    if 0 <= n < |steps| {
      assert steps[..|steps| - 1][..n] == steps[..n];
    }
  }

  predicate Met(s: System, i: nat, fate: Fate) {
    i in s.fate && s.fate[i] == fate
  }

  // The fate recorded is what happened: a dispatch is lost exactly when its handler died while
  // its request waited, and likewise for the other two.
  lemma {:induction false} FateIsWhatHappened(u: Setup, cluster: Cluster.State, clock: int, steps: seq<Step>, i: nat, fate: Fate)
    ensures Met(After(u, Initial(cluster, clock), steps), i, fate) <==>
            exists n :: Settles(u, Initial(cluster, clock), steps, n, i, fate)
  {
    hide After;
    hide Apply;
    hide Met;
    hide Settles;
    hide Settling;
    if steps == [] {
      NoFateYet(u, cluster, clock, i, fate);
    } else {
      var s0, earlier := Initial(cluster, clock), steps[..|steps| - 1];
      FateIsWhatHappened(u, cluster, clock, earlier, i, fate);
      AlwaysSettling(u, cluster, clock, earlier);
      FateStep(u, After(u, s0, earlier), steps[|steps| - 1], i, fate);
      AfterLast(u, s0, steps);
      AnySettles(u, s0, steps, i, fate);
    }
  }

  lemma NoFateYet(u: Setup, cluster: Cluster.State, clock: int, i: nat, fate: Fate)
    ensures !Met(After(u, Initial(cluster, clock), []), i, fate)
    ensures forall n :: !Settles(u, Initial(cluster, clock), [], n, i, fate)
  {
  }

  lemma AnySettles(u: Setup, s0: System, steps: seq<Step>, i: nat, fate: Fate)
    requires steps != []
    ensures
      var earlier, step := steps[..|steps| - 1], steps[|steps| - 1];
      (exists n :: Settles(u, s0, steps, n, i, fate)) <==>
        (exists n :: Settles(u, s0, earlier, n, i, fate)) || (i in After(u, s0, earlier).waiting && step == StepOf(i, fate))
  {
    hide After;
    var earlier, last := steps[..|steps| - 1], |steps| - 1;
    assert Settles(u, s0, steps, last, i, fate) <==> i in After(u, s0, earlier).waiting && steps[last] == StepOf(i, fate);
    assert !Settles(u, s0, earlier, last, i, fate);
    forall n | n != last ensures Settles(u, s0, earlier, n, i, fate) == Settles(u, s0, steps, n, i, fate) {
      SettlesEarlier(u, s0, steps, n, i, fate);
    }
    hide Settles;
  }

  lemma PublishFate(s: System, id: nat, up: bool, i: nat, fate: Fate)
    requires Settling(s)
    ensures Met(Published(s, id, up), i, fate) <==>
            Met(s, i, fate) || (i in s.waiting && Publish(id, up) == StepOf(i, fate))
  {
    hide RequestsMatch;
    hide FailuresMatch;
  }

  lemma DieFate(s: System, id: nat, i: nat, fate: Fate)
    requires Settling(s)
    ensures Met(Died(s, id), i, fate) <==> Met(s, i, fate) || (i in s.waiting && Die(id) == StepOf(i, fate))
  {
    hide RequestsMatch;
    hide FailuresMatch;
  }

  lemma FateStep(u: Setup, s: System, step: Step, i: nat, fate: Fate)
    requires Settling(s)
    ensures Met(Apply(u, s, step), i, fate) <==> Met(s, i, fate) || (i in s.waiting && step == StepOf(i, fate))
  {
    hide Settling;
    hide Called;
    hide Finished;
    hide Decided;
    hide CostHandled;
    StepFrame(u, s, step);
    if step.Publish? {
      PublishFate(s, step.id, step.up, i, fate);
      hide Met;
    } else if step.Die? {
      DieFate(s, step.id, i, fate);
      hide Met;
    } else {
      hide Apply;
    }
  }

  // The k-th request is not out yet, but the row it asks for is there.
  predicate CommittedBefore(s: System, k: nat, m: Message) {
    |s.published| <= k && AsksFor(s.rows, m.actionId, m)
  }

  lemma PublishesWaiting(u: Setup, s: System, step: Step)
    requires Settling(s)
    ensures
      var s' := Apply(u, s, step);
      && s.published <= s'.published
      && forall k :: |s.published| <= k < |s'.published| ==> AsksFor(s.rows, s'.published[k].actionId, s'.published[k])
  {
    StepFrame(u, s, step);
    OnlyAppends(u, s, step);
    assert forall i :: i in s.waiting ==> AsksFor(s.rows, i, s.waiting[i]);
    hide Settling;
    hide AsksFor;
    if !step.Publish? {
      hide Apply;
    }
  }

  ghost predicate WasCommittedFirst(u: Setup, s0: System, steps: seq<Step>, k: nat, m: Message) {
    exists n :: 0 <= n < |steps| && CommittedBefore(After(u, s0, steps[..n]), k, m)
  }

  lemma CommittedFirstLater(u: Setup, s0: System, steps: seq<Step>, k: nat, m: Message)
    requires steps != [] && WasCommittedFirst(u, s0, steps[..|steps| - 1], k, m)
    ensures WasCommittedFirst(u, s0, steps, k, m)
  {
    hide After;
    hide CommittedBefore;
    var earlier := steps[..|steps| - 1];
    var n :| 0 <= n < |earlier| && CommittedBefore(After(u, s0, earlier[..n]), k, m);
    assert earlier[..n] == steps[..n];
  }

  lemma {:induction false} CommittedFirst(u: Setup, cluster: Cluster.State, clock: int, steps: seq<Step>, k: nat)
    requires k < |After(u, Initial(cluster, clock), steps).published|
    ensures WasCommittedFirst(u, Initial(cluster, clock), steps, k, After(u, Initial(cluster, clock), steps).published[k])
  {
    if steps != [] {
      var s0 := Initial(cluster, clock);
      var earlier, last := steps[..|steps| - 1], |steps| - 1;
      var s := After(u, s0, earlier);
      AlwaysSettling(u, cluster, clock, earlier);
      PublishesWaiting(u, s, steps[last]);
      AfterLast(u, s0, steps);
      hide Apply;
      hide After;
      hide Settling;
      hide AsksFor;
      var m := After(u, s0, steps).published[k];
      if k < |s.published| {
        CommittedFirst(u, cluster, clock, earlier, k);
        CommittedFirstLater(u, s0, steps, k, m);
      } else {
        assert CommittedBefore(After(u, s0, steps[..last]), k, m);
      }
      hide WasCommittedFirst;
    }
  }

  // Every request on the queue asks for what a dispatch row decided, and there was a moment
  // before it was published at which that row was already committed. No dispatch is
  // published twice.
  lemma RequestsFollowCommits(u: Setup, cluster: Cluster.State, clock: int, steps: seq<Step>, k: nat)
    requires k < |After(u, Initial(cluster, clock), steps).published|
    ensures
      var s0 := Initial(cluster, clock);
      var published := After(u, s0, steps).published;
      && (exists n :: 0 <= n < |steps| && CommittedBefore(After(u, s0, steps[..n]), k, published[k]))
      && forall j :: 0 <= j < |published| && j != k ==> published[j].actionId != published[k].actionId
  {
    CommittedFirst(u, cluster, clock, steps, k);
    AlwaysSettling(u, cluster, clock, steps);
    hide After;
    hide CommittedBefore;
  }
}
