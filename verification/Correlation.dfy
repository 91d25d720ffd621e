// services/decision-policy/app/main.py: the in-memory maps of recent deployments and
// security signals, and the joint classification read from them.
module Correlation {
  import opened Prelude
  import opened Schemas

  datatype LifecycleKind = PodCreated | PodDeleted | PodRestarted | PodOomKilled | DeploymentScaled | HpaScaled {
    predicate DeploymentLike() {
      DeploymentScaled? || PodRestarted? || PodCreated? || HpaScaled?
    }
  }

  datatype Lifecycle = Lifecycle(kind: LifecycleKind, ns: Option<string>, pod: Option<string>)

  datatype Signal = Signal(service: string, rule: string)

  datatype Maps = Maps(events: map<string, int>, security: map<string, (int, string)>)

  const NO_MAPS := Maps(map[], map[])

  datatype Windows = Windows(deployment: int, security: int)

  // f"{namespace}/{pod}" when the event names a pod, else the namespace, else nothing.
  function KeyOf(m: Lifecycle): Option<string> {
    var ns := if m.ns.Some? then m.ns.value else "None";
    if m.pod.Some? && m.pod.value != "" then Some(ns + "/" + m.pod.value)
    else if m.ns.Some? && m.ns.value != "" then m.ns
    else None
  }

  function OnLifecycle(maps: Maps, m: Lifecycle, now: int): Maps {
    if !m.kind.DeploymentLike() || KeyOf(m).None? then maps
    else maps.(events := maps.events[KeyOf(m).value := now])
  }

  function OnSignal(maps: Maps, m: Signal, now: int): Maps {
    maps.(security := maps.security[m.service := (now, m.rule)])
  }

  predicate RecentDeployment(maps: Maps, w: Windows, service: string, now: int) {
    service in maps.events && now - maps.events[service] <= w.deployment
  }

  function RecentSignal(maps: Maps, w: Windows, service: string, now: int): Option<string> {
    if service !in maps.security then None
    else
      var (seenAt, rule) := maps.security[service];
      if now - seenAt > w.security then None else Some(rule)
  }

  function Classify(maps: Maps, w: Windows, service: string, verdict: Option<Classification>, now: int): Classification {
    if verdict == Some(LegitimateTrafficGrowth) then LegitimateTrafficGrowth
    else if RecentSignal(maps, w, service, now).Some? then SuspectedAbuse
    else if RecentDeployment(maps, w, service, now) then LikelyBugFromDeployment
    else MisconfigurationOrWaste
  }

  // ---------------------------------------------------------------- the whole history

  datatype Observation = SawLifecycle(at: int, event: Lifecycle) | SawSignal(at: int, signal: Signal)

  // The clock never runs backwards.
  predicate Ordered(history: seq<Observation>) {
    forall i, j :: 0 <= i < j < |history| ==> history[i].at <= history[j].at
  }

  function OnObservation(maps: Maps, o: Observation): Maps {
    match o
    case SawLifecycle(at, m) => OnLifecycle(maps, m, at)
    case SawSignal(at, m) => OnSignal(maps, m, at)
  }

  function MapsAfter(history: seq<Observation>): Maps {
    if history == [] then NO_MAPS
    else OnObservation(MapsAfter(history[..|history| - 1]), history[|history| - 1])
  }

  predicate IsDeployment(o: Observation, service: string) {
    o.SawLifecycle? && o.event.kind.DeploymentLike() && KeyOf(o.event) == Some(service)
  }

  predicate IsSignal(o: Observation, service: string) {
    o.SawSignal? && o.signal.service == service
  }

  ghost predicate LatestSignal(history: seq<Observation>, service: string, i: int) {
    && 0 <= i < |history| && IsSignal(history[i], service)
    && forall j :: i < j < |history| ==> !IsSignal(history[j], service)
  }

  // The map holds, per key, the time of the last deployment-like event: one at least as late as all.
  lemma {:induction false} EventsMap(history: seq<Observation>, service: string)
    requires Ordered(history)
    ensures
      var events := MapsAfter(history).events;
      && (service in events <==> exists i :: 0 <= i < |history| && IsDeployment(history[i], service))
      && (service in events ==>
            && (exists i :: 0 <= i < |history| && IsDeployment(history[i], service) && history[i].at == events[service])
            && forall i :: 0 <= i < |history| && IsDeployment(history[i], service) ==> history[i].at <= events[service])
  {
    if history != [] {
      var n := |history| - 1;
      var earlier := history[..n];
      EventsMap(earlier, service);
      if IsDeployment(history[n], service) {
        assert MapsAfter(history).events[service] == history[n].at;
      } else {
        assert service in MapsAfter(history).events <==> service in MapsAfter(earlier).events;
        if service in MapsAfter(earlier).events {
          var i :| 0 <= i < |earlier| && IsDeployment(earlier[i], service) && earlier[i].at == MapsAfter(earlier).events[service];
          assert IsDeployment(history[i], service) && history[i].at == MapsAfter(history).events[service];
        }
      }
    }
  }

  lemma {:induction false} SecurityMap(history: seq<Observation>, service: string)
    ensures
      var security := MapsAfter(history).security;
      && (service !in security ==> forall i :: 0 <= i < |history| ==> !IsSignal(history[i], service))
      && (service in security ==>
            exists i :: LatestSignal(history, service, i) && security[service] == (history[i].at, history[i].signal.rule))
  {
    if history != [] {
      var n := |history| - 1;
      var earlier := history[..n];
      SecurityMap(earlier, service);
      if IsSignal(history[n], service) {
        assert LatestSignal(history, service, n);
      } else if service in MapsAfter(history).security {
        var i :| LatestSignal(earlier, service, i) && MapsAfter(earlier).security[service] == (earlier[i].at, earlier[i].signal.rule);
        assert LatestSignal(history, service, i);
      }
    }
  }

  // A deployment counts as recent exactly when the history holds one within the window.
  lemma RecentDeploymentAgrees(history: seq<Observation>, w: Windows, service: string, now: int)
    requires Ordered(history)
    ensures RecentDeployment(MapsAfter(history), w, service, now) <==>
            exists i :: 0 <= i < |history| && IsDeployment(history[i], service) && now - history[i].at <= w.deployment
  {
    EventsMap(history, service);
  }

  // The corroborating rule is the latest signal's, and there is one exactly when that
  // signal - equivalently, any signal - lies within the window.
  lemma RecentSignalAgrees(history: seq<Observation>, w: Windows, service: string, now: int)
    requires Ordered(history)
    ensures
      var r := RecentSignal(MapsAfter(history), w, service, now);
      && (r.Some? <==> exists i :: 0 <= i < |history| && IsSignal(history[i], service) && now - history[i].at <= w.security)
      && (r.Some? ==> exists i :: LatestSignal(history, service, i) && history[i].signal.rule == r.value)
  {
    SecurityMap(history, service);
    if service in MapsAfter(history).security {
      var i :| LatestSignal(history, service, i)
               && MapsAfter(history).security[service] == (history[i].at, history[i].signal.rule);
      forall j | 0 <= j < |history| && IsSignal(history[j], service) ensures history[j].at <= history[i].at {
        assert j <= i;
      }
    }
  }

  // The joint classification decided from the history itself.
  ghost function ClassifyHistory(
    history: seq<Observation>, w: Windows, service: string, verdict: Option<Classification>, now: int): Classification
  {
    if verdict == Some(LegitimateTrafficGrowth) then LegitimateTrafficGrowth
    else if exists i :: 0 <= i < |history| && IsSignal(history[i], service) && now - history[i].at <= w.security
    then SuspectedAbuse
    else if exists i :: 0 <= i < |history| && IsDeployment(history[i], service) && now - history[i].at <= w.deployment
    then LikelyBugFromDeployment
    else MisconfigurationOrWaste
  }

  lemma ClassifyAgrees(history: seq<Observation>, w: Windows, service: string, verdict: Option<Classification>, now: int)
    requires Ordered(history)
    ensures Classify(MapsAfter(history), w, service, verdict, now) == ClassifyHistory(history, w, service, verdict, now)
  {
    RecentDeploymentAgrees(history, w, service, now);
    RecentSignalAgrees(history, w, service, now);
  }

  lemma {:induction false} SplitAtSlash(a: string, b: string, c: string, d: string)
    requires '/' !in a && '/' !in c && a + "/" + b == c + "/" + d
    ensures a == c && b == d
  {
    var s, t := a + "/" + b, c + "/" + d;
    if a == [] || c == [] {
      assert s[0] == t[0];
      assert a == [] && c == [];
      assert s[1..] == b && t[1..] == d;
    } else {
      assert s[0] == a[0] && t[0] == c[0];
      assert s[1..] == a[1..] + "/" + b && t[1..] == c[1..] + "/" + d;
      SplitAtSlash(a[1..], b, c[1..], d);
    }
  }

  // Detector services are named namespace/workload but the map is keyed namespace/pod: a
  // workload is seen to have been deployed only through a pod that carries the workload's
  // own name. Pods with generated suffixes never count.
  lemma OnlyPodsNamedAsWorkloadCount(history: seq<Observation>, w: Windows, ns: string, workload: string, now: int)
    requires Ordered(history) && '/' !in ns && workload != ""
    requires forall o :: o in history && o.SawLifecycle? && o.event.ns.Some? ==> '/' !in o.event.ns.value
    ensures RecentDeployment(MapsAfter(history), w, ns + "/" + workload, now) <==>
            exists i :: 0 <= i < |history| && history[i].SawLifecycle? && history[i].event.kind.DeploymentLike()
                        && (if history[i].event.ns.Some? then history[i].event.ns.value else "None") == ns
                        && history[i].event.pod == Some(workload) && now - history[i].at <= w.deployment
  {
    var service := ns + "/" + workload;
    RecentDeploymentAgrees(history, w, service, now);
    assert service[|ns|] == '/';
    forall i | 0 <= i < |history| && history[i].SawLifecycle?
      ensures KeyOf(history[i].event) == Some(service) <==>
              (if history[i].event.ns.Some? then history[i].event.ns.value else "None") == ns
              && history[i].event.pod == Some(workload)
    {
      var e := history[i].event;
      assert history[i] in history;
      var n := if e.ns.Some? then e.ns.value else "None";
      if KeyOf(e) == Some(service) {
        if e.pod.Some? && e.pod.value != "" {
          SplitAtSlash(n, e.pod.value, ns, workload);
        }
      }
    }
  }

  // A Deployment's pods carry a generated suffix, so a rollout a moment ago goes unnoticed.
  lemma RolloutGoesUnnoticed(w: Windows)
    ensures
      var rollout := SawLifecycle(0, Lifecycle(PodCreated, Some("shop"), Some("web-7d9f")));
      && !RecentDeployment(MapsAfter([rollout]), w, "shop/web", 0)
      && Classify(MapsAfter([rollout]), w, "shop/web", None, 0) == MisconfigurationOrWaste
  {
    var rollout := SawLifecycle(0, Lifecycle(PodCreated, Some("shop"), Some("web-7d9f")));
    assert [rollout][..0] == [];
    assert |"shop" + "/" + "web-7d9f"| == 13 && |"shop/web"| == 8;
  }

  // Which events count as a deployment of what: a pod created or restarted, a Deployment or an
  // HPA scaled - of the pod they name, or else of the namespace.
  lemma OneEventCorrelates(w: Windows, kind: LifecycleKind, ns: string, pod: Option<string>, at: int, now: int, service: string)
    requires ns != ""
    ensures
      var event := SawLifecycle(at, Lifecycle(kind, Some(ns), pod));
      RecentDeployment(MapsAfter([event]), w, service, now) <==>
        && (kind == PodCreated || kind == PodRestarted || kind == DeploymentScaled || kind == HpaScaled)
        && service == (if pod.None? || pod.value == "" then ns else ns + "/" + pod.value)
        && now - at <= w.deployment
  {
    var event := SawLifecycle(at, Lifecycle(kind, Some(ns), pod));
    assert [event][..0] == [];
  }
}
