// services/remediation-executor/app/k8s_actions.py: the three operations on the cluster,
// first as functions on its state, then as the methods that patch it in place.
module Cluster {
  import opened Prelude
  import opened Ledger

  const THROTTLE_CPU_LIMIT := "100m"

  datatype Container = Container(name: string, cpuLimit: Option<string>)

  // current is the replica count the HPA last reported, if any.
  datatype Hpa = Hpa(name: string, target: string, maxReplicas: int, current: Option<int>)

  // Deployments by namespace and name; HPAs as each namespace lists them.
  datatype State = State(deployments: map<(string, string), seq<Container>>, hpas: map<string, seq<Hpa>>) {
    function HpasIn(ns: string): seq<Hpa> {
      if ns in hpas then hpas[ns] else []
    }
  }

  // service.partition("/").
  function SlashAt(service: string): (i: nat)
    ensures i <= |service| && '/' !in service[..i] && (i < |service| ==> service[i] == '/')
  {
    FirstIndex(service, c => c == '/')
  }

  function Namespace(service: string): string {
    service[..SlashAt(service)]
  }

  function Workload(service: string): string {
    var i := SlashAt(service);
    if i < |service| then service[i + 1..] else ""
  }

  // A service id splits at its first slash; without one it is all namespace.
  lemma SplitService(ns: string, workload: string)
    requires '/' !in ns
    ensures Namespace(ns + "/" + workload) == ns && Workload(ns + "/" + workload) == workload
    ensures Namespace(ns) == ns && Workload(ns) == ""
  {
    var service := ns + "/" + workload;
    assert service[..|ns|] == ns && service[|ns|] == '/';
    SlashAtUnique(service, |ns|);
    assert service[|ns| + 1..] == workload;
    assert ns[..|ns|] == ns;
    SlashAtUnique(ns, |ns|);
  }

  // First container of that name; |cs| when there is none.
  function ContainerAt(cs: seq<Container>, name: string): (i: nat)
    ensures i <= |cs| && (i < |cs| ==> cs[i].name == name)
    ensures forall j :: 0 <= j < i ==> cs[j].name != name
  {
    FirstIndex(cs, (c: Container) => c.name == name)
  }

  function HpaAt(hs: seq<Hpa>, name: string): (i: nat)
    ensures i <= |hs| && (i < |hs| ==> hs[i].name == name)
    ensures forall j :: 0 <= j < i ==> hs[j].name != name
  {
    FirstIndex(hs, (h: Hpa) => h.name == name)
  }

  // next(h for h in items if h targets the workload).
  function Targeting(hs: seq<Hpa>, workload: string): (i: nat)
    ensures i <= |hs| && (i < |hs| ==> hs[i].target == workload)
    ensures forall j :: 0 <= j < i ==> hs[j].target != workload
  {
    FirstIndex(hs, (h: Hpa) => h.target == workload)
  }

  lemma SlashAtUnique(service: string, i: nat)
    requires i <= |service| && '/' !in service[..i] && (i < |service| ==> service[i] == '/')
    ensures SlashAt(service) == i
  {
    var k := SlashAt(service);
    assert forall j :: 0 <= j < i ==> service[j] == service[..i][j];
    assert forall j :: 0 <= j < k ==> service[j] == service[..k][j];
  }

  lemma HpaAtUnique(hs: seq<Hpa>, name: string, i: nat)
    requires i <= |hs| && (i < |hs| ==> hs[i].name == name)
    requires forall j :: 0 <= j < i ==> hs[j].name != name
    ensures HpaAt(hs, name) == i
  {
    assert !(HpaAt(hs, name) < i) && !(i < HpaAt(hs, name));
  }

  predicate DistinctNames(hs: seq<Hpa>) {
    forall i, j :: 0 <= i < j < |hs| ==> hs[i].name != hs[j].name
  }

  // HPA names are unique within a namespace, as the API server enforces.
  predicate WellFormed(c: State) {
    forall ns :: ns in c.hpas ==> DistinctNames(c.hpas[ns])
  }

  // Applied carries the rollback reference; Raised is an exception out of the client call.
  datatype Effect = Applied(after: State, prior: PriorState) | Skipped | Raised

  // Merge-patch of one container's limit, by container name; None deletes the limit.
  function PatchLimit(c: State, ns: string, deployment: string, container: string, limit: Option<string>): Option<State> {
    if (ns, deployment) !in c.deployments then None
    else
      var cs := c.deployments[(ns, deployment)];
      var i := ContainerAt(cs, container);
      if i == |cs| then None
      else Some(c.(deployments := c.deployments[(ns, deployment) := cs[i := cs[i].(cpuLimit := limit)]]))
  }

  function PatchMax(c: State, ns: string, hpa: string, max: int): Option<State> {
    var hs := c.HpasIn(ns);
    var i := HpaAt(hs, hpa);
    if i == |hs| then None
    else Some(c.(hpas := c.hpas[ns := hs[i := hs[i].(maxReplicas := max)]]))
  }

  function ThrottleEffect(c: State, service: string): Effect {
    var ns, name := Namespace(service), Workload(service);
    if (ns, name) !in c.deployments then Skipped
    else
      var cs := c.deployments[(ns, name)];
      if cs == [] then Raised
      else if cs[0].cpuLimit == Some(THROTTLE_CPU_LIMIT) then Skipped
      else
        match PatchLimit(c, ns, name, cs[0].name, Some(THROTTLE_CPU_LIMIT))
        case None => Raised
        case Some(after) => Applied(after, CpuLimit(ns, name, cs[0].name, cs[0].cpuLimit))
  }

  function FreezeEffect(c: State, service: string): Effect {
    var ns := Namespace(service);
    var hs := c.HpasIn(ns);
    var i := Targeting(hs, Workload(service));
    if i == |hs| then Skipped
    else
      var h := hs[i];
      if h.current.None? || h.current.value == 0 || h.maxReplicas == h.current.value then Skipped
      else
        match PatchMax(c, ns, h.name, h.current.value)
        case None => Raised
        case Some(after) => Applied(after, MaxReplicas(ns, h.name, h.maxReplicas))
  }

  datatype Reversal = Restored(after: State) | UnknownKind | RollbackRaised

  function RollbackEffect(c: State, prior: PriorState): Reversal {
    match prior
    case CpuLimit(ns, deployment, container, previous) =>
      (match PatchLimit(c, ns, deployment, container, previous)
       case None => RollbackRaised
       case Some(after) => Restored(after))
    case MaxReplicas(ns, hpa, previous) =>
      (match PatchMax(c, ns, hpa, previous)
       case None => RollbackRaised
       case Some(after) => Restored(after))
    case OtherKind(_) => UnknownKind
  }

  // A freeze executes exactly when the workload's HPA has reported a non-zero count other than
  // its ceiling; then that HPA alone changes, to the reported count.
  lemma FreezePins(c: State, service: string)
    requires WellFormed(c)
    ensures
      var ns := Namespace(service);
      var hs := c.HpasIn(ns);
      var i := Targeting(hs, Workload(service));
      var effect := FreezeEffect(c, service);
      && (effect.Applied? <==>
            i < |hs| && hs[i].current.Some? && hs[i].current.value != 0 && hs[i].current.value != hs[i].maxReplicas)
      && (effect.Applied? ==>
            && effect.after.deployments == c.deployments
            && effect.after.hpas == c.hpas[ns := hs[i := hs[i].(maxReplicas := hs[i].current.value)]]
            && effect.prior == MaxReplicas(ns, hs[i].name, hs[i].maxReplicas))
      && !effect.Raised?
  {
    var hs := c.HpasIn(Namespace(service));
    var i := Targeting(hs, Workload(service));
    if i < |hs| {
      HpaAtUnique(hs, hs[i].name, i);
    }
  }

  // A throttle executes exactly when the Deployment exists and its first container is not
  // already capped; then that container alone changes, to the cap.
  lemma ThrottleCaps(c: State, service: string)
    ensures
      var key := (Namespace(service), Workload(service));
      var effect := ThrottleEffect(c, service);
      && (effect.Applied? <==>
            key in c.deployments && c.deployments[key] != []
            && c.deployments[key][0].cpuLimit != Some(THROTTLE_CPU_LIMIT))
      && (effect.Applied? ==>
            var cs := c.deployments[key];
            && effect.after.hpas == c.hpas
            && effect.after.deployments == c.deployments[key := cs[0 := Container(cs[0].name, Some("100m"))]]
            && effect.prior == CpuLimit(key.0, key.1, cs[0].name, cs[0].cpuLimit))
      && (effect.Raised? <==> key in c.deployments && c.deployments[key] == [])
  {
    var key := (Namespace(service), Workload(service));
    if key in c.deployments && c.deployments[key] != [] {
      assert ContainerAt(c.deployments[key], c.deployments[key][0].name) == 0;
    }
  }

  // A rollback restores exactly when what it names exists, and only that field; a reference
  // of another kind is reported, a missing target raises.
  lemma RollbackRestores(c: State, prior: PriorState)
    ensures
      var r := RollbackEffect(c, prior);
      match prior
      case CpuLimit(ns, d, name, limit) =>
        if (ns, d) in c.deployments && exists i :: 0 <= i < |c.deployments[(ns, d)]| && c.deployments[(ns, d)][i].name == name
        then
          && r.Restored? && r.after.hpas == c.hpas
          && var cs := c.deployments[(ns, d)];
             exists i :: 0 <= i < |cs| && cs[i].name == name
               && r.after.deployments == c.deployments[(ns, d) := cs[i := Container(name, limit)]]
        else r.RollbackRaised?
      case MaxReplicas(ns, name, max) =>
        if exists i :: 0 <= i < |c.HpasIn(ns)| && c.HpasIn(ns)[i].name == name
        then
          && r.Restored? && r.after.deployments == c.deployments
          && var hs := c.HpasIn(ns);
             exists i :: 0 <= i < |hs| && hs[i].name == name
               && r.after.hpas == c.hpas[ns := hs[i := Hpa(name, hs[i].target, max, hs[i].current)]]
        else r.RollbackRaised?
      case OtherKind(_) => r.UnknownKind?
  {
  }

  // ---------------------------------------------------------------- the cluster itself

  datatype ActionReport = Done(prior: PriorState) | NothingDone | Exception

  datatype UndoReport = Undone | Unknown | UndoException

  class Live {
    var deployments: map<(string, string), seq<Container>>
    var hpas: map<string, seq<Hpa>>

    function Abstract(): State
      reads this
    {
      State(deployments, hpas)
    }

    constructor (initial: State)
      ensures Abstract() == initial
    {
      deployments, hpas := initial.deployments, initial.hpas;
    }

    method PatchDeployment(ns: string, name: string, container: string, limit: Option<string>) returns (ok: bool)
      modifies this
      ensures ok == PatchLimit(old(Abstract()), ns, name, container, limit).Some?
      ensures Abstract() == if ok then PatchLimit(old(Abstract()), ns, name, container, limit).value else old(Abstract())
    {
      ok := false;
      if (ns, name) in deployments {
        var cs := deployments[(ns, name)];
        var i := ContainerAt(cs, container);
        if i < |cs| {
          deployments := deployments[(ns, name) := cs[i := cs[i].(cpuLimit := limit)]];
          ok := true;
        }
      }
    }

    method PatchHpa(ns: string, name: string, max: int) returns (ok: bool)
      modifies this
      ensures ok == PatchMax(old(Abstract()), ns, name, max).Some?
      ensures Abstract() == if ok then PatchMax(old(Abstract()), ns, name, max).value else old(Abstract())
    {
      var hs := Abstract().HpasIn(ns);
      var i := HpaAt(hs, name);
      ok := i < |hs|;
      if ok {
        hpas := hpas[ns := hs[i := hs[i].(maxReplicas := max)]];
      }
    }

    method ThrottleService(service: string) returns (r: ActionReport)
      modifies this
      ensures match ThrottleEffect(old(Abstract()), service)
              case Applied(after, prior) => r == Done(prior) && Abstract() == after
              case Skipped => r == NothingDone && Abstract() == old(Abstract())
              case Raised => r == Exception && Abstract() == old(Abstract())
    {
      var ns, name := Namespace(service), Workload(service);
      if (ns, name) !in deployments {
        return NothingDone;
      }
      var cs := deployments[(ns, name)];
      if cs == [] {
        return Exception;
      }
      var container := cs[0];
      var previous := container.cpuLimit;
      if previous == Some(THROTTLE_CPU_LIMIT) {
        return NothingDone;
      }
      var ok := PatchDeployment(ns, name, container.name, Some(THROTTLE_CPU_LIMIT));
      r := if ok then Done(CpuLimit(ns, name, container.name, previous)) else Exception;
    }

    method FreezeService(service: string) returns (r: ActionReport)
      modifies this
      ensures match FreezeEffect(old(Abstract()), service)
              case Applied(after, prior) => r == Done(prior) && Abstract() == after
              case Skipped => r == NothingDone && Abstract() == old(Abstract())
              case Raised => r == Exception && Abstract() == old(Abstract())
    {
      var ns := Namespace(service);
      var hs := Abstract().HpasIn(ns);
      var i := Targeting(hs, Workload(service));
      if i == |hs| {
        return NothingDone;
      }
      var previous, current := hs[i].maxReplicas, hs[i].current;
      if current.None? || current.value == 0 || previous == current.value {
        return NothingDone;
      }
      var ok := PatchHpa(ns, hs[i].name, current.value);
      r := if ok then Done(MaxReplicas(ns, hs[i].name, previous)) else Exception;
    }

    method Reverse(prior: PriorState) returns (r: UndoReport)
      modifies this
      ensures match RollbackEffect(old(Abstract()), prior)
              case Restored(after) => r == Undone && Abstract() == after
              case UnknownKind => r == Unknown && Abstract() == old(Abstract())
              case RollbackRaised => r == UndoException && Abstract() == old(Abstract())
    {
      match prior
      case CpuLimit(ns, deployment, container, previous) =>
        var ok := PatchDeployment(ns, deployment, container, previous);
        r := if ok then Undone else UndoException;
      case MaxReplicas(ns, hpa, previous) =>
        var ok := PatchHpa(ns, hpa, previous);
        r := if ok then Undone else UndoException;
      case OtherKind(_) =>
        r := Unknown;
    }
  }
}
