// Undoing remediation: rolling executed references back newest first returns every CPU
// limit and replica ceiling to where it started. For replica ceilings the order matters.
module Undo {
  import opened Prelude
  import opened Ledger
  import opened Cluster

  // What HyperTrace controls: everything but the replica counts HPAs report.
  function Erase(hs: seq<Hpa>): (r: seq<Hpa>)
    ensures |r| == |hs|
  {
    seq(|hs|, i requires 0 <= i < |hs| => hs[i].(current := None))
  }

  function Limits(c: State): State {
    c.(hpas := map ns | ns in c.hpas :: Erase(c.hpas[ns]))
  }

  // ReportOp is the environment: an HPA reports another replica count.
  datatype Op = ThrottleOp(service: string) | FreezeOp(service: string) | ReportOp(ns: string, hpa: string, count: Option<int>)

  function Report(c: State, ns: string, hpa: string, count: Option<int>): State {
    var hs := c.HpasIn(ns);
    var i := HpaAt(hs, hpa);
    if i == |hs| then c else c.(hpas := c.hpas[ns := hs[i := hs[i].(current := count)]])
  }

  // The state after an operation, and the rollback reference if it executed.
  function Perform(c: State, op: Op): (State, seq<PriorState>) {
    match op
    case ReportOp(ns, hpa, count) => (Report(c, ns, hpa, count), [])
    case ThrottleOp(service) => Outcome(c, ThrottleEffect(c, service))
    case FreezeOp(service) => Outcome(c, FreezeEffect(c, service))
  }

  function Outcome(c: State, effect: Effect): (State, seq<PriorState>) {
    if effect.Applied? then (effect.after, [effect.prior]) else (c, [])
  }

  function PerformAll(c: State, ops: seq<Op>): (State, seq<PriorState>) {
    if ops == [] then (c, [])
    else
      var (before, refs) := PerformAll(c, ops[..|ops| - 1]);
      var (after, more) := Perform(before, ops[|ops| - 1]);
      (after, refs + more)
  }

  // Newest reference first; None if any rollback raises.
  function UndoAll(c: State, refs: seq<PriorState>): Option<State>
    decreases |refs|
  {
    if refs == [] then Some(c)
    else
      match RollbackEffect(c, refs[|refs| - 1])
      case Restored(after) => UndoAll(after, refs[..|refs| - 1])
      case _ => None
  }

  lemma EraseKeepsNames(a: seq<Hpa>, b: seq<Hpa>, name: string)
    requires Erase(a) == Erase(b)
    ensures HpaAt(a, name) == HpaAt(b, name)
    ensures forall i :: 0 <= i < |a| ==> a[i].(current := None) == b[i].(current := None)
  {
    forall i | 0 <= i < |a| ensures a[i].(current := None) == b[i].(current := None) {
      assert Erase(a)[i] == Erase(b)[i];
    }
    HpaAtUnique(b, name, HpaAt(a, name));
  }

  lemma LimitsOfHpas(a: State, b: State, ns: string)
    requires Limits(a) == Limits(b)
    ensures ns in a.hpas <==> ns in b.hpas
    ensures Erase(a.HpasIn(ns)) == Erase(b.HpasIn(ns))
  {
    assert ns in a.hpas <==> ns in Limits(a).hpas;
    assert ns in b.hpas <==> ns in Limits(b).hpas;
    if ns in a.hpas {
      assert Limits(a).hpas[ns] == Limits(b).hpas[ns];
    }
  }

  // A rollback sees only the limits.
  lemma RollbackRespectsLimits(a: State, b: State, prior: PriorState)
    requires Limits(a) == Limits(b)
    ensures RollbackEffect(a, prior).Restored? == RollbackEffect(b, prior).Restored?
    ensures RollbackEffect(a, prior).Restored? ==>
              Limits(RollbackEffect(a, prior).after) == Limits(RollbackEffect(b, prior).after)
  {
    assert a.deployments == b.deployments;
    if prior.MaxReplicas? {
      var ns := prior.ns;
      LimitsOfHpas(a, b, ns);
      EraseKeepsNames(a.HpasIn(ns), b.HpasIn(ns), prior.hpa);
      if PatchMax(a, ns, prior.hpa, prior.previousMax).Some? {
        SameLimits(RollbackEffect(a, prior).after, RollbackEffect(b, prior).after, a, b, ns);
      }
    }
  }

  // Two pairs of states that agree outside ns, and agree on ns.
  lemma SameLimits(a': State, b': State, a: State, b: State, ns: string)
    requires Limits(a) == Limits(b)
    requires a'.deployments == b'.deployments
    requires ns in a'.hpas && ns in b'.hpas
    requires a'.hpas == a.hpas[ns := a'.hpas[ns]] && b'.hpas == b.hpas[ns := b'.hpas[ns]]
    requires Erase(a'.hpas[ns]) == Erase(b'.hpas[ns])
    ensures Limits(a') == Limits(b')
  {
    var la, lb := Limits(a').hpas, Limits(b').hpas;
    forall n ensures n in la <==> n in lb {
      LimitsOfHpas(a, b, n);
    }
    forall n | n in la ensures la[n] == lb[n] {
      LimitsOfHpas(a, b, n);
    }
    assert la == lb;
  }

  lemma PatchKeepsWellFormed(c: State, ns: string, hpa: string, max: int)
    requires WellFormed(c)
    ensures PatchMax(c, ns, hpa, max).Some? ==> WellFormed(PatchMax(c, ns, hpa, max).value)
  {
  }

  lemma PerformKeepsWellFormed(c: State, op: Op)
    requires WellFormed(c)
    ensures WellFormed(Perform(c, op).0)
  {
    match op
    case ThrottleOp(service) =>
      ThrottleCaps(c, service);
      hide ThrottleEffect;
    case FreezeOp(service) =>
      var hs := c.HpasIn(Namespace(service));
      var i := Targeting(hs, Workload(service));
      if i < |hs| && hs[i].current.Some? {
        PatchKeepsWellFormed(c, Namespace(service), hs[i].name, hs[i].current.value);
      }
      hide WellFormed;
      hide PatchMax;
    case ReportOp(_, _, _) =>
  }

  lemma ThrottleUndone(c: State, service: string)
    requires ThrottleEffect(c, service).Applied?
    ensures RollbackEffect(ThrottleEffect(c, service).after, ThrottleEffect(c, service).prior) == Restored(c)
  {
    ThrottleCaps(c, service);
    var effect, key := ThrottleEffect(c, service), (Namespace(service), Workload(service));
    var cs := c.deployments[key];
    var capped := cs[0 := Container(cs[0].name, Some("100m"))];
    hide ThrottleEffect;
    assert ContainerAt(capped, cs[0].name) == 0;
    assert capped[0 := capped[0].(cpuLimit := cs[0].cpuLimit)] == cs;
    assert effect.after.deployments[key := cs] == c.deployments;
  }

  lemma FreezeUndone(c: State, service: string)
    requires WellFormed(c) && FreezeEffect(c, service).Applied?
    ensures RollbackEffect(FreezeEffect(c, service).after, FreezeEffect(c, service).prior) == Restored(c)
  {
    FreezePins(c, service);
    var effect, ns := FreezeEffect(c, service), Namespace(service);
    var hs := c.HpasIn(ns);
    var i := Targeting(hs, Workload(service));
    var pinned := hs[i := hs[i].(maxReplicas := hs[i].current.value)];
    hide FreezeEffect;
    HpaAtUnique(pinned, hs[i].name, i);
    assert pinned[i := pinned[i].(maxReplicas := hs[i].maxReplicas)] == hs;
    assert effect.after.hpas[ns := hs] == c.hpas;
  }

  lemma ReportKeepsLimits(c: State, ns: string, hpa: string, count: Option<int>)
    ensures Limits(Report(c, ns, hpa, count)) == Limits(c)
  {
    var after := Report(c, ns, hpa, count);
    if after != c {
      assert Erase(after.hpas[ns]) == Erase(c.hpas[ns]);
      SameLimits(after, c, c, c, ns);
    }
  }

  // One operation, then its rollback.
  lemma PerformUndone(c: State, op: Op)
    requires WellFormed(c)
    ensures
      var (after, refs) := Perform(c, op);
      if refs == [] then Limits(after) == Limits(c)
      else |refs| == 1 && RollbackEffect(after, refs[0]).Restored?
           && Limits(RollbackEffect(after, refs[0]).after) == Limits(c)
  {
    match op
    case ThrottleOp(service) =>
      if ThrottleEffect(c, service).Applied? {
        ThrottleUndone(c, service);
      }
    case FreezeOp(service) =>
      if FreezeEffect(c, service).Applied? {
        FreezeUndone(c, service);
      }
    case ReportOp(ns, hpa, count) =>
      ReportKeepsLimits(c, ns, hpa, count);
  }

  // For any sequence of throttles and freezes over any services, with replica counts
  // reported freely in between, rolling back newest first restores every limit. start may
  // differ from the final state in the counts reported since.
  lemma {:induction false} UndoRestoresLimits(c: State, ops: seq<Op>, start: State)
    requires WellFormed(c)
    requires Limits(start) == Limits(PerformAll(c, ops).0)
    ensures WellFormed(PerformAll(c, ops).0)
    ensures UndoAll(start, PerformAll(c, ops).1).Some?
    ensures Limits(UndoAll(start, PerformAll(c, ops).1).value) == Limits(c)
  {
    if ops != [] {
      var earlier, op := ops[..|ops| - 1], ops[|ops| - 1];
      var (before, refs) := PerformAll(c, earlier);
      UndoRestoresLimits(c, earlier, before);
      PerformKeepsWellFormed(before, op);
      PerformUndone(before, op);
      var (after, more) := Perform(before, op);
      if more == [] {
        assert refs + more == refs;
        UndoRestoresLimits(c, earlier, start);
      } else {
        assert (refs + more)[..|refs + more| - 1] == refs;
        RollbackRespectsLimits(start, after, more[0]);
        UndoRestoresLimits(c, earlier, RollbackEffect(start, more[0]).after);
      }
    }
  }

  lemma RollbackKeepsWellFormed(c: State, prior: PriorState)
    requires WellFormed(c)
    ensures RollbackEffect(c, prior).Restored? ==> WellFormed(RollbackEffect(c, prior).after)
  {
    if prior.MaxReplicas? {
      PatchKeepsWellFormed(c, prior.ns, prior.hpa, prior.previousMax);
    }
  }

  // ---------------------------------------------------------------- a reference applied early

  // Do two references restore the same field?
  predicate SameTarget(p: PriorState, q: PriorState) {
    || (p.CpuLimit? && q.CpuLimit? && p.ns == q.ns && p.deployment == q.deployment && p.container == q.container)
    || (p.MaxReplicas? && q.MaxReplicas? && p.ns == q.ns && p.hpa == q.hpa)
  }

  lemma PatchesOfLimits(c: State, ns: string, d: string, x: string, lx: Option<string>, ns': string, d': string, y: string, ly: Option<string>)
    requires PatchLimit(c, ns, d, x, lx).Some?
    ensures
      var first, other := PatchLimit(c, ns, d, x, lx).value, PatchLimit(c, ns', d', y, ly);
      var both := PatchLimit(first, ns', d', y, ly);
      if ns == ns' && d == d' && x == y then both == other
      else both.Some? == other.Some? && (other.Some? ==> PatchLimit(other.value, ns, d, x, lx) == both)
  {
    if ns == ns' && d == d' {
      PatchesOfOneDeployment(c, ns, d, x, lx, y, ly);
      hide PatchLimit;
    } else if PatchLimit(c, ns', d', y, ly).Some? {
      assert PatchLimit(PatchLimit(c, ns', d', y, ly).value, ns, d, x, lx).value.deployments
          == PatchLimit(PatchLimit(c, ns, d, x, lx).value, ns', d', y, ly).value.deployments;
    }
  }

  lemma PatchesOfOneDeployment(c: State, ns: string, d: string, x: string, lx: Option<string>, y: string, ly: Option<string>)
    requires PatchLimit(c, ns, d, x, lx).Some?
    ensures
      var first, other := PatchLimit(c, ns, d, x, lx).value, PatchLimit(c, ns, d, y, ly);
      var both := PatchLimit(first, ns, d, y, ly);
      if x == y then both == other
      else both.Some? == other.Some? && (other.Some? ==> PatchLimit(other.value, ns, d, x, lx) == both)
  {
    hide ContainerAt;
    var first, other := PatchLimit(c, ns, d, x, lx).value, PatchLimit(c, ns, d, y, ly);
    var cs := c.deployments[(ns, d)];
    var i, j := ContainerAt(cs, x), ContainerAt(cs, y);
    NamesKept(cs, i, lx, y);
    if other.Some? {
      NamesKept(cs, j, ly, x);
      var capped, both := cs[i := cs[i].(cpuLimit := lx)], PatchLimit(first, ns, d, y, ly).value;
      if x == y {
        assert capped[i := cs[i].(cpuLimit := ly)] == cs[i := cs[i].(cpuLimit := ly)];
        assert both.deployments == other.value.deployments;
      } else {
        assert capped[j := cs[j].(cpuLimit := ly)] == cs[j := cs[j].(cpuLimit := ly)][i := cs[i].(cpuLimit := lx)];
        assert PatchLimit(other.value, ns, d, x, lx).value.deployments == both.deployments;
      }
    }
  }

  lemma NamesKept(cs: seq<Container>, i: nat, limit: Option<string>, name: string)
    requires i < |cs|
    ensures ContainerAt(cs[i := cs[i].(cpuLimit := limit)], name) == ContainerAt(cs, name)
  {
    var cs' := cs[i := cs[i].(cpuLimit := limit)];
    assert forall k :: 0 <= k < |cs| ==> cs'[k].name == cs[k].name;
    assert !(ContainerAt(cs', name) < ContainerAt(cs, name)) && !(ContainerAt(cs, name) < ContainerAt(cs', name));
  }

  lemma PatchesOfCeilings(c: State, ns: string, x: string, mx: int, ns': string, y: string, my: int)
    requires PatchMax(c, ns, x, mx).Some?
    ensures
      var first, other := PatchMax(c, ns, x, mx).value, PatchMax(c, ns', y, my);
      var both := PatchMax(first, ns', y, my);
      if ns == ns' && x == y then both == other
      else both.Some? == other.Some? && (other.Some? ==> PatchMax(other.value, ns, x, mx) == both)
  {
    if ns == ns' {
      PatchesOfOneNamespace(c, ns, x, mx, y, my);
      hide PatchMax;
    } else {
      PatchesOfTwoNamespaces(c, ns, x, mx, ns', y, my);
      hide PatchMax;
    }
  }

  lemma PatchesOfTwoNamespaces(c: State, ns: string, x: string, mx: int, ns': string, y: string, my: int)
    requires PatchMax(c, ns, x, mx).Some? && ns != ns'
    ensures
      var first, other := PatchMax(c, ns, x, mx).value, PatchMax(c, ns', y, my);
      var both := PatchMax(first, ns', y, my);
      both.Some? == other.Some? && (other.Some? ==> PatchMax(other.value, ns, x, mx) == both)
  {
    hide HpaAt;
    var first, other := PatchMax(c, ns, x, mx).value, PatchMax(c, ns', y, my);
    assert first.HpasIn(ns') == c.HpasIn(ns');
    if other.Some? {
      assert other.value.HpasIn(ns) == c.HpasIn(ns);
      assert PatchMax(other.value, ns, x, mx).value.hpas == PatchMax(first, ns', y, my).value.hpas;
    }
  }

  lemma PatchesOfOneNamespace(c: State, ns: string, x: string, mx: int, y: string, my: int)
    requires PatchMax(c, ns, x, mx).Some?
    ensures
      var first, other := PatchMax(c, ns, x, mx).value, PatchMax(c, ns, y, my);
      var both := PatchMax(first, ns, y, my);
      if x == y then both == other
      else both.Some? == other.Some? && (other.Some? ==> PatchMax(other.value, ns, x, mx) == both)
  {
    hide HpaAt;
    var first, other := PatchMax(c, ns, x, mx).value, PatchMax(c, ns, y, my);
    var hs := c.HpasIn(ns);
    var i, j := HpaAt(hs, x), HpaAt(hs, y);
    HpaNamesKept(hs, i, mx, y);
    if other.Some? {
      HpaNamesKept(hs, j, my, x);
      var pinned, both := hs[i := hs[i].(maxReplicas := mx)], PatchMax(first, ns, y, my).value;
      if x == y {
        assert pinned[i := hs[i].(maxReplicas := my)] == hs[i := hs[i].(maxReplicas := my)];
        assert both.hpas == other.value.hpas;
      } else {
        assert pinned[j := hs[j].(maxReplicas := my)] == hs[j := hs[j].(maxReplicas := my)][i := hs[i].(maxReplicas := mx)];
        assert PatchMax(other.value, ns, x, mx).value.hpas == both.hpas;
      }
    }
  }

  lemma HpaNamesKept(hs: seq<Hpa>, i: nat, max: int, name: string)
    requires i < |hs|
    ensures HpaAt(hs[i := hs[i].(maxReplicas := max)], name) == HpaAt(hs, name)
  {
    HpaAtUnique(hs[i := hs[i].(maxReplicas := max)], name, HpaAt(hs, name));
  }

  lemma PatchesOfBoth(c: State, ns: string, d: string, x: string, limit: Option<string>, ns': string, y: string, max: int)
    requires PatchLimit(c, ns, d, x, limit).Some? && PatchMax(c, ns', y, max).Some?
    ensures PatchMax(PatchLimit(c, ns, d, x, limit).value, ns', y, max)
         == PatchLimit(PatchMax(c, ns', y, max).value, ns, d, x, limit)
  {
  }

  // Of two references to one field the later decides; references to two fields commute.
  lemma RollbacksCommute(c: State, p: PriorState, q: PriorState)
    requires RollbackEffect(c, p).Restored?
    ensures
      var first, other := RollbackEffect(c, p).after, RollbackEffect(c, q);
      var both := RollbackEffect(first, q);
      if SameTarget(p, q) then both == other
      else both.Restored? == other.Restored? && (other.Restored? ==> RollbackEffect(other.after, p) == both)
  {
    hide PatchLimit;
    hide PatchMax;
    if p.CpuLimit? && q.CpuLimit? {
      PatchesOfLimits(c, p.ns, p.deployment, p.container, p.previousLimit, q.ns, q.deployment, q.container, q.previousLimit);
    } else if p.MaxReplicas? && q.MaxReplicas? {
      PatchesOfCeilings(c, p.ns, p.hpa, p.previousMax, q.ns, q.hpa, q.previousMax);
    } else if p.CpuLimit? && q.MaxReplicas? {
      LimitLeavesHpas(c, p.ns, p.deployment, p.container, p.previousLimit, q.ns, q.hpa, q.previousMax);
    } else if p.MaxReplicas? && q.CpuLimit? {
      MaxLeavesDeployments(c, p.ns, p.hpa, p.previousMax, q.ns, q.deployment, q.container, q.previousLimit);
    }
  }

  lemma LimitLeavesHpas(c: State, ns: string, d: string, x: string, limit: Option<string>, ns': string, y: string, max: int)
    requires PatchLimit(c, ns, d, x, limit).Some?
    ensures
      var both, other := PatchMax(PatchLimit(c, ns, d, x, limit).value, ns', y, max), PatchMax(c, ns', y, max);
      both.Some? == other.Some? && (other.Some? ==> PatchLimit(other.value, ns, d, x, limit) == both)
  {
    if PatchMax(c, ns', y, max).Some? {
      PatchesOfBoth(c, ns, d, x, limit, ns', y, max);
    }
  }

  lemma MaxLeavesDeployments(c: State, ns: string, x: string, max: int, ns': string, d: string, y: string, limit: Option<string>)
    requires PatchMax(c, ns, x, max).Some?
    ensures
      var both, other := PatchLimit(PatchMax(c, ns, x, max).value, ns', d, y, limit), PatchLimit(c, ns', d, y, limit);
      both.Some? == other.Some? && (other.Some? ==> PatchMax(other.value, ns, x, max) == both)
  {
    if PatchLimit(c, ns', d, y, limit).Some? {
      PatchesOfBoth(c, ns', d, y, limit, ns, x, max);
    }
  }

  // Undoing a log is not disturbed by having applied one of its references beforehand.
  lemma {:induction false} UndoAllAbsorbs(c: State, p: PriorState, refs: seq<PriorState>)
    requires p in refs && RollbackEffect(c, p).Restored?
    ensures UndoAll(RollbackEffect(c, p).after, refs) == UndoAll(c, refs)
    decreases |refs|
  {
    hide RollbackEffect;
    hide SameTarget;
    var earlier, q := refs[..|refs| - 1], refs[|refs| - 1];
    RollbacksCommute(c, p, q);
    if !SameTarget(p, q) {
      RestoringTwice(c, p);
      assert p != q;
      assert p in earlier;
      if RollbackEffect(c, q).Restored? {
        UndoAllAbsorbs(RollbackEffect(c, q).after, p, earlier);
      }
    }
  }

  lemma RestoringTwice(c: State, p: PriorState)
    requires RollbackEffect(c, p).Restored?
    ensures SameTarget(p, p)
  {
  }

  // ---------------------------------------------------------------- any other order

  // References to one HPA, applied in the order given.
  function RollBackInOrder(c: State, refs: seq<PriorState>): Option<State> {
    if refs == [] then Some(c)
    else
      match RollBackInOrder(c, refs[..|refs| - 1])
      case None => None
      case Some(before) =>
        match RollbackEffect(before, refs[|refs| - 1])
        case Restored(after) => Some(after)
        case _ => None
  }

  predicate AllFor(refs: seq<PriorState>, ns: string, hpa: string) {
    forall r :: r in refs ==> r.MaxReplicas? && r.ns == ns && r.hpa == hpa
  }

  function MaxOf(c: State, ns: string, hpa: string): Option<int> {
    var hs := c.HpasIn(ns);
    var i := HpaAt(hs, hpa);
    if i == |hs| then None else Some(hs[i].maxReplicas)
  }

  // In whatever order, and however often repeated, an HPA's references are applied, the
  // ceiling ends at initial exactly when the last one applied had recorded initial.
  lemma {:induction false} LastRollbackWins(c: State, refs: seq<PriorState>, ns: string, hpa: string, initial: int)
    requires refs != [] && AllFor(refs, ns, hpa) && MaxOf(c, ns, hpa).Some?
    ensures RollBackInOrder(c, refs).Some?
    ensures MaxOf(RollBackInOrder(c, refs).value, ns, hpa).Some?
    ensures MaxOf(RollBackInOrder(c, refs).value, ns, hpa) == Some(initial) <==>
            refs[|refs| - 1].previousMax == initial
  {
    var earlier, last := refs[..|refs| - 1], refs[|refs| - 1];
    assert last in refs;
    if earlier != [] {
      assert AllFor(earlier, ns, hpa);
      LastRollbackWins(c, earlier, ns, hpa, initial);
    }
    var before := RollBackInOrder(c, earlier).value;
    var hs := before.HpasIn(ns);
    var i := HpaAt(hs, hpa);
    HpaAtUnique(hs[i := hs[i].(maxReplicas := last.previousMax)], hpa, i);
  }

  // Two freezes rolled back oldest first leave the ceiling at the first freeze, not at 10.
  lemma OldestFirstLosesCeiling()
    ensures
      var c := Shop(10, 4);
      var (after, refs) := PerformAll(c, [FreezeOp("shop/web"), ReportOp("shop", "web-hpa", Some(2)), FreezeOp("shop/web")]);
      && WellFormed(c) && |refs| == 2
      && RollBackInOrder(after, refs).Some?
      && MaxOf(c, "shop", "web-hpa") == Some(10)
      && MaxOf(RollBackInOrder(after, refs).value, "shop", "web-hpa") == Some(4)
  {
    TwoFreezes();
    ShopMax(10, 4);
    ShopMax(2, 2);
    hide PerformAll;
    hide MaxOf;
    hide Shop;
    LastRollbackWins(Shop(2, 2), [MaxReplicas("shop", "web-hpa", 10), MaxReplicas("shop", "web-hpa", 4)],
                     "shop", "web-hpa", 4);
  }

  lemma ShopMax(max: int, current: int)
    ensures WellFormed(Shop(max, current)) && MaxOf(Shop(max, current), "shop", "web-hpa") == Some(max)
  {
    HpaAtUnique(Shop(max, current).hpas["shop"], "web-hpa", 0);
  }

  lemma PerformNone(c: State)
    ensures PerformAll(c, []) == (c, [])
  {
  }

  lemma FreezeThenReport()
    ensures PerformAll(Shop(10, 4), [FreezeOp("shop/web"), ReportOp("shop", "web-hpa", Some(2))])
         == (Shop(4, 2), [MaxReplicas("shop", "web-hpa", 10)])
  {
    hide Perform;
    hide PerformAll;
    hide Shop;
    var o1, o2 := FreezeOp("shop/web"), ReportOp("shop", "web-hpa", Some(2));
    ShopFreeze(10, 4);
    ShopReport(4, 4, 2);
    PerformNone(Shop(10, 4));
    PerformOneMore(Shop(10, 4), [], o1);
    PerformOneMore(Shop(10, 4), [o1], o2);
    var r := MaxReplicas("shop", "web-hpa", 10);
    assert [] + [o1] == [o1] && [o1] + [o2] == [o1, o2];
    assert [] + [r] == [r] && [r] + [] == [r];
  }

  lemma TwoFreezes()
    ensures PerformAll(Shop(10, 4), [FreezeOp("shop/web"), ReportOp("shop", "web-hpa", Some(2)), FreezeOp("shop/web")])
         == (Shop(2, 2), [MaxReplicas("shop", "web-hpa", 10), MaxReplicas("shop", "web-hpa", 4)])
  {
    hide Perform;
    hide PerformAll;
    hide Shop;
    var o1, o2 := FreezeOp("shop/web"), ReportOp("shop", "web-hpa", Some(2));
    FreezeThenReport();
    ShopFreeze(4, 2);
    PerformOneMore(Shop(10, 4), [o1, o2], o1);
    var r1, r2 := MaxReplicas("shop", "web-hpa", 10), MaxReplicas("shop", "web-hpa", 4);
    assert [o1, o2] + [o1] == [o1, o2, o1] && [r1] + [r2] == [r1, r2];
  }

  lemma PerformOneMore(c: State, ops: seq<Op>, op: Op)
    ensures
      var (before, refs) := PerformAll(c, ops);
      PerformAll(c, ops + [op]) == (Perform(before, op).0, refs + Perform(before, op).1)
  {
    assert (ops + [op])[..|ops|] == ops;
  }

  function Shop(max: int, current: int): State {
    State(map[], map["shop" := [Hpa("web-hpa", "web", max, Some(current))]])
  }

  lemma ShopFreeze(max: int, current: int)
    requires current != 0 && max != current
    ensures Perform(Shop(max, current), FreezeOp("shop/web")) == (Shop(current, current), [MaxReplicas("shop", "web-hpa", max)])
  {
    SplitShopWeb();
    var hs := Shop(max, current).hpas["shop"];
    assert Targeting(hs, "web") == 0;
    HpaAtUnique(hs, "web-hpa", 0);
    assert hs[0 := hs[0].(maxReplicas := current)] == Shop(current, current).hpas["shop"];
    assert PatchMax(Shop(max, current), "shop", "web-hpa", current).value.hpas == Shop(current, current).hpas;
  }

  lemma ShopReport(max: int, current: int, count: int)
    ensures Perform(Shop(max, current), ReportOp("shop", "web-hpa", Some(count))) == (Shop(max, count), [])
  {
    var hs := Shop(max, current).hpas["shop"];
    HpaAtUnique(hs, "web-hpa", 0);
    assert hs[0 := hs[0].(current := Some(count))] == Shop(max, count).hpas["shop"];
    assert Report(Shop(max, current), "shop", "web-hpa", Some(count)).hpas == Shop(max, count).hpas;
  }

  lemma SplitShopWeb()
    ensures Namespace("shop/web") == "shop" && Workload("shop/web") == "web"
  {
    var s := "shop/web";
    assert s[0..] == s;
    assert s[..4] == "shop";
    SlashAtUnique(s, 4);
    assert s[5..] == "web";
  }
}
