// Whole runs of the detector: what is stored after any stream of cost and traffic messages,
// when a reading is flagged, and how long a shifted workload keeps qualifying.
module DetectorRuns {
  import opened Prelude
  import opened Stats
  import opened Detector

  datatype Event = CostEvent(cost: CostMessage) | TrafficEvent(traffic: TrafficMessage)

  function EventStep(root: real -> real, st: State, e: Event): State {
    match e
    case CostEvent(m) => CostStep(root, st, m)
    case TrafficEvent(m) => TrafficStep(root, st, m)
  }

  function Run(root: real -> real, st: State, events: seq<Event>): State {
    if events == [] then st
    else EventStep(root, Run(root, st, events[..|events| - 1]), events[|events| - 1])
  }

  // One cost reading of a service, with the verdict the condition gave it when it arrived.
  datatype Reading = Reading(value: real, bucket: Bucket, qualified: bool)

  predicate IsReading(e: Event, service: string) {
    e.CostEvent? && e.cost.service == service && !e.cost.cpu.Null?
  }

  function ReadingOf(root: real -> real, st: State, m: CostMessage): Reading
    requires !m.cpu.Null?
  {
    Reading(m.cost, m.bucket, ConditionOf(root, st, m).qualifies)
  }

  // The cost readings of one service, in order of arrival.
  function Log(root: real -> real, st: State, service: string, events: seq<Event>): seq<Reading> {
    if events == [] then []
    else
      var earlier, e := events[..|events| - 1], events[|events| - 1];
      Log(root, st, service, earlier)
      + if IsReading(e, service) then [ReadingOf(root, Run(root, st, earlier), e.cost)] else []
  }

  // ---------------------------------------------------------------- the batch reference

  // Length of the run of qualifying readings the log ends with.
  function RunLength(log: seq<Reading>): nat {
    if log == [] || !log[|log| - 1].qualified then 0 else RunLength(log[..|log| - 1]) + 1
  }

  // Does the last reading train: it did not qualify, or its run index is a multiple of 31.
  predicate Trains(log: seq<Reading>)
    requires log != []
  {
    !log[|log| - 1].qualified || RunLength(log) % 31 == 0
  }

  function Trained(log: seq<Reading>, b: Bucket): seq<real> {
    if log == [] then []
    else
      Trained(log[..|log| - 1], b)
      + if Trains(log) && log[|log| - 1].bucket == b then [log[|log| - 1].value] else []
  }

  function TrainedAll(log: seq<Reading>): seq<real> {
    if log == [] then []
    else TrainedAll(log[..|log| - 1]) + if Trains(log) then [log[|log| - 1].value] else []
  }

  ghost function TotalSamples(buckets: map<Bucket, Moments>): nat
    decreases |buckets|
  {
    if buckets == map[] then 0
    else
      var b :| b in buckets;
      buckets[b].n + TotalSamples(buckets - {b})
  }

  lemma {:induction false} TotalSplit(buckets: map<Bucket, Moments>, b: Bucket)
    requires b in buckets
    ensures TotalSamples(buckets) == buckets[b].n + TotalSamples(buckets - {b})
    decreases |buckets|
  {
    var c :| c in buckets && TotalSamples(buckets) == buckets[c].n + TotalSamples(buckets - {c});
    if b != c {
      TotalSplit(buckets - {c}, b);
      TotalSplit(buckets - {b}, c);
      assert buckets - {c} - {b} == buckets - {b} - {c};
    }
  }

  lemma TotalAfterLearning(buckets: map<Bucket, Moments>, b: Bucket, value: real)
    ensures
      var before := if b in buckets then buckets[b] else EMPTY;
      TotalSamples(buckets[b := Learn(before, value)]) == TotalSamples(buckets) + 1
  {
    var before := if b in buckets then buckets[b] else EMPTY;
    var buckets' := buckets[b := Learn(before, value)];
    TotalSplit(buckets', b);
    assert buckets' - {b} == buckets - {b};
    if b in buckets {
      TotalSplit(buckets, b);
    } else {
      assert buckets - {b} == buckets;
    }
  }

  // ---------------------------------------------------------------- refinement

  // The stored cost profile as a function of the log alone.
  ghost predicate Refines(p: Profile, log: seq<Reading>) {
    && (forall b :: p.At(b) == Batch(Trained(log, b)))
    && p.overall == Batch(TrainedAll(log))
    && p.overall.n == TotalSamples(p.buckets)
    && p.flags.consecutiveQualifying == RunLength(log)
    && p.flags.consecutive == RunLength(log) % 31
  }

  lemma RefinesStep(p: Profile, log: seq<Reading>, r: Reading)
    requires Refines(p, log)
    ensures Refines(CostProfile(p, r.bucket, r.value, r.qualified), log + [r])
  {
    hide Learn;
    hide Batch;
    var log' := log + [r];
    assert log'[..|log'| - 1] == log;
    var p' := CostProfile(p, r.bucket, r.value, r.qualified);
    assert ShouldLearn(r.qualified, p.flags.consecutive).0 == Trains(log');
    if Trains(log') {
      LearnExtendsBatch(TrainedAll(log), r.value);
      LearnExtendsBatch(Trained(log, r.bucket), r.value);
      TotalAfterLearning(p.buckets, r.bucket, r.value);
      LearnCounts(p.overall, r.value);
    }
    forall b ensures p'.At(b) == Batch(Trained(log', b)) {
      assert p.At(b) == Batch(Trained(log, b));
      if !(Trains(log') && b == r.bucket) {
        assert Trained(log', b) == Trained(log, b);
      }
    }
    if !Trains(log') {
      assert TrainedAll(log') == TrainedAll(log);
    }
  }

  lemma LearnCounts(s: Moments, value: real)
    ensures Learn(s, value).n == s.n + 1
  {
  }

  // A message changes a service's cost profile only if it is one of its readings.
  lemma StepOnCostProfile(root: real -> real, st: State, e: Event, service: string)
    ensures
      var p := st.Load(service, CostPerHour);
      EventStep(root, st, e).Load(service, CostPerHour) ==
      if IsReading(e, service)
      then CostProfile(p, e.cost.bucket, e.cost.cost, ConditionOf(root, st, e.cost).qualifies)
      else p
  {
    hide ConditionOf;
    hide CostProfile;
    hide BucketScore;
    hide Profile.Fold;
  }

  lemma EmptyBatch()
    ensures Batch([]) == EMPTY
  {
  }

  // For every stream of messages, however services and traffic interleave, each stored cost
  // bucket is the batch statistics of exactly the readings the log says may train it.
  lemma {:induction false} DetectorRefinesLog(root: real -> real, service: string, events: seq<Event>)
    ensures Refines(Run(root, FRESH, events).Load(service, CostPerHour), Log(root, FRESH, service, events))
  {
    hide EventStep;
    hide Batch;
    hide CostProfile;
    hide ConditionOf;
    if events == [] {
      EmptyBatch();
    } else {
      var earlier, e := events[..|events| - 1], events[|events| - 1];
      var st, log := Run(root, FRESH, earlier), Log(root, FRESH, service, earlier);
      DetectorRefinesLog(root, service, earlier);
      hide Refines;
      StepOnCostProfile(root, st, e, service);
      if IsReading(e, service) {
        RefinesStep(st.Load(service, CostPerHour), log, ReadingOf(root, st, e.cost));
      } else {
        assert log + [] == log;
      }
    }
  }

  // ---------------------------------------------------------------- traffic and CPU

  predicate IsTraffic(e: Event, service: string) {
    e.TrafficEvent? && e.traffic.service == service
  }

  // The request rates of one service, in one bucket or in all, in order of arrival.
  function TrafficReadings(events: seq<Event>, service: string, b: Option<Bucket>): seq<real> {
    if events == [] then []
    else
      var e := events[|events| - 1];
      TrafficReadings(events[..|events| - 1], service, b)
      + if IsTraffic(e, service) && (b.None? || b.value == e.traffic.bucket) then [e.traffic.rps] else []
  }

  // Its CPU readings; a cost message without the field counts as zero cores.
  function CpuReadings(events: seq<Event>, service: string, b: Option<Bucket>): seq<real> {
    if events == [] then []
    else
      var e := events[|events| - 1];
      CpuReadings(events[..|events| - 1], service, b)
      + if IsReading(e, service) && (b.None? || b.value == e.cost.bucket)
        then [if e.cost.cpu.Missing? then 0.0 else e.cost.cpu.cores] else []
  }

  // A profile that every reading trains.
  ghost predicate HoldsAll(p: Profile, inBucket: Bucket -> seq<real>, all: seq<real>) {
    (forall b :: p.At(b) == Batch(inBucket(b))) && p.overall == Batch(all) && p.flags == FlagState(0, 0)
  }

  lemma FoldHoldsAll(p: Profile, inBucket: Bucket -> seq<real>, all: seq<real>, b: Bucket, value: real, inBucket': Bucket -> seq<real>)
    requires HoldsAll(p, inBucket, all)
    requires forall c :: inBucket'(c) == if c == b then inBucket(c) + [value] else inBucket(c)
    ensures HoldsAll(p.Fold(b, value), inBucket', all + [value])
  {
    LearnExtendsBatch(all, value);
    LearnExtendsBatch(inBucket(b), value);
    hide Learn;
    hide Batch;
    var p' := p.Fold(b, value);
    forall c ensures p'.At(c) == Batch(inBucket'(c)) {
      assert p.At(c) == Batch(inBucket(c));
    }
  }

  lemma StepOnTrafficProfile(root: real -> real, st: State, e: Event, service: string)
    ensures
      var p := st.Load(service, RequestsPerSecond);
      EventStep(root, st, e).Load(service, RequestsPerSecond) ==
      if IsTraffic(e, service) then p.Fold(e.traffic.bucket, e.traffic.rps) else p
  {
    hide ConditionOf;
    hide CostProfile;
    hide BucketScore;
    hide Profile.Fold;
  }

  lemma StepOnCpuProfile(root: real -> real, st: State, e: Event, service: string)
    ensures
      var p := st.Load(service, CpuCores);
      EventStep(root, st, e).Load(service, CpuCores) ==
      if IsReading(e, service) then p.Fold(e.cost.bucket, if e.cost.cpu.Missing? then 0.0 else e.cost.cpu.cores) else p
  {
    hide ConditionOf;
    hide CostProfile;
    hide BucketScore;
    hide Profile.Fold;
  }

  // Traffic trains unconditionally: each stored bucket is the batch of all its readings.
  lemma {:induction false} TrafficProfileIsBatch(root: real -> real, service: string, events: seq<Event>)
    ensures
      var p := Run(root, FRESH, events).Load(service, RequestsPerSecond);
      HoldsAll(p, b => TrafficReadings(events, service, Some(b)), TrafficReadings(events, service, None))
  {
    hide EventStep;
    hide Batch;
    hide Profile.Fold;
    if events == [] {
      EmptyBatch();
    } else {
      var earlier, e := events[..|events| - 1], events[|events| - 1];
      var st := Run(root, FRESH, earlier);
      TrafficProfileIsBatch(root, service, earlier);
      StepOnTrafficProfile(root, st, e, service);
      if IsTraffic(e, service) {
        FoldHoldsAll(st.Load(service, RequestsPerSecond), b => TrafficReadings(earlier, service, Some(b)),
                     TrafficReadings(earlier, service, None), e.traffic.bucket, e.traffic.rps,
                     b => TrafficReadings(events, service, Some(b)));
      } else {
        assert forall b :: TrafficReadings(events, service, b) == TrafficReadings(earlier, service, b);
      }
    }
  }

  // So does CPU.
  lemma {:induction false} CpuProfileIsBatch(root: real -> real, service: string, events: seq<Event>)
    ensures
      var p := Run(root, FRESH, events).Load(service, CpuCores);
      HoldsAll(p, b => CpuReadings(events, service, Some(b)), CpuReadings(events, service, None))
  {
    hide EventStep;
    hide Batch;
    hide Profile.Fold;
    if events == [] {
      EmptyBatch();
    } else {
      var earlier, e := events[..|events| - 1], events[|events| - 1];
      var st := Run(root, FRESH, earlier);
      CpuProfileIsBatch(root, service, earlier);
      StepOnCpuProfile(root, st, e, service);
      if IsReading(e, service) {
        FoldHoldsAll(st.Load(service, CpuCores), b => CpuReadings(earlier, service, Some(b)),
                     CpuReadings(earlier, service, None), e.cost.bucket,
                     if e.cost.cpu.Missing? then 0.0 else e.cost.cpu.cores, b => CpuReadings(events, service, Some(b)));
      } else {
        assert forall b :: CpuReadings(events, service, b) == CpuReadings(earlier, service, b);
      }
    }
  }

  // What a value scores against the readings before it: nothing until there are five.
  function ScoreAgainst(root: real -> real, earlier: seq<real>, value: real): real {
    if |earlier| >= 5 then ZScore(root, Batch(earlier), value) else 0.0
  }

  predicate LastTraffic(events: seq<Event>, service: string, i: int) {
    0 <= i < |events| && IsTraffic(events[i], service) && forall j :: i < j < |events| ==> !IsTraffic(events[j], service)
  }

  lemma LastTrafficEarlier(events: seq<Event>, service: string, i: int)
    requires events != [] && !IsTraffic(events[|events| - 1], service)
    ensures LastTraffic(events, service, i) <==> LastTraffic(events[..|events| - 1], service, i)
    ensures LastTraffic(events, service, i) ==> events[..|events| - 1][..i] == events[..i]
  {
    var earlier := events[..|events| - 1];
    if LastTraffic(events, service, i) {
      assert i != |events| - 1;
      forall j | i < j < |earlier| ensures !IsTraffic(earlier[j], service) {
        assert earlier[j] == events[j];
      }
    }
  }

  ghost predicate HasTraffic(events: seq<Event>, service: string) {
    exists i :: 0 <= i < |events| && IsTraffic(events[i], service)
  }

  lemma HasTrafficStep(events: seq<Event>, service: string)
    requires events != []
    ensures HasTraffic(events, service) <==> IsTraffic(events[|events| - 1], service) || HasTraffic(events[..|events| - 1], service)
  {
    var earlier := events[..|events| - 1];
    if i :| 0 <= i < |events| && IsTraffic(events[i], service) {
      assert i < |earlier| ==> IsTraffic(earlier[i], service);
    }
    if i :| 0 <= i < |earlier| && IsTraffic(earlier[i], service) {
      assert IsTraffic(events[i], service);
    }
  }

  // The traffic score a service is judged by is known once a traffic message of its own has
  // arrived, and it is the score of the last one against that bucket's earlier readings.
  lemma {:induction false} TrafficScoreIsLast(root: real -> real, service: string, events: seq<Event>)
    ensures
      var z := Run(root, FRESH, events).Traffic(service);
      && (z.Some? <==> exists i :: 0 <= i < |events| && IsTraffic(events[i], service))
      && forall i :: LastTraffic(events, service, i) ==>
           z == Some(ScoreAgainst(root, TrafficReadings(events[..i], service, Some(events[i].traffic.bucket)), events[i].traffic.rps))
  {
    hide ScoreAgainst;
    hide TrafficReadings;
    hide EventStep;
    assert HasTraffic(events, service) <==> exists i :: 0 <= i < |events| && IsTraffic(events[i], service);
    if events != [] {
      var n := |events| - 1;
      var earlier, e := events[..n], events[n];
      TrafficScoreIsLast(root, service, earlier);
      assert HasTraffic(earlier, service) <==> exists i :: 0 <= i < |earlier| && IsTraffic(earlier[i], service);
      TrafficScoreStep(root, service, earlier, e);
      HasTrafficStep(events, service);
      hide HasTraffic;
      if IsTraffic(e, service) {
        assert forall i :: LastTraffic(events, service, i) ==> i == n;
      } else {
        forall i | LastTraffic(events, service, i) ensures LastTraffic(earlier, service, i) && earlier[..i] == events[..i] {
          LastTrafficEarlier(events, service, i);
        }
        hide LastTraffic;
      }
    }
  }

  lemma TrafficScoreStep(root: real -> real, service: string, earlier: seq<Event>, e: Event)
    ensures
      var st := Run(root, FRESH, earlier);
      EventStep(root, st, e).Traffic(service) ==
      if IsTraffic(e, service)
      then Some(ScoreAgainst(root, TrafficReadings(earlier, service, Some(e.traffic.bucket)), e.traffic.rps))
      else st.Traffic(service)
  {
    hide ZScore;
    TrafficProfileIsBatch(root, service, earlier);
    hide Run;
    hide ConditionOf;
    hide CostProfile;
    hide Profile.Fold;
  }
}
