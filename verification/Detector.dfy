// services/behaviour-analysis/app/main.py: the online detector.
//
// The first half is the meaning of each handler as a function on values; the class at the
// end is the service itself, which updates its maps and accumulators in place and is
// proved to do exactly that.
module Detector {
  import opened Prelude
  import opened Schemas
  import opened Stats
  import opened Confidence

  const RESOURCE_Z_THRESHOLD := 3.0
  const COST_Z_THRESHOLD := 3.0
  const TRAFFIC_Z_CEILING := 1.0
  const TRAFFIC_Z_COMOVEMENT := 3.0
  const DWELL_SAMPLES := 3
  const MIN_SAMPLES_FOR_DETECTION := 5
  const MAX_CONSECUTIVE_SUPPRESSED := 30

  datatype Metric = CostPerHour | CpuCores | RequestsPerSecond

  // Hour of the week.
  datatype Bucket = Bucket(weekday: nat, hour: nat)

  datatype FlagState = FlagState(consecutive: nat, consecutiveQualifying: nat)

  // One row of the baselines table; a missing key reads as its zero value.
  datatype Profile = Profile(buckets: map<Bucket, Moments>, overall: Moments, flags: FlagState) {
    function At(b: Bucket): Moments {
      if b in buckets then buckets[b] else EMPTY
    }

    function Fold(b: Bucket, value: real): Profile {
      this.(buckets := buckets[b := Learn(At(b), value)], overall := Learn(overall, value))
    }
  }

  const NEW_PROFILE := Profile(map[], EMPTY, FlagState(0, 0))

  datatype State = State(baselines: map<(string, Metric), Profile>, trafficZ: map<string, real>) {
    function Load(service: string, metric: Metric): Profile {
      if (service, metric) in baselines then baselines[(service, metric)] else NEW_PROFILE
    }

    function Traffic(service: string): Option<real> {
      if service in trafficZ then Some(trafficZ[service]) else None
    }
  }

  const FRESH := State(map[], map[])

  // The cpu_cores field of a cost message: missing, null, or a number.
  datatype CpuField = Missing | Null | Cores(cores: real)

  datatype CostMessage = CostMessage(service: string, cost: real, cpu: CpuField, bucket: Bucket)

  datatype TrafficMessage = TrafficMessage(service: string, rps: real, bucket: Bucket)

  // What _flag_anomaly inserts and publishes.
  datatype Finding = Finding(
    service: string, score: real, classification: Classification, confidence: real,
    value: real, mature: bool, costDelta: real)

  // May this reading train the baseline, and the suppression count that follows.
  function ShouldLearn(qualifies: bool, consecutive: nat): (bool, nat) {
    if !qualifies then (true, 0)
    else if consecutive >= MAX_CONSECUTIVE_SUPPRESSED then (true, 0)
    else (false, consecutive + 1)
  }

  datatype Condition = Condition(qualifies: bool, trafficExplains: bool)

  function EvaluateCondition(costZ: real, cpuZ: real, trafficZ: Option<real>, mature: bool): Condition {
    if !mature || trafficZ.None? then Condition(false, false)
    else
      var moved := Scores(costZ, cpuZ, 0.0).Peak() > RESOURCE_Z_THRESHOLD && costZ > COST_Z_THRESHOLD;
      Condition(moved && trafficZ.value < TRAFFIC_Z_CEILING, moved && trafficZ.value >= TRAFFIC_Z_COMOVEMENT)
  }

  function BucketScore(root: real -> real, s: Moments, value: real): real {
    if s.n >= MIN_SAMPLES_FOR_DETECTION then ZScore(root, s, value) else 0.0
  }

  // _score_and_learn: score first, then fold the value in unconditionally.
  function Observe(st: State, service: string, metric: Metric, value: real, b: Bucket): State {
    st.(baselines := st.baselines[(service, metric) := st.Load(service, metric).Fold(b, value)])
  }

  function TrafficStep(root: real -> real, st: State, m: TrafficMessage): State {
    var z := BucketScore(root, st.Load(m.service, RequestsPerSecond).At(m.bucket), m.rps);
    Observe(st, m.service, RequestsPerSecond, m.rps, m.bucket).(trafficZ := st.trafficZ[m.service := z])
  }

  function CpuOf(m: CostMessage): real
    requires !m.cpu.Null?
  {
    if m.cpu.Missing? then 0.0 else m.cpu.cores
  }

  function ScoresOf(root: real -> real, st: State, m: CostMessage): Scores
    requires !m.cpu.Null?
  {
    Scores(BucketScore(root, st.Load(m.service, CostPerHour).At(m.bucket), m.cost),
           BucketScore(root, st.Load(m.service, CpuCores).At(m.bucket), CpuOf(m)),
           if st.Traffic(m.service).Some? then st.Traffic(m.service).value else 0.0)
  }

  function ConditionOf(root: real -> real, st: State, m: CostMessage): Condition
    requires !m.cpu.Null?
  {
    var scores := ScoresOf(root, st, m);
    EvaluateCondition(scores.costZ, scores.cpuZ, st.Traffic(m.service),
                      st.Load(m.service, CostPerHour).At(m.bucket).n >= MIN_SAMPLES_FOR_DETECTION)
  }

  // The cost profile after one reading.
  function CostProfile(p: Profile, b: Bucket, value: real, qualifies: bool): Profile {
    var (learn, suppressed) := ShouldLearn(qualifies, p.flags.consecutive);
    var run := if qualifies then p.flags.consecutiveQualifying + 1 else 0;
    (if learn then p.Fold(b, value) else p).(flags := FlagState(suppressed, run))
  }

  // _handle_cost. A null cpu_cores raises before anything is stored, so the message is dropped.
  function CostStep(root: real -> real, st: State, m: CostMessage): State {
    if m.cpu.Null? then st
    else
      var after := Observe(st, m.service, CpuCores, CpuOf(m), m.bucket);
      var p := CostProfile(st.Load(m.service, CostPerHour), m.bucket, m.cost, ConditionOf(root, st, m).qualifies);
      after.(baselines := after.baselines[(m.service, CostPerHour) := p])
  }

  // What the reading publishes; the samples counted are those after the reading was learned.
  function CostFinding(root: real -> real, st: State, m: CostMessage): Option<Finding> {
    if m.cpu.Null? then None
    else
      var scores, condition := ScoresOf(root, st, m), ConditionOf(root, st, m);
      var before := st.Load(m.service, CostPerHour);
      var p := CostProfile(before, m.bucket, m.cost, condition.qualifies);
      if condition.qualifies && p.flags.consecutiveQualifying >= DWELL_SAMPLES then
        Some(Finding(
          m.service, scores.Peak(),
          if condition.trafficExplains then LegitimateTrafficGrowth else Unclassified,
          Score(scores, CORROBORATION_NONE, p.At(m.bucket).n),
          m.cost, p.At(m.bucket).n >= MATURITY_SAMPLES,
          if before.At(m.bucket).n >= MIN_SAMPLES_FOR_DETECTION then m.cost - before.At(m.bucket).mean else 0.0))
      else None
  }

  // ---------------------------------------------------------------- the service

  class Engine {
    const root: real -> real
    var baselines: map<(string, Metric), Profile>
    var trafficZ: map<string, real>

    function Abstract(): State
      reads this
    {
      State(baselines, trafficZ)
    }

    constructor (root: real -> real)
      ensures Abstract() == FRESH && this.root == root
    {
      this.root := root;
      baselines, trafficZ := map[], map[];
    }

    method SaveProfile(service: string, metric: Metric, profile: Profile)
      modifies this`baselines
      ensures baselines == old(baselines)[(service, metric) := profile]
    {
      baselines := baselines[(service, metric) := profile];
    }

    method ScoreAndLearn(service: string, metric: Metric, value: real, bucket: Bucket) returns (z: real, n: nat)
      modifies this`baselines
      ensures Abstract() == Observe(old(Abstract()), service, metric, value, bucket)
      ensures z == BucketScore(root, old(Abstract()).Load(service, metric).At(bucket), value)
      ensures n == Abstract().Load(service, metric).At(bucket).n
    {
      var profile := Abstract().Load(service, metric);
      var stats := new BucketStats.FromDict(profile.At(bucket));
      var overall := new BucketStats.FromDict(profile.overall);
      z := 0.0;
      if stats.n >= MIN_SAMPLES_FOR_DETECTION {
        z := stats.Score(root, value);
      }
      stats.Update(value);
      overall.Update(value);
      profile := profile.(buckets := profile.buckets[bucket := stats.ToDict()], overall := overall.ToDict());
      SaveProfile(service, metric, profile);
      n := stats.n;
    }

    method HandleTraffic(m: TrafficMessage)
      modifies this
      ensures Abstract() == TrafficStep(root, old(Abstract()), m)
    {
      var z, _ := ScoreAndLearn(m.service, RequestsPerSecond, m.rps, m.bucket);
      trafficZ := trafficZ[m.service := z];
    }

    method HandleCost(m: CostMessage) returns (published: Option<Finding>)
      modifies this
      ensures Abstract() == CostStep(root, old(Abstract()), m)
      ensures published == CostFinding(root, old(Abstract()), m)
    {
      hide Learn;
      hide ZScore;
      hide Score;
      hide EvaluateCondition;
      if m.cpu.Null? {
        return None;
      }
      var cpuZ, _ := ScoreAndLearn(m.service, CpuCores, CpuOf(m), m.bucket);

      var profile := Abstract().Load(m.service, CostPerHour);
      var stats := new BucketStats.FromDict(profile.At(m.bucket));
      var overall := new BucketStats.FromDict(profile.overall);
      var mature := stats.n >= MIN_SAMPLES_FOR_DETECTION;
      var costZ, costDelta := 0.0, 0.0;
      if mature {
        costZ := stats.Score(root, m.cost);
        costDelta := m.cost - stats.mean;
      }

      var traffic := Abstract().Traffic(m.service);
      var scores := Scores(costZ, cpuZ, if traffic.Some? then traffic.value else 0.0);
      var condition := EvaluateCondition(costZ, cpuZ, traffic, mature);
      assert scores == ScoresOf(root, old(Abstract()), m) && condition == ConditionOf(root, old(Abstract()), m);
      hide ScoresOf;
      hide ConditionOf;
      hide BucketScore;
      var consecutive := 0;
      if condition.qualifies {
        consecutive := profile.flags.consecutiveQualifying + 1;
      }
      var shouldFlag := condition.qualifies && consecutive >= DWELL_SAMPLES;

      var (learn, suppressed) := ShouldLearn(condition.qualifies, profile.flags.consecutive);
      if learn {
        stats.Update(m.cost);
        overall.Update(m.cost);
        profile := profile.(buckets := profile.buckets[m.bucket := stats.ToDict()], overall := overall.ToDict());
      }
      profile := profile.(flags := FlagState(suppressed, consecutive));
      SaveProfile(m.service, CostPerHour, profile);
      assert profile == CostProfile(old(Abstract()).Load(m.service, CostPerHour), m.bucket, m.cost, condition.qualifies);
      assert stats.n == profile.At(m.bucket).n;
      assert Abstract() == CostStep(root, old(Abstract()), m);
      hide CostStep;
      hide CostProfile;
      hide ShouldLearn;

      published := None;
      if shouldFlag {
        published := Some(Finding(
          m.service, scores.Peak(),
          if condition.trafficExplains then LegitimateTrafficGrowth else Unclassified,
          Score(scores, CORROBORATION_NONE, stats.n),
          m.cost, stats.n >= MATURITY_SAMPLES, costDelta));
      }
    }
  }
}
