// The two guards of the detector over whole runs: dwell confirms an incident without
// destroying it, and suppression gives up within a bound that depends only on the baseline.
module DetectorGuards {
  import opened Prelude
  import opened Schemas
  import opened Stats
  import opened Rebaselining
  import opened Confidence
  import opened Detector
  import opened DetectorRuns

  // ---------------------------------------------------------------- the condition

  // The conjunction in full: a mature bucket, a cost score above 3 and known traffic below 1
  // to qualify, at 3 or more to explain the movement; between the bands, neither.
  // cpu_z is not in it: the resource half of the test is implied by the cost half.
  lemma QualifiesIff(root: real -> real, st: State, m: CostMessage)
    requires !m.cpu.Null?
    ensures
      var s, t, c := st.Load(m.service, CostPerHour).At(m.bucket), st.Traffic(m.service), ConditionOf(root, st, m);
      var moved := s.n >= 5 && ZScore(root, s, m.cost) > 3.0;
      && (c.qualifies <==> moved && t.Some? && t.value < 1.0)
      && (c.trafficExplains <==> moved && t.Some? && t.value >= 3.0)
  {
    hide ZScore;
  }

  lemma CpuCannotChangeVerdict(root: real -> real, st: State, m: CostMessage, cpu: CpuField)
    requires !m.cpu.Null? && !cpu.Null?
    ensures ConditionOf(root, st, m) == ConditionOf(root, st, m.(cpu := cpu))
  {
    QualifiesIff(root, st, m);
    QualifiesIff(root, st, m.(cpu := cpu));
  }

  // Everything the detector publishes: never traffic-explained, never above 0.80, and so
  // never enough for autonomous action.
  lemma FindingFacts(root: real -> real, st: State, m: CostMessage)
    requires CostFinding(root, st, m).Some?
    ensures
      var f := CostFinding(root, st, m).value;
      && f.service == m.service && f.value == m.cost
      && f.classification == Unclassified
      && 0.0 <= f.confidence <= 0.80
      && AuthorityFor(f.confidence) != AutonomousAuthority
      && !ConditionOf(root, st, m).trafficExplains
  {
    hide Score;
    hide ScoresOf;
    hide CostProfile;
    var samples := CostProfile(st.Load(m.service, CostPerHour), m.bucket, m.cost, true).At(m.bucket).n;
    ScoreBounds(ScoresOf(root, st, m), CORROBORATION_NONE, samples);
    UncorroboratedCap(ScoresOf(root, st, m), CORROBORATION_NONE, samples);
  }

  // ---------------------------------------------------------------- dwell

  lemma RunLengthThree(log: seq<Reading>)
    ensures RunLength(log) >= 3 <==>
            |log| >= 3 && log[|log| - 1].qualified && log[|log| - 2].qualified && log[|log| - 3].qualified
  {
    if |log| >= 1 {
      var one := log[..|log| - 1];
      if |log| >= 2 {
        var two := one[..|one| - 1];
        if |log| >= 3 {
          assert two[|two| - 1] == log[|log| - 3];
        }
      }
    }
  }

  // A reading is flagged exactly when it and the service's two previous readings qualified.
  lemma FlaggedIffThreeQualify(root: real -> real, events: seq<Event>, m: CostMessage)
    requires !m.cpu.Null?
    ensures
      var log := Log(root, FRESH, m.service, events + [CostEvent(m)]);
      CostFinding(root, Run(root, FRESH, events), m).Some? <==>
      |log| >= 3 && log[|log| - 1].qualified && log[|log| - 2].qualified && log[|log| - 3].qualified
  {
    var st, log := Run(root, FRESH, events), Log(root, FRESH, m.service, events);
    var r := ReadingOf(root, st, m);
    assert (events + [CostEvent(m)])[..|events|] == events;
    assert Log(root, FRESH, m.service, events + [CostEvent(m)]) == log + [r];
    CountsRun(root, m.service, events);
    FindingIff(root, st, m);
    hide Log;
    hide Run;
    hide ConditionOf;
    hide CostFinding;
    assert (log + [r])[..|log|] == log;
    assert RunLength(log + [r]) == if r.qualified then RunLength(log) + 1 else 0;
    RunLengthThree(log + [r]);
  }

  lemma CountsRun(root: real -> real, service: string, events: seq<Event>)
    ensures Run(root, FRESH, events).Load(service, CostPerHour).flags.consecutiveQualifying
         == RunLength(Log(root, FRESH, service, events))
  {
    hide Run;
    hide Log;
    DetectorRefinesLog(root, service, events);
  }

  lemma FindingIff(root: real -> real, st: State, m: CostMessage)
    requires !m.cpu.Null?
    ensures CostFinding(root, st, m).Some? <==>
            ConditionOf(root, st, m).qualifies
            && st.Load(m.service, CostPerHour).flags.consecutiveQualifying + 1 >= 3
  {
    hide ConditionOf;
    hide ScoresOf;
    hide Score;
    hide Profile.Fold;
  }

  // The evidence a flagged anomaly carries: a peak above 3, a cost above the mean of exactly
  // the readings that trained its bucket, and a maturity flag counted after this reading.
  lemma FindingEvidence(root: real -> real, events: seq<Event>, m: CostMessage)
    requires IsRoot(root) && CostFinding(root, Run(root, FRESH, events), m).Some?
    ensures
      var f := CostFinding(root, Run(root, FRESH, events), m).value;
      && f.score > 3.0
      && f.costDelta == m.cost - Mean(Trained(Log(root, FRESH, m.service, events), m.bucket)) > 0.0
      && (f.mature <==>
            |Trained(Log(root, FRESH, m.service, events + [CostEvent(m)]), m.bucket)| >= 720)
  {
    var st := Run(root, FRESH, events);
    assert (events + [CostEvent(m)])[..|events|] == events;
    DetectorRefinesLog(root, m.service, events);
    DetectorRefinesLog(root, m.service, events + [CostEvent(m)]);
    StepOnCostProfile(root, st, CostEvent(m), m.service);
    StoredSpread(root, events, m.service, m.bucket);
    QualifiesIff(root, st, m);
    ZScoreSquared(root, st.Load(m.service, CostPerHour).At(m.bucket), m.cost);
    hide ZScore;
    hide Square;
    hide Log;
    hide Trained;
    hide Learn;
    hide Score;
    hide EventStep;
  }

  function Readings(events: seq<Event>, service: string): nat {
    if events == [] then 0
    else Readings(events[..|events| - 1], service) + if IsReading(events[|events| - 1], service) then 1 else 0
  }

  // From st on, every reading of the service is in bucket b, at least v, and arrives while
  // its traffic is known and unremarkable. Anything may happen to other services.
  predicate Burst(root: real -> real, st: State, service: string, b: Bucket, v: real, tail: seq<Event>) {
    tail != [] ==>
      var earlier, e := tail[..|tail| - 1], tail[|tail| - 1];
      && Burst(root, st, service, b, v, earlier)
      && (IsReading(e, service) ==>
            var t := Run(root, st, earlier).Traffic(service);
            e.cost.bucket == b && e.cost.cost >= v && t.Some? && t.value < 1.0)
  }

  lemma HigherScoresHigher(root: real -> real, s: Moments, v: real, w: real)
    requires IsRoot(root) && s.m2 >= 0.0 && v <= w && ZScore(root, s, v) > 0.0
    ensures ZScore(root, s, v) <= ZScore(root, s, w)
  {
    var sd := StdDev(root, s);
    assert sd > 0.0 by {
      var q := s.m2 / (s.n - 1) as real;
      assert q >= 0.0 && root(q) >= 0.0;
    }
    DivideMonotone(v - s.mean, w - s.mean, sd);
  }

  lemma {:induction false} BurstFreezesBaseline(
    root: real -> real, st: State, service: string, b: Bucket, v: real, tail: seq<Event>)
    requires IsRoot(root) && Burst(root, st, service, b, v, tail)
    requires
      var p := st.Load(service, CostPerHour);
      && p.flags == FlagState(0, 0)
      && p.At(b).n >= 5 && p.At(b).m2 >= 0.0
      && ZScore(root, p.At(b), v) > 3.0
    requires Readings(tail, service) <= 30
    ensures
      var r := Readings(tail, service);
      Run(root, st, tail).Load(service, CostPerHour) == st.Load(service, CostPerHour).(flags := FlagState(r, r))
  {
    hide ZScore;
    hide EventStep;
    hide Learn;
    if tail != [] {
      var earlier, e := tail[..|tail| - 1], tail[|tail| - 1];
      BurstFreezesBaseline(root, st, service, b, v, earlier);
      var now := Run(root, st, earlier);
      StepOnCostProfile(root, now, e, service);
      if IsReading(e, service) {
        HigherScoresHigher(root, st.Load(service, CostPerHour).At(b), v, e.cost.cost);
        QualifiesIff(root, now, e.cost);
        hide ConditionOf;
      }
    }
  }

  // Dwell does not defeat itself: once the service's last reading did not qualify, the
  // third to the thirty-first reading of a sustained burst are all flagged, because the
  // readings before them were kept out of the baseline they are judged against.
  lemma BurstIsFlagged(
    root: real -> real, events: seq<Event>, b: Bucket, v: real, tail: seq<Event>, m: CostMessage)
    requires IsRoot(root) && !m.cpu.Null?
    requires RunLength(Log(root, FRESH, m.service, events)) == 0
    requires
      var s := Run(root, FRESH, events).Load(m.service, CostPerHour).At(b);
      s.n >= 5 && ZScore(root, s, v) > 3.0
    requires Burst(root, Run(root, FRESH, events), m.service, b, v, tail + [CostEvent(m)])
    requires 2 <= Readings(tail, m.service) <= 30
    ensures CostFinding(root, Run(root, Run(root, FRESH, events), tail), m).Some?
  {
    hide ZScore;
    hide EventStep;
    hide ScoresOf;
    hide Score;
    hide Learn;
    var st := Run(root, FRESH, events);
    DetectorRefinesLog(root, m.service, events);
    StoredSpread(root, events, m.service, b);
    assert (tail + [CostEvent(m)])[..|tail|] == tail;
    BurstFreezesBaseline(root, st, m.service, b, v, tail);
    var now := Run(root, st, tail);
    HigherScoresHigher(root, st.Load(m.service, CostPerHour).At(b), v, m.cost);
    QualifiesIff(root, now, m);
    hide ConditionOf;
  }

  lemma StoredSpread(root: real -> real, events: seq<Event>, service: string, b: Bucket)
    ensures Run(root, FRESH, events).Load(service, CostPerHour).At(b).m2 >= 0.0
    ensures Run(root, FRESH, events).Load(service, CostPerHour).flags.consecutive <= 30
    ensures
      var s := Run(root, FRESH, events).Load(service, CostPerHour).At(b);
      s.n == 0 ==> s.m2 == 0.0
  {
    DetectorRefinesLog(root, service, events);
    var xs := Trained(Log(root, FRESH, service, events), b);
    SquaredDeviationNonNegative(xs, Mean(xs));
  }

  // ---------------------------------------------------------------- re-baselining

  predicate SendsOnly(tail: seq<Event>, service: string, b: Bucket, v: real) {
    forall e :: e in tail && IsReading(e, service) ==> e.cost.bucket == b && e.cost.cost == v
  }

  function CeilDiv(n: nat, d: nat): nat
    requires d > 0
  {
    (n + d - 1) / d
  }

  // While a service sends only v in bucket b, the bucket is its old self plus some number of
  // learned copies, and at most 30 readings plus the pending count are not accounted for.
  lemma {:induction false} CopiesLearned(
    root: real -> real, st: State, service: string, b: Bucket, v: real, tail: seq<Event>) returns (learned: nat)
    requires SendsOnly(tail, service, b, v)
    requires st.Load(service, CostPerHour).flags.consecutive <= 30
    ensures
      var p := Run(root, st, tail).Load(service, CostPerHour);
      && p.At(b) == LearnCopies(st.Load(service, CostPerHour).At(b), v, learned)
      && p.flags.consecutive <= 30
      && Readings(tail, service) <= 31 * learned + p.flags.consecutive
  {
    hide Learn;
    hide EventStep;
    hide ConditionOf;
    if tail == [] {
      learned := 0;
    } else {
      var earlier, e := tail[..|tail| - 1], tail[|tail| - 1];
      learned := CopiesLearned(root, st, service, b, v, earlier);
      var now := Run(root, st, earlier);
      StepOnCostProfile(root, now, e, service);
      if IsReading(e, service) {
        assert e in tail;
        var q := ConditionOf(root, now, e.cost).qualifies;
        if ShouldLearn(q, now.Load(service, CostPerHour).flags.consecutive).0 {
          learned := learned + 1;
        }
      }
    }
  }

  // A workload that settles at a constant new cost stops qualifying after at most
  // 31 * ceil(n / 9) readings, n being the samples its bucket held when it settled.
  lemma RebaseliningTerminates(
    root: real -> real, events: seq<Event>, b: Bucket, v: real, tail: seq<Event>, m: CostMessage)
    requires IsRoot(root) && !m.cpu.Null? && m.bucket == b && m.cost == v
    requires SendsOnly(tail, m.service, b, v)
    requires
      var n := Run(root, FRESH, events).Load(m.service, CostPerHour).At(b).n;
      Readings(tail, m.service) >= 31 * CeilDiv(n, 9)
    ensures !ConditionOf(root, Run(root, Run(root, FRESH, events), tail), m).qualifies
  {
    hide ZScore;
    hide Learn;
    hide EventStep;
    hide ConditionOf;
    var st := Run(root, FRESH, events);
    StoredSpread(root, events, m.service, b);
    var learned := CopiesLearned(root, st, m.service, b, v, tail);
    var n := st.Load(m.service, CostPerHour).At(b).n;
    assert learned >= CeilDiv(n, 9);
    CopiesEndDetection(root, st.Load(m.service, CostPerHour).At(b), v, learned);
    QualifiesIff(root, Run(root, st, tail), m);
  }

  // ---------------------------------------------------------------- from the messages alone

  function CoresOf(m: CostMessage): real
    requires !m.cpu.Null?
  {
    if m.cpu.Missing? then 0.0 else m.cpu.cores
  }

  // Cost is scored against the readings that trained its bucket, CPU against all of the
  // bucket's CPU readings, and traffic is the last traffic score, or zero if there is none.
  lemma ScoresFromHistory(root: real -> real, events: seq<Event>, m: CostMessage)
    requires !m.cpu.Null?
    ensures
      var st := Run(root, FRESH, events);
      ScoresOf(root, st, m) == Scores(
        ScoreAgainst(root, Trained(Log(root, FRESH, m.service, events), m.bucket), m.cost),
        ScoreAgainst(root, CpuReadings(events, m.service, Some(m.bucket)), CoresOf(m)),
        if st.Traffic(m.service).Some? then st.Traffic(m.service).value else 0.0)
  {
    hide Run;
    hide Log;
    hide Trained;
    hide CpuReadings;
    hide ZScore;
    DetectorRefinesLog(root, m.service, events);
    CpuProfileIsBatch(root, m.service, events);
  }

  // The verdict on a reading: at least five readings trained its bucket, it lies more than
  // three deviations above them, and the last traffic score is known and below one.
  lemma VerdictFromHistory(root: real -> real, events: seq<Event>, m: CostMessage)
    requires !m.cpu.Null?
    ensures
      var st := Run(root, FRESH, events);
      var trained, traffic := Trained(Log(root, FRESH, m.service, events), m.bucket), st.Traffic(m.service);
      var moved := |trained| >= 5 && ZScore(root, Batch(trained), m.cost) > 3.0;
      && (ConditionOf(root, st, m).qualifies <==> moved && traffic.Some? && traffic.value < 1.0)
      && (ConditionOf(root, st, m).trafficExplains <==> moved && traffic.Some? && traffic.value >= 3.0)
  {
    hide Run;
    hide Log;
    hide Trained;
    hide ZScore;
    DetectorRefinesLog(root, m.service, events);
    QualifiesIff(root, Run(root, FRESH, events), m);
  }

  // What a flagged reading publishes, from the messages alone: its cost, the larger of its two
  // resource scores, and what that score, the traffic score and the number of readings that
  // trained the bucket are worth. It asks a human exactly when they are worth 0.5995.
  lemma FindingFromHistory(root: real -> real, events: seq<Event>, m: CostMessage)
    requires CostFinding(root, Run(root, FRESH, events), m).Some?
    ensures !m.cpu.Null? && Run(root, FRESH, events).Traffic(m.service).Some?
    ensures
      var f := CostFinding(root, Run(root, FRESH, events), m).value;
      var costZ := ScoreAgainst(root, Trained(Log(root, FRESH, m.service, events), m.bucket), m.cost);
      var cpuZ := ScoreAgainst(root, CpuReadings(events, m.service, Some(m.bucket)), CoresOf(m));
      var n := |Trained(Log(root, FRESH, m.service, events + [CostEvent(m)]), m.bucket)|;
      var worth := Worth(f.score, Run(root, FRESH, events).Traffic(m.service).value, 0.0, n);
      && f.service == m.service && f.value == m.cost && f.classification == Unclassified
      && f.score >= costZ && f.score >= cpuZ && (f.score == costZ || f.score == cpuZ)
      && worth - 0.0005 <= f.confidence <= worth + 0.0005
      && (AuthorityFor(f.confidence) == ApprovalAuthority <==> worth >= 0.5995)
      && (AuthorityFor(f.confidence) == AlertOnlyAuthority <==> worth < 0.5995)
  {
    hide Run;
    hide Log;
    hide Trained;
    hide CpuReadings;
    hide ScoreAgainst;
    hide Score;
    hide Worth;
    var st := Run(root, FRESH, events);
    FindingShape(root, st, m);
    ScoresFromHistory(root, events, m);
    SamplesAfter(root, events, m);
    var scores, n := ScoresOf(root, st, m), |Trained(Log(root, FRESH, m.service, events + [CostEvent(m)]), m.bucket)|;
    hide ScoresOf;
    hide CostFinding;
    ScoreIsWorth(scores, 0.0, n, scores.Peak());
    ApprovalIff(scores, n, scores.Peak());
  }

  lemma FindingShape(root: real -> real, st: State, m: CostMessage)
    requires CostFinding(root, st, m).Some?
    ensures !m.cpu.Null? && st.Traffic(m.service).Some?
    ensures
      var f := CostFinding(root, st, m).value;
      var n := CostProfile(st.Load(m.service, CostPerHour), m.bucket, m.cost, ConditionOf(root, st, m).qualifies).At(m.bucket).n;
      && f.service == m.service && f.value == m.cost && f.classification == Unclassified
      && f.score == ScoresOf(root, st, m).Peak() && f.confidence == Score(ScoresOf(root, st, m), 0.0, n)
  {
    FindingFacts(root, st, m);
    QualifiesIff(root, st, m);
    hide Score;
    hide ScoresOf;
    hide CostProfile;
    hide ZScore;
    hide EvaluateCondition;
  }

  lemma SamplesAfter(root: real -> real, events: seq<Event>, m: CostMessage)
    requires !m.cpu.Null?
    ensures
      var st := Run(root, FRESH, events);
      CostProfile(st.Load(m.service, CostPerHour), m.bucket, m.cost, ConditionOf(root, st, m).qualifies).At(m.bucket).n
      == |Trained(Log(root, FRESH, m.service, events + [CostEvent(m)]), m.bucket)|
  {
    hide Log;
    hide Trained;
    hide ConditionOf;
    hide CostProfile;
    hide Learn;
    var st, more := Run(root, FRESH, events), events + [CostEvent(m)];
    assert more[..|events|] == events;
    assert Run(root, FRESH, more) == EventStep(root, st, CostEvent(m));
    hide Run;
    hide EventStep;
    DetectorRefinesLog(root, m.service, more);
    StepOnCostProfile(root, st, CostEvent(m), m.service);
  }
}
