// services/behaviour-analysis/app/confidence.py: the capped, weighted score and the
// authority it earns. Floats are reals; round(., 3) is exact rounding, ties to even.
module Confidence {

  const CORROBORATION_NONE := 0.0
  const MATURITY_SAMPLES := 720
  const AUTONOMOUS_THRESHOLD := 0.85
  const APPROVAL_THRESHOLD := 0.60

  datatype Scores = Scores(costZ: real, cpuZ: real, trafficZ: real) {
    function Peak(): real {
      if costZ < cpuZ then cpuZ else costZ
    }
  }

  function Clamp(value: real): (r: real)
    ensures 0.0 <= r <= 1.0
  {
    if value < 0.0 then 0.0 else if value > 1.0 then 1.0 else value
  }

  // Nearest integer, ties to even.
  function RoundHalfEven(y: real): int {
    var f := y.Floor;
    var rest := y - f as real;
    if rest < 0.5 || (rest == 0.5 && f % 2 == 0) then f else f + 1
  }

  function Round3(x: real): real {
    RoundHalfEven(x * 1000.0) as real / 1000.0
  }

  function Raw(scores: Scores, corroboration: real, samples: nat): real {
    var peak := scores.Peak();
    var magnitude := Clamp((peak - 3.0) / 5.0);
    var decoupling := Clamp((peak - scores.trafficZ) / 6.0);
    var maturity := Clamp(samples as real / MATURITY_SAMPLES as real);
    0.40 * magnitude + 0.30 * decoupling + 0.20 * Clamp(corroboration) + 0.10 * maturity
  }

  function Score(scores: Scores, corroboration: real, samples: nat): real {
    Round3(Raw(scores, corroboration, samples))
  }

  // Ordered by how much they permit.
  datatype Authority = AlertOnlyAuthority | ApprovalAuthority | AutonomousAuthority {
    function Rank(): nat {
      match this
      case AlertOnlyAuthority => 0
      case ApprovalAuthority => 1
      case AutonomousAuthority => 2
    }
  }

  function AuthorityFor(score: real): Authority {
    if score >= AUTONOMOUS_THRESHOLD then AutonomousAuthority
    else if score >= APPROVAL_THRESHOLD then ApprovalAuthority
    else AlertOnlyAuthority
  }

  // ---------------------------------------------------------------- rounding

  lemma RoundHalfEvenMonotone(x: real, y: real)
    requires x <= y
    ensures RoundHalfEven(x) <= RoundHalfEven(y)
  {
    assert x.Floor <= y.Floor;
  }

  lemma Round3Monotone(x: real, y: real)
    requires x <= y
    ensures Round3(x) <= Round3(y)
  {
    RoundHalfEvenMonotone(x * 1000.0, y * 1000.0);
  }

  lemma Round3Near(x: real)
    ensures x - 0.0005 <= Round3(x) <= x + 0.0005
  {
    var y, k := x * 1000.0, RoundHalfEven(x * 1000.0);
    assert y - 0.5 <= k as real <= y + 0.5;
  }

  // ---------------------------------------------------------------- laws of the score

  lemma RawBounds(scores: Scores, corroboration: real, samples: nat)
    ensures 0.0 <= Raw(scores, corroboration, samples) <= 1.0
    ensures corroboration <= 0.0 ==> Raw(scores, corroboration, samples) <= 0.80
    ensures corroboration <= 0.0 && scores.Peak() <= scores.trafficZ ==>
              Raw(scores, corroboration, samples) <= 0.50
  {
    if scores.Peak() <= scores.trafficZ {
      assert (scores.Peak() - scores.trafficZ) / 6.0 <= 0.0;
    }
  }

  lemma ScoreBounds(scores: Scores, corroboration: real, samples: nat)
    ensures 0.0 <= Score(scores, corroboration, samples) <= 1.0
  {
    var raw := Raw(scores, corroboration, samples);
    RawBounds(scores, corroboration, samples);
    Round3Monotone(0.0, raw);
    Round3Monotone(raw, 1.0);
    assert Round3(0.0) == 0.0 && Round3(1.0) == 1.0;
  }

  // A score the detector can publish never earns autonomy: without corroboration the
  // weights add up to 0.80.
  lemma UncorroboratedCap(scores: Scores, corroboration: real, samples: nat)
    requires corroboration <= 0.0
    ensures Score(scores, corroboration, samples) <= 0.80
    ensures AuthorityFor(Score(scores, corroboration, samples)) != AutonomousAuthority
  {
    RawBounds(scores, corroboration, samples);
    Round3Monotone(Raw(scores, corroboration, samples), 0.80);
    assert 0.80 * 1000.0 == 800.0;
    assert Round3(0.80) == 0.80;
  }

  // A rounded score is at most 0.40 exactly when the score is at most 0.4005; a tie goes to
  // the even 400.
  lemma RoundsToAtMost040(x: real)
    ensures Round3(x) <= 0.40 <==> x <= 0.4005
  {
    var y := x * 1000.0;
    assert RoundHalfEven(y) <= 400 <==> y <= 400.5;
    assert 0.40 == 400.0 / 1000.0;
  }

  // Neither decoupled from traffic nor corroborated: advisory, however large the spike, and
  // at most 0.50. It stays at 0.40 or below exactly while magnitude and maturity together
  // weigh no more than 0.4005.
  lemma CoupledIsAdvisory(scores: Scores, corroboration: real, samples: nat)
    requires corroboration <= 0.0 && scores.Peak() <= scores.trafficZ
    ensures Score(scores, corroboration, samples) <= 0.50
    ensures Score(scores, corroboration, samples) <= 0.40 <==>
            0.40 * Clamp((scores.Peak() - 3.0) / 5.0) + 0.10 * Clamp(samples as real / MATURITY_SAMPLES as real) <= 0.4005
    ensures AuthorityFor(Score(scores, corroboration, samples)) == AlertOnlyAuthority
  {
    var raw := Raw(scores, corroboration, samples);
    RawBounds(scores, corroboration, samples);
    Round3Monotone(raw, 0.50);
    assert 0.50 * 1000.0 == 500.0;
    assert Round3(0.50) == 0.50;
    assert Clamp((scores.Peak() - scores.trafficZ) / 6.0) == 0.0;
    RoundsToAtMost040(raw);
  }

  // For a spike of eight standard deviations or more, that means three samples at most.
  lemma SaturatedCoupledSpike(scores: Scores, corroboration: real, samples: nat)
    requires corroboration <= 0.0 && scores.Peak() <= scores.trafficZ && scores.Peak() >= 8.0
    ensures Score(scores, corroboration, samples) <= 0.40 <==> samples <= 3
  {
    CoupledIsAdvisory(scores, corroboration, samples);
    hide Score;
    assert Clamp((scores.Peak() - 3.0) / 5.0) == 1.0;
    var maturity := samples as real / MATURITY_SAMPLES as real;
    assert maturity * 720.0 == samples as real;
    assert maturity <= 0.005 <==> samples as real <= 3.6;
  }

  // Forty standard deviations on a mature baseline, all of it explained by traffic.
  lemma CoupledSpikeReachesHalf()
    ensures Score(Scores(40.0, 0.0, 40.0), CORROBORATION_NONE, MATURITY_SAMPLES) == 0.50
  {
    var s := Scores(40.0, 0.0, 40.0);
    assert Clamp((s.Peak() - 3.0) / 5.0) == 1.0 && Clamp((s.Peak() - s.trafficZ) / 6.0) == 0.0;
    assert Raw(s, CORROBORATION_NONE, MATURITY_SAMPLES) == 0.50;
    assert RoundHalfEven(0.50 * 1000.0) == 500;
  }

  lemma DivideMonotone(x: real, y: real, d: real)
    requires x <= y && d > 0.0
    ensures x / d <= y / d
  {
  }

  // More evidence never lowers the score, more traffic never raises it.
  lemma ScoreMonotone(a: Scores, b: Scores, ca: real, cb: real, na: nat, nb: nat)
    requires a.costZ <= b.costZ && a.cpuZ <= b.cpuZ && b.trafficZ <= a.trafficZ
    requires ca <= cb && na <= nb
    ensures Score(a, ca, na) <= Score(b, cb, nb)
    ensures AuthorityFor(Score(a, ca, na)).Rank() <= AuthorityFor(Score(b, cb, nb)).Rank()
  {
    DivideMonotone(a.Peak() - 3.0, b.Peak() - 3.0, 5.0);
    DivideMonotone(a.Peak() - a.trafficZ, b.Peak() - b.trafficZ, 6.0);
    DivideMonotone(na as real, nb as real, MATURITY_SAMPLES as real);
    Round3Monotone(Raw(a, ca, na), Raw(b, cb, nb));
  }

  // ---------------------------------------------------------------- what each signal is worth

  // x, kept between zero and most.
  function Within(x: real, most: real): (r: real)
    requires most >= 0.0
    ensures 0.0 <= r <= most
    ensures 0.0 <= x <= most ==> r == x
  {
    if x <= 0.0 then 0.0 else if x >= most then most else x
  }

  // Eight hundredths for each deviation of the peak beyond the third, up to five; five
  // hundredths for each deviation by which it exceeds traffic, up to six; two tenths for full
  // corroboration; a tenth for a mature baseline.
  function Worth(peak: real, trafficZ: real, corroboration: real, samples: nat): real {
    0.08 * Within(peak - 3.0, 5.0) + 0.05 * Within(peak - trafficZ, 6.0) + 0.20 * Within(corroboration, 1.0)
    + Within(samples as real, 720.0) / 7200.0
  }

  lemma RawIsWorth(scores: Scores, corroboration: real, samples: nat, peak: real)
    requires peak >= scores.costZ && peak >= scores.cpuZ && (peak == scores.costZ || peak == scores.cpuZ)
    ensures Raw(scores, corroboration, samples) == Worth(peak, scores.trafficZ, corroboration, samples)
  {
    assert scores.Peak() == peak;
    var s := samples as real;
    assert 0.40 * Clamp((peak - 3.0) / 5.0) == 0.08 * Within(peak - 3.0, 5.0);
    assert 0.30 * Clamp((peak - scores.trafficZ) / 6.0) == 0.05 * Within(peak - scores.trafficZ, 6.0);
    assert 0.10 * Clamp(s / 720.0) == Within(s, 720.0) / 7200.0;
  }

  // The score is the worth of the larger of the two resource deviations, rounded to
  // thousandths.
  lemma ScoreIsWorth(scores: Scores, corroboration: real, samples: nat, peak: real)
    requires peak >= scores.costZ && peak >= scores.cpuZ && (peak == scores.costZ || peak == scores.cpuZ)
    ensures
      var score, worth := Score(scores, corroboration, samples), Worth(peak, scores.trafficZ, corroboration, samples);
      && worth - 0.0005 <= score <= worth + 0.0005
      && (score * 1000.0).Floor as real == score * 1000.0
  {
    RawIsWorth(scores, corroboration, samples, peak);
    Round3Near(Raw(scores, corroboration, samples));
    Round3Thousandths(Raw(scores, corroboration, samples));
    hide Raw;
    hide Worth;
    hide Round3;
  }

  lemma Round3Thousandths(x: real)
    ensures (Round3(x) * 1000.0).Floor as real == Round3(x) * 1000.0
  {
    hide RoundHalfEven;
    Thousandths(RoundHalfEven(x * 1000.0));
  }

  lemma Thousandths(k: int)
    ensures ((k as real / 1000.0) * 1000.0).Floor as real == (k as real / 1000.0) * 1000.0
  {
    assert (k as real / 1000.0) * 1000.0 == k as real;
  }

  // Inside the ranges where nothing saturates, every signal counts at its own rate.
  lemma ScoreInRange(scores: Scores, corroboration: real, samples: nat, peak: real)
    requires peak >= scores.costZ && peak >= scores.cpuZ && (peak == scores.costZ || peak == scores.cpuZ)
    requires 3.0 <= peak <= 8.0 && 0.0 <= peak - scores.trafficZ <= 6.0
    requires 0.0 <= corroboration <= 1.0 && samples <= 720
    ensures
      var linear := 0.08 * (peak - 3.0) + 0.05 * (peak - scores.trafficZ) + 0.20 * corroboration + samples as real / 7200.0;
      linear - 0.0005 <= Score(scores, corroboration, samples) <= linear + 0.0005
  {
    ScoreIsWorth(scores, corroboration, samples, peak);
    hide Score;
  }

  lemma RoundsToAtLeast(x: real, thousandths: int)
    requires thousandths % 2 == 0
    ensures Round3(x) >= thousandths as real / 1000.0 <==> x >= thousandths as real / 1000.0 - 0.0005
  {
    var y := x * 1000.0;
    assert RoundHalfEven(y) >= thousandths <==> y >= thousandths as real - 0.5;
  }

  // Uncorroborated, a score asks a human exactly when it is worth at least 0.5995, and it
  // reaches its cap of 0.80 exactly when it is worth at least 0.7995.
  lemma ApprovalIff(scores: Scores, samples: nat, peak: real)
    requires peak >= scores.costZ && peak >= scores.cpuZ && (peak == scores.costZ || peak == scores.cpuZ)
    ensures
      var score, worth := Score(scores, 0.0, samples), Worth(peak, scores.trafficZ, 0.0, samples);
      && (AuthorityFor(score) == ApprovalAuthority <==> worth >= 0.5995)
      && (AuthorityFor(score) == AlertOnlyAuthority <==> worth < 0.5995)
      && (score == 0.80 <==> worth >= 0.7995)
  {
    RawIsWorth(scores, 0.0, samples, peak);
    UncorroboratedCap(scores, 0.0, samples);
    RoundsToAtLeast(Raw(scores, 0.0, samples), 600);
    RoundsToAtLeast(Raw(scores, 0.0, samples), 800);
    hide Raw;
    hide Worth;
    hide Round3;
  }

  // The cap is attained: eight deviations, six beyond traffic, on a mature baseline.
  lemma CapIsAttained()
    ensures Score(Scores(8.0, 8.0, 2.0), CORROBORATION_NONE, 720) == 0.80
  {
    ApprovalIff(Scores(8.0, 8.0, 2.0), 720, 8.0);
    hide Score;
  }
}
