// services/decision-policy/app/policy.py and the ordered search of
// services/decision-policy/app/main.py: which rule decides.
module Policy {
  import opened Prelude
  import opened Schemas
  import opened Ledger
  import opened Cluster

  // An absent list or prefix is the empty one; both match anything.
  datatype Rule = Rule(
    minConfidence: Option<real>, classifications: seq<Classification>, minCost: Option<real>,
    servicePrefix: string, requiresApproval: bool)

  datatype PolicyRow = PolicyRow(priority: int, rule: Rule, action: ActionType)

  predicate PolicyMatches(rule: Rule, c: Classification, service: string, cost: real, confidence: real) {
    && !(rule.minConfidence.Some? && confidence < rule.minConfidence.value)
    && !(rule.classifications != [] && c !in rule.classifications)
    && !(rule.minCost.Some? && cost < rule.minCost.value)
    && !(rule.servicePrefix != "" && !StartsWith(service, rule.servicePrefix))
  }

  predicate IsProtected(service: string, prefixes: seq<string>) {
    exists p :: p in prefixes && StartsWith(service, p)
  }

  // The namespace is itself a prefix of the service id, so protection never misses one; a
  // prefix without a slash protects nothing but whole-namespace matches.
  lemma ProtectionIsByNamespace(service: string, prefixes: seq<string>)
    ensures IsProtected(Namespace(service), prefixes) ==> IsProtected(service, prefixes)
    ensures (forall p :: p in prefixes ==> '/' !in p) ==>
              (IsProtected(service, prefixes) <==> IsProtected(Namespace(service), prefixes))
  {
    var i := SlashAt(service);
    forall p | p in prefixes
      ensures StartsWith(Namespace(service), p) ==> StartsWith(service, p)
      ensures '/' !in p && StartsWith(service, p) ==> StartsWith(Namespace(service), p)
    {
      if StartsWith(Namespace(service), p) {
        assert service[..|p|] == service[..i][..|p|] == p;
      }
      if '/' !in p && StartsWith(service, p) {
        assert forall j {:trigger service[j]} :: 0 <= j < |p| ==> p[j] == service[j];
        assert |p| <= i;
        assert service[..i][..|p|] == service[..|p|] == p;
      }
    }
  }

  predicate ByPriority(rows: seq<PolicyRow>) {
    forall i, j :: 0 <= i < j < |rows| ==> rows[i].priority <= rows[j].priority
  }

  function FirstMatch(rows: seq<PolicyRow>, c: Classification, service: string, cost: real, confidence: real): Option<PolicyRow> {
    if rows == [] then None
    else if PolicyMatches(rows[0].rule, c, service, cost, confidence) then Some(rows[0])
    else FirstMatch(rows[1..], c, service, cost, confidence)
  }

  // The loop over the ordered query result.
  method FindMatchingPolicy(rows: seq<PolicyRow>, c: Classification, service: string, cost: real, confidence: real)
    returns (r: Option<PolicyRow>)
    ensures r == FirstMatch(rows, c, service, cost, confidence)
  {
    var i := 0;
    while i < |rows|
      invariant 0 <= i <= |rows|
      invariant FirstMatch(rows, c, service, cost, confidence) == FirstMatch(rows[i..], c, service, cost, confidence)
    {
      if PolicyMatches(rows[i].rule, c, service, cost, confidence) {
        return Some(rows[i]);
      }
      assert rows[i..][1..] == rows[i + 1..];
      i := i + 1;
    }
    r := None;
  }

  // Among all rules in the table, the one that decides is a matching rule of least priority
  // number - of several, the first listed - and there is none exactly when no rule matches.
  lemma {:induction false} LeastPriorityDecides(
    rows: seq<PolicyRow>, c: Classification, service: string, cost: real, confidence: real)
    requires ByPriority(rows)
    ensures
      var r := FirstMatch(rows, c, service, cost, confidence);
      && (r.None? <==> forall p :: p in rows ==> !PolicyMatches(p.rule, c, service, cost, confidence))
      && (r.Some? ==>
            && (exists k :: 0 <= k < |rows| && rows[k] == r.value && PolicyMatches(rows[k].rule, c, service, cost, confidence)
                            && forall j :: 0 <= j < k ==> !PolicyMatches(rows[j].rule, c, service, cost, confidence))
            && r.value in rows && PolicyMatches(r.value.rule, c, service, cost, confidence)
            && forall p :: p in rows && PolicyMatches(p.rule, c, service, cost, confidence) ==>
                 r.value.priority <= p.priority)
  {
    hide PolicyMatches;
    if rows != [] {
      assert rows == [rows[0]] + rows[1..];
      if !PolicyMatches(rows[0].rule, c, service, cost, confidence) {
        LeastPriorityDecides(rows[1..], c, service, cost, confidence);
        var r := FirstMatch(rows[1..], c, service, cost, confidence);
        if r.Some? {
          var k :| 0 <= k < |rows[1..]| && rows[1..][k] == r.value && PolicyMatches(rows[1..][k].rule, c, service, cost, confidence)
                   && forall j :: 0 <= j < k ==> !PolicyMatches(rows[1..][j].rule, c, service, cost, confidence);
          FirstOfTail(rows, k, c, service, cost, confidence);
        }
      } else {
        assert rows[0] == FirstMatch(rows, c, service, cost, confidence).value;
      }
    }
  }

  lemma FirstOfTail(rows: seq<PolicyRow>, k: nat, c: Classification, service: string, cost: real, confidence: real)
    requires rows != [] && !PolicyMatches(rows[0].rule, c, service, cost, confidence)
    requires k < |rows| - 1 && forall j :: 0 <= j < k ==> !PolicyMatches(rows[1..][j].rule, c, service, cost, confidence)
    ensures forall j :: 0 <= j < k + 1 ==> !PolicyMatches(rows[j].rule, c, service, cost, confidence)
    ensures rows[k + 1] == rows[1..][k]
  {
    hide PolicyMatches;
    forall j | 0 <= j < k + 1 ensures !PolicyMatches(rows[j].rule, c, service, cost, confidence) {
      if j > 0 {
        assert rows[j] == rows[1..][j - 1];
      }
    }
  }

  // A rule with no conditions matches anything, each condition can only veto, and the two
  // thresholds admit everything at or above them.
  lemma RuleConditionsOnlyVeto(rule: Rule, c: Classification, service: string, cost: real, confidence: real, cost': real, confidence': real)
    requires cost <= cost' && confidence <= confidence'
    ensures PolicyMatches(Rule(None, [], None, "", rule.requiresApproval), c, service, cost, confidence)
    ensures PolicyMatches(rule, c, service, cost, confidence) ==>
              && PolicyMatches(rule, c, service, cost', confidence')
              && PolicyMatches(rule.(minConfidence := Some(confidence)), c, service, cost, confidence)
              && PolicyMatches(rule.(minCost := Some(cost)), c, service, cost, confidence)
              && PolicyMatches(rule.(classifications := [c]), c, service, cost, confidence)
              && PolicyMatches(rule.(servicePrefix := service), c, service, cost, confidence)
    ensures forall other :: other != c ==> !PolicyMatches(rule.(classifications := [other]), c, service, cost, confidence)
    ensures rule.minConfidence.Some? && confidence < rule.minConfidence.value ==> !PolicyMatches(rule, c, service, cost, confidence)
    ensures rule.minCost.Some? && cost < rule.minCost.value ==> !PolicyMatches(rule, c, service, cost, confidence)
    ensures rule.classifications != [] && c !in rule.classifications ==> !PolicyMatches(rule, c, service, cost, confidence)
    ensures !(rule.servicePrefix <= service) ==> !PolicyMatches(rule, c, service, cost, confidence)
  {
  }

  // A rule matches exactly when none of its conditions vetoes.
  lemma MatchesUnlessVetoed(rule: Rule, c: Classification, service: string, cost: real, confidence: real)
    ensures PolicyMatches(rule, c, service, cost, confidence) <==>
            && (rule.minConfidence.None? || rule.minConfidence.value <= confidence)
            && (rule.minCost.None? || rule.minCost.value <= cost)
            && (rule.classifications == [] || c in rule.classifications)
            && rule.servicePrefix <= service
  {
  }

  // Protected is whatever starts with one of the prefixes.
  lemma ProtectedIff(service: string, prefixes: seq<string>)
    ensures IsProtected(service, prefixes) <==> exists k :: 0 <= k < |prefixes| && prefixes[k] <= service
  {
    if p :| p in prefixes && StartsWith(service, p) {
      var k :| 0 <= k < |prefixes| && prefixes[k] == p;
      assert prefixes[k] <= service;
    }
    if k :| 0 <= k < |prefixes| && prefixes[k] <= service {
      assert prefixes[k] in prefixes && StartsWith(service, prefixes[k]);
    }
  }
}
