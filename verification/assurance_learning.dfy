/**
 The assurance analytics panel (src/components/assurance/AssuranceLearning.tsx):
 counters over the fetched engagements, the compliance and completion rates, and
 the recent-activity list.
 */
module AssuranceLearning {
  import opened Common

  /** The `risk_assessment` JSON of an engagement, as far as the panel reads it. */
  datatype RiskAssessment = RiskAssessment(level: Option<string>)

  /**
   An `assurance_engagements` row. A missing `risk_assessment` or `findings`
   column is `None`; `findings` is the JSON array when present.
   */
  datatype Engagement = Engagement(clientName: string, status: string,
                                   riskAssessment: Option<RiskAssessment>,
                                   findings: Option<seq<string>>)

  predicate IsCompleted(e: Engagement)
  {
    e.status == "completed"
  }

  predicate IsInProgress(e: Engagement)
  {
    e.status == "in_progress"
  }

  /** `e.risk_assessment && e.risk_assessment.level === 'high'`. */
  predicate IsHighRisk(e: Engagement)
  {
    e.riskAssessment.Some? && e.riskAssessment.value.level == Some("high")
  }

  /** `e.findings && e.findings.length === 0`: findings recorded, and none of them. */
  predicate IsCompliant(e: Engagement)
  {
    e.findings.Some? && |e.findings.value| == 0
  }

  /** The counters shown on the panel. */
  datatype Analytics = Analytics(total: nat, completed: nat, inProgress: nat, highRisk: nat, compliant: nat,
                                 complianceRate: real)

  /** `(compliant / total) * 100` when there are engagements, 0 otherwise. */
  function ComplianceRate(compliant: nat, total: nat): (rate: real)
    requires compliant <= total
    ensures 0.0 <= rate <= 100.0
    ensures rate == 0.0 <==> compliant == 0
    ensures total > 0 && compliant == total ==> rate == 100.0
    ensures total > 0 ==> rate * total as real == compliant as real * 100.0
  {
    if total != 0 then (compliant as real / total as real) * 100.0 else 0.0
  }

  /** The counters over `engagements`; a list not (yet) loaded counts as empty. */
  function ComputeAnalytics(engagements: Option<seq<Engagement>>): (a: Analytics)
    ensures a.total == |engagements.GetOr([])|
    ensures a.completed == Count(engagements.GetOr([]), IsCompleted)
    ensures a.inProgress == Count(engagements.GetOr([]), IsInProgress)
    ensures a.highRisk == Count(engagements.GetOr([]), IsHighRisk)
    ensures a.compliant == Count(engagements.GetOr([]), IsCompliant)
    ensures a.complianceRate == ComplianceRate(a.compliant, a.total)
    ensures a.completed + a.inProgress <= a.total
    ensures a.highRisk <= a.total && a.compliant <= a.total
    ensures engagements.None? ==> a == Analytics(0, 0, 0, 0, 0, 0.0)
    ensures 0.0 <= a.complianceRate <= 100.0
    ensures a.total == 0 ==> a.complianceRate == 0.0
  {
    var es := engagements.GetOr([]);
    var compliant := Count(es, IsCompliant);
    CountDisjoint(es, IsCompleted, IsInProgress);
    Analytics(|es|, Count(es, IsCompleted), Count(es, IsInProgress), Count(es, IsHighRisk), compliant,
              ComplianceRate(compliant, |es|))
  }

  lemma CountSnoc(es: seq<Engagement>, e: Engagement, p: Engagement -> bool)
    ensures Count(es + [e], p) == Count(es, p) + (if p(e) then 1 else 0)
  {
    FilterAppend(es, [e], p);
  }

  /**
   An engagement whose findings were never recorded is not compliant: adding one
   raises the total and leaves the compliant count as it was.
   */
  lemma MissingFindingsAreNotCompliant(es: seq<Engagement>, e: Engagement)
    requires e.findings.None?
    ensures var before := ComputeAnalytics(Some(es));
            var after := ComputeAnalytics(Some(es + [e]));
            after.total == before.total + 1 && after.compliant == before.compliant
  {
    CountSnoc(es, e, IsCompliant);
  }

  /** An engagement with an empty findings list is compliant; one with any finding is not. */
  lemma FindingsDecideCompliance(es: seq<Engagement>, e: Engagement)
    requires e.findings.Some?
    ensures ComputeAnalytics(Some(es + [e])).compliant
            == ComputeAnalytics(Some(es)).compliant + (if |e.findings.value| == 0 then 1 else 0)
  {
    CountSnoc(es, e, IsCompliant);
  }

  /** Only a `high` level in a present assessment counts as high risk; the status strings must match exactly. */
  lemma CountersUseExactValues(es: seq<Engagement>, e: Engagement)
    ensures var before := ComputeAnalytics(Some(es));
            var after := ComputeAnalytics(Some(es + [e]));
            after.highRisk == before.highRisk + (if e.riskAssessment == Some(RiskAssessment(Some("high"))) then 1 else 0)
            && after.completed == before.completed + (if e.status == "completed" then 1 else 0)
            && after.inProgress == before.inProgress + (if e.status == "in_progress" then 1 else 0)
  {
    CountSnoc(es, e, IsHighRisk);
    CountSnoc(es, e, IsCompleted);
    CountSnoc(es, e, IsInProgress);
  }

  /**
   `(completed / total) * 100` has no zero guard: with no engagements it is
   0 / 0, NaN, modelled as `None`.
   */
  function CompletionRate(a: Analytics): (rate: Option<real>)
    requires a.completed <= a.total
    ensures rate.None? <==> a.total == 0
    ensures rate.Some? ==> 0.0 <= rate.value <= 100.0
    ensures rate.Some? ==> rate.value * a.total as real == a.completed as real * 100.0
  {
    if a.total == 0 then None else Some((a.completed as real / a.total as real) * 100.0)
  }

  /** An empty or unloaded list shows a NaN completion rate but a 0 compliance rate. */
  lemma EmptyListRates(engagements: Option<seq<Engagement>>)
    requires engagements.None? || engagements == Some([])
    ensures var a := ComputeAnalytics(engagements);
            CompletionRate(a).None? && a.complianceRate == 0.0
  {
  }

  /** `engagements?.slice(0, 5)`: at most five, in fetched order; nothing when not loaded. */
  function RecentActivity(engagements: Option<seq<Engagement>>): (r: seq<Engagement>)
    ensures |r| <= 5
    ensures engagements.Some? ==> |r| == (if |engagements.value| < 5 then |engagements.value| else 5)
    ensures engagements.Some? ==> forall i | 0 <= i < |r| :: r[i] == engagements.value[i]
    ensures engagements.None? ==> r == []
  {
    match engagements
    case None => []
    case Some(es) => Take(es, 5)
  }
}
