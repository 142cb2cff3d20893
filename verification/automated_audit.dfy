/**
 The automated-audit edge function (supabase/functions/automated-audit/index.ts):
 threshold labels and an ordered recommendation list derived from three scores,
 and the fetch → update → respond control flow over the `audit_reports` table.
 The three scorers are collaborators whose results are inputs here.
 */
module AutomatedAudit {
  import opened Common

  /** The parts of the scorers' results the function reads; the rest is stored as given. */
  datatype RiskScores = RiskScores(overallScore: real, detail: string)
  datatype ControlEffectiveness = ControlEffectiveness(overallEffectiveness: real, detail: string)
  datatype Anomalies = Anomalies(count: int, detail: string)

  datatype Summary = Summary(overallRisk: string, controlStatus: string, anomalyCount: int, timestamp: string)

  const RiskRecommendation := "Implement additional risk monitoring procedures"
  const ControlRecommendation := "Strengthen internal control framework"
  const AnomalyRecommendation := "Review and investigate identified anomalies"

  /** The position of each recommendation in the fixed order risk, control, anomaly. */
  function RecommendationRank(s: string): int
  {
    if s == RiskRecommendation then 0
    else if s == ControlRecommendation then 1
    else if s == AnomalyRecommendation then 2
    else 3
  }

  /** `summary`: strict thresholds 0.5 on risk and 0.7 on control effectiveness. */
  function MakeSummary(risk: RiskScores, control: ControlEffectiveness, anomalies: Anomalies, now: string): (s: Summary)
    ensures s.overallRisk == "High" <==> risk.overallScore > 0.5
    ensures s.overallRisk == "Low" <==> risk.overallScore <= 0.5
    ensures s.controlStatus == "Effective" <==> control.overallEffectiveness > 0.7
    ensures s.controlStatus == "Needs Improvement" <==> control.overallEffectiveness <= 0.7
    ensures s.anomalyCount == anomalies.count
    ensures s.timestamp == now
  {
    Summary(if risk.overallScore > 0.5 then "High" else "Low",
            if control.overallEffectiveness > 0.7 then "Effective" else "Needs Improvement",
            anomalies.count, now)
  }

  /** `recommendations`: each entry present exactly when its own condition holds, in the fixed order. */
  function Recommendations(risk: RiskScores, control: ControlEffectiveness, anomalies: Anomalies): (r: seq<string>)
    ensures |r| <= 3
    ensures RiskRecommendation in r <==> risk.overallScore > 0.5
    ensures ControlRecommendation in r <==> control.overallEffectiveness < 0.7
    ensures AnomalyRecommendation in r <==> anomalies.count > 0
    ensures forall i | 0 <= i < |r| :: RecommendationRank(r[i]) < 3
    ensures forall i, j | 0 <= i < j < |r| :: RecommendationRank(r[i]) < RecommendationRank(r[j])
  {
    (if risk.overallScore > 0.5 then [RiskRecommendation] else [])
    + (if control.overallEffectiveness < 0.7 then [ControlRecommendation] else [])
    + (if anomalies.count > 0 then [AnomalyRecommendation] else [])
  }

  /** The recommendations are pairwise distinct. */
  lemma RecommendationsDistinct(risk: RiskScores, control: ControlEffectiveness, anomalies: Anomalies)
    ensures var r := Recommendations(risk, control, anomalies);
            forall i, j | 0 <= i < j < |r| :: r[i] != r[j]
  {
  }

  /**
   At an effectiveness of exactly 0.7 the status says the controls need
   improvement, yet the recommendation to strengthen them is not given: the two
   checks use `>` and `<`.
   */
  lemma SevenTenthsGap(risk: RiskScores, control: ControlEffectiveness, anomalies: Anomalies, now: string)
    requires control.overallEffectiveness == 0.7
    ensures MakeSummary(risk, control, anomalies, now).controlStatus == "Needs Improvement"
    ensures ControlRecommendation !in Recommendations(risk, control, anomalies)
  {
  }

  /** Away from 0.7 exactly, the control recommendation accompanies exactly the "Needs Improvement" status. */
  lemma ControlRecommendationMatchesStatus(risk: RiskScores, control: ControlEffectiveness, anomalies: Anomalies, now: string)
    requires control.overallEffectiveness != 0.7
    ensures ControlRecommendation in Recommendations(risk, control, anomalies)
            <==> MakeSummary(risk, control, anomalies, now).controlStatus == "Needs Improvement"
  {
  }

  /** The risk recommendation accompanies exactly the "High" overall risk. */
  lemma RiskRecommendationMatchesSummary(risk: RiskScores, control: ControlEffectiveness, anomalies: Anomalies, now: string)
    ensures RiskRecommendation in Recommendations(risk, control, anomalies)
            <==> MakeSummary(risk, control, anomalies, now).overallRisk == "High"
  {
  }

  /** The `automated_analysis` column written on success. */
  datatype AutomatedAnalysis = AutomatedAnalysis(completedAt: string, summary: Summary, recommendations: seq<string>)

  /** A row of `audit_reports`, restricted to the columns the function writes. */
  datatype AuditReport = AuditReport(
    status: string,
    automatedAnalysis: Option<AutomatedAnalysis>,
    riskScores: Option<RiskScores>,
    controlEffectiveness: Option<ControlEffectiveness>,
    anomalyDetection: Option<Anomalies>)

  /** The `audit_reports` table, keyed by id. */
  type AuditTable = map<string, AuditReport>

  /** The request body: `req.json()` either fails or yields an `auditId`. */
  datatype RequestBody = Malformed(message: string) | Body(auditId: string)

  /** What the fetch of the audit returned: an error, or the data (possibly none). */
  datatype FetchOutcome = FetchFailed(message: string) | Fetched(audit: Option<AuditReport>)

  /** The outputs of the three scorers for the fetched audit. */
  datatype Scoring = Scoring(risk: RiskScores, control: ControlEffectiveness, anomalies: Anomalies)

  /**
   How the three scorer calls ended: one of them threw (the `catch` answers with
   its message), or all three returned.
   */
  datatype ScoringOutcome = ScorerFailed(message: string) | Scored(scores: Scoring)

  datatype Response =
    | Success(risk: RiskScores, control: ControlEffectiveness, anomalies: Anomalies,
              summary: Summary, recommendations: seq<string>)
    | Failure(status: int, error: string)

  /** The state after a request, and the response sent. */
  datatype Run = Run(table: AuditTable, response: Response)

  /**
   The two clock reads of a run: the summary's `timestamp` and, later, the
   analysis' `completed_at`. They are separate calls and need not agree.
   */
  datatype Clock = Clock(summaryAt: string, completedAt: string)

  /**
   The row after a successful update: status `completed`, the three scores, and
   an analysis holding the summary and recommendations of those scores. Every
   column the function writes is replaced, so the row's earlier content is not read.
   */
  function Completed(scoring: Scoring, clock: Clock): (r: AuditReport)
    ensures r.status == "completed"
    ensures r.riskScores == Some(scoring.risk) && r.controlEffectiveness == Some(scoring.control)
    ensures r.anomalyDetection == Some(scoring.anomalies)
    ensures r.automatedAnalysis.Some? && r.automatedAnalysis.value.completedAt == clock.completedAt
    ensures r.automatedAnalysis.value.summary == MakeSummary(scoring.risk, scoring.control, scoring.anomalies, clock.summaryAt)
    ensures r.automatedAnalysis.value.recommendations == Recommendations(scoring.risk, scoring.control, scoring.anomalies)
  {
    AuditReport("completed",
                Some(AutomatedAnalysis(clock.completedAt,
                                       MakeSummary(scoring.risk, scoring.control, scoring.anomalies, clock.summaryAt),
                                       Recommendations(scoring.risk, scoring.control, scoring.anomalies))),
                Some(scoring.risk), Some(scoring.control), Some(scoring.anomalies))
  }

  /**
   One request. A malformed body, a fetch error, a missing audit or a throwing
   scorer ends in a 400 response before any update; a failed update ends in a 400
   response with its message; otherwise the audit row is completed and the
   success body returned.
   `.eq('id', auditId)` touches no row when the id is not in the table.
   */
  function AutomatedAuditRun(table: AuditTable, body: RequestBody, fetch: FetchOutcome, outcome: ScoringOutcome,
                             updateError: Option<string>, clock: Clock): (r: Run)
    ensures r.response.Failure? ==> r.response.status == 400 && r.table == table
    ensures body.Malformed? ==> r.response == Failure(400, body.message)
    ensures body.Body? && fetch.FetchFailed? ==> r.response == Failure(400, fetch.message)
    ensures body.Body? && fetch == Fetched(None) ==> r.response == Failure(400, "Audit not found")
    ensures body.Body? && fetch.Fetched? && fetch.audit.Some? && outcome.ScorerFailed? ==>
              r.response == Failure(400, outcome.message)
    ensures r.response.Success? <==>
              body.Body? && fetch.Fetched? && fetch.audit.Some? && outcome.Scored? && updateError.None?
    ensures body.Body? && fetch.Fetched? && fetch.audit.Some? && outcome.Scored? && updateError.Some? ==>
              r.response == Failure(400, updateError.value)
    ensures r.response.Success? ==>
              var scoring := outcome.scores;
              r.response.summary.anomalyCount == scoring.anomalies.count
              && r.response.recommendations == Recommendations(scoring.risk, scoring.control, scoring.anomalies)
    ensures r.response.Success? ==> r.table.Keys == table.Keys
    ensures r.response.Success? ==> forall id | id in table && id != body.auditId :: r.table[id] == table[id]
    ensures r.response.Success? && body.auditId in table ==> r.table[body.auditId].status == "completed"
    ensures r.response.Success? ==>
              var scoring := outcome.scores;
              r.response == Success(scoring.risk, scoring.control, scoring.anomalies,
                                    MakeSummary(scoring.risk, scoring.control, scoring.anomalies, clock.summaryAt),
                                    Recommendations(scoring.risk, scoring.control, scoring.anomalies))
    ensures r.response.Success? && body.auditId in table ==> r.table[body.auditId] == Completed(outcome.scores, clock)
    ensures r.response.Success? && body.auditId in table ==>
              r.table[body.auditId].automatedAnalysis
              == Some(AutomatedAnalysis(clock.completedAt, r.response.summary, r.response.recommendations))
  {
    match body
    case Malformed(message) => Run(table, Failure(400, message))
    case Body(auditId) =>
      match fetch
      case FetchFailed(message) => Run(table, Failure(400, message))
      case Fetched(None) => Run(table, Failure(400, "Audit not found"))
      case Fetched(Some(_)) =>
        match outcome
        case ScorerFailed(message) => Run(table, Failure(400, message))
        case Scored(scoring) =>
        match updateError
        case Some(message) => Run(table, Failure(400, message))
        case None =>
          var table' := if auditId in table then table[auditId := Completed(scoring, clock)] else table;
          Run(table', Success(scoring.risk, scoring.control, scoring.anomalies,
                              MakeSummary(scoring.risk, scoring.control, scoring.anomalies, clock.summaryAt),
                              Recommendations(scoring.risk, scoring.control, scoring.anomalies)))
  }

  /** Re-running a completed audit with the same scores and clock leaves the table as the first run did. */
  lemma RerunIsIdempotent(table: AuditTable, auditId: string, fetch: FetchOutcome, scoring: Scoring, clock: Clock)
    requires fetch.Fetched? && fetch.audit.Some?
    ensures var once := AutomatedAuditRun(table, Body(auditId), fetch, Scored(scoring), None, clock).table;
            AutomatedAuditRun(once, Body(auditId), fetch, Scored(scoring), None, clock).table == once
  {
  }
}
