/** The risk banding of ml-py-app/src/utils/utils.py: a predicted probability becomes a label and a CSS class. */
module RiskLevel {

  const LowLabel := "低风险"
  const MediumLabel := "中风险"
  const HighLabel := "高风险"

  const LowClass := "risk-low"
  const MediumClass := "risk-medium"
  const HighClass := "risk-high"

  /** `calculate_risk_level`: `(label, css class)` for a probability, with bands split at 0.3 and 0.7. */
  function CalculateRiskLevel(probability: real): (r: (string, string))
    ensures r == (LowLabel, LowClass) || r == (MediumLabel, MediumClass) || r == (HighLabel, HighClass)
  {
    if probability < 0.3 then (LowLabel, LowClass)
    else if probability < 0.7 then (MediumLabel, MediumClass)
    else (HighLabel, HighClass)
  }

  /** The position of a label in the order low, medium, high. */
  function Rank(name: string): nat {
    if name == LowLabel then 0 else if name == MediumLabel then 1 else 2
  }

  /** Each band is exactly its half-open interval: below 0.3, from 0.3 to below 0.7, and from 0.7 on. */
  lemma RiskBands(p: real)
    ensures CalculateRiskLevel(p).0 == LowLabel <==> p < 0.3
    ensures CalculateRiskLevel(p).0 == MediumLabel <==> 0.3 <= p < 0.7
    ensures CalculateRiskLevel(p).0 == HighLabel <==> p >= 0.7
  {
  }

  /** A higher probability never gets a lower risk band. */
  lemma RiskMonotone(p: real, q: real)
    requires p <= q
    ensures Rank(CalculateRiskLevel(p).0) <= Rank(CalculateRiskLevel(q).0)
  {
  }
}
