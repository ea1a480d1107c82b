/** The four-step risk scale `'low' | 'medium' | 'high' | 'critical'` shared by
    crisis indicators, assessments and the urgency of crisis log entries. */
module Severities {

  datatype Severity = Low | Medium | High | Critical {

    /** Position on the scale: critical > high > medium > low. */
    function Rank(): nat {
      match this
      case Low => 0
      case Medium => 1
      case High => 2
      case Critical => 3
    }
  }

  /** The higher of two severities. */
  function Max(a: Severity, b: Severity): (m: Severity)
    ensures a.Rank() <= m.Rank() && b.Rank() <= m.Rank()
    ensures m == a || m == b
  {
    if a.Rank() < b.Rank() then b else a
  }

  /** Rank orders the scale without ties. */
  lemma RankInjective(a: Severity, b: Severity)
    ensures a.Rank() == b.Rank() <==> a == b
  {
  }
}
