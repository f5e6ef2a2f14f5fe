/** Freshness estimate from pH and the IR voltage (webfinal13.py, `analyze_age`). */
module Age {
  import opened Wrappers

  datatype AgeReport = AgeReport(days: int, status: string, reason: string, justification: string)

  const VERY_FRESH := AgeReport(0, "Very Fresh", "Low pH", "High acidity = fresh")
  const FRESH := AgeReport(15, "Fresh", "pH rising", "Early changes")
  const MODERATE := AgeReport(30, "Moderate", "pH drift", "Chemical transition")
  const AGED := AgeReport(45, "Aged", "Near neutral pH", "Age increase")
  const OLD := AgeReport(60, "Old", "Highly neutral pH", "Prolonged storage")

  /** Returned when either reading is not a number. */
  const UNKNOWN := AgeReport(0, "Unknown", "Invalid", "Invalid")

  function MinInt(a: int, b: int): int { if a <= b then a else b }

  function MaxInt(a: int, b: int): int { if a >= b then a else b }

  /** The first bracket whose upper pH bound is not exceeded. The first-match
      chain amounts to five disjoint pH intervals, each closed on the right. */
  function Bracket(ph: real): (b: AgeReport)
    ensures b == VERY_FRESH <==> ph <= 3.0
    ensures b == FRESH <==> 3.0 < ph <= 4.0
    ensures b == MODERATE <==> 4.0 < ph <= 5.2
    ensures b == AGED <==> 5.2 < ph <= 6.5
    ensures b == OLD <==> 6.5 < ph
  {
    if ph <= 3.0 then VERY_FRESH
    else if ph <= 4.0 then FRESH
    else if ph <= 5.2 then MODERATE
    else if ph <= 6.5 then AGED
    else OLD
  }

  /** The bracket's estimate, then +5 days (at most 60) for a low IR reading
      and -5 days (at least 0) for a high one. The labels come from the
      bracket alone; in the band 2 <= ir <= 4 the days do too. */
  function AnalyzeAge(ph: real, ir: real): (rep: AgeReport)
    ensures 0 <= rep.days <= 60
    ensures rep.status == Bracket(ph).status && rep.reason == Bracket(ph).reason
            && rep.justification == Bracket(ph).justification
    ensures 2.0 <= ir <= 4.0 ==> rep.days == Bracket(ph).days
    ensures ir < 2.0 ==> rep.days == if ph > 6.5 then 60 else Bracket(ph).days + 5
    ensures ir > 4.0 ==> rep.days == if ph <= 3.0 then 0 else Bracket(ph).days - 5
  {
    var b := Bracket(ph);
    var raised := if ir < 2.0 then MinInt(60, b.days + 5) else b.days;
    var lowered := if ir > 4.0 then MaxInt(0, raised - 5) else raised;
    b.(days := lowered)
  }

  /** A more neutral sample is never estimated younger, whatever the IR. */
  lemma DaysMonotoneInPh(ph1: real, ph2: real, ir: real)
    requires ph1 <= ph2
    ensures AnalyzeAge(ph1, ir).days <= AnalyzeAge(ph2, ir).days
  {
  }

  /** A higher IR voltage never makes the estimate older. */
  lemma DaysAntitoneInIr(ph: real, ir1: real, ir2: real)
    requires ir1 <= ir2
    ensures AnalyzeAge(ph, ir1).days >= AnalyzeAge(ph, ir2).days
  {
  }

  /** The bracket boundaries and IR adjustments at sample readings. */
  lemma AgeExamples()
    ensures AnalyzeAge(3.0, 3.0) == VERY_FRESH
    ensures AnalyzeAge(3.01, 3.0) == FRESH
    ensures AnalyzeAge(4.0, 3.0) == FRESH
    ensures AnalyzeAge(5.2, 3.0) == MODERATE
    ensures AnalyzeAge(6.5, 3.0) == AGED
    ensures AnalyzeAge(6.51, 3.0) == OLD
    ensures AnalyzeAge(4.0, 1.0) == FRESH.(days := 20)
    ensures AnalyzeAge(4.0, 4.5) == FRESH.(days := 10)
    ensures AnalyzeAge(7.0, 1.0) == OLD
    ensures AnalyzeAge(2.0, 4.5) == VERY_FRESH
  {
  }

  /** The entry point on unparsed readings: None stands for a value that
      `float()` rejects, which yields the fixed UNKNOWN report. */
  function AnalyzeAgeOf(ph: Option<real>, ir: Option<real>): (rep: AgeReport)
    ensures ph.None? || ir.None? ==> rep == UNKNOWN
    ensures ph.Some? && ir.Some? ==> rep == AnalyzeAge(ph.value, ir.value)
    ensures ph.Some? && ir.Some? ==> rep.status != UNKNOWN.status && 0 <= rep.days <= 60
  {
    match (ph, ir)
    case (Some(p), Some(i)) => AnalyzeAge(p, i)
    case _ => UNKNOWN
  }
}
