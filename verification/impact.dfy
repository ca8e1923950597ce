/** The impact block of a CVE record: its CVSS v2, v3.0 and v3.1 metrics. */
module CveImpact {
  import W = Wrappers
  import V2 = CvssV2
  import V3 = CvssV3
  import Severity
  import SeverityV2

  /** A field the feeds give either as one value, a list, or not at all; absent by default. */
  datatype OneOrMany<T> = One(value: T) | Many(values: seq<T>) | None

  /** `OneOrMany::inner`: the single value, the first of the list, or nothing. */
  function Inner<T>(x: OneOrMany<T>): (r: W.Option<T>)
    ensures r.Some? <==> |AsSeq(x)| > 0
    ensures r.Some? ==> r.value == AsSeq(x)[0]
  {
    match x
    case One(o) => W.Some(o)
    case Many(l) => if |l| > 0 then W.Some(l[0]) else W.None
    case None => W.None
  }

  /** `Vec::from`: the single value as a one-element list, the list itself, or the empty list. */
  function AsSeq<T>(x: OneOrMany<T>): (r: seq<T>)
    ensures x.One? ==> r == [x.value]
    ensures x.None? ==> r == []
  {
    match x
    case One(o) => [o]
    case Many(l) => l
    case None => []
  }

  /** `inner` looks at nothing past the first value: only the head of the list matters. */
  lemma InnerHead<T>(l: seq<T>, t: T)
    ensures Inner(Many([t] + l)) == Inner(One(t))
  {
  }

  /** An NVD v3 impact metric: source, level, the vector record and its two sub-scores. */
  datatype ImpactMetricV3 = ImpactMetricV3(source: W.Option<string>, levelType: V2.MetricLevelType, cvssV3: V3.Cvss,
                                           exploitabilityScore: int, impactScore: int)

  /** The v2, v3.0 and v3.1 metrics of a record. */
  datatype ImpactMetrics = ImpactMetrics(baseMetricV2: OneOrMany<V2.ImpactMetricV2>,
                                         baseMetricV3: OneOrMany<ImpactMetricV3>,
                                         baseMetricV31: OneOrMany<ImpactMetricV3>)

  /** No metrics at all: each field absent. */
  const DefaultImpact: ImpactMetrics := ImpactMetrics(None, None, None)

  /**
   * `ImpactMetrics::severity`: the rating of the first v3.0 metric, else of
   * the first v2 metric, else "None". The v3.1 metrics are never consulted.
   * The answer is always a rating name the v3 scale reads back.
   */
  function SeverityOf(m: ImpactMetrics): (r: string)
    ensures Severity.FromStr(r).Success?
    ensures |AsSeq(m.baseMetricV3)| > 0 ==> r == AsSeq(m.baseMetricV3)[0].cvssV3.baseSeverity.AsStr()
    ensures |AsSeq(m.baseMetricV3)| == 0 && |AsSeq(m.baseMetricV2)| > 0 ==> r == AsSeq(m.baseMetricV2)[0].severity.AsStr()
    ensures |AsSeq(m.baseMetricV3)| == 0 && |AsSeq(m.baseMetricV2)| == 0 ==> r == "None"
  {
    match Inner(m.baseMetricV3)
    case Some(v3) => v3.cvssV3.baseSeverity.AsStr()
    case None =>
      match Inner(m.baseMetricV2)
      case Some(v2) => v2.severity.AsStr()
      case None => "None"
  }

  /** The v3.1 metrics do not affect the severity, whatever they hold. */
  lemma SeverityIgnoresV31(m: ImpactMetrics, v31: OneOrMany<ImpactMetricV3>)
    ensures SeverityOf(m.(baseMetricV31 := v31)) == SeverityOf(m)
  {
  }

  /** A record with no metrics is rated "None". */
  lemma DefaultSeverity()
    ensures SeverityOf(DefaultImpact) == "None"
  {
  }
}
