/**
 * The CVSS v2 record: the positional vector parser, its Display and the
 * `ImpactMetricV2` record built from a parsed vector.
 */
module CvssV2 {
  import W = Wrappers
  import opened Text
  import opened CvssCommon
  import CvssVersion
  import SeverityV2
  import AV = V2AccessVector
  import AC = V2AccessComplexity
  import AU = V2Authentication
  import IM = V2Impact

  /**
   * A CVSS v2 record. Unlike v3, `vectorString` is the text it was parsed
   * from, kept as given. The base score is in tenths.
   */
  datatype Cvss = Cvss(version: CvssVersion.Version, vectorString: string, accessVector: AV.AccessVector,
                       accessComplexity: AC.AccessComplexity, authentication: AU.Authentication,
                       confidentialityImpact: IM.ImpactType, integrityImpact: IM.ImpactType,
                       availabilityImpact: IM.ImpactType, baseScore: int)

  /** The six `KEY:letter` fields of Display, in the order AV, AC, Au, C, I, A. */
  function Fields(c: Cvss): (r: seq<string>)
    ensures |r| == 6
    ensures forall i :: 0 <= i < |r| ==> '/' !in r[i]
  {
    var r := [c.accessVector.ToString(), c.accessComplexity.ToString(), c.authentication.ToString(),
              IM.ToString(IM.Confidentiality, c.confidentialityImpact),
              IM.ToString(IM.Integrity, c.integrityImpact),
              IM.ToString(IM.Availability, c.availabilityImpact)];
    assert '/' !in r[0] && '/' !in r[1] && '/' !in r[2] && '/' !in r[3] && '/' !in r[4] && '/' !in r[5];
    r
  }

  /** Display: "CVSS:", the version, then the six fields joined by '/'. */
  function ToString(c: Cvss): string {
    "CVSS:" + c.version.ToString() + "/" + Join(Fields(c), '/')
  }

  /**
   * What goes wrong at position `i` of the positional parse, if anything: the
   * field is missing (`err`), or the parser for that position rejects it.
   */
  function FieldError(parts: seq<string>, i: nat, err: CvssError): W.Option<CvssError> {
    if i >= |parts| then W.Some(err)
    else if i == 0 then ErrorOf(AV.FromStr(parts[0]))
    else if i == 1 then ErrorOf(AC.FromStr(parts[1]))
    else if i == 2 then ErrorOf(AU.FromStr(parts[2]))
    else if i == 3 then ErrorOf(IM.FromStr(IM.Confidentiality, parts[3]))
    else if i == 4 then ErrorOf(IM.FromStr(IM.Integrity, parts[4]))
    else if i == 5 then ErrorOf(IM.FromStr(IM.Availability, parts[5]))
    else W.None
  }

  /** No position before `k` goes wrong. */
  predicate OkBefore(parts: seq<string>, err: CvssError, k: nat) {
    (k > 0 ==> FieldError(parts, 0, err).None?) && (k > 1 ==> FieldError(parts, 1, err).None?)
    && (k > 2 ==> FieldError(parts, 2, err).None?) && (k > 3 ==> FieldError(parts, 3, err).None?)
    && (k > 4 ==> FieldError(parts, 4, err).None?) && (k > 5 ==> FieldError(parts, 5, err).None?)
  }

  /** The six metrics, in field order. */
  datatype Metrics = Metrics(accessVector: AV.AccessVector, accessComplexity: AC.AccessComplexity,
                             authentication: AU.Authentication, confidentialityImpact: IM.ImpactType,
                             integrityImpact: IM.ImpactType, availabilityImpact: IM.ImpactType)

  /**
   * The metrics of a vector body, read positionally: AV, AC, Au, C, I, A, each
   * by its own parser; the first missing field or failing parse is the error.
   * Extra fields are ignored.
   */
  function ParseFields(parts: seq<string>, err: CvssError): (r: W.Result<Metrics, CvssError>)
    ensures r.Success? <==> OkBefore(parts, err, 6)
    ensures OkBefore(parts, err, 0) && FieldError(parts, 0, err).Some? ==> r == W.Failure(FieldError(parts, 0, err).value)
    ensures OkBefore(parts, err, 1) && FieldError(parts, 1, err).Some? ==> r == W.Failure(FieldError(parts, 1, err).value)
    ensures OkBefore(parts, err, 2) && FieldError(parts, 2, err).Some? ==> r == W.Failure(FieldError(parts, 2, err).value)
    ensures OkBefore(parts, err, 3) && FieldError(parts, 3, err).Some? ==> r == W.Failure(FieldError(parts, 3, err).value)
    ensures OkBefore(parts, err, 4) && FieldError(parts, 4, err).Some? ==> r == W.Failure(FieldError(parts, 4, err).value)
    ensures OkBefore(parts, err, 5) && FieldError(parts, 5, err).Some? ==> r == W.Failure(FieldError(parts, 5, err).value)
    ensures r.Success? ==>
              |parts| >= 6
              && W.Success(r.value.accessVector) == AV.FromStr(parts[0])
              && W.Success(r.value.accessComplexity) == AC.FromStr(parts[1])
              && W.Success(r.value.authentication) == AU.FromStr(parts[2])
              && W.Success(r.value.confidentialityImpact) == IM.FromStr(IM.Confidentiality, parts[3])
              && W.Success(r.value.integrityImpact) == IM.FromStr(IM.Integrity, parts[4])
              && W.Success(r.value.availabilityImpact) == IM.FromStr(IM.Availability, parts[5])
  {
    var e0 := FieldError(parts, 0, err);
    if e0.Some? then W.Failure(e0.value) else
    var av := AV.FromStr(parts[0]).value;
    var e1 := FieldError(parts, 1, err);
    if e1.Some? then W.Failure(e1.value) else
    var ac := AC.FromStr(parts[1]).value;
    var e2 := FieldError(parts, 2, err);
    if e2.Some? then W.Failure(e2.value) else
    var au := AU.FromStr(parts[2]).value;
    var e3 := FieldError(parts, 3, err);
    if e3.Some? then W.Failure(e3.value) else
    var c := IM.FromStr(IM.Confidentiality, parts[3]).value;
    var e4 := FieldError(parts, 4, err);
    if e4.Some? then W.Failure(e4.value) else
    var i := IM.FromStr(IM.Integrity, parts[4]).value;
    var e5 := FieldError(parts, 5, err);
    if e5.Some? then W.Failure(e5.value) else
    var a := IM.FromStr(IM.Availability, parts[5]).value;
    W.Success(Metrics(av, ac, au, c, i, a))
  }

  /** The metrics a record carries. */
  function MetricsOf(c: Cvss): Metrics {
    Metrics(c.accessVector, c.accessComplexity, c.authentication, c.confidentialityImpact, c.integrityImpact,
            c.availabilityImpact)
  }

  /** Parsing the fields Display writes gives back the metrics. */
  lemma ParseFieldsOfFields(c: Cvss, err: CvssError)
    ensures ParseFields(Fields(c), err) == W.Success(MetricsOf(c))
  {
    var f := Fields(c);
    FieldOfFields(c, err, 0);
    FieldOfFields(c, err, 1);
    FieldOfFields(c, err, 2);
    FieldOfFields(c, err, 3);
    FieldOfFields(c, err, 4);
    FieldOfFields(c, err, 5);
    assert OkBefore(f, err, 6);
    AV.FromStrToString(c.accessVector);
    AC.FromStrToString(c.accessComplexity);
    AU.FromStrToString(c.authentication);
    IM.FromStrToString(IM.Confidentiality, c.confidentialityImpact);
    IM.FromStrToString(IM.Integrity, c.integrityImpact);
    IM.FromStrToString(IM.Availability, c.availabilityImpact);
  }

  /** Each field Display writes parses at its own position. */
  lemma FieldOfFields(c: Cvss, err: CvssError, i: nat)
    requires i < 6
    ensures FieldError(Fields(c), i, err).None?
  {
    var f := Fields(c);
    if i == 0 {
      assert f[0] == c.accessVector.ToString();
      AV.FromStrToString(c.accessVector);
      FieldOk(f, 0, err);
    } else if i == 1 {
      assert f[1] == c.accessComplexity.ToString();
      AC.FromStrToString(c.accessComplexity);
      FieldOk(f, 1, err);
    } else if i == 2 {
      assert f[2] == c.authentication.ToString();
      AU.FromStrToString(c.authentication);
      FieldOk(f, 2, err);
    } else if i == 3 {
      assert f[3] == IM.ToString(IM.Confidentiality, c.confidentialityImpact);
      IM.FromStrToString(IM.Confidentiality, c.confidentialityImpact);
      FieldOk(f, 3, err);
    } else if i == 4 {
      assert f[4] == IM.ToString(IM.Integrity, c.integrityImpact);
      IM.FromStrToString(IM.Integrity, c.integrityImpact);
      FieldOk(f, 4, err);
    } else {
      assert f[5] == IM.ToString(IM.Availability, c.availabilityImpact);
      IM.FromStrToString(IM.Availability, c.availabilityImpact);
      FieldOk(f, 5, err);
    }
  }

  /** A position whose parser succeeds reports no error. */
  lemma FieldOk(parts: seq<string>, i: nat, err: CvssError)
    requires i < 6 <= |parts|
    requires i == 0 ==> AV.FromStr(parts[0]).Success?
    requires i == 1 ==> AC.FromStr(parts[1]).Success?
    requires i == 2 ==> AU.FromStr(parts[2]).Success?
    requires i == 3 ==> IM.FromStr(IM.Confidentiality, parts[3]).Success?
    requires i == 4 ==> IM.FromStr(IM.Integrity, parts[4]).Success?
    requires i == 5 ==> IM.FromStr(IM.Availability, parts[5]).Success?
    ensures FieldError(parts, i, err).None?
  {
  }

  /**
   * `from_str`: split at the first '/', read the version tag (any recognised
   * one passes, not only 2.0), then read the body's '/'-separated fields
   * positionally. A missing field is InvalidCVSS keyed "CVSS:2.0" carrying the
   * whole input. The record keeps the input as its `vector_string`; its base
   * score is what the (floating-point) formula gives for the record as parsed,
   * with score 0.
   */
  function FromStr(s: string, baseScore: Cvss -> int): (r: W.Result<Cvss, CvssError>)
    ensures SplitOnce(s, "/").None? ==> r == W.Failure(InvalidPrefix(s))
    ensures SplitOnce(s, "/").Some? && CvssVersion.FromStr(SplitOnce(s, "/").value.0) == CvssVersion.None ==>
              r == W.Failure(InvalidCvssVersion("NONE", "2.0"))
    ensures SplitOnce(s, "/").Some? && CvssVersion.FromStr(SplitOnce(s, "/").value.0) != CvssVersion.None ==>
              var fields := ParseFields(Split(SplitOnce(s, "/").value.1, '/'), InvalidCvss("CVSS:2.0", s, ""));
              (fields.Failure? ==> r == W.Failure(fields.error))
              && (fields.Success? ==> r.Success? && r.value.version == CvssVersion.FromStr(SplitOnce(s, "/").value.0)
                                      && MetricsOf(r.value) == fields.value)
    ensures r.Success? ==> r.value.vectorString == s
    ensures r.Success? ==> r.value.baseScore == baseScore(r.value.(baseScore := 0))
  {
    match SplitOnce(s, "/")
    case None => W.Failure(InvalidPrefix(s))
    case Some((v, vectors)) =>
      var version := CvssVersion.FromStr(v);
      if version == CvssVersion.None then W.Failure(InvalidCvssVersion(version.ToString(), "2.0"))
      else
        var m :- ParseFields(Split(vectors, '/'), InvalidCvss("CVSS:2.0", s, ""));
        var c := Cvss(version, s, m.accessVector, m.accessComplexity, m.authentication,
                      m.confidentialityImpact, m.integrityImpact, m.availabilityImpact, 0);
        W.Success(c.(baseScore := baseScore(c)))
  }

  /**
   * Printing then parsing gives back the version and every metric; the parsed
   * record's `vector_string` is the printed text.
   */
  lemma FromStrToString(c: Cvss, baseScore: Cvss -> int)
    requires c.version != CvssVersion.None
    ensures FromStr(ToString(c), baseScore).Success?
    ensures var p := FromStr(ToString(c), baseScore).value;
            p.version == c.version && MetricsOf(p) == MetricsOf(c) && p.vectorString == ToString(c)
  {
    var tag := "CVSS:" + c.version.ToString();
    var body := Join(Fields(c), '/');
    assert ToString(c) == tag + ['/'] + body;
    assert '/' !in tag;
    SplitOnceCharJoin(tag, '/', body);
    CvssVersion.FromStrToString(c.version);
    SplitJoin(Fields(c), '/');
    ParseFieldsOfFields(c, InvalidCvss("CVSS:2.0", ToString(c), ""));
  }

  /**
   * The framing does not insist on 2.0: a v2 body behind a "CVSS:3.1" tag
   * parses, and the record carries version 3.1.
   */
  lemma AnyVersionAccepted(c: Cvss, baseScore: Cvss -> int)
    requires c.version == CvssVersion.V3_1
    ensures FromStr(ToString(c), baseScore).Success?
    ensures FromStr(ToString(c), baseScore).value.version == CvssVersion.V3_1
  {
    FromStrToString(c, baseScore);
  }

  /** `MetricLevelType`: whether the metric comes from the primary source. */
  datatype MetricLevelType = Primary | Secondary

  /** The default level is Primary. */
  const DefaultLevel: MetricLevelType := Primary

  /** An NVD v2 impact metric: the vector, its sub-scores, the rating and NVD's flags. */
  datatype ImpactMetricV2 = ImpactMetricV2(source: W.Option<string>, levelType: MetricLevelType, cvssV2: Cvss,
                                           exploitabilityScore: int, impactScore: int,
                                           severity: SeverityV2.SeverityTypeV2, acInsufInfo: W.Option<bool>,
                                           obtainAllPrivilege: bool, obtainUserPrivilege: bool,
                                           obtainOtherPrivilege: bool, userInteractionRequired: W.Option<bool>)

  /**
   * `ImpactMetricV2::from_str`: parse the vector, take its two sub-scores and
   * rate its base score; no source, the default level, every privilege flag
   * false and both optional flags absent. A vector error is passed on unchanged.
   */
  function ImpactMetricFromStr(s: string, baseScore: Cvss -> int, exploitabilityScore: Cvss -> int,
                               impactScore: Cvss -> int): (r: W.Result<ImpactMetricV2, CvssError>)
    ensures r.Success? <==> FromStr(s, baseScore).Success?
    ensures r.Failure? ==> r.error == FromStr(s, baseScore).error
    ensures r.Success? ==>
              var c := FromStr(s, baseScore).value;
              r.value.cvssV2 == c && r.value.severity == SeverityV2.FromTenths(c.baseScore)
              && r.value.exploitabilityScore == exploitabilityScore(c) && r.value.impactScore == impactScore(c)
    ensures r.Success? ==>
              r.value.source.None? && r.value.levelType == Primary && r.value.acInsufInfo.None?
              && !r.value.obtainAllPrivilege && !r.value.obtainUserPrivilege && !r.value.obtainOtherPrivilege
              && r.value.userInteractionRequired.None?
  {
    match FromStr(s, baseScore)
    case Success(c) =>
      W.Success(ImpactMetricV2(W.None, DefaultLevel, c, exploitabilityScore(c), impactScore(c),
                               SeverityV2.FromTenths(c.baseScore), W.None, false, false, false, W.None))
    case Failure(e) => W.Failure(e)
  }
}
