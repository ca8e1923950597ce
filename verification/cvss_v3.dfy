/**
 * The CVSS v3.x record: the positional vector parser, its Display, the builder,
 * the ceiling roundup of Appendix A of the CVSS v3.1 specification and the
 * zero-impact guard of the base score.
 */
module CvssV3 {
  import W = Wrappers
  import opened Text
  import opened CvssCommon
  import CvssVersion
  import Severity
  import AV = V3AttackVector
  import AC = V3AttackComplexity
  import PR = V3PrivilegesRequired
  import UI = V3UserInteraction
  import S = V3Scope
  import IM = V3Impact

  /** The four exploitability metrics. */
  datatype ExploitAbility = ExploitAbility(attackVector: AV.AttackVector, attackComplexity: AC.AttackComplexity,
                                           privilegesRequired: PR.PrivilegesRequired,
                                           userInteraction: UI.UserInteraction)

  /** A CVSS v3 record; the base score is in tenths. */
  datatype Cvss = Cvss(version: CvssVersion.Version, vectorString: string, exploitAbility: ExploitAbility,
                       scope: S.Scope, impact: IM.Impact, baseScore: int, baseSeverity: Severity.SeverityType)

  /** The eight `KEY:letter` fields of Display, in the order AV, AC, PR, UI, S, C, I, A. */
  function Fields(c: Cvss): (r: seq<string>)
    ensures |r| == 8
    ensures forall i :: 0 <= i < |r| ==> '/' !in r[i]
  {
    var ea := c.exploitAbility;
    var r := [ea.attackVector.ToString(), ea.attackComplexity.ToString(), ea.privilegesRequired.ToString(),
              ea.userInteraction.ToString(), c.scope.ToString(),
              IM.ToString(IM.Confidentiality, c.impact.confidentiality),
              IM.ToString(IM.Integrity, c.impact.integrity),
              IM.ToString(IM.Availability, c.impact.availability)];
    assert '/' !in r[0] && '/' !in r[1] && '/' !in r[2] && '/' !in r[3];
    assert '/' !in r[4] && '/' !in r[5] && '/' !in r[6] && '/' !in r[7];
    r
  }

  /** Display: "CVSS:", the version, then the eight fields joined by '/'. */
  function ToString(c: Cvss): string {
    "CVSS:" + c.version.ToString() + "/" + Join(Fields(c), '/')
  }

  /**
   * What goes wrong at position `i` of the positional parse, if anything: the
   * field is missing (`err`), or the parser for that position rejects it.
   */
  function FieldError(parts: seq<string>, i: nat, err: CvssError): W.Option<CvssError> {
    if i >= |parts| then W.Some(err)
    else if i == 0 then ErrorOf(AV.FromStr(parts[0]))
    else if i == 1 then ErrorOf(AC.FromStr(parts[1]))
    else if i == 2 then ErrorOf(PR.FromStr(parts[2]))
    else if i == 3 then ErrorOf(UI.FromStr(parts[3]))
    else if i == 4 then ErrorOf(S.FromStr(parts[4]))
    else if i == 5 then ErrorOf(IM.FromStr(IM.Confidentiality, parts[5]))
    else if i == 6 then ErrorOf(IM.FromStr(IM.Integrity, parts[6]))
    else if i == 7 then ErrorOf(IM.FromStr(IM.Availability, parts[7]))
    else W.None
  }

  /** No position before `k` goes wrong. */
  predicate OkBefore(parts: seq<string>, err: CvssError, k: nat) {
    (k > 0 ==> FieldError(parts, 0, err).None?) && (k > 1 ==> FieldError(parts, 1, err).None?)
    && (k > 2 ==> FieldError(parts, 2, err).None?) && (k > 3 ==> FieldError(parts, 3, err).None?)
    && (k > 4 ==> FieldError(parts, 4, err).None?) && (k > 5 ==> FieldError(parts, 5, err).None?)
    && (k > 6 ==> FieldError(parts, 6, err).None?) && (k > 7 ==> FieldError(parts, 7, err).None?)
  }

  /**
   * The metrics of a vector body, read positionally: the fields in order are
   * AV, AC, PR, UI, S, C, I, A, each parsed by its own keyed parser, and the
   * first missing field or failing parse is the error. Extra fields are ignored.
   */
  function ParseFields(parts: seq<string>, err: CvssError): (r: W.Result<(ExploitAbility, S.Scope, IM.Impact), CvssError>)
    ensures r.Success? <==> OkBefore(parts, err, 8)
    ensures OkBefore(parts, err, 0) && FieldError(parts, 0, err).Some? ==> r == W.Failure(FieldError(parts, 0, err).value)
    ensures OkBefore(parts, err, 1) && FieldError(parts, 1, err).Some? ==> r == W.Failure(FieldError(parts, 1, err).value)
    ensures OkBefore(parts, err, 2) && FieldError(parts, 2, err).Some? ==> r == W.Failure(FieldError(parts, 2, err).value)
    ensures OkBefore(parts, err, 3) && FieldError(parts, 3, err).Some? ==> r == W.Failure(FieldError(parts, 3, err).value)
    ensures OkBefore(parts, err, 4) && FieldError(parts, 4, err).Some? ==> r == W.Failure(FieldError(parts, 4, err).value)
    ensures OkBefore(parts, err, 5) && FieldError(parts, 5, err).Some? ==> r == W.Failure(FieldError(parts, 5, err).value)
    ensures OkBefore(parts, err, 6) && FieldError(parts, 6, err).Some? ==> r == W.Failure(FieldError(parts, 6, err).value)
    ensures OkBefore(parts, err, 7) && FieldError(parts, 7, err).Some? ==> r == W.Failure(FieldError(parts, 7, err).value)
    ensures r.Success? ==>
              |parts| >= 8
              && W.Success(r.value.0.attackVector) == AV.FromStr(parts[0])
              && W.Success(r.value.0.attackComplexity) == AC.FromStr(parts[1])
              && W.Success(r.value.0.privilegesRequired) == PR.FromStr(parts[2])
              && W.Success(r.value.0.userInteraction) == UI.FromStr(parts[3])
              && W.Success(r.value.1) == S.FromStr(parts[4])
              && W.Success(r.value.2.confidentiality) == IM.FromStr(IM.Confidentiality, parts[5])
              && W.Success(r.value.2.integrity) == IM.FromStr(IM.Integrity, parts[6])
              && W.Success(r.value.2.availability) == IM.FromStr(IM.Availability, parts[7])
  {
    var e0 := FieldError(parts, 0, err);
    if e0.Some? then W.Failure(e0.value) else
    var av := AV.FromStr(parts[0]).value;
    var e1 := FieldError(parts, 1, err);
    if e1.Some? then W.Failure(e1.value) else
    var ac := AC.FromStr(parts[1]).value;
    var e2 := FieldError(parts, 2, err);
    if e2.Some? then W.Failure(e2.value) else
    var pr := PR.FromStr(parts[2]).value;
    var e3 := FieldError(parts, 3, err);
    if e3.Some? then W.Failure(e3.value) else
    var ui := UI.FromStr(parts[3]).value;
    var e4 := FieldError(parts, 4, err);
    if e4.Some? then W.Failure(e4.value) else
    var scope := S.FromStr(parts[4]).value;
    var e5 := FieldError(parts, 5, err);
    if e5.Some? then W.Failure(e5.value) else
    var c := IM.FromStr(IM.Confidentiality, parts[5]).value;
    var e6 := FieldError(parts, 6, err);
    if e6.Some? then W.Failure(e6.value) else
    var i := IM.FromStr(IM.Integrity, parts[6]).value;
    var e7 := FieldError(parts, 7, err);
    if e7.Some? then W.Failure(e7.value) else
    var a := IM.FromStr(IM.Availability, parts[7]).value;
    W.Success((ExploitAbility(av, ac, pr, ui), scope, IM.Impact(c, i, a)))
  }

  /** Parsing the fields Display writes gives back the metrics. */
  lemma ParseFieldsOfFields(c: Cvss, err: CvssError)
    ensures ParseFields(Fields(c), err) == W.Success((c.exploitAbility, c.scope, c.impact))
  {
    var f := Fields(c);
    FieldOfFields(c, err, 0);
    FieldOfFields(c, err, 1);
    FieldOfFields(c, err, 2);
    FieldOfFields(c, err, 3);
    FieldOfFields(c, err, 4);
    FieldOfFields(c, err, 5);
    FieldOfFields(c, err, 6);
    FieldOfFields(c, err, 7);
    assert OkBefore(f, err, 8);
    AV.FromStrToString(c.exploitAbility.attackVector);
    AC.FromStrToString(c.exploitAbility.attackComplexity);
    PR.FromStrToString(c.exploitAbility.privilegesRequired);
    UI.FromStrToString(c.exploitAbility.userInteraction);
    S.FromStrToString(c.scope);
    IM.FromStrToString(IM.Confidentiality, c.impact.confidentiality);
    IM.FromStrToString(IM.Integrity, c.impact.integrity);
    IM.FromStrToString(IM.Availability, c.impact.availability);
  }

  /** Each field Display writes parses at its own position. */
  lemma FieldOfFields(c: Cvss, err: CvssError, i: nat)
    requires i < 8
    ensures FieldError(Fields(c), i, err).None?
  {
    var ea := c.exploitAbility;
    var f := Fields(c);
    if i == 0 {
      assert f[0] == ea.attackVector.ToString();
      AV.FromStrToString(ea.attackVector);
      FieldOk(f, 0, err);
    } else if i == 1 {
      assert f[1] == ea.attackComplexity.ToString();
      AC.FromStrToString(ea.attackComplexity);
      FieldOk(f, 1, err);
    } else if i == 2 {
      assert f[2] == ea.privilegesRequired.ToString();
      PR.FromStrToString(ea.privilegesRequired);
      FieldOk(f, 2, err);
    } else if i == 3 {
      assert f[3] == ea.userInteraction.ToString();
      UI.FromStrToString(ea.userInteraction);
      FieldOk(f, 3, err);
    } else if i == 4 {
      assert f[4] == c.scope.ToString();
      S.FromStrToString(c.scope);
      FieldOk(f, 4, err);
    } else if i == 5 {
      assert f[5] == IM.ToString(IM.Confidentiality, c.impact.confidentiality);
      IM.FromStrToString(IM.Confidentiality, c.impact.confidentiality);
      FieldOk(f, 5, err);
    } else if i == 6 {
      assert f[6] == IM.ToString(IM.Integrity, c.impact.integrity);
      IM.FromStrToString(IM.Integrity, c.impact.integrity);
      FieldOk(f, 6, err);
    } else {
      assert f[7] == IM.ToString(IM.Availability, c.impact.availability);
      IM.FromStrToString(IM.Availability, c.impact.availability);
      FieldOk(f, 7, err);
    }
  }

  /** A position whose parser succeeds reports no error. */
  lemma FieldOk(parts: seq<string>, i: nat, err: CvssError)
    requires i < 8 <= |parts|
    requires i == 0 ==> AV.FromStr(parts[0]).Success?
    requires i == 1 ==> AC.FromStr(parts[1]).Success?
    requires i == 2 ==> PR.FromStr(parts[2]).Success?
    requires i == 3 ==> UI.FromStr(parts[3]).Success?
    requires i == 4 ==> S.FromStr(parts[4]).Success?
    requires i == 5 ==> IM.FromStr(IM.Confidentiality, parts[5]).Success?
    requires i == 6 ==> IM.FromStr(IM.Integrity, parts[6]).Success?
    requires i == 7 ==> IM.FromStr(IM.Availability, parts[7]).Success?
    ensures FieldError(parts, i, err).None?
  {
  }

  /**
   * Appendix A "Roundup", in tenths, given the input's hundred-thousandths
   * truncated toward zero: the least tenth that is not below the input.
   */
  function Roundup(hundredThousandths: int): (r: nat)
    ensures var n := SaturateU32(hundredThousandths); n <= 10000 * r && 10000 * (r - 1) < n
  {
    var n := SaturateU32(hundredThousandths);
    if n % 10000 == 0 then n / 10000 else n / 10000 + 1
  }

  /** The roundup unit tests: 4.00 -> 4.0, 4.02 -> 4.1, 0.8619848 -> 0.9, 0.9006104 -> 1.0. */
  lemma RoundupExamples()
    ensures Roundup(400000) == 40 && Roundup(402000) == 41
    ensures Roundup(86198) == 9 && Roundup(90061) == 10
  {
  }

  /** A larger input never rounds lower. */
  lemma RoundupMonotone(a: int, b: int)
    requires a <= b
    ensures Roundup(a) <= Roundup(b)
  {
  }

  /** `f32::min`. */
  function Min(a: int, b: int): int {
    if a <= b then a else b
  }

  /**
   * `base_score` in tenths, from the impact and exploitability sub-scores in
   * hundred-thousandths: 0 when the impact is not positive, otherwise the
   * roundup of their sum (times 1.08 when the scope changed) capped at 10.0.
   */
  function BaseScore(scopeChanged: bool, impact: int, exploitability: int): (r: nat)
    ensures impact <= 0 ==> r == 0
    ensures r <= 100
    ensures impact > 0 && !scopeChanged ==>
              var n := SaturateU32(Min(impact + exploitability, 1_000_000)); n <= 10000 * r && 10000 * (r - 1) < n
    ensures impact > 0 && scopeChanged ==>
              var n := SaturateU32(Min(108 * (impact + exploitability) / 100, 1_000_000)); n <= 10000 * r && 10000 * (r - 1) < n
  {
    if impact <= 0 then 0
    else if !scopeChanged then Roundup(Min(impact + exploitability, 1_000_000))
    else Roundup(Min(108 * (impact + exploitability) / 100, 1_000_000))
  }

  /** A record's score and severity, from sub-scores the floating-point formulas would give. */
  function Scored(c: Cvss, impactScore: Cvss -> int, exploitabilityScore: Cvss -> int): (r: Cvss)
    ensures r == c.(baseScore := r.baseScore, baseSeverity := r.baseSeverity)
    ensures r.baseScore == BaseScore(c.scope.IsChanged(), impactScore(c), exploitabilityScore(c))
    ensures r.baseSeverity == Severity.FromTenths(r.baseScore)
    ensures impactScore(c) <= 0 ==> r.baseScore == 0 && r.baseSeverity == Severity.None
  {
    var score := BaseScore(c.scope.IsChanged(), impactScore(c), exploitabilityScore(c));
    c.(baseScore := score, baseSeverity := Severity.FromTenths(score))
  }

  /**
   * `from_str`: split at the first '/', read the version tag (any recognised
   * one passes), then read the body's '/'-separated fields positionally. A
   * missing field is InvalidCVSS keyed "CVSS:3.1" and carrying the whole input.
   * The record's `vector_string` is its own Display.
   */
  function FromStr(s: string, impactScore: Cvss -> int, exploitabilityScore: Cvss -> int): (r: W.Result<Cvss, CvssError>)
    ensures SplitOnce(s, "/").None? ==> r == W.Failure(InvalidPrefix(s))
    ensures SplitOnce(s, "/").Some? && CvssVersion.FromStr(SplitOnce(s, "/").value.0) == CvssVersion.None ==>
              r == W.Failure(InvalidCvssVersion("NONE", "3.0 or 3.1"))
    ensures SplitOnce(s, "/").Some? && CvssVersion.FromStr(SplitOnce(s, "/").value.0) != CvssVersion.None ==>
              var fields := ParseFields(Split(SplitOnce(s, "/").value.1, '/'), InvalidCvss("CVSS:3.1", s, ""));
              (fields.Failure? ==> r == W.Failure(fields.error))
              && (fields.Success? ==> r.Success? && r.value.version == CvssVersion.FromStr(SplitOnce(s, "/").value.0)
                                      && (r.value.exploitAbility, r.value.scope, r.value.impact) == fields.value)
    ensures r.Success? ==> r.value.vectorString == ToString(r.value)
    ensures r.Success? ==> var scoredFrom := r.value.(vectorString := s, baseScore := 0, baseSeverity := Severity.None);
              r.value.baseScore == BaseScore(r.value.scope.IsChanged(), impactScore(scoredFrom), exploitabilityScore(scoredFrom))
    ensures r.Success? ==> r.value.baseSeverity == Severity.FromTenths(r.value.baseScore)
  {
    match SplitOnce(s, "/")
    case None => W.Failure(InvalidPrefix(s))
    case Some((v, vectors)) =>
      var version := CvssVersion.FromStr(v);
      if version == CvssVersion.None then W.Failure(InvalidCvssVersion(version.ToString(), "3.0 or 3.1"))
      else
        var fields :- ParseFields(Split(vectors, '/'), InvalidCvss("CVSS:3.1", s, ""));
        var c := Scored(Cvss(version, s, fields.0, fields.1, fields.2, 0, Severity.None), impactScore, exploitabilityScore);
        W.Success(c.(vectorString := ToString(c)))
  }

  /**
   * Printing then parsing gives back the version and every metric, and the
   * parsed record's `vector_string` is the printed text itself.
   */
  lemma FromStrToString(c: Cvss, impactScore: Cvss -> int, exploitabilityScore: Cvss -> int)
    requires c.version != CvssVersion.None
    ensures FromStr(ToString(c), impactScore, exploitabilityScore).Success?
    ensures var p := FromStr(ToString(c), impactScore, exploitabilityScore).value;
            p.version == c.version && p.exploitAbility == c.exploitAbility && p.scope == c.scope
            && p.impact == c.impact && p.vectorString == ToString(c)
  {
    var tag := "CVSS:" + c.version.ToString();
    var body := Join(Fields(c), '/');
    assert ToString(c) == tag + ['/'] + body;
    assert '/' !in tag;
    SplitOnceCharJoin(tag, '/', body);
    CvssVersion.FromStrToString(c.version);
    SplitJoin(Fields(c), '/');
    ParseFieldsOfFields(c, InvalidCvss("CVSS:3.1", ToString(c), ""));
    var p := FromStr(ToString(c), impactScore, exploitabilityScore).value;
    assert Fields(p) == Fields(c);
  }

  /**
   * `CVSSBuilder::build`: the record of the given metrics, its `vector_string`
   * set to its own Display and its score and severity filled in.
   */
  function Build(version: CvssVersion.Version, ea: ExploitAbility, scope: S.Scope, impact: IM.Impact,
                 impactScore: Cvss -> int, exploitabilityScore: Cvss -> int): (r: Cvss)
    ensures r.version == version && r.exploitAbility == ea && r.scope == scope && r.impact == impact
    ensures r.vectorString == ToString(r)
    ensures var scoredFrom := r.(baseScore := 0, baseSeverity := Severity.None);
            r.baseScore == BaseScore(scope.IsChanged(), impactScore(scoredFrom), exploitabilityScore(scoredFrom))
    ensures r.baseSeverity == Severity.FromTenths(r.baseScore)
  {
    var c := Cvss(version, "", ea, scope, impact, 0, Severity.None);
    var withVector := c.(vectorString := ToString(c));
    Scored(withVector, impactScore, exploitabilityScore)
  }

  /** A built record with a recognised version parses back from its `vector_string` to the same record, score included. */
  lemma BuildFromStr(version: CvssVersion.Version, ea: ExploitAbility, scope: S.Scope, impact: IM.Impact,
                     impactScore: Cvss -> int, exploitabilityScore: Cvss -> int)
    requires version != CvssVersion.None
    ensures var b := Build(version, ea, scope, impact, impactScore, exploitabilityScore);
            var p := FromStr(b.vectorString, impactScore, exploitabilityScore);
            p.Success? && p.value.exploitAbility == ea && p.value.scope == scope && p.value.impact == impact
            && p.value.vectorString == b.vectorString
    ensures var b := Build(version, ea, scope, impact, impactScore, exploitabilityScore);
            FromStr(b.vectorString, impactScore, exploitabilityScore) == W.Success(b)
  {
    var b := Build(version, ea, scope, impact, impactScore, exploitabilityScore);
    FromStrToString(b, impactScore, exploitabilityScore);
  }
}
