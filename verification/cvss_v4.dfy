/**
 * The CVSS v4.0 record: the keyed vector parser, its Display, the MacroVector
 * equivalences EQ1, EQ2 and EQ6 (EQ3 lives with the vulnerable-system metrics),
 * the all-None guard of the base score and the half-up roundup.
 */
module CvssV4 {
  import W = Wrappers
  import opened Text
  import opened CvssCommon
  import CvssVersion
  import Severity
  import AV = V4AttackVector
  import AC = V4AttackComplexity
  import AT = V4AttackRequirements
  import PR = V4PrivilegesRequired
  import UI = V4UserInteraction
  import VI = V4VulnerableImpact
  import SI = V4SubsequentImpact
  import EM = V4ExploitMaturity
  import ENV = V4Environmental

  /** The five exploitability metrics. */
  datatype ExploitAbility = ExploitAbility(attackVector: AV.AttackVector, attackComplexity: AC.AttackComplexity,
                                           attackRequirements: AT.AttackRequirements,
                                           privilegesRequired: PR.PrivilegesRequired,
                                           userInteraction: UI.UserInteraction)
  {
    /** AV:N, PR:N and UI:N all hold. */
    predicate AllNetworkNone() {
      attackVector.IsNetwork() && privilegesRequired.IsNone() && userInteraction.IsNone()
    }

    /** At least one of AV:N, PR:N and UI:N holds. */
    predicate AnyNetworkNone() {
      attackVector.IsNetwork() || privilegesRequired.IsNone() || userInteraction.IsNone()
    }
  }

  /**
   * EQ1. The source tests three conditions in turn and falls back to None,
   * but the fallback is never reached: 0 exactly for AV:N/PR:N/UI:N, 2 for
   * AV:P or when none of the three is N, and 1 for everything else.
   */
  function Eq1(e: ExploitAbility): (r: W.Option<nat>)
    ensures r.Some? && r.value <= 2
    ensures r == W.Some(0) <==> e.AllNetworkNone()
    ensures r == W.Some(2) <==> e.attackVector.IsPhysical() || !e.AnyNetworkNone()
  {
    if e.AllNetworkNone() then W.Some(0)
    else if e.AnyNetworkNone() && !e.AllNetworkNone() && !e.attackVector.IsPhysical() then W.Some(1)
    else if e.attackVector.IsPhysical() || !e.AnyNetworkNone() then W.Some(2)
    else W.None
  }

  /** EQ2: 0 exactly for AC:L with AT:N, 1 otherwise; never None. */
  function Eq2(e: ExploitAbility): (r: W.Option<nat>)
    ensures r == W.Some(0) <==> e.attackComplexity.IsLow() && e.attackRequirements.IsNone()
    ensures r == W.Some(1) <==> !(e.attackComplexity.IsLow() && e.attackRequirements.IsNone())
  {
    if e.attackComplexity.IsLow() && e.attackRequirements.IsNone() then W.Some(0)
    else if !(e.attackComplexity.IsLow() && e.attackRequirements.IsNone()) then W.Some(1)
    else W.None
  }

  /** The three examples listed next to EQ1 level 1 in the source fall in level 1. */
  lemma Eq1LevelOneExamples(ac: AC.AttackComplexity, at: AT.AttackRequirements)
    ensures Eq1(ExploitAbility(AV.Adjacent, ac, at, PR.None, UI.None)) == W.Some(1)
    ensures Eq1(ExploitAbility(AV.Network, ac, at, PR.Low, UI.None)) == W.Some(1)
    ensures Eq1(ExploitAbility(AV.Network, ac, at, PR.None, UI.Passive)) == W.Some(1)
    ensures Eq1(ExploitAbility(AV.Physical, ac, at, PR.None, UI.None)) == W.Some(2)
    ensures Eq1(ExploitAbility(AV.Adjacent, ac, at, PR.Low, UI.Passive)) == W.Some(2)
  {
  }

  /** Some requirement is High together with the matching vulnerable-system impact. */
  predicate HighPair(v: VI.VulnerableImpact, e: ENV.Environmental) {
    (e.confidentiality.IsHigh() && v.confidentiality.IsHigh())
    || (e.integrity.IsHigh() && v.integrity.IsHigh())
    || (e.availability.IsHigh() && v.availability.IsHigh())
  }

  /**
   * EQ6 as the source writes it: its second test checks VC:H without CR:H,
   * so VC:H with a requirement other than High falls through to None.
   */
  function Eq6AsWritten(v: VI.VulnerableImpact, e: ENV.Environmental): (r: W.Option<nat>)
    ensures r == W.Some(0) <==> HighPair(v, e)
    ensures r == W.None <==> !HighPair(v, e) && v.confidentiality.IsHigh()
    ensures r == W.Some(1) <==> !HighPair(v, e) && !v.confidentiality.IsHigh()
  {
    if HighPair(v, e) then W.Some(0)
    else if !(v.confidentiality.IsHigh()
              || (e.integrity.IsHigh() && v.integrity.IsHigh())
              || (e.availability.IsHigh() && v.availability.IsHigh())) then W.Some(1)
    else W.None
  }

  /** EQ6 as its comment defines it: 0 when some (requirement, impact) pair is High/High, else 1. */
  function Eq6(v: VI.VulnerableImpact, e: ENV.Environmental): (r: W.Option<nat>)
    ensures r == W.Some(0) <==> HighPair(v, e)
    ensures r == W.Some(1) <==> !HighPair(v, e)
  {
    if HighPair(v, e) then W.Some(0) else W.Some(1)
  }

  /** The two EQ6s agree except where the written one gives None. */
  lemma Eq6Agreement(v: VI.VulnerableImpact, e: ENV.Environmental)
    ensures Eq6AsWritten(v, e).Some? ==> Eq6AsWritten(v, e) == Eq6(v, e)
    ensures Eq6AsWritten(v, e).None? <==> Eq6(v, e) == W.Some(1) && v.confidentiality.IsHigh()
  {
  }

  /** The six MacroVector levels EQ1..EQ6. */
  datatype MacroVector = MacroVector(eq1: nat, eq2: nat, eq3: nat, eq4: nat, eq5: nat, eq6: nat)

  /**
   * `macro_vector`: each EQ with None read as 0 (`unwrap_or_default`). EQ4 and
   * EQ5 belong to metrics whose code is not part of this model, so their
   * results come in as `eq4` and `eq5`; EQ6 is the function passed as `eq6`.
   */
  function MacroVectorWith(c: Cvss, eq4: W.Option<nat>, eq5: W.Option<nat>,
                           eq6: (VI.VulnerableImpact, ENV.Environmental) -> W.Option<nat>): (r: MacroVector)
    ensures r.eq1 == Eq1(c.exploitAbility).value && r.eq2 == Eq2(c.exploitAbility).value
    ensures r.eq3 == VI.Eq3(c.vulnerableImpact).value
    ensures r.eq4 == eq4.GetOr(0) && r.eq5 == eq5.GetOr(0)
    ensures r.eq6 == eq6(c.vulnerableImpact, c.environmental).GetOr(0)
  {
    MacroVector(Eq1(c.exploitAbility).GetOr(0), Eq2(c.exploitAbility).GetOr(0),
                VI.Eq3(c.vulnerableImpact).GetOr(0), eq4.GetOr(0), eq5.GetOr(0),
                eq6(c.vulnerableImpact, c.environmental).GetOr(0))
  }

  /** The macro vector the source computes, with its EQ6. */
  function MacroVectorAsWritten(c: Cvss, eq4: W.Option<nat>, eq5: W.Option<nat>): (r: MacroVector)
    ensures r.eq6 == 0 <==> HighPair(c.vulnerableImpact, c.environmental) || c.vulnerableImpact.confidentiality.IsHigh()
  {
    MacroVectorWith(c, eq4, eq5, Eq6AsWritten)
  }

  /** The macro vector with the corrected EQ6: level 0 exactly for a High/High pair. */
  function MacroVectorOf(c: Cvss, eq4: W.Option<nat>, eq5: W.Option<nat>): (r: MacroVector)
    ensures r.eq6 == 0 <==> HighPair(c.vulnerableImpact, c.environmental)
    ensures r.eq6 == 1 <==> !HighPair(c.vulnerableImpact, c.environmental)
    ensures r.eq1 <= 2 && r.eq2 <= 1 && r.eq3 <= 2
  {
    MacroVectorWith(c, eq4, eq5, Eq6)
  }

  /**
   * The discrepancy on a concrete record: VC:H with CR:L and no other High
   * impact puts the source's EQ6 at level 0, although no pair is High/High.
   */
  lemma Eq6AsWrittenCounterexample(c: Cvss, eq4: W.Option<nat>, eq5: W.Option<nat>)
    requires c.vulnerableImpact == VI.VulnerableImpact(VI.High, VI.None, VI.None)
    requires c.environmental.confidentiality == ENV.Low
    ensures !HighPair(c.vulnerableImpact, c.environmental)
    ensures Eq6AsWritten(c.vulnerableImpact, c.environmental) == W.None
    ensures MacroVectorAsWritten(c, eq4, eq5).eq6 == 0
    ensures MacroVectorOf(c, eq4, eq5).eq6 == 1
  {
  }

  /** A parsed CVSS v4.0 record; the base score is in tenths. */
  datatype Cvss = Cvss(version: CvssVersion.Version, vectorString: string, exploitAbility: ExploitAbility,
                       vulnerableImpact: VI.VulnerableImpact, subsequentImpact: SI.SubsequentImpact,
                       exploit: EM.ExploitMaturity, environmental: ENV.Environmental,
                       baseScore: int, baseSeverity: Severity.SeverityType)

  /** The keys Display writes, in order. */
  const Keys: seq<string> := ["AV", "AC", "AT", "PR", "UI", "VC", "VI", "VA", "SC", "SI", "SA", "CR", "IR", "AR", "E"]

  /** The fifteen `KEY:letter` fields of Display, in its order. */
  function Fields(c: Cvss): (r: seq<string>)
    ensures |r| == |Keys|
    ensures forall i :: 0 <= i < |r| ==> |r[i]| == |Keys[i]| + 2 && r[i][..|Keys[i]|] == Keys[i] && r[i][|Keys[i]|] == ':'
  {
    var ea := c.exploitAbility;
    var vi := c.vulnerableImpact;
    var si := c.subsequentImpact;
    var env := c.environmental;
    var r := [ea.attackVector.ToString(), ea.attackComplexity.ToString(), ea.attackRequirements.ToString(),
     ea.privilegesRequired.ToString(), ea.userInteraction.ToString(),
     VI.ToString(VI.Confidentiality, vi.confidentiality), VI.ToString(VI.Integrity, vi.integrity),
     VI.ToString(VI.Availability, vi.availability),
     SI.ToString(SI.Confidentiality, si.confidentiality), SI.ToString(SI.Integrity, si.integrity),
     SI.ToString(SI.Availability, si.availability),
     ENV.ToString(ENV.Confidentiality, env.confidentiality), ENV.ToString(ENV.Integrity, env.integrity),
     ENV.ToString(ENV.Availability, env.availability),
     c.exploit.ToString()];
    forall i | 0 <= i < |r| ensures |r[i]| == |Keys[i]| + 2 && r[i][..|Keys[i]|] == Keys[i] && r[i][|Keys[i]|] == ':' {
      KeyFieldShape(Keys[i], r[i][|r[i]| - 1]);
    }
    r
  }

  /** A field `key:letter` has the key, then the colon, then one letter. */
  lemma KeyFieldShape(key: string, letter: char)
    ensures var f := key + ":" + [letter]; |f| == |key| + 2 && f[..|key|] == key && f[|key|] == ':'
  {
    var f := key + ":" + [letter];
    assert f[..|key|] == key;
  }

  /** Display: "CVSS:", the version, then all fifteen fields joined by '/'. */
  function ToString(c: Cvss): string {
    "CVSS:" + c.version.ToString() + "/" + Join(Fields(c), '/')
  }

  /**
   * Display always lists every metric, environmental ones and E included:
   * split on '/', it is the version tag followed by one `KEY:letter` field per
   * key, in the fixed order AV, AC, AT, PR, UI, VC, VI, VA, SC, SI, SA, CR, IR, AR, E.
   */
  lemma ToStringFields(c: Cvss)
    ensures Split(ToString(c), '/') == ["CVSS:" + c.version.ToString()] + Fields(c)
    ensures |Split(ToString(c), '/')| == 16
  {
    var fs := Fields(c);
    FieldsNoSlash(c);
    var tag := "CVSS:" + c.version.ToString();
    assert '/' !in tag;
    assert ToString(c) == tag + ['/'] + Join(fs, '/');
    SplitAppend(tag, '/', Join(fs, '/'));
    SplitJoin(fs, '/');
    SplitJoin([tag], '/');
  }

  /** No field of Display contains the separator. */
  lemma FieldsNoSlash(c: Cvss)
    ensures forall i :: 0 <= i < |Fields(c)| ==> '/' !in Fields(c)[i]
  {
    ExploitNoSlash(c.exploitAbility, c.exploit);
    ImpactNoSlash(c.vulnerableImpact, c.subsequentImpact);
    RequirementNoSlash(c.environmental);
    var fs := Fields(c);
    forall i | 0 <= i < |fs| ensures '/' !in fs[i] {
    }
  }

  /** The exploitability and exploit-maturity fields hold no '/'. */
  lemma ExploitNoSlash(ea: ExploitAbility, e: EM.ExploitMaturity)
    ensures '/' !in ea.attackVector.ToString() && '/' !in ea.attackComplexity.ToString()
    ensures '/' !in ea.attackRequirements.ToString() && '/' !in ea.privilegesRequired.ToString()
    ensures '/' !in ea.userInteraction.ToString() && '/' !in e.ToString()
  {
  }

  /** The six impact fields hold no '/'. */
  lemma ImpactNoSlash(vi: VI.VulnerableImpact, si: SI.SubsequentImpact)
    ensures '/' !in VI.ToString(VI.Confidentiality, vi.confidentiality)
    ensures '/' !in VI.ToString(VI.Integrity, vi.integrity)
    ensures '/' !in VI.ToString(VI.Availability, vi.availability)
    ensures '/' !in SI.ToString(SI.Confidentiality, si.confidentiality)
    ensures '/' !in SI.ToString(SI.Integrity, si.integrity)
    ensures '/' !in SI.ToString(SI.Availability, si.availability)
  {
  }

  /** The three requirement fields hold no '/'. */
  lemma RequirementNoSlash(env: ENV.Environmental)
    ensures '/' !in ENV.ToString(ENV.Confidentiality, env.confidentiality)
    ensures '/' !in ENV.ToString(ENV.Integrity, env.integrity)
    ensures '/' !in ENV.ToString(ENV.Availability, env.availability)
  {
  }

  /** The exploitability part of `vector_string`: each metric by its key, the first failure wins. */
  function ParseExploitAbility(vectors: string): (r: W.Result<ExploitAbility, CvssError>)
    ensures r.Failure? <==> AV.FromStr(vectors).Failure? || AC.FromStr(vectors).Failure? || AT.FromStr(vectors).Failure?
                            || PR.FromStr(vectors).Failure? || UI.FromStr(vectors).Failure?
    ensures AV.FromStr(vectors).Failure? ==> r == W.Failure(AV.FromStr(vectors).error)
    ensures AV.FromStr(vectors).Success? && AC.FromStr(vectors).Failure? ==> r == W.Failure(AC.FromStr(vectors).error)
    ensures AV.FromStr(vectors).Success? && AC.FromStr(vectors).Success? && AT.FromStr(vectors).Failure? ==>
              r == W.Failure(AT.FromStr(vectors).error)
    ensures (AV.FromStr(vectors).Success? && AC.FromStr(vectors).Success? && AT.FromStr(vectors).Success?
             && PR.FromStr(vectors).Failure?) ==> r == W.Failure(PR.FromStr(vectors).error)
    ensures (AV.FromStr(vectors).Success? && AC.FromStr(vectors).Success? && AT.FromStr(vectors).Success?
             && PR.FromStr(vectors).Success? && UI.FromStr(vectors).Failure?) ==> r == W.Failure(UI.FromStr(vectors).error)
    ensures r.Success? ==>
              W.Success(r.value.attackVector) == AV.FromStr(vectors)
              && W.Success(r.value.attackComplexity) == AC.FromStr(vectors)
              && W.Success(r.value.attackRequirements) == AT.FromStr(vectors)
              && W.Success(r.value.privilegesRequired) == PR.FromStr(vectors)
              && W.Success(r.value.userInteraction) == UI.FromStr(vectors)
  {
    var av :- AV.FromStr(vectors);
    var ac :- AC.FromStr(vectors);
    var at :- AT.FromStr(vectors);
    var pr :- PR.FromStr(vectors);
    var ui :- UI.FromStr(vectors);
    W.Success(ExploitAbility(av, ac, at, pr, ui))
  }

  /** VC, VI and VA by their keys, the first failure wins. */
  function ParseVulnerable(vectors: string): (r: W.Result<VI.VulnerableImpact, CvssError>)
    ensures r.Failure? <==> VI.FromStr(VI.Confidentiality, vectors).Failure? || VI.FromStr(VI.Integrity, vectors).Failure?
                            || VI.FromStr(VI.Availability, vectors).Failure?
    ensures VI.FromStr(VI.Confidentiality, vectors).Failure? ==> r == W.Failure(VI.FromStr(VI.Confidentiality, vectors).error)
    ensures VI.FromStr(VI.Confidentiality, vectors).Success? && VI.FromStr(VI.Integrity, vectors).Failure? ==>
              r == W.Failure(VI.FromStr(VI.Integrity, vectors).error)
    ensures (VI.FromStr(VI.Confidentiality, vectors).Success? && VI.FromStr(VI.Integrity, vectors).Success?
             && VI.FromStr(VI.Availability, vectors).Failure?) ==> r == W.Failure(VI.FromStr(VI.Availability, vectors).error)
    ensures r.Success? ==>
              W.Success(r.value.confidentiality) == VI.FromStr(VI.Confidentiality, vectors)
              && W.Success(r.value.integrity) == VI.FromStr(VI.Integrity, vectors)
              && W.Success(r.value.availability) == VI.FromStr(VI.Availability, vectors)
  {
    var vc :- VI.FromStr(VI.Confidentiality, vectors);
    var vi :- VI.FromStr(VI.Integrity, vectors);
    var va :- VI.FromStr(VI.Availability, vectors);
    W.Success(VI.VulnerableImpact(vc, vi, va))
  }

  /** SC, SI and SA by their keys, the first failure wins. */
  function ParseSubsequent(vectors: string): (r: W.Result<SI.SubsequentImpact, CvssError>)
    ensures r.Failure? <==> SI.FromStr(SI.Confidentiality, vectors).Failure? || SI.FromStr(SI.Integrity, vectors).Failure?
                            || SI.FromStr(SI.Availability, vectors).Failure?
    ensures SI.FromStr(SI.Confidentiality, vectors).Failure? ==> r == W.Failure(SI.FromStr(SI.Confidentiality, vectors).error)
    ensures SI.FromStr(SI.Confidentiality, vectors).Success? && SI.FromStr(SI.Integrity, vectors).Failure? ==>
              r == W.Failure(SI.FromStr(SI.Integrity, vectors).error)
    ensures (SI.FromStr(SI.Confidentiality, vectors).Success? && SI.FromStr(SI.Integrity, vectors).Success?
             && SI.FromStr(SI.Availability, vectors).Failure?) ==> r == W.Failure(SI.FromStr(SI.Availability, vectors).error)
    ensures r.Success? ==>
              W.Success(r.value.confidentiality) == SI.FromStr(SI.Confidentiality, vectors)
              && W.Success(r.value.integrity) == SI.FromStr(SI.Integrity, vectors)
              && W.Success(r.value.availability) == SI.FromStr(SI.Availability, vectors)
  {
    var sc :- SI.FromStr(SI.Confidentiality, vectors);
    var si :- SI.FromStr(SI.Integrity, vectors);
    var sa :- SI.FromStr(SI.Availability, vectors);
    W.Success(SI.SubsequentImpact(sc, si, sa))
  }

  /**
   * The optional metrics: E, CR, IR and AR each fall back to its default
   * (NotDefined for E, High for the requirements) when its parse fails.
   */
  function ParseEnvironmental(vectors: string): (r: ENV.Environmental)
    ensures ENV.FromStr(ENV.Confidentiality, vectors).Failure? ==> r.confidentiality == ENV.DefaultRequirement
    ensures ENV.FromStr(ENV.Integrity, vectors).Failure? ==> r.integrity == ENV.DefaultRequirement
    ensures ENV.FromStr(ENV.Availability, vectors).Failure? ==> r.availability == ENV.DefaultRequirement
    ensures ENV.FromStr(ENV.Confidentiality, vectors).Success? ==> r.confidentiality == ENV.FromStr(ENV.Confidentiality, vectors).value
    ensures ENV.FromStr(ENV.Integrity, vectors).Success? ==> r.integrity == ENV.FromStr(ENV.Integrity, vectors).value
    ensures ENV.FromStr(ENV.Availability, vectors).Success? ==> r.availability == ENV.FromStr(ENV.Availability, vectors).value
  {
    ENV.Environmental(ENV.FromStr(ENV.Confidentiality, vectors).GetOr(ENV.DefaultRequirement),
                      ENV.FromStr(ENV.Integrity, vectors).GetOr(ENV.DefaultRequirement),
                      ENV.FromStr(ENV.Availability, vectors).GetOr(ENV.DefaultRequirement))
  }

  /**
   * `CVSS::vector_string`: read each metric from the whole text by its key.
   * AV..SA are mandatory and the first that fails is the error; E, CR, IR and
   * AR fall back to their defaults. The record is always version 4.0, with a
   * zero score and None severity.
   */
  function VectorString(vectors: string): (r: W.Result<Cvss, CvssError>)
    ensures r.Failure? <==> ParseExploitAbility(vectors).Failure? || ParseVulnerable(vectors).Failure?
                            || ParseSubsequent(vectors).Failure?
    ensures ParseExploitAbility(vectors).Failure? ==> r == W.Failure(ParseExploitAbility(vectors).error)
    ensures ParseExploitAbility(vectors).Success? && ParseVulnerable(vectors).Failure? ==>
              r == W.Failure(ParseVulnerable(vectors).error)
    ensures (ParseExploitAbility(vectors).Success? && ParseVulnerable(vectors).Success?
             && ParseSubsequent(vectors).Failure?) ==> r == W.Failure(ParseSubsequent(vectors).error)
    ensures r.Success? ==> r.value.version == CvssVersion.V4_0 && r.value.baseScore == 0
                           && r.value.baseSeverity == Severity.None
    ensures r.Success? ==>
              W.Success(r.value.exploitAbility) == ParseExploitAbility(vectors)
              && W.Success(r.value.vulnerableImpact) == ParseVulnerable(vectors)
              && W.Success(r.value.subsequentImpact) == ParseSubsequent(vectors)
              && r.value.environmental == ParseEnvironmental(vectors)
              && (EM.FromStr(vectors).Failure? ==> r.value.exploit == EM.Default)
              && (EM.FromStr(vectors).Success? ==> r.value.exploit == EM.FromStr(vectors).value)
  {
    var ea :- ParseExploitAbility(vectors);
    var vi :- ParseVulnerable(vectors);
    var si :- ParseSubsequent(vectors);
    W.Success(Cvss(CvssVersion.V4_0, (CvssVersion.V4_0).ToString() + vectors, ea, vi, si,
                   EM.FromStr(vectors).GetOr(EM.Default), ParseEnvironmental(vectors), 0, Severity.None))
  }

  /** No impact at all, on the vulnerable or the subsequent systems. */
  predicate NoImpact(c: Cvss) {
    SI.AllNone(c.subsequentImpact) && VI.AllNone(c.vulnerableImpact)
  }

  /**
   * `base_score`, in tenths. When all six impacts are None it is 0; otherwise
   * the source interpolates in floating point between lookup-table scores,
   * which is not part of this model and comes in as `interpolated`.
   */
  function BaseScore(c: Cvss, interpolated: Cvss -> int): (r: int)
    ensures (c.vulnerableImpact == VI.VulnerableImpact(VI.None, VI.None, VI.None)
             && c.subsequentImpact == SI.SubsequentImpact(SI.None, SI.None, SI.None)) ==> r == 0
    ensures !NoImpact(c) ==> r == interpolated(c)
  {
    if NoImpact(c) then 0 else interpolated(c)
  }

  /**
   * `from_str`: split at the first '/', read the version tag, then parse the rest
   * by keys. Any recognised tag passes, yet the record is always version 4.0;
   * its score, severity and `vector_string` (its own Display) are filled in.
   */
  function FromStr(s: string, interpolated: Cvss -> int): (r: W.Result<Cvss, CvssError>)
    ensures SplitOnce(s, "/").None? ==> r == W.Failure(InvalidPrefix(s))
    ensures SplitOnce(s, "/").Some? && CvssVersion.FromStr(SplitOnce(s, "/").value.0) == CvssVersion.None ==>
              r == W.Failure(InvalidCvssVersion("NONE", "4.0"))
    ensures SplitOnce(s, "/").Some? && CvssVersion.FromStr(SplitOnce(s, "/").value.0) != CvssVersion.None ==>
              (r.Success? <==> VectorString(SplitOnce(s, "/").value.1).Success?)
    ensures r.Success? ==>
              var p := VectorString(SplitOnce(s, "/").value.1).value;
              r.value.exploitAbility == p.exploitAbility && r.value.vulnerableImpact == p.vulnerableImpact
              && r.value.subsequentImpact == p.subsequentImpact && r.value.exploit == p.exploit
              && r.value.environmental == p.environmental
    ensures r.Success? ==> r.value.version == CvssVersion.V4_0 && r.value.vectorString == ToString(r.value)
    ensures r.Success? ==> r.value.baseSeverity == Severity.FromTenths(r.value.baseScore)
    ensures r.Success? && NoImpact(r.value) ==> r.value.baseScore == 0
    ensures r.Success? ==> r.value.baseScore == BaseScore(VectorString(SplitOnce(s, "/").value.1).value, interpolated)
  {
    match SplitOnce(s, "/")
    case None => W.Failure(InvalidPrefix(s))
    case Some((v, vectors)) =>
      var version := CvssVersion.FromStr(v);
      if version == CvssVersion.None then W.Failure(InvalidCvssVersion(version.ToString(), "4.0"))
      else
        var c :- VectorString(vectors);
        var score := BaseScore(c, interpolated);
        var scored := c.(baseScore := score, baseSeverity := Severity.FromTenths(score));
        W.Success(scored.(vectorString := ToString(scored)))
  }

  /**
   * `roundup` in tenths, given the input's hundredths truncated toward zero.
   * The result is the nearest tenth, a half rounding up.
   */
  function Roundup(hundredths: int): (r: nat)
    ensures var n := SaturateU32(hundredths); 10 * r <= n + 5 && n + 5 < 10 * r + 10
  {
    var n := SaturateU32(hundredths);
    if n % 10 < 5 then n / 10 else n / 10 + 1
  }

  /** The roundup unit tests: 0.12 -> 0.1, 0.15 -> 0.2, 0.949 -> 0.9. */
  lemma RoundupExamples()
    ensures Roundup(12) == 1 && Roundup(15) == 2 && Roundup(94) == 9
  {
  }

  /** Roundup never decreases its input's order: a larger input never rounds lower. */
  lemma RoundupMonotone(a: int, b: int)
    requires a <= b
    ensures Roundup(a) <= Roundup(b)
  {
  }
}
