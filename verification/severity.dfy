/**
 * Qualitative severity ratings (section 5 of the CVSS v3.1 specification).
 * Scores arrive as whole tenths, so "0.1" is 1 and "9.0" is 90.
 */
module Severity {
  import W = Wrappers
  import opened CvssCommon

  datatype SeverityType = None | Low | Medium | High | Critical {
    /** `as_str`; Display writes exactly this. */
    function AsStr(): string {
      match this
      case None => "None"
      case Low => "Low"
      case Medium => "Medium"
      case High => "High"
      case Critical => "Critical"
    }

    /** Position in the scale, None lowest. */
    function Rank(): nat {
      match this
      case None => 0
      case Low => 1
      case Medium => 2
      case High => 3
      case Critical => 4
    }
  }

  /**
   * `From<f32>`, on a score in tenths: below 0.1 None, below 4.0 Low,
   * below 7.0 Medium, below 9.0 High, otherwise Critical.
   */
  function FromTenths(t: int): (r: SeverityType)
    ensures r == None <==> t < 1
    ensures r == Low <==> 1 <= t < 40
    ensures r == Medium <==> 40 <= t < 70
    ensures r == High <==> 70 <= t < 90
    ensures r == Critical <==> 90 <= t
  {
    if t < 1 then None
    else if t < 40 then Low
    else if t < 70 then Medium
    else if t < 90 then High
    else Critical
  }

  /** A higher score never gives a lower rating. */
  lemma FromTenthsMonotone(a: int, b: int)
    requires a <= b
    ensures FromTenths(a).Rank() <= FromTenths(b).Rank()
  {
  }

  /** The band boundaries the crate's own unit test checks. */
  lemma FromTenthsExamples()
    ensures FromTenths(0) == None && FromTenths(1) == Low && FromTenths(3) == Low
    ensures FromTenths(10) == Low && FromTenths(16) == Low
    ensures FromTenths(40) == Medium && FromTenths(50) == Medium && FromTenths(60) == Medium
    ensures FromTenths(69) == Medium && FromTenths(70) == High
    ensures FromTenths(90) == Critical && FromTenths(100) == Critical
  {
  }

  /** `from_str`: exactly the five capitalised names; anything else is InvalidCVSS. */
  function FromStr(s: string): (r: W.Result<SeverityType, CvssError>)
    ensures r.Success? ==> r.value.AsStr() == s
    ensures forall x: SeverityType :: x.AsStr() == s ==> r == W.Success(x)
    ensures r.Failure? ==> r.error == InvalidCvss("SeverityType", s, "None,Low,Medium,High,Critical")
  {
    if s == "None" then W.Success(None)
    else if s == "Low" then W.Success(Low)
    else if s == "Medium" then W.Success(Medium)
    else if s == "High" then W.Success(High)
    else if s == "Critical" then W.Success(Critical)
    else W.Failure(InvalidCvss("SeverityType", s, "None,Low,Medium,High,Critical"))
  }

  /** Parsing the Display of a rating gives it back. */
  lemma FromStrAsStr(x: SeverityType)
    ensures FromStr(x.AsStr()) == W.Success(x)
  {
  }
}

/** `SeverityTypeV2`: the CVSS v2 scale, which stops at High. */
module SeverityV2 {
  import W = Wrappers
  import opened CvssCommon

  datatype SeverityTypeV2 = None | Low | Medium | High {
    /** `as_str`; Display writes exactly this. */
    function AsStr(): string {
      match this
      case None => "None"
      case Low => "Low"
      case Medium => "Medium"
      case High => "High"
    }

    /** Position in the scale, None lowest. */
    function Rank(): nat {
      match this
      case None => 0
      case Low => 1
      case Medium => 2
      case High => 3
    }
  }

  /** `From<f32>` on tenths: the v3 bands, except that everything from 7.0 up is High. */
  function FromTenths(t: int): (r: SeverityTypeV2)
    ensures r == None <==> t < 1
    ensures r == Low <==> 1 <= t < 40
    ensures r == Medium <==> 40 <= t < 70
    ensures r == High <==> 70 <= t
  {
    if t < 1 then None
    else if t < 40 then Low
    else if t < 70 then Medium
    else High
  }

  /** A higher score never gives a lower rating. */
  lemma FromTenthsMonotone(a: int, b: int)
    requires a <= b
    ensures FromTenths(a).Rank() <= FromTenths(b).Rank()
  {
  }

  /** `from_str`: exactly the four capitalised names; "Critical" is InvalidCVSS here. */
  function FromStr(s: string): (r: W.Result<SeverityTypeV2, CvssError>)
    ensures r.Success? ==> r.value.AsStr() == s
    ensures forall x: SeverityTypeV2 :: x.AsStr() == s ==> r == W.Success(x)
    ensures r.Failure? ==> r.error == InvalidCvss("SeverityTypeV2", s, "None,Low,Medium,High")
  {
    if s == "None" then W.Success(None)
    else if s == "Low" then W.Success(Low)
    else if s == "Medium" then W.Success(Medium)
    else if s == "High" then W.Success(High)
    else W.Failure(InvalidCvss("SeverityTypeV2", s, "None,Low,Medium,High"))
  }

  /** Parsing the Display of a rating gives it back. */
  lemma FromStrAsStr(x: SeverityTypeV2)
    ensures FromStr(x.AsStr()) == W.Success(x)
  {
  }
}
