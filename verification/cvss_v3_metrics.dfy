/**
 * CVSS v3.1 base metrics. Each metric is a small enum with a letter (`as_str`),
 * a Display of `KEY:letter`, a keyed parser and a score in hundredths.
 */
/** CVSS v3.1 Attack Vector (AV). */
module V3AttackVector {
  import W = Wrappers
  import opened Text
  import opened CvssCommon
  import Metric
  import MetricV3

  /** The key: the `AV` acronym of the `MetricTypeV3` table (see KeyFromTable). */
  const NAME: string := "AV"

  /** `Metric::name()` for this metric's TYPE yields the key. */
  lemma KeyFromTable()
    ensures NAME == Metric.V3(MetricV3.AV).Name()
  {
  }

  datatype AttackVector = Network | AdjacentNetwork | Local | Physical {
    /** Score in hundredths: Network 0.85, AdjacentNetwork 0.62, Local 0.55, Physical 0.2. */
    function Score(): nat {
      match this
      case Network => 85
      case AdjacentNetwork => 62
      case Local => 55
      case Physical => 20
    }

    /** The one-letter abbreviation. */
    function Letter(): char {
      match this
      case Network => 'N'
      case AdjacentNetwork => 'A'
      case Local => 'L'
      case Physical => 'P'
    }

    /** `as_str`. */
    function AsStr(): string {
      [Letter()]
    }

    /** Display: the key, a colon and the letter. */
    function ToString(): string {
      NAME + ":" + AsStr()
    }
  }

  /** The value a letter stands for; any other letter, or none, stands for nothing. */
  function FromLetter(c: W.Option<char>): (r: W.Option<AttackVector>)
    ensures r.Some? ==> c == W.Some(r.value.Letter())
    ensures forall x: AttackVector :: c == W.Some(x.Letter()) ==> r == W.Some(x)
  {
    if c == W.Some('N') then W.Some(Network)
    else if c == W.Some('A') then W.Some(AdjacentNetwork)
    else if c == W.Some('L') then W.Some(Local)
    else if c == W.Some('P') then W.Some(Physical)
    else W.None
  }

  /**
   * `from_str`: upper-case, read the letter after the first "AV:"; exactly N, A, L
   * and P are accepted. A missing key or any other letter is InvalidCVSS.
   */
  function FromStr(s: string): (r: W.Result<AttackVector, CvssError>)
    ensures r.Success? ==> KeyedLetter(s, NAME, true) == W.Success(W.Some(r.value.Letter()))
    ensures forall x: AttackVector :: KeyedLetter(s, NAME, true) == W.Success(W.Some(x.Letter())) ==> r == W.Success(x)
    ensures KeyedLetter(s, NAME, true).Failure? ==> r == W.Failure(InvalidCvss(NAME, Upper(s), NAME))
    ensures KeyedLetter(s, NAME, true).Success? && r.Failure? ==>
              r.error == InvalidCvss(NAME, DebugChar(KeyedLetter(s, NAME, true).value), "N,A,L,P")
  {
    var c :- KeyedLetter(s, NAME, true);
    match FromLetter(c)
    case Some(x) => W.Success(x)
    case None => W.Failure(InvalidCvss(NAME, DebugChar(c), "N,A,L,P"))
  }

  /** Parsing the Display of a value gives the value back. */
  lemma FromStrToString(x: AttackVector)
    ensures FromStr(x.ToString()) == W.Success(x)
  {
    assert IsUpper(NAME + ":" + x.AsStr());
    KeyedLetterOfField(NAME, x.AsStr(), true);
    assert KeyedLetter(x.ToString(), NAME, true) == W.Success(W.Some(x.Letter()));
  }

  /** Scores fall strictly from Network to Physical. */
  lemma ScoreOrder(x: AttackVector)
    ensures Network.Score() > AdjacentNetwork.Score() > Local.Score() > Physical.Score()
  {
  }
}

/** CVSS v3.1 Attack Complexity (AC). */
module V3AttackComplexity {
  import W = Wrappers
  import opened Text
  import opened CvssCommon
  import Metric
  import MetricV3

  /** The key: the `AC` acronym of the `MetricTypeV3` table (see KeyFromTable). */
  const NAME: string := "AC"

  /** `Metric::name()` for this metric's TYPE yields the key. */
  lemma KeyFromTable()
    ensures NAME == Metric.V3(MetricV3.AC).Name()
  {
  }

  datatype AttackComplexity = High | Low {
    /** Score in hundredths: High 0.44, Low 0.77. */
    function Score(): nat {
      match this
      case High => 44
      case Low => 77
    }

    /** The one-letter abbreviation. */
    function Letter(): char {
      match this
      case High => 'H'
      case Low => 'L'
    }

    /** `as_str`. */
    function AsStr(): string {
      [Letter()]
    }

    /** Display: the key, a colon and the letter. */
    function ToString(): string {
      NAME + ":" + AsStr()
    }
  }

  /** The value a letter stands for; any other letter, or none, stands for nothing. */
  function FromLetter(c: W.Option<char>): (r: W.Option<AttackComplexity>)
    ensures r.Some? ==> c == W.Some(r.value.Letter())
    ensures forall x: AttackComplexity :: c == W.Some(x.Letter()) ==> r == W.Some(x)
  {
    if c == W.Some('L') then W.Some(Low)
    else if c == W.Some('H') then W.Some(High)
    else W.None
  }

  /**
   * `from_str`: upper-case, read the letter after the first "AC:"; exactly L and H
   * are accepted. A missing key or any other letter is InvalidCVSS.
   */
  function FromStr(s: string): (r: W.Result<AttackComplexity, CvssError>)
    ensures r.Success? ==> KeyedLetter(s, NAME, true) == W.Success(W.Some(r.value.Letter()))
    ensures forall x: AttackComplexity :: KeyedLetter(s, NAME, true) == W.Success(W.Some(x.Letter())) ==> r == W.Success(x)
    ensures KeyedLetter(s, NAME, true).Failure? ==> r == W.Failure(InvalidCvss(NAME, Upper(s), NAME))
    ensures KeyedLetter(s, NAME, true).Success? && r.Failure? ==>
              r.error == InvalidCvss(NAME, DebugChar(KeyedLetter(s, NAME, true).value), "L,H")
  {
    var c :- KeyedLetter(s, NAME, true);
    match FromLetter(c)
    case Some(x) => W.Success(x)
    case None => W.Failure(InvalidCvss(NAME, DebugChar(c), "L,H"))
  }

  /** Parsing the Display of a value gives the value back. */
  lemma FromStrToString(x: AttackComplexity)
    ensures FromStr(x.ToString()) == W.Success(x)
  {
    assert IsUpper(NAME + ":" + x.AsStr());
    KeyedLetterOfField(NAME, x.AsStr(), true);
    assert KeyedLetter(x.ToString(), NAME, true) == W.Success(W.Some(x.Letter()));
  }

  /** Low complexity scores above High. */
  lemma ScoreOrder(x: AttackComplexity)
    ensures Low.Score() > High.Score()
  {
  }
}

/** CVSS v3.1 Privileges Required (PR). */
module V3PrivilegesRequired {
  import W = Wrappers
  import opened Text
  import opened CvssCommon
  import Metric
  import MetricV3

  /** The key: the `PR` acronym of the `MetricTypeV3` table (see KeyFromTable). */
  const NAME: string := "PR"

  /** `Metric::name()` for this metric's TYPE yields the key. */
  lemma KeyFromTable()
    ensures NAME == Metric.V3(MetricV3.PR).Name()
  {
  }

  datatype PrivilegesRequired = High | Low | None {
    /** `score()`: the unchanged-scope score, in hundredths. */
    function Score(): nat {
      match this
      case High => 27
      case Low => 62
      case None => 85
    }

    /** The one-letter abbreviation. */
    function Letter(): char {
      match this
      case High => 'H'
      case Low => 'L'
      case None => 'N'
    }

    /** `as_str`. */
    function AsStr(): string {
      [Letter()]
    }

    /** Display: the key, a colon and the letter. */
    function ToString(): string {
      NAME + ":" + AsStr()
    }
  }

  /** The value a letter stands for; any other letter, or none, stands for nothing. */
  function FromLetter(c: W.Option<char>): (r: W.Option<PrivilegesRequired>)
    ensures r.Some? ==> c == W.Some(r.value.Letter())
    ensures forall x: PrivilegesRequired :: c == W.Some(x.Letter()) ==> r == W.Some(x)
  {
    if c == W.Some('N') then W.Some(None)
    else if c == W.Some('L') then W.Some(Low)
    else if c == W.Some('H') then W.Some(High)
    else W.None
  }

  /**
   * `from_str`: upper-case, read the letter after the first "PR:"; exactly N, L and H
   * are accepted. A missing key or any other letter is InvalidCVSS.
   */
  function FromStr(s: string): (r: W.Result<PrivilegesRequired, CvssError>)
    ensures r.Success? ==> KeyedLetter(s, NAME, true) == W.Success(W.Some(r.value.Letter()))
    ensures forall x: PrivilegesRequired :: KeyedLetter(s, NAME, true) == W.Success(W.Some(x.Letter())) ==> r == W.Success(x)
    ensures KeyedLetter(s, NAME, true).Failure? ==> r == W.Failure(InvalidCvss(NAME, Upper(s), NAME))
    ensures KeyedLetter(s, NAME, true).Success? && r.Failure? ==>
              r.error == InvalidCvss(NAME, DebugChar(KeyedLetter(s, NAME, true).value), "N,L,H")
  {
    var c :- KeyedLetter(s, NAME, true);
    match FromLetter(c)
    case Some(x) => W.Success(x)
    case None => W.Failure(InvalidCvss(NAME, DebugChar(c), "N,L,H"))
  }

  /** Parsing the Display of a value gives the value back. */
  lemma FromStrToString(x: PrivilegesRequired)
    ensures FromStr(x.ToString()) == W.Success(x)
  {
    assert IsUpper(NAME + ":" + x.AsStr());
    KeyedLetterOfField(NAME, x.AsStr(), true);
    assert KeyedLetter(x.ToString(), NAME, true) == W.Success(W.Some(x.Letter()));
  }


  /** `scoped_score`, in hundredths: Low and High weigh more when the scope changes. */
  function ScopedScore(x: PrivilegesRequired, scopeChanged: bool): nat {
    if scopeChanged then
      match x
      case High => 50
      case Low => 68
      case None => 85
    else
      match x
      case High => 27
      case Low => 62
      case None => 85
  }

  /**
   * `score()` is the unchanged-scope score; None weighs 0.85 either way, Low and
   * High rise with a changed scope, and in each scope None > Low > High.
   */
  lemma ScopedScoreFacts(x: PrivilegesRequired, changed: bool)
    ensures x.Score() == ScopedScore(x, false)
    ensures ScopedScore(None, true) == ScopedScore(None, false)
    ensures x != None ==> ScopedScore(x, true) > ScopedScore(x, false)
    ensures ScopedScore(None, changed) > ScopedScore(Low, changed) > ScopedScore(High, changed)
  {
  }
}

/** CVSS v3.1 User Interaction (UI). */
module V3UserInteraction {
  import W = Wrappers
  import opened Text
  import opened CvssCommon
  import Metric
  import MetricV3

  /** The key: the `UI` acronym of the `MetricTypeV3` table (see KeyFromTable). */
  const NAME: string := "UI"

  /** `Metric::name()` for this metric's TYPE yields the key. */
  lemma KeyFromTable()
    ensures NAME == Metric.V3(MetricV3.UI).Name()
  {
  }

  datatype UserInteraction = Required | None {
    /** Score in hundredths: Required 0.62, None 0.85. */
    function Score(): nat {
      match this
      case Required => 62
      case None => 85
    }

    /** The one-letter abbreviation. */
    function Letter(): char {
      match this
      case Required => 'R'
      case None => 'N'
    }

    /** `as_str`. */
    function AsStr(): string {
      [Letter()]
    }

    /** Display: the key, a colon and the letter. */
    function ToString(): string {
      NAME + ":" + AsStr()
    }
  }

  /** The value a letter stands for; any other letter, or none, stands for nothing. */
  function FromLetter(c: W.Option<char>): (r: W.Option<UserInteraction>)
    ensures r.Some? ==> c == W.Some(r.value.Letter())
    ensures forall x: UserInteraction :: c == W.Some(x.Letter()) ==> r == W.Some(x)
  {
    if c == W.Some('N') then W.Some(None)
    else if c == W.Some('R') then W.Some(Required)
    else W.None
  }

  /**
   * `from_str`: upper-case, read the letter after the first "UI:"; exactly N and R
   * are accepted. A missing key or any other letter is InvalidCVSS.
   */
  function FromStr(s: string): (r: W.Result<UserInteraction, CvssError>)
    ensures r.Success? ==> KeyedLetter(s, NAME, true) == W.Success(W.Some(r.value.Letter()))
    ensures forall x: UserInteraction :: KeyedLetter(s, NAME, true) == W.Success(W.Some(x.Letter())) ==> r == W.Success(x)
    ensures KeyedLetter(s, NAME, true).Failure? ==> r == W.Failure(InvalidCvss(NAME, Upper(s), NAME))
    ensures KeyedLetter(s, NAME, true).Success? && r.Failure? ==>
              r.error == InvalidCvss(NAME, DebugChar(KeyedLetter(s, NAME, true).value), "N,R")
  {
    var c :- KeyedLetter(s, NAME, true);
    match FromLetter(c)
    case Some(x) => W.Success(x)
    case None => W.Failure(InvalidCvss(NAME, DebugChar(c), "N,R"))
  }

  /** Parsing the Display of a value gives the value back. */
  lemma FromStrToString(x: UserInteraction)
    ensures FromStr(x.ToString()) == W.Success(x)
  {
    assert IsUpper(NAME + ":" + x.AsStr());
    KeyedLetterOfField(NAME, x.AsStr(), true);
    assert KeyedLetter(x.ToString(), NAME, true) == W.Success(W.Some(x.Letter()));
  }

  /** No interaction scores above Required. */
  lemma ScoreOrder(x: UserInteraction)
    ensures None.Score() > Required.Score()
  {
  }
}

/** CVSS v3.1 Scope (S). Its source file is not part of this model; the enum and parser follow the pattern of the other v3 metrics modelled in this file. */
module V3Scope {
  import W = Wrappers
  import opened Text
  import opened CvssCommon
  import Metric
  import MetricV3

  /** The key: the `S` acronym of the `MetricTypeV3` table (see KeyFromTable). */
  const NAME: string := "S"

  /** `Metric::name()` for this metric's TYPE yields the key. */
  lemma KeyFromTable()
    ensures NAME == Metric.V3(MetricV3.S).Name()
  {
  }

  datatype Scope = Unchanged | Changed {
    predicate IsChanged() {
      Changed?
    }

    /** The one-letter abbreviation. */
    function Letter(): char {
      match this
      case Unchanged => 'U'
      case Changed => 'C'
    }

    /** `as_str`. */
    function AsStr(): string {
      [Letter()]
    }

    /** Display: the key, a colon and the letter. */
    function ToString(): string {
      NAME + ":" + AsStr()
    }
  }

  /** The value a letter stands for; any other letter, or none, stands for nothing. */
  function FromLetter(c: W.Option<char>): (r: W.Option<Scope>)
    ensures r.Some? ==> c == W.Some(r.value.Letter())
    ensures forall x: Scope :: c == W.Some(x.Letter()) ==> r == W.Some(x)
  {
    if c == W.Some('U') then W.Some(Unchanged)
    else if c == W.Some('C') then W.Some(Changed)
    else W.None
  }

  /** `from_str`: upper-case, read the letter after the first "S:"; exactly U and C are accepted. */
  function FromStr(s: string): (r: W.Result<Scope, CvssError>)
    ensures r.Success? ==> KeyedLetter(s, NAME, true) == W.Success(W.Some(r.value.Letter()))
    ensures forall x: Scope :: KeyedLetter(s, NAME, true) == W.Success(W.Some(x.Letter())) ==> r == W.Success(x)
    ensures KeyedLetter(s, NAME, true).Failure? ==> r == W.Failure(InvalidCvss(NAME, Upper(s), NAME))
    ensures KeyedLetter(s, NAME, true).Success? && r.Failure? ==>
              r.error == InvalidCvss(NAME, DebugChar(KeyedLetter(s, NAME, true).value), "U,C")
  {
    var c :- KeyedLetter(s, NAME, true);
    match FromLetter(c)
    case Some(x) => W.Success(x)
    case None => W.Failure(InvalidCvss(NAME, DebugChar(c), "U,C"))
  }

  /** Parsing the Display of a value gives the value back. */
  lemma FromStrToString(x: Scope)
    ensures FromStr(x.ToString()) == W.Success(x)
  {
    assert IsUpper(NAME + ":" + x.AsStr());
    KeyedLetterOfField(NAME, x.AsStr(), true);
    assert KeyedLetter(x.ToString(), NAME, true) == W.Success(W.Some(x.Letter()));
  }

}

/** CVSS v3.1 impact metrics: Confidentiality (C), Integrity (I) and Availability (A). */
module V3Impact {
  import W = Wrappers
  import opened Text
  import opened CvssCommon
  import Metric
  import MetricV3

  datatype ImpactLevel = High | Low | None {
    /** Score in hundredths: None 0, Low 0.22, High 0.56. */
    function Score(): nat {
      match this
      case High => 56
      case Low => 22
      case None => 0
    }

    /** The one-letter abbreviation. */
    function Letter(): char {
      match this
      case High => 'H'
      case Low => 'L'
      case None => 'N'
    }

    /** `as_str`. */
    function AsStr(): string {
      [Letter()]
    }
  }

  /** Which of the three metrics a value belongs to; it decides the key. */
  datatype ImpactMetric = Confidentiality | Integrity | Availability {
    function Name(): string {
      match this
      case Confidentiality => "C"
      case Integrity => "I"
      case Availability => "A"
    }
  }

  /** `Metric::name()` for each metric's TYPE yields its key. */
  lemma KeyFromTable()
    ensures Confidentiality.Name() == Metric.V3(MetricV3.C).Name()
    ensures Integrity.Name() == Metric.V3(MetricV3.I).Name()
    ensures Availability.Name() == Metric.V3(MetricV3.A).Name()
  {
  }

  /** Display: the metric's key, a colon and the letter. */
  function ToString(m: ImpactMetric, x: ImpactLevel): string {
    m.Name() + ":" + x.AsStr()
  }

  /** The value a letter stands for; any other letter, or none, stands for nothing. */
  function FromLetter(c: W.Option<char>): (r: W.Option<ImpactLevel>)
    ensures r.Some? ==> c == W.Some(r.value.Letter())
    ensures forall x: ImpactLevel :: c == W.Some(x.Letter()) ==> r == W.Some(x)
  {
    if c == W.Some('N') then W.Some(None)
    else if c == W.Some('L') then W.Some(Low)
    else if c == W.Some('H') then W.Some(High)
    else W.None
  }

  /**
   * `from_str` of C, I and A: upper-case, read the letter after the first key;
   * exactly N, L and H are accepted. A missing key or any other letter is InvalidCVSS.
   */
  function FromStr(m: ImpactMetric, s: string): (r: W.Result<ImpactLevel, CvssError>)
    ensures r.Success? ==> KeyedLetter(s, m.Name(), true) == W.Success(W.Some(r.value.Letter()))
    ensures forall x: ImpactLevel :: KeyedLetter(s, m.Name(), true) == W.Success(W.Some(x.Letter())) ==> r == W.Success(x)
    ensures KeyedLetter(s, m.Name(), true).Failure? ==> r == W.Failure(InvalidCvss(m.Name(), Upper(s), m.Name()))
    ensures KeyedLetter(s, m.Name(), true).Success? && r.Failure? ==>
              r.error == InvalidCvss(m.Name(), DebugChar(KeyedLetter(s, m.Name(), true).value), "N,L,H")
  {
    var c :- KeyedLetter(s, m.Name(), true);
    match FromLetter(c)
    case Some(x) => W.Success(x)
    case None => W.Failure(InvalidCvss(m.Name(), DebugChar(c), "N,L,H"))
  }

  /** Parsing the Display of a value gives the value back, for each metric of the group. */
  lemma FromStrToString(m: ImpactMetric, x: ImpactLevel)
    ensures FromStr(m, ToString(m, x)) == W.Success(x)
  {
    KeyedLetterOfField(m.Name(), x.AsStr(), true);
  }

  /** Scores rise with the impact. */
  lemma ScoreOrder(x: ImpactLevel)
    ensures None.Score() < Low.Score() < High.Score()
  {
  }

  datatype Impact = Impact(confidentiality: ImpactLevel, integrity: ImpactLevel, availability: ImpactLevel)

  /**
   * `impact_sub_score_base` in millionths: 1 - (1 - C)(1 - I)(1 - A), with each
   * score in hundredths.
   */
  function ImpactSubScore(m: Impact): (r: int)
    ensures 0 <= r < 1_000_000
  {
    var c := m.confidentiality.Score();
    var i := m.integrity.Score();
    var a := m.availability.Score();
    ProductBounds(100 - c, 100 - i, 100 - a);
    1_000_000 - (100 - c) * (100 - i) * (100 - a)
  }

  /** Each factor lies in 44..100, so the product lies in 85184..1000000. */
  lemma ProductBounds(x: int, y: int, z: int)
    requires 44 <= x <= 100 && 44 <= y <= 100 && 44 <= z <= 100
    ensures 0 < x * y * z <= 1_000_000
  {
    assert x * y <= 100 * y <= 10_000;
    assert x * y * z <= 10_000 * z;
  }

  /** The impact sub-score is zero exactly when all three impacts are None. */
  lemma ImpactSubScoreZero(m: Impact)
    ensures ImpactSubScore(m) == 0 <==> m == Impact(None, None, None)
  {
    var c := 100 - m.confidentiality.Score();
    var i := 100 - m.integrity.Score();
    var a := 100 - m.availability.Score();
    if m != Impact(None, None, None) {
      assert c < 100 || i < 100 || a < 100;
      assert c * i <= 100 * i <= 10_000;
      if c < 100 {
        assert c * i <= 99 * i;
      } else if i < 100 {
        assert c * i == 100 * i;
      }
      assert c * i * a < 1_000_000 by {
        if c * i < 10_000 {
          assert c * i * a <= (c * i) * 100;
        } else {
          assert a < 100;
        }
      }
    }
  }
}
