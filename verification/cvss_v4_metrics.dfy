/**
 * CVSS v4.0 base and environmental metrics. Each metric is a small enum with
 * a letter (`as_str`), a Display of `KEY:letter`, a keyed parser and a score
 * in tenths.
 */
/** CVSS v4.0 Attack Complexity (AC); the key comes from the v3 acronym table. */
module V4AttackComplexity {
  import W = Wrappers
  import opened Text
  import opened CvssCommon
  import Metric
  import MetricV3

  /** The key: the `AC` acronym of the `MetricTypeV3` table (see KeyFromTable). */
  const NAME: string := "AC"

  /** `Metric::name()` for this metric's TYPE yields the key. */
  lemma KeyFromTable()
    ensures NAME == Metric.V3(MetricV3.AC).Name()
  {
  }

  datatype AttackComplexity = High | Low {
    predicate IsLow() {
      Low?
    }

    /** Score in tenths: Low 0.0, High 0.1. */
    function Score(): nat {
      match this
      case High => 1
      case Low => 0
    }

    /** The one-letter abbreviation. */
    function Letter(): char {
      match this
      case High => 'H'
      case Low => 'L'
    }

    /** `as_str`. */
    function AsStr(): string {
      [Letter()]
    }

    /** Display: the key, a colon and the letter. */
    function ToString(): string {
      NAME + ":" + AsStr()
    }
  }

  /** The value a letter stands for; any other letter, or none, stands for nothing. */
  function FromLetter(c: W.Option<char>): (r: W.Option<AttackComplexity>)
    ensures r.Some? ==> c == W.Some(r.value.Letter())
    ensures forall x: AttackComplexity :: c == W.Some(x.Letter()) ==> r == W.Some(x)
  {
    if c == W.Some('L') then W.Some(Low)
    else if c == W.Some('H') then W.Some(High)
    else W.None
  }

  /**
   * `from_str`: upper-case, read the letter after the first "AC:"; exactly L and H
   * are accepted. A missing key or any other letter is InvalidCVSS.
   */
  function FromStr(s: string): (r: W.Result<AttackComplexity, CvssError>)
    ensures r.Success? ==> KeyedLetter(s, NAME, true) == W.Success(W.Some(r.value.Letter()))
    ensures forall x: AttackComplexity :: KeyedLetter(s, NAME, true) == W.Success(W.Some(x.Letter())) ==> r == W.Success(x)
    ensures KeyedLetter(s, NAME, true).Failure? ==> r == W.Failure(InvalidCvss(NAME, Upper(s), NAME))
    ensures KeyedLetter(s, NAME, true).Success? && r.Failure? ==>
              r.error == InvalidCvss(NAME, DebugChar(KeyedLetter(s, NAME, true).value), "L,H")
  {
    var c :- KeyedLetter(s, NAME, true);
    match FromLetter(c)
    case Some(x) => W.Success(x)
    case None => W.Failure(InvalidCvss(NAME, DebugChar(c), "L,H"))
  }

  /** Parsing the Display of a value gives the value back. */
  lemma FromStrToString(x: AttackComplexity)
    ensures FromStr(x.ToString()) == W.Success(x)
  {
    assert IsUpper(NAME + ":" + x.AsStr());
    KeyedLetterOfField(NAME, x.AsStr(), true);
    assert KeyedLetter(x.ToString(), NAME, true) == W.Success(W.Some(x.Letter()));
  }

  /** `is_low` picks out Low, which scores below High. */
  lemma ScoreOrder(x: AttackComplexity)
    ensures x.IsLow() <==> x == Low
    ensures Low.Score() < High.Score()
  {
  }
}

/** CVSS v4.0 Attack Requirements (AT). */
module V4AttackRequirements {
  import W = Wrappers
  import opened Text
  import opened CvssCommon
  import Metric
  import MetricV4

  /** The key: the `AT` acronym of the `MetricTypeV4` table (see KeyFromTable). */
  const NAME: string := "AT"

  /** `Metric::name()` for this metric's TYPE yields the key. */
  lemma KeyFromTable()
    ensures NAME == Metric.V4(MetricV4.AT).Name()
  {
  }

  datatype AttackRequirements = Present | None {
    predicate IsNone() {
      None?
    }

    /** Score in tenths: None 0.0, Present 0.1. */
    function Score(): nat {
      match this
      case Present => 1
      case None => 0
    }

    /** The one-letter abbreviation. */
    function Letter(): char {
      match this
      case Present => 'P'
      case None => 'N'
    }

    /** `as_str`. */
    function AsStr(): string {
      [Letter()]
    }

    /** Display: the key, a colon and the letter. */
    function ToString(): string {
      NAME + ":" + AsStr()
    }
  }

  /** The value a letter stands for; any other letter, or none, stands for nothing. */
  function FromLetter(c: W.Option<char>): (r: W.Option<AttackRequirements>)
    ensures r.Some? ==> c == W.Some(r.value.Letter())
    ensures forall x: AttackRequirements :: c == W.Some(x.Letter()) ==> r == W.Some(x)
  {
    if c == W.Some('N') then W.Some(None)
    else if c == W.Some('P') then W.Some(Present)
    else W.None
  }

  /**
   * `from_str`: upper-case, read the letter after the first "AT:"; exactly N and P
   * are accepted. A missing key or any other letter is InvalidCVSS.
   */
  function FromStr(s: string): (r: W.Result<AttackRequirements, CvssError>)
    ensures r.Success? ==> KeyedLetter(s, NAME, true) == W.Success(W.Some(r.value.Letter()))
    ensures forall x: AttackRequirements :: KeyedLetter(s, NAME, true) == W.Success(W.Some(x.Letter())) ==> r == W.Success(x)
    ensures KeyedLetter(s, NAME, true).Failure? ==> r == W.Failure(InvalidCvss(NAME, Upper(s), NAME))
    ensures KeyedLetter(s, NAME, true).Success? && r.Failure? ==>
              r.error == InvalidCvss(NAME, DebugChar(KeyedLetter(s, NAME, true).value), "N,P")
  {
    var c :- KeyedLetter(s, NAME, true);
    match FromLetter(c)
    case Some(x) => W.Success(x)
    case None => W.Failure(InvalidCvss(NAME, DebugChar(c), "N,P"))
  }

  /** Parsing the Display of a value gives the value back. */
  lemma FromStrToString(x: AttackRequirements)
    ensures FromStr(x.ToString()) == W.Success(x)
  {
    assert IsUpper(NAME + ":" + x.AsStr());
    KeyedLetterOfField(NAME, x.AsStr(), true);
    assert KeyedLetter(x.ToString(), NAME, true) == W.Success(W.Some(x.Letter()));
  }

  /** `is_none` picks out None, which scores below Present. */
  lemma ScoreOrder(x: AttackRequirements)
    ensures x.IsNone() <==> x == None
    ensures None.Score() < Present.Score()
  {
  }
}

/** CVSS v4.0 User Interaction (UI); the key comes from the v3 acronym table. */
module V4UserInteraction {
  import W = Wrappers
  import opened Text
  import opened CvssCommon
  import Metric
  import MetricV3

  /** The key: the `UI` acronym of the `MetricTypeV3` table (see KeyFromTable). */
  const NAME: string := "UI"

  /** `Metric::name()` for this metric's TYPE yields the key. */
  lemma KeyFromTable()
    ensures NAME == Metric.V3(MetricV3.UI).Name()
  {
  }

  datatype UserInteraction = None | Passive | Active {
    predicate IsNone() {
      None?
    }

    /** Score in tenths: None 0.0, Passive 0.1, Active 0.2. */
    function Score(): nat {
      match this
      case None => 0
      case Passive => 1
      case Active => 2
    }

    /** The one-letter abbreviation. */
    function Letter(): char {
      match this
      case None => 'N'
      case Passive => 'P'
      case Active => 'A'
    }

    /** `as_str`. */
    function AsStr(): string {
      [Letter()]
    }

    /** Display: the key, a colon and the letter. */
    function ToString(): string {
      NAME + ":" + AsStr()
    }
  }

  /** The value a letter stands for; any other letter, or none, stands for nothing. */
  function FromLetter(c: W.Option<char>): (r: W.Option<UserInteraction>)
    ensures r.Some? ==> c == W.Some(r.value.Letter())
    ensures forall x: UserInteraction :: c == W.Some(x.Letter()) ==> r == W.Some(x)
  {
    if c == W.Some('N') then W.Some(None)
    else if c == W.Some('P') then W.Some(Passive)
    else if c == W.Some('A') then W.Some(Active)
    else W.None
  }

  /**
   * `from_str`: upper-case, read the letter after the first "UI:"; exactly N, P and A
   * are accepted. A missing key or any other letter is InvalidCVSS.
   */
  function FromStr(s: string): (r: W.Result<UserInteraction, CvssError>)
    ensures r.Success? ==> KeyedLetter(s, NAME, true) == W.Success(W.Some(r.value.Letter()))
    ensures forall x: UserInteraction :: KeyedLetter(s, NAME, true) == W.Success(W.Some(x.Letter())) ==> r == W.Success(x)
    ensures KeyedLetter(s, NAME, true).Failure? ==> r == W.Failure(InvalidCvss(NAME, Upper(s), NAME))
    ensures KeyedLetter(s, NAME, true).Success? && r.Failure? ==>
              r.error == InvalidCvss(NAME, DebugChar(KeyedLetter(s, NAME, true).value), "N,P,A")
  {
    var c :- KeyedLetter(s, NAME, true);
    match FromLetter(c)
    case Some(x) => W.Success(x)
    case None => W.Failure(InvalidCvss(NAME, DebugChar(c), "N,P,A"))
  }

  /** Parsing the Display of a value gives the value back. */
  lemma FromStrToString(x: UserInteraction)
    ensures FromStr(x.ToString()) == W.Success(x)
  {
    assert IsUpper(NAME + ":" + x.AsStr());
    KeyedLetterOfField(NAME, x.AsStr(), true);
    assert KeyedLetter(x.ToString(), NAME, true) == W.Success(W.Some(x.Letter()));
  }

  /** `is_none` picks out None; scores rise None < Passive < Active. */
  lemma ScoreOrder(x: UserInteraction)
    ensures x.IsNone() <==> x == None
    ensures None.Score() < Passive.Score() < Active.Score()
  {
  }
}

/** CVSS v4.0 Privileges Required (PR); the key comes from the v3 acronym table. */
module V4PrivilegesRequired {
  import W = Wrappers
  import opened Text
  import opened CvssCommon
  import Metric
  import MetricV3

  /** The key: the `PR` acronym of the `MetricTypeV3` table (see KeyFromTable). */
  const NAME: string := "PR"

  /** `Metric::name()` for this metric's TYPE yields the key. */
  lemma KeyFromTable()
    ensures NAME == Metric.V3(MetricV3.PR).Name()
  {
  }

  datatype PrivilegesRequired = High | Low | None {
    predicate IsNone() {
      None?
    }

    /** Score in tenths: None 0.0, Low 0.1, High 0.2. */
    function Score(): nat {
      match this
      case High => 2
      case Low => 1
      case None => 0
    }

    /** The one-letter abbreviation. */
    function Letter(): char {
      match this
      case High => 'H'
      case Low => 'L'
      case None => 'N'
    }

    /** `as_str`. */
    function AsStr(): string {
      [Letter()]
    }

    /** Display: the key, a colon and the letter. */
    function ToString(): string {
      NAME + ":" + AsStr()
    }
  }

  /** The value a letter stands for; any other letter, or none, stands for nothing. */
  function FromLetter(c: W.Option<char>): (r: W.Option<PrivilegesRequired>)
    ensures r.Some? ==> c == W.Some(r.value.Letter())
    ensures forall x: PrivilegesRequired :: c == W.Some(x.Letter()) ==> r == W.Some(x)
  {
    if c == W.Some('N') then W.Some(None)
    else if c == W.Some('L') then W.Some(Low)
    else if c == W.Some('H') then W.Some(High)
    else W.None
  }

  /**
   * `from_str`: upper-case, read the letter after the first "PR:"; exactly N, L and H
   * are accepted. A missing key or any other letter is InvalidCVSS.
   */
  function FromStr(s: string): (r: W.Result<PrivilegesRequired, CvssError>)
    ensures r.Success? ==> KeyedLetter(s, NAME, true) == W.Success(W.Some(r.value.Letter()))
    ensures forall x: PrivilegesRequired :: KeyedLetter(s, NAME, true) == W.Success(W.Some(x.Letter())) ==> r == W.Success(x)
    ensures KeyedLetter(s, NAME, true).Failure? ==> r == W.Failure(InvalidCvss(NAME, Upper(s), NAME))
    ensures KeyedLetter(s, NAME, true).Success? && r.Failure? ==>
              r.error == InvalidCvss(NAME, DebugChar(KeyedLetter(s, NAME, true).value), "N,L,H")
  {
    var c :- KeyedLetter(s, NAME, true);
    match FromLetter(c)
    case Some(x) => W.Success(x)
    case None => W.Failure(InvalidCvss(NAME, DebugChar(c), "N,L,H"))
  }

  /** Parsing the Display of a value gives the value back. */
  lemma FromStrToString(x: PrivilegesRequired)
    ensures FromStr(x.ToString()) == W.Success(x)
  {
    assert IsUpper(NAME + ":" + x.AsStr());
    KeyedLetterOfField(NAME, x.AsStr(), true);
    assert KeyedLetter(x.ToString(), NAME, true) == W.Success(W.Some(x.Letter()));
  }

  /** `is_none` picks out None; scores rise None < Low < High. */
  lemma ScoreOrder(x: PrivilegesRequired)
    ensures x.IsNone() <==> x == None
    ensures None.Score() < Low.Score() < High.Score()
  {
  }
}

/** CVSS v4.0 Vulnerable System impact: Confidentiality (VC), Integrity (VI) and Availability (VA). */
module V4VulnerableImpact {
  import W = Wrappers
  import opened Text
  import opened CvssCommon
  import Metric
  import MetricV4

  datatype ImpactLevel = High | Low | None {
    predicate IsHigh() {
      High?
    }

    predicate IsNone() {
      None?
    }

    /** Score in tenths: None 0.2, Low 0.1, High 0.0. */
    function Score(): nat {
      match this
      case High => 0
      case Low => 1
      case None => 2
    }

    /** The one-letter abbreviation. */
    function Letter(): char {
      match this
      case High => 'H'
      case Low => 'L'
      case None => 'N'
    }

    /** `as_str`. */
    function AsStr(): string {
      [Letter()]
    }
  }

  /** Which of the three metrics a value belongs to; it decides the key. */
  datatype VulnerableMetric = Confidentiality | Integrity | Availability {
    function Name(): string {
      match this
      case Confidentiality => "VC"
      case Integrity => "VI"
      case Availability => "VA"
    }
  }

  /** `Metric::name()` for each metric's TYPE yields its key. */
  lemma KeyFromTable()
    ensures Confidentiality.Name() == Metric.V4(MetricV4.VC).Name()
    ensures Integrity.Name() == Metric.V4(MetricV4.VI).Name()
    ensures Availability.Name() == Metric.V4(MetricV4.VA).Name()
  {
  }

  /** Display: the metric's key, a colon and the letter. */
  function ToString(m: VulnerableMetric, x: ImpactLevel): string {
    m.Name() + ":" + x.AsStr()
  }

  /** The value a letter stands for; any other letter, or none, stands for nothing. */
  function FromLetter(c: W.Option<char>): (r: W.Option<ImpactLevel>)
    ensures r.Some? ==> c == W.Some(r.value.Letter())
    ensures forall x: ImpactLevel :: c == W.Some(x.Letter()) ==> r == W.Some(x)
  {
    if c == W.Some('N') then W.Some(None)
    else if c == W.Some('L') then W.Some(Low)
    else if c == W.Some('H') then W.Some(High)
    else W.None
  }

  /**
   * `from_str` of VC, VI and VA: upper-case, read the letter after the first key;
   * exactly N, L and H are accepted. A missing key or any other letter is InvalidCVSS.
   */
  function FromStr(m: VulnerableMetric, s: string): (r: W.Result<ImpactLevel, CvssError>)
    ensures r.Success? ==> KeyedLetter(s, m.Name(), true) == W.Success(W.Some(r.value.Letter()))
    ensures forall x: ImpactLevel :: KeyedLetter(s, m.Name(), true) == W.Success(W.Some(x.Letter())) ==> r == W.Success(x)
    ensures KeyedLetter(s, m.Name(), true).Failure? ==> r == W.Failure(InvalidCvss(m.Name(), Upper(s), m.Name()))
    ensures KeyedLetter(s, m.Name(), true).Success? && r.Failure? ==>
              r.error == InvalidCvss(m.Name(), DebugChar(KeyedLetter(s, m.Name(), true).value), "N,L,H")
  {
    var c :- KeyedLetter(s, m.Name(), true);
    match FromLetter(c)
    case Some(x) => W.Success(x)
    case None => W.Failure(InvalidCvss(m.Name(), DebugChar(c), "N,L,H"))
  }

  /** Parsing the Display of a value gives the value back, for each metric of the group. */
  lemma FromStrToString(m: VulnerableMetric, x: ImpactLevel)
    ensures FromStr(m, ToString(m, x)) == W.Success(x)
  {
    KeyedLetterOfField(m.Name(), x.AsStr(), true);
  }

  /** `is_high` and `is_none` never both hold, and scores fall as the impact rises. */
  lemma ScoreOrder(x: ImpactLevel)
    ensures !(x.IsHigh() && x.IsNone())
    ensures None.Score() > Low.Score() > High.Score()
  {
  }

  datatype VulnerableImpact = VulnerableImpact(confidentiality: ImpactLevel, integrity: ImpactLevel,
                                               availability: ImpactLevel)

  /** `all_none`: no impact on the vulnerable system at all. */
  function AllNone(v: VulnerableImpact): (r: bool)
    ensures r <==> v == VulnerableImpact(None, None, None)
  {
    v.confidentiality.IsNone() && v.integrity.IsNone() && v.availability.IsNone()
  }

  /**
   * EQ3 of the v4 macro vector. The source's chain of three `if`s always
   * answers: 0 when VC and VI are both High, 2 when none of the three is
   * High, and 1 otherwise.
   */
  function Eq3(v: VulnerableImpact): (r: W.Option<nat>)
    ensures r.Some? && r.value <= 2
    ensures r == W.Some(0) <==> v.confidentiality.IsHigh() && v.integrity.IsHigh()
    ensures r == W.Some(2) <==> !(v.confidentiality.IsHigh() || v.integrity.IsHigh() || v.availability.IsHigh())
  {
    var (c, i, a) := (v.confidentiality.IsHigh(), v.integrity.IsHigh(), v.availability.IsHigh());
    if c && i then W.Some(0)
    else if !(c && i) && (c || i || a) then W.Some(1)
    else if !(c || i || a) then W.Some(2)
    else W.None
  }
}

/** CVSS v4.0 environmental security requirements: CR, IR and AR. */
module V4Environmental {
  import W = Wrappers
  import opened Text
  import opened CvssCommon
  import Metric
  import MetricV4

  datatype Requirement = NotDefined | High | Medium | Low {
    /** Only High is High: NotDefined is not, although it scores the same. */
    predicate IsHigh() {
      High?
    }

    /** Score in tenths: NotDefined 0.0, High 0.0, Medium 0.1, Low 0.2. */
    function Score(): nat {
      match this
      case NotDefined => 0
      case High => 0
      case Medium => 1
      case Low => 2
    }

    /** The one-letter abbreviation. */
    function Letter(): char {
      match this
      case NotDefined => 'X'
      case High => 'H'
      case Medium => 'M'
      case Low => 'L'
    }

    /** `as_str`. */
    function AsStr(): string {
      [Letter()]
    }
  }

  /** Which of the three requirements a value belongs to; it decides the key. */
  datatype RequirementMetric = Confidentiality | Integrity | Availability {
    function Name(): string {
      match this
      case Confidentiality => "CR"
      case Integrity => "IR"
      case Availability => "AR"
    }
  }

  /** `Metric::name()` for each metric's TYPE yields its key. */
  lemma KeyFromTable()
    ensures Confidentiality.Name() == Metric.V4(MetricV4.CR).Name()
    ensures Integrity.Name() == Metric.V4(MetricV4.IR).Name()
    ensures Availability.Name() == Metric.V4(MetricV4.AR).Name()
  {
  }

  /** Display: the metric's key, a colon and the letter. */
  function ToString(m: RequirementMetric, x: Requirement): string {
    m.Name() + ":" + x.AsStr()
  }

  /** The value a letter stands for; any other letter, or none, stands for nothing. */
  function FromLetter(c: W.Option<char>): (r: W.Option<Requirement>)
    ensures r.Some? ==> c == W.Some(r.value.Letter())
    ensures forall x: Requirement :: c == W.Some(x.Letter()) ==> r == W.Some(x)
  {
    if c == W.Some('L') then W.Some(Low)
    else if c == W.Some('M') then W.Some(Medium)
    else if c == W.Some('H') then W.Some(High)
    else if c == W.Some('X') then W.Some(NotDefined)
    else W.None
  }

  /**
   * `from_str` of CR, IR and AR: upper-case, read the letter after the first key;
   * exactly L, M, H and X (NotDefined) are accepted, although the error names only
   * "L,H" as expected.
   */
  function FromStr(m: RequirementMetric, s: string): (r: W.Result<Requirement, CvssError>)
    ensures r.Success? ==> KeyedLetter(s, m.Name(), true) == W.Success(W.Some(r.value.Letter()))
    ensures forall x: Requirement :: KeyedLetter(s, m.Name(), true) == W.Success(W.Some(x.Letter())) ==> r == W.Success(x)
    ensures KeyedLetter(s, m.Name(), true).Failure? ==> r == W.Failure(InvalidCvss(m.Name(), Upper(s), m.Name()))
    ensures KeyedLetter(s, m.Name(), true).Success? && r.Failure? ==>
              r.error == InvalidCvss(m.Name(), DebugChar(KeyedLetter(s, m.Name(), true).value), "L,H")
  {
    var c :- KeyedLetter(s, m.Name(), true);
    match FromLetter(c)
    case Some(x) => W.Success(x)
    case None => W.Failure(InvalidCvss(m.Name(), DebugChar(c), "L,H"))
  }

  /** Parsing the Display of a value gives the value back, for each metric of the group. */
  lemma FromStrToString(m: RequirementMetric, x: Requirement)
    ensures FromStr(m, ToString(m, x)) == W.Success(x)
  {
    assert IsUpper(m.Name() + ":" + x.AsStr()) by {
      match m
      case Confidentiality =>
      case Integrity =>
      case Availability =>
    }
    KeyedLetterOfField(m.Name(), x.AsStr(), true);
    assert FirstChar(x.AsStr()) == W.Some(x.Letter());
  }

  /** `is_high` holds for High alone; scores: NotDefined = High < Medium < Low. */
  lemma ScoreOrder(x: Requirement)
    ensures x.IsHigh() <==> x == High
    ensures NotDefined.Score() == High.Score() < Medium.Score() < Low.Score()
  {
  }

  /** Each requirement defaults to High. */
  const DefaultRequirement: Requirement := High

  datatype Environmental = Environmental(confidentiality: Requirement, integrity: Requirement,
                                         availability: Requirement)

  /** `Environmental::default`: all three requirements High. */
  const Default: Environmental := Environmental(DefaultRequirement, DefaultRequirement, DefaultRequirement)
}

/** CVSS v4.0 Attack Vector (AV). Its source file is not part of this model; the enum and parser here follow the pattern of the other v4 metrics modelled in this file. */
module V4AttackVector {
  import W = Wrappers
  import opened Text
  import opened CvssCommon
  import Metric
  import MetricV4

  /** The key: the `AV` acronym of the `MetricTypeV4` table (see KeyFromTable). */
  const NAME: string := "AV"

  /** `Metric::name()` for this metric's TYPE yields the key. */
  lemma KeyFromTable()
    ensures NAME == Metric.V4(MetricV4.AV).Name()
  {
  }

  datatype AttackVector = Network | Adjacent | Local | Physical {
    predicate IsNetwork() {
      Network?
    }

    predicate IsPhysical() {
      Physical?
    }

    /** The one-letter abbreviation. */
    function Letter(): char {
      match this
      case Network => 'N'
      case Adjacent => 'A'
      case Local => 'L'
      case Physical => 'P'
    }

    /** `as_str`. */
    function AsStr(): string {
      [Letter()]
    }

    /** Display: the key, a colon and the letter. */
    function ToString(): string {
      NAME + ":" + AsStr()
    }
  }

  /** The value a letter stands for; any other letter, or none, stands for nothing. */
  function FromLetter(c: W.Option<char>): (r: W.Option<AttackVector>)
    ensures r.Some? ==> c == W.Some(r.value.Letter())
    ensures forall x: AttackVector :: c == W.Some(x.Letter()) ==> r == W.Some(x)
  {
    if c == W.Some('N') then W.Some(Network)
    else if c == W.Some('A') then W.Some(Adjacent)
    else if c == W.Some('L') then W.Some(Local)
    else if c == W.Some('P') then W.Some(Physical)
    else W.None
  }

  /** `from_str`: upper-case, read the letter after the first "AV:"; exactly N, A, L and P are accepted. */
  function FromStr(s: string): (r: W.Result<AttackVector, CvssError>)
    ensures r.Success? ==> KeyedLetter(s, NAME, true) == W.Success(W.Some(r.value.Letter()))
    ensures forall x: AttackVector :: KeyedLetter(s, NAME, true) == W.Success(W.Some(x.Letter())) ==> r == W.Success(x)
    ensures KeyedLetter(s, NAME, true).Failure? ==> r == W.Failure(InvalidCvss(NAME, Upper(s), NAME))
    ensures KeyedLetter(s, NAME, true).Success? && r.Failure? ==>
              r.error == InvalidCvss(NAME, DebugChar(KeyedLetter(s, NAME, true).value), "N,A,L,P")
  {
    var c :- KeyedLetter(s, NAME, true);
    match FromLetter(c)
    case Some(x) => W.Success(x)
    case None => W.Failure(InvalidCvss(NAME, DebugChar(c), "N,A,L,P"))
  }

  /** Parsing the Display of a value gives the value back. */
  lemma FromStrToString(x: AttackVector)
    ensures FromStr(x.ToString()) == W.Success(x)
  {
    assert IsUpper(NAME + ":" + x.AsStr());
    KeyedLetterOfField(NAME, x.AsStr(), true);
    assert KeyedLetter(x.ToString(), NAME, true) == W.Success(W.Some(x.Letter()));
  }

}

/** CVSS v4.0 Subsequent System impact: SC, SI and SA. Its source file is not part of this model; the enums follow the Vulnerable System ones modelled in this file. */
module V4SubsequentImpact {
  import W = Wrappers
  import opened Text
  import opened CvssCommon
  import Metric
  import MetricV4

  datatype ImpactLevel = High | Low | None {
    predicate IsNone() {
      None?
    }

    /** The one-letter abbreviation. */
    function Letter(): char {
      match this
      case High => 'H'
      case Low => 'L'
      case None => 'N'
    }

    /** `as_str`. */
    function AsStr(): string {
      [Letter()]
    }
  }

  /** Which of the three metrics a value belongs to; it decides the key. */
  datatype SubsequentMetric = Confidentiality | Integrity | Availability {
    function Name(): string {
      match this
      case Confidentiality => "SC"
      case Integrity => "SI"
      case Availability => "SA"
    }
  }

  /** `Metric::name()` for each metric's TYPE yields its key. */
  lemma KeyFromTable()
    ensures Confidentiality.Name() == Metric.V4(MetricV4.SC).Name()
    ensures Integrity.Name() == Metric.V4(MetricV4.SI).Name()
    ensures Availability.Name() == Metric.V4(MetricV4.SA).Name()
  {
  }

  /** Display: the metric's key, a colon and the letter. */
  function ToString(m: SubsequentMetric, x: ImpactLevel): string {
    m.Name() + ":" + x.AsStr()
  }

  /** The value a letter stands for; any other letter, or none, stands for nothing. */
  function FromLetter(c: W.Option<char>): (r: W.Option<ImpactLevel>)
    ensures r.Some? ==> c == W.Some(r.value.Letter())
    ensures forall x: ImpactLevel :: c == W.Some(x.Letter()) ==> r == W.Some(x)
  {
    if c == W.Some('N') then W.Some(None)
    else if c == W.Some('L') then W.Some(Low)
    else if c == W.Some('H') then W.Some(High)
    else W.None
  }

  /** `from_str` of SC, SI and SA: upper-case, read the letter after the first key; exactly N, L and H are accepted. */
  function FromStr(m: SubsequentMetric, s: string): (r: W.Result<ImpactLevel, CvssError>)
    ensures r.Success? ==> KeyedLetter(s, m.Name(), true) == W.Success(W.Some(r.value.Letter()))
    ensures forall x: ImpactLevel :: KeyedLetter(s, m.Name(), true) == W.Success(W.Some(x.Letter())) ==> r == W.Success(x)
    ensures KeyedLetter(s, m.Name(), true).Failure? ==> r == W.Failure(InvalidCvss(m.Name(), Upper(s), m.Name()))
    ensures KeyedLetter(s, m.Name(), true).Success? && r.Failure? ==>
              r.error == InvalidCvss(m.Name(), DebugChar(KeyedLetter(s, m.Name(), true).value), "N,L,H")
  {
    var c :- KeyedLetter(s, m.Name(), true);
    match FromLetter(c)
    case Some(x) => W.Success(x)
    case None => W.Failure(InvalidCvss(m.Name(), DebugChar(c), "N,L,H"))
  }

  /** Parsing the Display of a value gives the value back, for each metric of the group. */
  lemma FromStrToString(m: SubsequentMetric, x: ImpactLevel)
    ensures FromStr(m, ToString(m, x)) == W.Success(x)
  {
    KeyedLetterOfField(m.Name(), x.AsStr(), true);
  }


  datatype SubsequentImpact = SubsequentImpact(confidentiality: ImpactLevel, integrity: ImpactLevel,
                                               availability: ImpactLevel)

  /** No impact on subsequent systems at all. */
  function AllNone(v: SubsequentImpact): (r: bool)
    ensures r <==> v == SubsequentImpact(None, None, None)
  {
    v.confidentiality.IsNone() && v.integrity.IsNone() && v.availability.IsNone()
  }
}

/** CVSS v4.0 Exploit Maturity (E). Its source file is not part of this model; the letters are those of the CVSS v4.0 specification. */
module V4ExploitMaturity {
  import W = Wrappers
  import opened Text
  import opened CvssCommon
  import Metric
  import MetricV4

  /** The key: the `E` acronym of the `MetricTypeV4` table (see KeyFromTable). */
  const NAME: string := "E"

  /** `Metric::name()` for this metric's TYPE yields the key. */
  lemma KeyFromTable()
    ensures NAME == Metric.V4(MetricV4.E).Name()
  {
  }

  datatype ExploitMaturity = NotDefined | Attacked | POC | Unreported {
    /** The one-letter abbreviation. */
    function Letter(): char {
      match this
      case NotDefined => 'X'
      case Attacked => 'A'
      case POC => 'P'
      case Unreported => 'U'
    }

    /** `as_str`. */
    function AsStr(): string {
      [Letter()]
    }

    /** Display: the key, a colon and the letter. */
    function ToString(): string {
      NAME + ":" + AsStr()
    }
  }

  /** The value a letter stands for; any other letter, or none, stands for nothing. */
  function FromLetter(c: W.Option<char>): (r: W.Option<ExploitMaturity>)
    ensures r.Some? ==> c == W.Some(r.value.Letter())
    ensures forall x: ExploitMaturity :: c == W.Some(x.Letter()) ==> r == W.Some(x)
  {
    if c == W.Some('X') then W.Some(NotDefined)
    else if c == W.Some('A') then W.Some(Attacked)
    else if c == W.Some('P') then W.Some(POC)
    else if c == W.Some('U') then W.Some(Unreported)
    else W.None
  }

  /** `from_str`: upper-case, read the letter after the first "E:"; exactly X, A, P and U are accepted. */
  function FromStr(s: string): (r: W.Result<ExploitMaturity, CvssError>)
    ensures r.Success? ==> KeyedLetter(s, NAME, true) == W.Success(W.Some(r.value.Letter()))
    ensures forall x: ExploitMaturity :: KeyedLetter(s, NAME, true) == W.Success(W.Some(x.Letter())) ==> r == W.Success(x)
    ensures KeyedLetter(s, NAME, true).Failure? ==> r == W.Failure(InvalidCvss(NAME, Upper(s), NAME))
    ensures KeyedLetter(s, NAME, true).Success? && r.Failure? ==>
              r.error == InvalidCvss(NAME, DebugChar(KeyedLetter(s, NAME, true).value), "X,A,P,U")
  {
    var c :- KeyedLetter(s, NAME, true);
    match FromLetter(c)
    case Some(x) => W.Success(x)
    case None => W.Failure(InvalidCvss(NAME, DebugChar(c), "X,A,P,U"))
  }

  /** Parsing the Display of a value gives the value back. */
  lemma FromStrToString(x: ExploitMaturity)
    ensures FromStr(x.ToString()) == W.Success(x)
  {
    assert IsUpper(NAME + ":" + x.AsStr());
    KeyedLetterOfField(NAME, x.AsStr(), true);
    assert KeyedLetter(x.ToString(), NAME, true) == W.Success(W.Some(x.Letter()));
  }


  /** The value a vector without a usable "E:" field takes. */
  const Default: ExploitMaturity := NotDefined
}
