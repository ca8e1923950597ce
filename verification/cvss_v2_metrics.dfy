/**
 * CVSS v2 base metrics. Each metric is a small enum with a letter (`as_str`),
 * a Display of `KEY:letter`, a parser and a score in thousandths.
 */
/** CVSS v2 Access Vector (AV). */
module V2AccessVector {
  import W = Wrappers
  import opened Text
  import opened CvssCommon
  import Metric
  import MetricV2

  /** The key: the `AV` acronym of the `MetricTypeV2` table (see KeyFromTable). */
  const NAME: string := "AV"

  /** `Metric::name()` for this metric's TYPE yields the key. */
  lemma KeyFromTable()
    ensures NAME == Metric.V2(MetricV2.AV).Name()
  {
  }

  datatype AccessVector = Network | AdjacentNetwork | Local {
    /** Score in thousandths: Network 1.0, AdjacentNetwork 0.646, Local 0.395. */
    function Score(): nat {
      match this
      case Network => 1000
      case AdjacentNetwork => 646
      case Local => 395
    }

    /** The one-letter abbreviation. */
    function Letter(): char {
      match this
      case Network => 'N'
      case AdjacentNetwork => 'A'
      case Local => 'L'
    }

    /** `as_str`. */
    function AsStr(): string {
      [Letter()]
    }

    /** Display: the key, a colon and the letter. */
    function ToString(): string {
      NAME + ":" + AsStr()
    }
  }

  /** The value a letter stands for; any other letter, or none, stands for nothing. */
  function FromLetter(c: W.Option<char>): (r: W.Option<AccessVector>)
    ensures r.Some? ==> c == W.Some(r.value.Letter())
    ensures forall x: AccessVector :: c == W.Some(x.Letter()) ==> r == W.Some(x)
  {
    if c == W.Some('N') then W.Some(Network)
    else if c == W.Some('A') then W.Some(AdjacentNetwork)
    else if c == W.Some('L') then W.Some(Local)
    else W.None
  }

  /**
   * `from_str`: upper-case, read the letter after the first "AV:"; exactly N, A and L
   * are accepted. A missing key or any other letter is InvalidCVSS.
   */
  function FromStr(s: string): (r: W.Result<AccessVector, CvssError>)
    ensures r.Success? ==> KeyedLetter(s, NAME, true) == W.Success(W.Some(r.value.Letter()))
    ensures forall x: AccessVector :: KeyedLetter(s, NAME, true) == W.Success(W.Some(x.Letter())) ==> r == W.Success(x)
    ensures KeyedLetter(s, NAME, true).Failure? ==> r == W.Failure(InvalidCvss(NAME, Upper(s), NAME))
    ensures KeyedLetter(s, NAME, true).Success? && r.Failure? ==>
              r.error == InvalidCvss(NAME, DebugChar(KeyedLetter(s, NAME, true).value), "N,A,L")
  {
    var c :- KeyedLetter(s, NAME, true);
    match FromLetter(c)
    case Some(x) => W.Success(x)
    case None => W.Failure(InvalidCvss(NAME, DebugChar(c), "N,A,L"))
  }

  /** Parsing the Display of a value gives the value back. */
  lemma FromStrToString(x: AccessVector)
    ensures FromStr(x.ToString()) == W.Success(x)
  {
    assert IsUpper(NAME + ":" + x.AsStr());
    KeyedLetterOfField(NAME, x.AsStr(), true);
    assert KeyedLetter(x.ToString(), NAME, true) == W.Success(W.Some(x.Letter()));
  }

  /** Scores fall strictly from Network to Local. */
  lemma ScoreOrder(x: AccessVector)
    ensures Network.Score() > AdjacentNetwork.Score() > Local.Score()
  {
  }
}

/** CVSS v2 Access Complexity (AC). */
module V2AccessComplexity {
  import W = Wrappers
  import opened Text
  import opened CvssCommon
  import Metric
  import MetricV2

  /** The key: the `AC` acronym of the `MetricTypeV2` table (see KeyFromTable). */
  const NAME: string := "AC"

  /** `Metric::name()` for this metric's TYPE yields the key. */
  lemma KeyFromTable()
    ensures NAME == Metric.V2(MetricV2.AC).Name()
  {
  }

  datatype AccessComplexity = High | Medium | Low {
    /** Score in thousandths: High 0.35, Medium 0.61, Low 0.71. */
    function Score(): nat {
      match this
      case High => 350
      case Medium => 610
      case Low => 710
    }

    /** The one-letter abbreviation. */
    function Letter(): char {
      match this
      case High => 'H'
      case Medium => 'M'
      case Low => 'L'
    }

    /** `as_str`. */
    function AsStr(): string {
      [Letter()]
    }

    /** Display: the key, a colon and the letter. */
    function ToString(): string {
      NAME + ":" + AsStr()
    }
  }

  /** The value a letter stands for; any other letter, or none, stands for nothing. */
  function FromLetter(c: W.Option<char>): (r: W.Option<AccessComplexity>)
    ensures r.Some? ==> c == W.Some(r.value.Letter())
    ensures forall x: AccessComplexity :: c == W.Some(x.Letter()) ==> r == W.Some(x)
  {
    if c == W.Some('H') then W.Some(High)
    else if c == W.Some('M') then W.Some(Medium)
    else if c == W.Some('L') then W.Some(Low)
    else W.None
  }

  /**
   * `from_str`: upper-case, read the letter after the first "AC:"; exactly H, M and L
   * are accepted. A missing key or any other letter is InvalidCVSS.
   */
  function FromStr(s: string): (r: W.Result<AccessComplexity, CvssError>)
    ensures r.Success? ==> KeyedLetter(s, NAME, true) == W.Success(W.Some(r.value.Letter()))
    ensures forall x: AccessComplexity :: KeyedLetter(s, NAME, true) == W.Success(W.Some(x.Letter())) ==> r == W.Success(x)
    ensures KeyedLetter(s, NAME, true).Failure? ==> r == W.Failure(InvalidCvss(NAME, Upper(s), NAME))
    ensures KeyedLetter(s, NAME, true).Success? && r.Failure? ==>
              r.error == InvalidCvss(NAME, DebugChar(KeyedLetter(s, NAME, true).value), "H,M,L")
  {
    var c :- KeyedLetter(s, NAME, true);
    match FromLetter(c)
    case Some(x) => W.Success(x)
    case None => W.Failure(InvalidCvss(NAME, DebugChar(c), "H,M,L"))
  }

  /** Parsing the Display of a value gives the value back. */
  lemma FromStrToString(x: AccessComplexity)
    ensures FromStr(x.ToString()) == W.Success(x)
  {
    assert IsUpper(NAME + ":" + x.AsStr());
    KeyedLetterOfField(NAME, x.AsStr(), true);
    assert KeyedLetter(x.ToString(), NAME, true) == W.Success(W.Some(x.Letter()));
  }

  /** Scores rise as the complexity falls. */
  lemma ScoreOrder(x: AccessComplexity)
    ensures High.Score() < Medium.Score() < Low.Score()
  {
  }
}

/** CVSS v2 Authentication (Au). */
module V2Authentication {
  import W = Wrappers
  import opened Text
  import opened CvssCommon
  import Metric
  import MetricV2

  /** The key: the `Au` acronym of the `MetricTypeV2` table (see KeyFromTable). */
  const NAME: string := "Au"

  /** `Metric::name()` for this metric's TYPE yields the key. */
  lemma KeyFromTable()
    ensures NAME == Metric.V2(MetricV2.Au).Name()
  {
  }

  datatype Authentication = Multiple | Single | None {
    /** Score in thousandths: Multiple 0.45, Single 0.56, None 0.704. */
    function Score(): nat {
      match this
      case Multiple => 450
      case Single => 560
      case None => 704
    }

    /** The one-letter abbreviation. */
    function Letter(): char {
      match this
      case Multiple => 'M'
      case Single => 'S'
      case None => 'N'
    }

    /** `as_str`. */
    function AsStr(): string {
      [Letter()]
    }

    /** Display: the key, a colon and the letter. */
    function ToString(): string {
      NAME + ":" + AsStr()
    }
  }

  /** The value a letter stands for; any other letter, or none, stands for nothing. */
  function FromLetter(c: W.Option<char>): (r: W.Option<Authentication>)
    ensures r.Some? ==> c == W.Some(r.value.Letter())
    ensures forall x: Authentication :: c == W.Some(x.Letter()) ==> r == W.Some(x)
  {
    if c == W.Some('M') then W.Some(Multiple)
    else if c == W.Some('S') then W.Some(Single)
    else if c == W.Some('N') then W.Some(None)
    else W.None
  }

  /**
   * `from_str`: read the letter after the first "Au:", case-sensitively (this parser
   * does not upper-case); exactly M, S and N are accepted. A missing key or any other
   * letter is InvalidCVSS.
   */
  function FromStr(s: string): (r: W.Result<Authentication, CvssError>)
    ensures r.Success? ==> KeyedLetter(s, NAME, false) == W.Success(W.Some(r.value.Letter()))
    ensures forall x: Authentication :: KeyedLetter(s, NAME, false) == W.Success(W.Some(x.Letter())) ==> r == W.Success(x)
    ensures KeyedLetter(s, NAME, false).Failure? ==> r == W.Failure(InvalidCvss(NAME, s, NAME))
    ensures KeyedLetter(s, NAME, false).Success? && r.Failure? ==>
              r.error == InvalidCvss(NAME, DebugChar(KeyedLetter(s, NAME, false).value), "M,S,N")
  {
    var c :- KeyedLetter(s, NAME, false);
    match FromLetter(c)
    case Some(x) => W.Success(x)
    case None => W.Failure(InvalidCvss(NAME, DebugChar(c), "M,S,N"))
  }

  /** Parsing the Display of a value gives the value back. */
  lemma FromStrToString(x: Authentication)
    ensures FromStr(x.ToString()) == W.Success(x)
  {
    KeyedLetterOfField(NAME, x.AsStr(), false);
    assert KeyedLetter(x.ToString(), NAME, false) == W.Success(W.Some(x.Letter()));
  }

  /** Scores rise as fewer authentications are needed. */
  lemma ScoreOrder(x: Authentication)
    ensures Multiple.Score() < Single.Score() < None.Score()
  {
  }
}

/**
 * CVSS v2 impact: Confidentiality (C), Integrity (I) and Availability (A).
 * The three share letters and scores, but not their parser: C and I take an
 * optional `KEY:` prefix off the front and read the first letter of what is
 * left, while A searches for "A:" like the other v2 metrics.
 */
module V2Impact {
  import W = Wrappers
  import opened Text
  import opened CvssCommon
  import Metric
  import MetricV2

  datatype ImpactType = None | Partial | Complete {
    /** Score in thousandths: None 0.0, Partial 0.275, Complete 0.66. */
    function Score(): nat {
      match this
      case None => 0
      case Partial => 275
      case Complete => 660
    }

    /** The one-letter abbreviation. */
    function Letter(): char {
      match this
      case None => 'N'
      case Partial => 'P'
      case Complete => 'C'
    }

    /** `as_str`. */
    function AsStr(): string {
      [Letter()]
    }
  }

  /** Which of the three metrics a value belongs to; it decides the key and the parser. */
  datatype ImpactMetric = Confidentiality | Integrity | Availability {
    function Name(): string {
      match this
      case Confidentiality => "C"
      case Integrity => "I"
      case Availability => "A"
    }
  }

  /** `Metric::name()` for each metric's TYPE yields its key. */
  lemma KeyFromTable()
    ensures Confidentiality.Name() == Metric.V2(MetricV2.C).Name()
    ensures Integrity.Name() == Metric.V2(MetricV2.I).Name()
    ensures Availability.Name() == Metric.V2(MetricV2.A).Name()
  {
  }

  /** Display: the metric's key, a colon and the letter. */
  function ToString(m: ImpactMetric, x: ImpactType): string {
    m.Name() + ":" + x.AsStr()
  }

  /** Scores rise strictly from None to Complete. */
  lemma ScoreOrder()
    ensures None.Score() < Partial.Score() < Complete.Score()
  {
  }

  /** The value a letter stands for; any other letter, or none, stands for nothing. */
  function FromLetter(c: W.Option<char>): (r: W.Option<ImpactType>)
    ensures r.Some? ==> c == W.Some(r.value.Letter())
    ensures forall x: ImpactType :: c == W.Some(x.Letter()) ==> r == W.Some(x)
  {
    if c == W.Some('N') then W.Some(None)
    else if c == W.Some('P') then W.Some(Partial)
    else if c == W.Some('C') then W.Some(Complete)
    else W.None
  }

  /**
   * What the C and I parsers read their letter from: the upper-cased input
   * without its leading `name:`. An input that starts with `name` but not with
   * `name:` leaves nothing; any other input is kept whole.
   */
  function Stripped(s: string, name: string): (r: string)
    ensures StartsWith(Upper(s), name + ":") ==> Upper(s) == name + ":" + r
    ensures StartsWith(Upper(s), name) && !StartsWith(Upper(s), name + ":") ==> r == []
    ensures !StartsWith(Upper(s), name) ==> r == Upper(s)
    ensures IsUpper(r)
  {
    var u := Upper(s);
    if StartsWith(u, name) then
      match StripPrefix(u, name + ":")
      case Some(rest) =>
        assert forall i :: 0 <= i < |rest| ==> rest[i] == u[|name| + 1 + i];
        rest
      case None => []
    else u
  }

  /**
   * `from_str` of C and I: the first letter of Stripped, which must be N, P or C.
   * Nothing left is InvalidCVSS carrying the (empty) rest; any other letter is
   * InvalidCVSS carrying that letter quoted.
   */
  function PrefixedFromStr(name: string, s: string): (r: W.Result<ImpactType, CvssError>)
    ensures r.Success? ==> FirstChar(Stripped(s, name)) == W.Some(r.value.Letter())
    ensures forall x: ImpactType :: FirstChar(Stripped(s, name)) == W.Some(x.Letter()) ==> r == W.Success(x)
    ensures Stripped(s, name) == [] ==> r == W.Failure(InvalidCvss(name, [], name))
    ensures Stripped(s, name) != [] && r.Failure? ==>
              r.error == InvalidCvss(name, DebugLetter(Stripped(s, name)[0]), "N,P,C")
  {
    var t := Stripped(s, name);
    UpperOfUpper(t);
    match FirstChar(Upper(t))
    case None => W.Failure(InvalidCvss(name, t, name))
    case Some(c) =>
      match FromLetter(W.Some(c))
      case Some(x) => W.Success(x)
      case None => W.Failure(InvalidCvss(name, DebugLetter(c), "N,P,C"))
  }

  /**
   * `from_str` of A: upper-case, read the letter after the first "A:"; exactly
   * N, P and C are accepted. A missing key or any other letter is InvalidCVSS.
   */
  function KeyedFromStr(s: string): (r: W.Result<ImpactType, CvssError>)
    ensures r.Success? ==> KeyedLetter(s, "A", true) == W.Success(W.Some(r.value.Letter()))
    ensures forall x: ImpactType :: KeyedLetter(s, "A", true) == W.Success(W.Some(x.Letter())) ==> r == W.Success(x)
    ensures KeyedLetter(s, "A", true).Failure? ==> r == W.Failure(InvalidCvss("A", Upper(s), "A"))
    ensures KeyedLetter(s, "A", true).Success? && r.Failure? ==>
              r.error == InvalidCvss("A", DebugChar(KeyedLetter(s, "A", true).value), "N,P,C")
  {
    var c :- KeyedLetter(s, "A", true);
    match FromLetter(c)
    case Some(x) => W.Success(x)
    case None => W.Failure(InvalidCvss("A", DebugChar(c), "N,P,C"))
  }

  /** The parser of each metric: prefix-stripping for C and I, key search for A. */
  function FromStr(m: ImpactMetric, s: string): W.Result<ImpactType, CvssError> {
    match m
    case Confidentiality => PrefixedFromStr("C", s)
    case Integrity => PrefixedFromStr("I", s)
    case Availability => KeyedFromStr(s)
  }

  /** Parsing the Display of a value gives the value back, for each of the three metrics. */
  lemma FromStrToString(m: ImpactMetric, x: ImpactType)
    ensures FromStr(m, ToString(m, x)) == W.Success(x)
  {
    var f := ToString(m, x);
    assert IsUpper(f);
    UpperOfUpper(f);
    if m.Availability? {
      KeyedLetterOfField("A", x.AsStr(), true);
    } else {
      assert StartsWith(f, m.Name() + ":");
      assert Stripped(f, m.Name()) == x.AsStr();
    }
  }

  /**
   * The two parser styles part ways on a bare letter: C and I accept one
   * (except C for Confidentiality, which starts with the key and so leaves
   * nothing), while A insists on finding "A:".
   */
  lemma BareLetter(x: ImpactType)
    ensures FromStr(Integrity, x.AsStr()) == W.Success(x)
    ensures x != Complete ==> FromStr(Confidentiality, x.AsStr()) == W.Success(x)
    ensures FromStr(Confidentiality, "C") == W.Failure(InvalidCvss("C", [], "C"))
    ensures FromStr(Availability, x.AsStr()) == W.Failure(InvalidCvss("A", x.AsStr(), "A"))
  {
    var u := x.AsStr();
    UpperOfUpper(u);
    assert !StartsWith(u, "I");
    if x != Complete {
      assert !StartsWith(u, "C");
    }
    UpperOfUpper("C");
    assert StartsWith("C", "C") && !StartsWith("C", "C:");
    assert !OccursAt(u, "A:", 0);
  }
}
