/**
 * CPE 2.3 logical attribute values (section 5.3 of NISTIR 7695): ANY ("*"),
 * NA ("-") or a value, and the part letter.
 */
module CpeComponent {
  /** A CPE attribute value. */
  datatype Component = Any | NA | Value(text: string) {
    /** Display: "*", "-" or the text itself. */
    function ToString(): string {
      match this
      case Any => "*"
      case NA => "-"
      case Value(v) => v
    }

    /** `matches`: ANY matches everything, NA nothing, a value only itself. */
    predicate Matches(val: string) {
      match this
      case Any => true
      case NA => false
      case Value(v) => v == val
    }
  }

  /** The default is ANY. */
  const Default: Component := Any

  /** `from_str`, also Deserialize: never fails; "*" is ANY, "-" is NA, anything else a value. */
  function FromStr(s: string): (r: Component)
    ensures r.Any? <==> s == "*"
    ensures r.NA? <==> s == "-"
    ensures r.Value? ==> r.text == s
  {
    match s
    case "*" => Any
    case "-" => NA
    case _ => Value(s)
  }

  /**
   * Display inverts `from_str` exactly: every text reads back as itself, and
   * every component reads back from its Display unless it is a value spelled
   * "*" or "-".
   */
  lemma FromStrToString(c: Component, s: string)
    ensures FromStr(s).ToString() == s
    ensures FromStr(c.ToString()) == c <==> c != Value("*") && c != Value("-")
  {
  }

  /** Exactly one of `is_any`, `is_na` and `is_value` holds. */
  lemma ExactlyOneKind(c: Component)
    ensures (c.Any? && !c.NA? && !c.Value?) || (!c.Any? && c.NA? && !c.Value?) || (!c.Any? && !c.NA? && c.Value?)
  {
  }

  /** `matches` agrees with reading the candidate: ANY always, NA never, a value iff equal. */
  lemma MatchesCharacterised(c: Component, val: string)
    ensures c.Matches(val) <==> c.Any? || (c.Value? && c.text == val)
    ensures c.Value? ==> (c.Matches(val) <==> c.ToString() == val)
  {
  }
}

/**
 * The CPE language attribute. A well-formed language tag is recognised by a
 * parser this model does not contain, so the recogniser is a parameter.
 */
module CpeLanguage {
  datatype Language = Any | NA | Value(text: string) | Tag(tag: string) {
    /** Display: "*", "-", the unrecognised text, or the tag's text. */
    function ToString(): string {
      match this
      case Any => "*"
      case NA => "-"
      case Value(v) => v
      case Tag(t) => t
    }
  }

  /** The default is ANY. */
  const Default: Language := Any

  /**
   * `from_str`, also Deserialize: a recognised language tag first; otherwise
   * "*" is ANY, "-" is NA and anything else a plain value. Never fails.
   */
  function FromStr(s: string, isTag: string -> bool): (r: Language)
    ensures isTag(s) <==> r.Tag?
    ensures r.Tag? ==> r.tag == s
    ensures r.Any? <==> !isTag(s) && s == "*"
    ensures r.NA? <==> !isTag(s) && s == "-"
    ensures r.Value? ==> r.text == s
  {
    if isTag(s) then Tag(s)
    else match s
      case "*" => Any
      case "-" => NA
      case _ => Value(s)
  }

  /**
   * Every text reads back as itself; a value read back is the same value
   * exactly when the recogniser classifies its Display the same way.
   */
  lemma FromStrToString(l: Language, s: string, isTag: string -> bool)
    ensures FromStr(s, isTag).ToString() == s
    ensures l.Tag? ==> (FromStr(l.ToString(), isTag) == l <==> isTag(l.tag))
    ensures l.Value? ==> (FromStr(l.ToString(), isTag) == l <==> !isTag(l.text) && l.text != "*" && l.text != "-")
    ensures (l.Any? || l.NA?) ==> (FromStr(l.ToString(), isTag) == l <==> !isTag(l.ToString()))
  {
  }
}

/** The errors the CPE parsers report. */
module CpeErrors {
  datatype CpeError = InvalidPrefix(value: string) | InvalidPart(value: string) | InvalidUri(value: string)
                    | InvalidWfn(value: string)
}

/** The CPE part: application, operating system, hardware, or ANY. */
module CpePart {
  import opened Wrappers
  import opened Text
  import opened CpeErrors

  datatype Part = Any | Hardware | OperatingSystem | Application {
    /** Display; ANY prints "*" in the alternate form (used by the name binding) and "ANY" otherwise. */
    function ToString(alternate: bool): string {
      match this
      case Hardware => "h"
      case OperatingSystem => "o"
      case Application => "a"
      case Any => if alternate then "*" else "ANY"
    }
  }

  /** The default is ANY. */
  const Default: Part := Any

  /**
   * `from_str`: only the first character counts; h, o and a are the three
   * parts. Empty text is InvalidPart carrying the text; any other first
   * character is InvalidPart carrying that character.
   */
  function FromStr(s: string): (r: Result<Part, CpeError>)
    ensures s == [] ==> r == Failure(InvalidPart([]))
    ensures s != [] && s[0] == 'h' <==> r == Success(Hardware)
    ensures s != [] && s[0] == 'o' <==> r == Success(OperatingSystem)
    ensures s != [] && s[0] == 'a' <==> r == Success(Application)
    ensures s != [] && s[0] !in "hoa" ==> r == Failure(InvalidPart([s[0]]))
    ensures r.Success? ==> r.value != Any
  {
    match FirstChar(s)
    case None => Failure(InvalidPart(s))
    case Some(c) =>
      if c == 'h' then Success(Hardware)
      else if c == 'o' then Success(OperatingSystem)
      else if c == 'a' then Success(Application)
      else Failure(InvalidPart([c]))
  }

  /** The three concrete parts read back from either Display; ANY never does. */
  lemma FromStrToString(p: Part, alternate: bool)
    ensures p != Any ==> FromStr(p.ToString(alternate)) == Success(p)
    ensures p == Any ==> FromStr(p.ToString(alternate)).Failure?
  {
  }

  /** Deserialize: exactly "h", "o" or "a" names a part; any other text is ANY, never an error. */
  function Deserialize(s: string): (r: Part)
    ensures r != Any <==> s in {"h", "o", "a"}
    ensures r != Any ==> r.ToString(true) == s
  {
    match s
    case "h" => Hardware
    case "o" => OperatingSystem
    case "a" => Application
    case _ => Any
  }

  /** `from_str` looks past the first character, Deserialize does not: "app" is an application only to `from_str`. */
  lemma ParseVersusDeserialize()
    ensures FromStr("app") == Success(Application)
    ensures Deserialize("app") == Any
  {
  }
}
