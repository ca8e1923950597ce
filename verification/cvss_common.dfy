/**
 * Pieces every CVSS metric parser shares: the error type and the
 * "find `KEY:` and read one letter" reader behind every metric's `from_str`.
 */
module CvssCommon {
  import opened Wrappers
  import opened Text

  /** The errors a CVSS parser reports. */
  datatype CvssError =
    | InvalidPrefix(value: string)
    | InvalidCvss(key: string, value: string, expected: string)
    | InvalidCvssVersion(value: string, expected: string)
    | UnknownMetric(name: string)

  /** The text a parser searches: upper-cased when the parser calls `to_uppercase`. */
  function Fold(s: string, upcase: bool): string {
    if upcase then Upper(s) else s
  }

  /** Rust's `as u32` on a float already truncated toward zero: negatives become 0, large values saturate. */
  function SaturateU32(x: int): (r: nat)
    ensures r <= 0xFFFF_FFFF
    ensures 0 <= x <= 0xFFFF_FFFF ==> r == x
    ensures x < 0 ==> r == 0
    ensures x > 0xFFFF_FFFF ==> r == 0xFFFF_FFFF
  {
    if x < 0 then 0 else if x > 0xFFFF_FFFF then 0xFFFF_FFFF else x
  }

  /** The error of a failed parse, if any. */
  function ErrorOf<T>(x: Result<T, CvssError>): (r: Option<CvssError>)
    ensures r.Some? <==> x.Failure?
    ensures x.Failure? ==> r == Some(x.error)
  {
    if x.Failure? then Some(x.error) else None
  }

  /** One lower-case hexadecimal digit. */
  function HexDigit(d: nat): char
    requires d < 16
  {
    "0123456789abcdef"[d]
  }

  /** The value of a hexadecimal digit, if it is one. */
  function HexValue(c: char): (r: Option<nat>)
    ensures r.Some? ==> r.value < 16
  {
    if '0' <= c <= '9' then Some(c as int - '0' as int)
    else if 'a' <= c <= 'f' then Some(c as int - 'a' as int + 10)
    else None
  }

  /** `{:x}`: lower-case hexadecimal without leading zeros. */
  function LowerHex(n: nat): (r: string)
    ensures |r| >= 1
  {
    if n < 16 then [HexDigit(n)] else LowerHex(n / 16) + [HexDigit(n % 16)]
  }

  /** Reads a non-empty run of hexadecimal digits. */
  function ParseHex(s: string): (r: Option<nat>)
  {
    if |s| == 0 then None
    else if |s| == 1 then HexValue(s[0])
    else
      match (ParseHex(s[..|s| - 1]), HexValue(s[|s| - 1]))
      case (Some(high), Some(low)) => Some(16 * high + low)
      case _ => None
  }

  /** Reading the hexadecimal Display of a number gives the number back. */
  lemma {:induction false} ParseLowerHex(n: nat)
    ensures ParseHex(LowerHex(n)) == Some(n)
  {
    if n >= 16 {
      ParseLowerHex(n / 16);
      var h := LowerHex(n / 16) + [HexDigit(n % 16)];
      assert h[..|h| - 1] == LowerHex(n / 16);
      assert HexValue(h[|h| - 1]) == Some(n % 16);
    } else {
      assert HexValue(HexDigit(n)) == Some(n);
    }
  }

  /** The characters `escape_debug` writes as a `\u{..}` code: the C0 and C1 controls without a named escape. */
  predicate IsControl(c: char) {
    c as int < 0x20 || 0x7F <= c as int <= 0x9F
  }

  /** The characters `escape_debug` writes as a backslash and one letter. */
  predicate HasNamedEscape(c: char) {
    c == '\0' || c == '\t' || c == '\r' || c == '\n' || c == '\\' || c == '\''
  }

  /**
   * Rust's `char::escape_debug` as `{:?}` applies it to a `char`: the named
   * escapes for NUL, tab, CR, LF, backslash and the single quote, `\u{hex}`
   * for the other control characters, and the character itself otherwise.
   */
  function EscapeDebug(c: char): (r: string)
    ensures HasNamedEscape(c) ==> |r| == 2 && r[0] == '\\'
    ensures !HasNamedEscape(c) && IsControl(c) ==> |r| >= 5 && r[..3] == "\\u{" && r[|r| - 1] == '}'
    ensures !HasNamedEscape(c) && !IsControl(c) ==> r == [c]
  {
    if c == '\0' then "\\0"
    else if c == '\t' then "\\t"
    else if c == '\r' then "\\r"
    else if c == '\n' then "\\n"
    else if c == '\\' then "\\\\"
    else if c == '\'' then "\\'"
    else if IsControl(c) then "\\u{" + LowerHex(c as int) + "}"
    else [c]
  }

  /** Reads back one escaped character: a plain character, a named escape or a `\u{hex}` code. */
  function Unescape(e: string): (r: Option<char>)
  {
    if |e| == 1 && e[0] != '\\' then Some(e[0])
    else if |e| == 2 && e[0] == '\\' then
      match e[1]
      case '0' => Some('\0')
      case 't' => Some('\t')
      case 'r' => Some('\r')
      case 'n' => Some('\n')
      case '\\' => Some('\\')
      case '\'' => Some('\'')
      case _ => None
    else if |e| >= 5 && e[..3] == "\\u{" && e[|e| - 1] == '}' then
      match ParseHex(e[3..|e| - 1])
      case Some(n) => if n < 0xD800 || 0xE000 <= n < 0x11_0000 then Some(n as char) else None
      case None => None
    else None
  }

  /** Escaping loses nothing: reading the escape back gives the character. */
  lemma UnescapeEscapeDebug(c: char)
    ensures Unescape(EscapeDebug(c)) == Some(c)
  {
    if !HasNamedEscape(c) && IsControl(c) {
      var e := EscapeDebug(c);
      assert e[3..|e| - 1] == LowerHex(c as int);
      ParseLowerHex(c as int);
    }
  }

  /** `format!("{:?}", c)` for a plain `char`: its escape between single quotes. */
  function DebugLetter(c: char): (r: string)
    ensures |r| >= 3 && r[0] == '\'' && r[|r| - 1] == '\''
    ensures Unescape(r[1..|r| - 1]) == Some(c)
    ensures !HasNamedEscape(c) && !IsControl(c) ==> r == ['\'', c, '\'']
  {
    var r := "'" + EscapeDebug(c) + "'";
    assert r[1..|r| - 1] == EscapeDebug(c);
    UnescapeEscapeDebug(c);
    r
  }

  /** `format!("{:?}", c)` for the `Option<char>` a parser read: `None`, or `Some(` the char's Debug `)`. */
  function DebugChar(c: Option<char>): (r: string)
    ensures c.None? ==> r == "None"
    ensures c.Some? ==> |r| >= 8 && r[..5] == "Some(" && r[|r| - 1] == ')' && Unescape(r[6..|r| - 2]) == Some(c.value)
  {
    match c
    case None => "None"
    case Some(ch) =>
      var r := "Some(" + DebugLetter(ch) + ")";
      assert r[6..|r| - 2] == DebugLetter(ch)[1..|DebugLetter(ch)| - 1];
      r
  }

  /** Different reads give different Debug texts, so an error's value names the offending character. */
  lemma DebugCharInjective(a: Option<char>, b: Option<char>)
    requires DebugChar(a) == DebugChar(b)
    ensures a == b
  {
    if a.Some? && b.Some? {
      assert DebugChar(a)[6..|DebugChar(a)| - 2] == DebugChar(b)[6..|DebugChar(b)| - 2];
    }
  }

  /**
   * The character right after the first `name:` of the searched text (None at
   * the end of the input); InvalidCVSS when `name:` does not occur at all.
   */
  function KeyedLetter(s: string, name: string, upcase: bool): (r: Result<Option<char>, CvssError>)
    ensures r.Failure? <==> forall j :: !OccursAt(Fold(s, upcase), name + ":", j)
    ensures r.Failure? ==> r.error == InvalidCvss(name, Fold(s, upcase), name)
  {
    match SplitOnce(Fold(s, upcase), name + ":")
    case None => Failure(InvalidCvss(name, Fold(s, upcase), name))
    case Some((_, v)) => Success(FirstChar(v))
  }

  /** A field written as `name:` followed by its value reads back the value's first letter. */
  lemma KeyedLetterOfField(name: string, rest: string, upcase: bool)
    requires upcase ==> IsUpper(name + ":" + rest)
    ensures KeyedLetter(name + ":" + rest, name, upcase) == Success(FirstChar(rest))
  {
    if upcase {
      UpperOfUpper(name + ":" + rest);
    }
    SplitOnceAtStart(name + ":", rest);
  }
}

/** The CVSS v4 metric acronyms (`MetricTypeV4`). */
module MetricV4 {
  import opened Wrappers
  import opened CvssCommon

  datatype MetricTypeV4 = AV | AC | AT | PR | UI | VC | VI | VA | SC | SI | SA | CR | IR | AR | E {
    /** The acronym; Display writes exactly this. */
    function Name(): string {
      match this
      case AC => "AC" case AT => "AT" case AV => "AV" case PR => "PR" case UI => "UI"
      case VC => "VC" case VI => "VI" case VA => "VA" case SC => "SC" case SI => "SI"
      case SA => "SA" case CR => "CR" case IR => "IR" case AR => "AR" case E => "E"
    }
  }

  /** `MetricTypeV4::from_str`: every acronym except "E", which the table omits. */
  function FromStr(s: string): (r: Result<MetricTypeV4, CvssError>)
    ensures r.Success? ==> r.value.Name() == s && r.value != E
    ensures r.Failure? ==> r.error == UnknownMetric(s)
  {
    match s
    case "AC" => Success(AC) case "AV" => Success(AV) case "VC" => Success(VC)
    case "VI" => Success(VI) case "VA" => Success(VA) case "SC" => Success(SC)
    case "SI" => Success(SI) case "SA" => Success(SA) case "PR" => Success(PR)
    case "AT" => Success(AT) case "UI" => Success(UI) case "CR" => Success(CR)
    case "IR" => Success(IR) case "AR" => Success(AR)
    case _ => Failure(UnknownMetric(s))
  }

  /** Distinct metrics have distinct acronyms, and parsing an acronym gives its metric back, except E. */
  lemma NamesRoundTrip(m: MetricTypeV4, n: MetricTypeV4)
    ensures m.Name() == n.Name() ==> m == n
    ensures FromStr(m.Name()) == if m == E then Failure(UnknownMetric("E")) else Success(m)
  {
  }
}

/** The CVSS v3 metric acronyms (`MetricTypeV3`). */
module MetricV3 {
  import opened Wrappers
  import opened CvssCommon

  datatype MetricTypeV3 = AV | AC | PR | UI | S | C | I | A {
    /** The acronym; Display writes exactly this. */
    function Name(): string {
      match this
      case AC => "AC" case AV => "AV" case PR => "PR" case S => "S"
      case UI => "UI" case C => "C" case I => "I" case A => "A"
    }
  }

  /** `MetricTypeV3::from_str`: exactly the eight acronyms. */
  function FromStr(s: string): (r: Result<MetricTypeV3, CvssError>)
    ensures r.Success? ==> r.value.Name() == s
    ensures r.Failure? ==> r.error == UnknownMetric(s)
  {
    match s
    case "A" => Success(A) case "AC" => Success(AC) case "AV" => Success(AV)
    case "C" => Success(C) case "I" => Success(I) case "PR" => Success(PR)
    case "S" => Success(S) case "UI" => Success(UI)
    case _ => Failure(UnknownMetric(s))
  }

  /** Distinct metrics have distinct acronyms and every acronym parses back. */
  lemma NamesRoundTrip(m: MetricTypeV3, n: MetricTypeV3)
    ensures m.Name() == n.Name() ==> m == n
    ensures FromStr(m.Name()) == Success(m)
  {
  }
}

/** The CVSS v2 metric acronyms (`MetricTypeV2`). */
module MetricV2 {
  import opened Wrappers
  import opened CvssCommon

  datatype MetricTypeV2 = AV | AC | Au | C | I | A {
    /** The acronym; Display writes exactly this. Note the mixed-case "Au". */
    function Name(): string {
      match this
      case A => "A" case AC => "AC" case AV => "AV" case C => "C" case I => "I" case Au => "Au"
    }
  }

  /** `MetricTypeV2::from_str`: exactly the six acronyms, case-sensitively. */
  function FromStr(s: string): (r: Result<MetricTypeV2, CvssError>)
    ensures r.Success? ==> r.value.Name() == s
    ensures r.Failure? ==> r.error == UnknownMetric(s)
  {
    match s
    case "A" => Success(A) case "AC" => Success(AC) case "AV" => Success(AV)
    case "C" => Success(C) case "I" => Success(I) case "Au" => Success(Au)
    case _ => Failure(UnknownMetric(s))
  }

  /** Distinct metrics have distinct acronyms, every acronym parses back, and "AU" is not one. */
  lemma NamesRoundTrip(m: MetricTypeV2, n: MetricTypeV2)
    ensures m.Name() == n.Name() ==> m == n
    ensures FromStr(m.Name()) == Success(m)
    ensures FromStr("AU") == Failure(UnknownMetric("AU"))
  {
  }
}

/** `MetricType`: which acronym table a metric takes its key from (`Metric::name()`). */
module Metric {
  import MetricV2
  import MetricV3
  import MetricV4

  datatype MetricType = V2(v2: MetricV2.MetricTypeV2) | V3(v3: MetricV3.MetricTypeV3) | V4(v4: MetricV4.MetricTypeV4) {
    /** `Metric::name()`: the acronym from the table the metric names. */
    function Name(): string {
      match this
      case V2(m) => m.Name()
      case V3(m) => m.Name()
      case V4(m) => m.Name()
    }
  }
}

/** The `CVSS:x.y` version tag. */
module CvssVersion {
  import opened Text

  datatype Version = None | V2_0 | V3_0 | V3_1 | V4_0 {
    /** Display: the version number, or "NONE". */
    function ToString(): string {
      match this
      case None => "NONE"
      case V2_0 => "2.0"
      case V3_0 => "3.0"
      case V3_1 => "3.1"
      case V4_0 => "4.0"
    }
  }

  /** The default version is None. */
  const Default: Version := None

  /**
   * `Version::from_str`: upper-case, drop one leading "CVSS:", then match the
   * number. Never an error: anything unrecognised is `None`.
   */
  function FromStr(s: string): (r: Version)
    ensures r != None ==> Upper(s) == r.ToString() || Upper(s) == "CVSS:" + r.ToString()
    ensures forall v: Version :: v != None && (Upper(s) == v.ToString() || Upper(s) == "CVSS:" + v.ToString()) ==> r == v
  {
    var u := Upper(s);
    var t := if StartsWith(u, "CVSS:") then StripPrefix(u, "CVSS:").GetOr([]) else u;
    match t
    case "2.0" => V2_0
    case "3.0" => V3_0
    case "3.1" => V3_1
    case "4.0" => V4_0
    case _ => None
  }

  /** Printing then parsing gives every version back, None included, with or without "CVSS:". */
  lemma FromStrToString(v: Version)
    ensures FromStr(v.ToString()) == v
    ensures v != None ==> FromStr("CVSS:" + v.ToString()) == v
  {
    UpperOfUpper(v.ToString());
    UpperOfUpper("CVSS:" + v.ToString());
    if v == None {
      assert !StartsWith("NONE", "CVSS:");
    }
  }
}
