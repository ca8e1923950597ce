/**
 * CPE 2.3 names: the formatted-string binding (section 6.2 of NISTIR 7695),
 * its parse and print, the well-formed-name (WFN) reader of section 5, and the
 * product and version matchers. `CPEName` of the newer crate and
 * `CPEAttributes` of the older one are the same record; their URI parsers
 * differ only in the error a missing component gives.
 */
module CpeName {
  import opened Wrappers
  import opened Text
  import opened CpeErrors
  import C = CpeComponent
  import L = CpeLanguage
  import P = CpePart

  /** The eleven attributes, in binding order. */
  datatype CpeName = CpeName(part: P.Part, vendor: C.Component, product: C.Component, version: C.Component,
                             update: C.Component, edition: C.Component, language: L.Language,
                             swEdition: C.Component, targetSw: C.Component, targetHw: C.Component,
                             other: C.Component)

  /** The formatted-string prefix. */
  const Prefix: string := "cpe:2.3:"

  /** The eleven fields of Display, in order; the part in its alternate form. */
  function Fields(n: CpeName): (r: seq<string>)
    ensures |r| == 11
  {
    [n.part.ToString(true), n.vendor.ToString(), n.product.ToString(), n.version.ToString(),
     n.update.ToString(), n.edition.ToString(), n.language.ToString(), n.swEdition.ToString(),
     n.targetSw.ToString(), n.targetHw.ToString(), n.other.ToString()]
  }

  /** Display: the prefix, then the eleven fields joined by ':'. */
  function ToString(n: CpeName): string {
    Prefix + Join(Fields(n), ':')
  }

  /** The record whose part is `part` and whose other ten attributes are read from `cs[1..11]`. */
  function FromComponents(part: P.Part, cs: seq<string>, isTag: string -> bool): (r: CpeName)
    requires |cs| >= 11
    ensures r.part == part && r.language == L.FromStr(cs[6], isTag)
    ensures r.vendor == C.FromStr(cs[1]) && r.product == C.FromStr(cs[2]) && r.version == C.FromStr(cs[3])
    ensures r.update == C.FromStr(cs[4]) && r.edition == C.FromStr(cs[5]) && r.swEdition == C.FromStr(cs[7])
    ensures r.targetSw == C.FromStr(cs[8]) && r.targetHw == C.FromStr(cs[9]) && r.other == C.FromStr(cs[10])
  {
    CpeName(part, C.FromStr(cs[1]), C.FromStr(cs[2]), C.FromStr(cs[3]), C.FromStr(cs[4]), C.FromStr(cs[5]),
            L.FromStr(cs[6], isTag), C.FromStr(cs[7]), C.FromStr(cs[8]), C.FromStr(cs[9]), C.FromStr(cs[10]))
  }

  /**
   * The binding parse shared by both crates: strip the prefix, split the rest
   * on ':', read the part from the first piece and the ten other attributes
   * from the next ten. A part error wins over a short name; too few pieces is
   * `missing` applied to the text after the prefix; extra pieces are ignored.
   */
  function ParseUri(uri: string, isTag: string -> bool, missing: string -> CpeError): (r: Result<CpeName, CpeError>)
    ensures !StartsWith(uri, Prefix) ==> r == Failure(InvalidPrefix(uri))
    ensures StartsWith(uri, Prefix) ==>
              var u := uri[|Prefix|..];
              var cs := Split(u, ':');
              (P.FromStr(cs[0]).Failure? ==> r == Failure(P.FromStr(cs[0]).error))
              && (P.FromStr(cs[0]).Success? && |cs| < 11 ==> r == Failure(missing(u)))
              && (P.FromStr(cs[0]).Success? && |cs| >= 11 ==> r == Success(FromComponents(P.FromStr(cs[0]).value, cs, isTag)))
  {
    match StripPrefix(uri, Prefix)
    case None => Failure(InvalidPrefix(uri))
    case Some(u) =>
      assert u == uri[|Prefix|..];
      var cs := Split(u, ':');
      var part :- P.FromStr(cs[0]);
      if |cs| < 11 then Failure(missing(u)) else Success(FromComponents(part, cs, isTag))
  }

  /** `CPEName::from_uri` (also its `FromStr`): a short name is InvalidPart. */
  function FromUri(uri: string, isTag: string -> bool): (r: Result<CpeName, CpeError>)
    ensures r == ParseUri(uri, isTag, (u: string) => InvalidPart(u))
    ensures r.Failure? ==> r.error.InvalidPrefix? || r.error.InvalidPart?
  {
    ParseUri(uri, isTag, (u: string) => InvalidPart(u))
  }

  /**
   * `CPEAttributes::from_uri` (also its `FromStr` and `TryFrom`): a short name is
   * InvalidUri. Its own InvalidPart for a missing part cannot happen, since
   * splitting always yields a first piece: every InvalidPart it reports is
   * the part parser's, carrying at most one character.
   */
  function LegacyFromUri(uri: string, isTag: string -> bool): (r: Result<CpeName, CpeError>)
    ensures r == ParseUri(uri, isTag, (u: string) => InvalidUri(u))
    ensures r.Failure? && r.error.InvalidPart? ==> |r.error.value| <= 1
  {
    ParseUri(uri, isTag, (u: string) => InvalidUri(u))
  }

  /** The two crates' parsers agree except on the error for a short name. */
  lemma FromUriAgreement(uri: string, isTag: string -> bool)
    ensures FromUri(uri, isTag).Success? <==> LegacyFromUri(uri, isTag).Success?
    ensures FromUri(uri, isTag).Success? ==> FromUri(uri, isTag) == LegacyFromUri(uri, isTag)
    ensures FromUri(uri, isTag).Failure? && !FromUri(uri, isTag).error.InvalidPart? ==> FromUri(uri, isTag) == LegacyFromUri(uri, isTag)
  {
  }

  /** A component whose Display reads back as itself and holds no ':'. */
  predicate Printable(c: C.Component) {
    c != C.Value("*") && c != C.Value("-") && ':' !in c.ToString()
  }

  /**
   * The names Display can print faithfully: a concrete part, components that
   * are neither values spelled "*" or "-" nor hold a ':', and a language that
   * the tag recogniser classifies as it was built.
   */
  predicate Bindable(n: CpeName, isTag: string -> bool) {
    n.part != P.Any && L.FromStr(n.language.ToString(), isTag) == n.language && ':' !in n.language.ToString()
    && Printable(n.vendor) && Printable(n.product) && Printable(n.version) && Printable(n.update)
    && Printable(n.edition) && Printable(n.swEdition) && Printable(n.targetSw) && Printable(n.targetHw)
    && Printable(n.other)
  }

  /** No field of a bindable name holds the separator. */
  lemma FieldsNoColon(n: CpeName, isTag: string -> bool)
    requires Bindable(n, isTag)
    ensures forall k :: 0 <= k < |Fields(n)| ==> ':' !in Fields(n)[k]
  {
    var f := Fields(n);
    forall k | 0 <= k < |f| ensures ':' !in f[k] {
      if k == 0 {
        assert f[0] == n.part.ToString(true);
      }
    }
  }

  /** Reading the fields of a bindable name gives the name back. */
  lemma FromComponentsOfFields(n: CpeName, isTag: string -> bool)
    requires Bindable(n, isTag)
    ensures FromComponents(n.part, Fields(n), isTag) == n
  {
    C.FromStrToString(n.vendor, "");
    C.FromStrToString(n.product, "");
    C.FromStrToString(n.version, "");
    C.FromStrToString(n.update, "");
    C.FromStrToString(n.edition, "");
    C.FromStrToString(n.swEdition, "");
    C.FromStrToString(n.targetSw, "");
    C.FromStrToString(n.targetHw, "");
    C.FromStrToString(n.other, "");
  }

  /** The text after the prefix of a Display is the fields joined by ':'. */
  lemma AfterPrefix(n: CpeName, extra: string)
    ensures StartsWith(ToString(n), Prefix) && ToString(n)[|Prefix|..] == Join(Fields(n), ':')
    ensures var long := ToString(n) + ":" + extra;
            StartsWith(long, Prefix) && long[|Prefix|..] == Join(Fields(n), ':') + [':'] + extra
  {
  }

  /**
   * Binding then parsing a bindable name gives it back, with either crate's
   * parser, and anything appended after one more ':' is ignored.
   */
  lemma FromUriToString(n: CpeName, isTag: string -> bool, extra: string)
    requires Bindable(n, isTag)
    ensures FromUri(ToString(n), isTag) == Success(n)
    ensures LegacyFromUri(ToString(n), isTag) == Success(n)
    ensures FromUri(ToString(n) + ":" + extra, isTag) == Success(n)
  {
    var f := Fields(n);
    FieldsNoColon(n, isTag);
    SplitJoin(f, ':');
    P.FromStrToString(n.part, true);
    FromComponentsOfFields(n, isTag);
    AfterPrefix(n, extra);
    SplitAppend(Join(f, ':'), ':', extra);
    ParsesFrom(ToString(n), isTag, f, n);
    ParsesFrom(ToString(n) + ":" + extra, isTag, f + Split(extra, ':'), n);
  }

  /** A text whose pieces after the prefix start with the fields of `n` parses as `n`. */
  lemma ParsesFrom(uri: string, isTag: string -> bool, cs: seq<string>, n: CpeName)
    requires StartsWith(uri, Prefix) && Split(uri[|Prefix|..], ':') == cs
    requires |cs| >= 11 && P.FromStr(cs[0]) == Success(n.part) && FromComponents(n.part, cs, isTag) == n
    ensures FromUri(uri, isTag) == Success(n)
    ensures LegacyFromUri(uri, isTag) == Success(n)
  {
  }

  /** ANY as the part never survives binding: "*" is not a part letter. */
  lemma AnyPartNotBindable(n: CpeName, isTag: string -> bool)
    requires n.part == P.Any
    ensures FromUri(ToString(n), isTag) == Failure(InvalidPart("*"))
  {
    var f := Fields(n);
    AfterPrefix(n, "");
    assert f[0] == "*";
    assert Join(f, ':') == "*" + [':'] + Join(f[1..], ':');
    SplitCons("*", ':', Join(f[1..], ':'));
    assert Split(Join(f, ':'), ':')[0] == "*";
  }

  /** The eleven attributes of a well-formed name. */
  datatype Attribute = Part | Vendor | Product | Version | Update | Edition | Language
                     | SwEdition | TargetSw | TargetHw | Other
  {
    /** The attribute's key in a WFN. */
    function Name(): string {
      match this
      case Part => "part"
      case Vendor => "vendor"
      case Product => "product"
      case Version => "version"
      case Update => "update"
      case Edition => "edition"
      case Language => "language"
      case SwEdition => "sw_edition"
      case TargetSw => "target_sw"
      case TargetHw => "target_hw"
      case Other => "other"
    }
  }

  /** Every attribute: the set of keys a WFN must use exactly once. */
  const AllAttributes: set<Attribute> := {Part, Vendor, Product, Version, Update, Edition, Language,
                                          SwEdition, TargetSw, TargetHw, Other}

  lemma AllAttributesComplete(a: Attribute)
    ensures a in AllAttributes
  {
  }

  /** The attribute a key names, if it names one; different attributes have different keys. */
  function AttributeOf(k: string): (r: Option<Attribute>)
    ensures r.Some? ==> r.value.Name() == k
    ensures forall a: Attribute :: a.Name() == k ==> r == Some(a)
  {
    if k == "part" then Some(Part)
    else if k == "vendor" then Some(Vendor)
    else if k == "product" then Some(Product)
    else if k == "version" then Some(Version)
    else if k == "update" then Some(Update)
    else if k == "edition" then Some(Edition)
    else if k == "language" then Some(Language)
    else if k == "sw_edition" then Some(SwEdition)
    else if k == "target_sw" then Some(TargetSw)
    else if k == "target_hw" then Some(TargetHw)
    else if k == "other" then Some(Other)
    else None
  }

  /** A parsed attribute value: the part, the language, or one of the nine plain components. */
  datatype AttrValue = PartValue(p: P.Part) | ComponentValue(c: C.Component) | LanguageValue(l: L.Language)

  /** `av` is the kind of value attribute `a` holds. */
  predicate Fits(a: Attribute, av: AttrValue) {
    (a == Part <==> av.PartValue?) && (a == Language <==> av.LanguageValue?)
  }

  /**
   * The value of one `key=value` entry: the part parser for "part" (the only
   * one that can fail), the language reader for "language", the component
   * reader for the other nine keys; any other key is InvalidPart naming it.
   */
  function ParseAttr(k: string, v: string, isTag: string -> bool): (r: Result<(Attribute, AttrValue), CpeError>)
    ensures AttributeOf(k).None? ==> r == Failure(InvalidPart(k))
    ensures k == "part" && P.FromStr(v).Failure? ==> r == Failure(P.FromStr(v).error)
    ensures k == "part" && P.FromStr(v).Success? ==> r == Success((Part, PartValue(P.FromStr(v).value)))
    ensures k == "language" ==> r == Success((Language, LanguageValue(L.FromStr(v, isTag))))
    ensures AttributeOf(k).Some? && k != "part" && k != "language" ==>
              r == Success((AttributeOf(k).value, ComponentValue(C.FromStr(v))))
    ensures r.Success? ==> AttributeOf(k) == Some(r.value.0) && Fits(r.value.0, r.value.1)
    ensures r.Failure? ==> r.error.InvalidPart?
  {
    match AttributeOf(k)
    case None => Failure(InvalidPart(k))
    case Some(Part) =>
      var p :- P.FromStr(v);
      Success((Part, PartValue(p)))
    case Some(Language) => Success((Language, LanguageValue(L.FromStr(v, isTag))))
    case Some(a) => Success((a, ComponentValue(C.FromStr(v))))
  }

  /** The value attribute `a` of `n` holds. */
  function Attr(n: CpeName, a: Attribute): (r: AttrValue)
    ensures Fits(a, r)
  {
    match a
    case Part => PartValue(n.part)
    case Vendor => ComponentValue(n.vendor)
    case Product => ComponentValue(n.product)
    case Version => ComponentValue(n.version)
    case Update => ComponentValue(n.update)
    case Edition => ComponentValue(n.edition)
    case Language => LanguageValue(n.language)
    case SwEdition => ComponentValue(n.swEdition)
    case TargetSw => ComponentValue(n.targetSw)
    case TargetHw => ComponentValue(n.targetHw)
    case Other => ComponentValue(n.other)
  }

  /** `n` with attribute `a` set to `av`; no other attribute changes. */
  function SetAttr(n: CpeName, a: Attribute, av: AttrValue): (r: CpeName)
    requires Fits(a, av)
    ensures Attr(r, a) == av
    ensures forall b :: b != a ==> Attr(r, b) == Attr(n, b)
  {
    match a
    case Part => n.(part := av.p)
    case Vendor => n.(vendor := av.c)
    case Product => n.(product := av.c)
    case Version => n.(version := av.c)
    case Update => n.(update := av.c)
    case Edition => n.(edition := av.c)
    case Language => n.(language := av.l)
    case SwEdition => n.(swEdition := av.c)
    case TargetSw => n.(targetSw := av.c)
    case TargetHw => n.(targetHw := av.c)
    case Other => n.(other := av.c)
  }

  /** A name is fixed by its eleven attributes. */
  lemma AttrExtensional(n: CpeName, m: CpeName)
    requires forall a: Attribute :: Attr(n, a) == Attr(m, a)
    ensures n == m
  {
    assert Attr(n, Part) == Attr(m, Part) && Attr(n, Language) == Attr(m, Language);
    assert Attr(n, Vendor) == Attr(m, Vendor) && Attr(n, Product) == Attr(m, Product);
    assert Attr(n, Version) == Attr(m, Version) && Attr(n, Update) == Attr(m, Update);
    assert Attr(n, Edition) == Attr(m, Edition) && Attr(n, SwEdition) == Attr(m, SwEdition);
    assert Attr(n, TargetSw) == Attr(m, TargetSw) && Attr(n, TargetHw) == Attr(m, TargetHw);
    assert Attr(n, Other) == Attr(m, Other);
  }

  /** An entry split at its first '=' into key and value, if it has one. */
  function Entry(e: string): Option<(string, string)> {
    SplitOnce(e, "=")
  }

  /** The attribute and value an entry sets, when it has a '=' and parses. */
  function EntryValue(e: string, isTag: string -> bool): Option<(Attribute, AttrValue)> {
    match Entry(e)
    case None => None
    case Some((k, v)) =>
      match ParseAttr(k, v, isTag)
      case Success(av) => Some(av)
      case Failure(_) => None
  }

  /** Every entry has a '=' and parses, and no two set the same attribute or one in `seen`. */
  predicate Distinct(es: seq<string>, seen: set<Attribute>, isTag: string -> bool) {
    (forall i :: 0 <= i < |es| ==> EntryValue(es[i], isTag).Some?)
    && (forall i :: 0 <= i < |es| ==> EntryValue(es[i], isTag).value.0 !in seen)
    && (forall i, j :: 0 <= i < j < |es| ==> EntryValue(es[i], isTag).value.0 != EntryValue(es[j], isTag).value.0)
  }

  /** The attributes the entries set. */
  function SetBy(es: seq<string>, isTag: string -> bool): set<Attribute>
    requires forall i :: 0 <= i < |es| ==> EntryValue(es[i], isTag).Some?
  {
    set i | 0 <= i < |es| :: EntryValue(es[i], isTag).value.0
  }

  /**
   * The loop over the comma-separated entries, with the attributes set so far
   * and those already used: an entry without '=' is InvalidPart carrying it;
   * then the key and value are parsed (an unknown key is InvalidPart); then a
   * key used before is InvalidPart naming it. Every error is InvalidPart.
   */
  function Entries(es: seq<string>, att: CpeName, seen: set<Attribute>, isTag: string -> bool)
    : (r: Result<(CpeName, set<Attribute>), CpeError>)
    ensures r.Failure? ==> r.error.InvalidPart?
    decreases |es|
  {
    if es == [] then Success((att, seen))
    else
      match Entry(es[0])
      case None => Failure(InvalidPart(es[0]))
      case Some((k, v)) =>
        var av :- ParseAttr(k, v, isTag);
        if av.0 in seen then Failure(InvalidPart(k))
        else Entries(es[1..], SetAttr(att, av.0, av.1), seen + {av.0}, isTag)
  }

  /** How `Distinct` takes a list apart at its head. */
  lemma DistinctCons(es: seq<string>, seen: set<Attribute>, isTag: string -> bool)
    requires es != [] && EntryValue(es[0], isTag).Some?
    ensures var a := EntryValue(es[0], isTag).value.0;
            Distinct(es, seen, isTag) <==> a !in seen && Distinct(es[1..], seen + {a}, isTag)
  {
    var a := EntryValue(es[0], isTag).value.0;
    var rest := es[1..];
    if a !in seen && Distinct(rest, seen + {a}, isTag) {
      forall i | 0 <= i < |es| ensures EntryValue(es[i], isTag).Some? && EntryValue(es[i], isTag).value.0 !in seen {
        if i > 0 { assert es[i] == rest[i - 1]; }
      }
      forall i, j | 0 <= i < j < |es| ensures EntryValue(es[i], isTag).value.0 != EntryValue(es[j], isTag).value.0 {
        assert es[j] == rest[j - 1];
        if i > 0 { assert es[i] == rest[i - 1]; }
      }
    }
    if Distinct(es, seen, isTag) {
      forall i | 0 <= i < |rest| ensures EntryValue(rest[i], isTag).Some? && EntryValue(rest[i], isTag).value.0 !in seen + {a} {
        assert rest[i] == es[i + 1];
      }
      forall i, j | 0 <= i < j < |rest| ensures EntryValue(rest[i], isTag).value.0 != EntryValue(rest[j], isTag).value.0 {
        assert rest[i] == es[i + 1] && rest[j] == es[j + 1];
      }
    }
  }

  /** How `SetBy` takes a list apart at its head. */
  lemma SetByCons(es: seq<string>, isTag: string -> bool)
    requires es != [] && forall i :: 0 <= i < |es| ==> EntryValue(es[i], isTag).Some?
    ensures forall i :: 0 <= i < |es[1..]| ==> EntryValue(es[1..][i], isTag).Some?
    ensures SetBy(es, isTag) == {EntryValue(es[0], isTag).value.0} + SetBy(es[1..], isTag)
  {
    var rest := es[1..];
    forall i | 0 <= i < |rest| ensures EntryValue(rest[i], isTag).Some? {
      assert rest[i] == es[i + 1];
    }
    forall k | k in SetBy(es, isTag) ensures k in {EntryValue(es[0], isTag).value.0} + SetBy(rest, isTag) {
      var i :| 0 <= i < |es| && k == EntryValue(es[i], isTag).value.0;
      if i > 0 { assert es[i] == rest[i - 1]; }
    }
    forall k | k in SetBy(rest, isTag) ensures k in SetBy(es, isTag) {
      var i :| 0 <= i < |rest| && k == EntryValue(rest[i], isTag).value.0;
      assert rest[i] == es[i + 1];
    }
  }

  /** One step of the entry loop, when the head entry parses and its attribute is new. */
  lemma EntriesStep(es: seq<string>, att: CpeName, seen: set<Attribute>, isTag: string -> bool)
    requires es != [] && EntryValue(es[0], isTag).Some? && EntryValue(es[0], isTag).value.0 !in seen
    ensures var av := EntryValue(es[0], isTag).value;
            Entries(es, att, seen, isTag) == Entries(es[1..], SetAttr(att, av.0, av.1), seen + {av.0}, isTag)
  {
  }

  /** The loop fails at a head entry that has no '=', does not parse, or repeats an attribute. */
  lemma EntriesStop(es: seq<string>, att: CpeName, seen: set<Attribute>, isTag: string -> bool)
    requires es != [] && (EntryValue(es[0], isTag).None? || EntryValue(es[0], isTag).value.0 in seen)
    ensures Entries(es, att, seen, isTag).Failure?
  {
  }

  /**
   * The entry loop succeeds exactly when every entry has a '=' and parses and
   * no attribute is set twice or was used before; it then has used exactly
   * the attributes the entries set, given each its entry's value, and left the
   * others alone.
   */
  lemma {:induction false} EntriesCharacterised(es: seq<string>, att: CpeName, seen: set<Attribute>, isTag: string -> bool)
    ensures Entries(es, att, seen, isTag).Success? <==> Distinct(es, seen, isTag)
    ensures Entries(es, att, seen, isTag).Success? ==> Entries(es, att, seen, isTag).value.1 == seen + SetBy(es, isTag)
    ensures Entries(es, att, seen, isTag).Success? ==>
              forall i :: 0 <= i < |es| ==>
                Attr(Entries(es, att, seen, isTag).value.0, EntryValue(es[i], isTag).value.0) == EntryValue(es[i], isTag).value.1
    ensures Entries(es, att, seen, isTag).Success? ==>
              forall a :: a !in SetBy(es, isTag) ==> Attr(Entries(es, att, seen, isTag).value.0, a) == Attr(att, a)
    decreases |es|
  {
    if es == [] {
      assert SetBy(es, isTag) == {};
    } else if EntryValue(es[0], isTag).None? || EntryValue(es[0], isTag).value.0 in seen {
      EntriesStop(es, att, seen, isTag);
    } else {
      var av := EntryValue(es[0], isTag).value;
      var rest := es[1..];
      var att' := SetAttr(att, av.0, av.1);
      DistinctCons(es, seen, isTag);
      if Distinct(es, seen, isTag) {
        SetByCons(es, isTag);
      }
      EntriesStep(es, att, seen, isTag);
      EntriesCharacterised(rest, att', seen + {av.0}, isTag);
      var r := Entries(es, att, seen, isTag);
      if r.Success? {
        var n := r.value.0;
        forall i | 0 <= i < |es| ensures Attr(n, EntryValue(es[i], isTag).value.0) == EntryValue(es[i], isTag).value.1 {
          if i > 0 { assert es[i] == rest[i - 1]; }
        }
      }
    }
  }

  /** The text between "wfn:[" and the closing "]", if the name has both. */
  function WfnBody(name: string): (r: Option<string>)
    ensures r.Some? <==> StartsWith(name, "wfn:[") && |name| >= 6 && name[|name| - 1] == ']'
    ensures r.Some? ==> name == "wfn:[" + r.value + "]"
  {
    match StripPrefix(name, "wfn:[")
    case None => None
    case Some(p) =>
      match StripSuffix(p, "]")
      case None => None
      case Some(body) => Some(body)
  }

  /** All eleven attributes ANY, the part included: where `from_wfn` starts. */
  const DefaultName: CpeName := CpeName(P.Default, C.Default, C.Default, C.Default, C.Default, C.Default,
                                        L.Default, C.Default, C.Default, C.Default, C.Default)

  /**
   * `from_wfn`: "wfn:[" … "]" around comma-separated `key=value` entries, every
   * one of the eleven keys exactly once; a wrong frame is InvalidPrefix and a
   * key left out is InvalidWfn, both carrying the whole name; every other
   * error is InvalidPart.
   */
  function FromWfn(name: string, isTag: string -> bool): (r: Result<CpeName, CpeError>)
    ensures WfnBody(name).None? ==> r == Failure(InvalidPrefix(name))
    ensures r.Failure? ==> r.error.InvalidPart? || r.error == InvalidPrefix(name) || r.error == InvalidWfn(name)
  {
    match WfnBody(name)
    case None => Failure(InvalidPrefix(name))
    case Some(body) =>
      var st :- Entries(Split(body, ','), DefaultName, {}, isTag);
      if AllAttributes - st.1 != {} then Failure(InvalidWfn(name)) else Success(st.0)
  }

  /**
   * The exactly-once rule: a framed WFN parses exactly when every entry has a
   * '=' and a value its key accepts, no attribute is set twice, and all eleven
   * are set; each attribute then holds its entry's value. When the entries
   * are fine but an attribute is missing the error is InvalidWfn.
   */
  lemma FromWfnCharacterised(name: string, isTag: string -> bool)
    requires WfnBody(name).Some?
    ensures var es := Split(WfnBody(name).value, ',');
            FromWfn(name, isTag).Success? <==> Distinct(es, {}, isTag) && SetBy(es, isTag) == AllAttributes
    ensures var es := Split(WfnBody(name).value, ',');
            FromWfn(name, isTag).Success? ==>
              forall i :: 0 <= i < |es| ==>
                Attr(FromWfn(name, isTag).value, EntryValue(es[i], isTag).value.0) == EntryValue(es[i], isTag).value.1
    ensures var es := Split(WfnBody(name).value, ',');
            Distinct(es, {}, isTag) && SetBy(es, isTag) != AllAttributes ==> FromWfn(name, isTag) == Failure(InvalidWfn(name))
  {
    var es := Split(WfnBody(name).value, ',');
    FromWfnUnfold(name, es, isTag);
    EntriesCharacterised(es, DefaultName, {}, isTag);
    if Distinct(es, {}, isTag) {
      forall a | a in SetBy(es, isTag) ensures a in AllAttributes { AllAttributesComplete(a); }
    }
  }

  /** `from_wfn` on a framed name is the entry loop over its comma-separated body, then the completeness check. */
  lemma FromWfnUnfold(name: string, es: seq<string>, isTag: string -> bool)
    requires WfnBody(name).Some? && es == Split(WfnBody(name).value, ',')
    ensures var st := Entries(es, DefaultName, {}, isTag);
            FromWfn(name, isTag) == if st.Failure? then Failure(st.error)
                                    else if AllAttributes - st.value.1 != {} then Failure(InvalidWfn(name))
                                    else Success(st.value.0)
  {
  }

  /** The empty WFN has one empty entry and fails as InvalidPart; an unclosed one is InvalidPrefix. */
  lemma WfnExamples(isTag: string -> bool)
    ensures FromWfn("wfn:[]", isTag) == Failure(InvalidPart(""))
    ensures FromWfn("wfn:[part=a", isTag) == Failure(InvalidPrefix("wfn:[part=a"))
  {
    assert WfnBody("wfn:[]") == Some("");
    assert Split("", ',') == [""];
  }
}
