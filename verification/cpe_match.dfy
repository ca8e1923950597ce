/**
 * Unescaping of CPE attribute text, and the checks a name makes against a
 * product and a version. Both crates carry the same code for these.
 */
module CpeSlashes {
  /**
   * `strip_slashes`: a backslash drops itself and keeps the character after
   * it, except that an escaped backslash is dropped entirely, and so is a
   * backslash at the very end.
   */
  function StripSlashes(s: string): (r: string)
    ensures '\\' !in r
    ensures |r| <= |s|
    ensures '\\' !in s ==> r == s
    decreases |s|
  {
    if s == [] then []
    else if s[0] != '\\' then [s[0]] + StripSlashes(s[1..])
    else if |s| == 1 then []
    else if s[1] == '\\' then StripSlashes(s[2..])
    else [s[1]] + StripSlashes(s[2..])
  }

  /** The loop of `strip_slashes`, taking characters from an iterator one or two at a time. */
  method StripSlashesLoop(s: string) returns (out: string)
    ensures out == StripSlashes(s)
  {
    out := [];
    var i := 0;
    while i < |s|
      invariant 0 <= i <= |s|
      invariant out + StripSlashes(s[i..]) == StripSlashes(s)
      decreases |s| - i
    {
      ghost var before := out;
      ghost var j := i;
      StripSlashesAt(s, j);
      var c := s[i];
      i := i + 1;
      if c == '\\' {
        if i < |s| {
          var cc := s[i];
          i := i + 1;
          if cc != '\\' {
            out := out + [cc];
            assert out + StripSlashes(s[i..]) == before + ([cc] + StripSlashes(s[i..]));
          }
        }
      } else {
        out := out + [c];
        assert out + StripSlashes(s[i..]) == before + ([c] + StripSlashes(s[i..]));
      }
    }
    assert s[i..] == [];
  }

  /** One step of `StripSlashes` at position `i` of `s`, in terms of the suffixes of `s`. */
  lemma StripSlashesAt(s: string, i: nat)
    requires i < |s|
    ensures s[i] != '\\' ==> StripSlashes(s[i..]) == [s[i]] + StripSlashes(s[i + 1..])
    ensures s[i] == '\\' && i + 1 == |s| ==> StripSlashes(s[i..]) == []
    ensures s[i] == '\\' && i + 1 < |s| && s[i + 1] == '\\' ==> StripSlashes(s[i..]) == StripSlashes(s[i + 2..])
    ensures s[i] == '\\' && i + 1 < |s| && s[i + 1] != '\\' ==>
              StripSlashes(s[i..]) == [s[i + 1]] + StripSlashes(s[i + 2..])
  {
    var t := s[i..];
    assert t[1..] == s[i + 1..];
    if i + 1 < |s| {
      assert t[2..] == s[i + 2..];
    }
  }

  /** Backslash-escaping of the characters in `special`, the inverse direction. */
  function Escape(t: string, special: set<char>): (r: string)
    ensures |r| >= |t|
  {
    if t == [] then []
    else if t[0] in special then ['\\', t[0]] + Escape(t[1..], special)
    else [t[0]] + Escape(t[1..], special)
  }

  /** Stripping undoes escaping, whatever was escaped, as long as the text holds no backslash itself. */
  lemma {:induction false} StripEscape(t: string, special: set<char>)
    requires '\\' !in t
    ensures StripSlashes(Escape(t, special)) == t
    decreases |t|
  {
    if t != [] {
      StripEscape(t[1..], special);
      var e := Escape(t[1..], special);
      if t[0] in special {
        assert (['\\', t[0]] + e)[2..] == e;
      } else {
        assert ([t[0]] + e)[1..] == e;
      }
    }
  }

  /** An escaped backslash vanishes, and a trailing backslash too. */
  lemma StripSlashesExamples()
    ensures StripSlashes("a\\:b") == "a:b"
    ensures StripSlashes("\\\\") == []
    ensures StripSlashes("x\\") == "x"
  {
    assert StripSlashes("b") == "b";
    assert StripSlashes(":b") == ":b";
    assert StripSlashes("\\") == [];
  }
}

/** Version and product checks of a CPE name. */
module CpeMatch {
  import opened Wrappers
  import C = CpeComponent
  import P = CpePart
  import N = CpeName

  /** The comparison operators of the version library. */
  datatype Cmp = Eq | Ne | Lt | Le | Ge | Gt

  /**
   * The version library, which is not part of this model: its reading of an
   * operator sign, and its comparison, either of which may fail.
   */
  datatype VersionOracle = VersionOracle(fromSign: string -> Option<Cmp>,
                                         compareTo: (string, string, Cmp) -> Option<bool>)

  /** `version_cmp`: true only when the operator is known and the comparison succeeds and holds. */
  function VersionCmp(a: string, b: string, op: string, o: VersionOracle): (r: bool)
    ensures o.fromSign(op).None? ==> !r
    ensures o.fromSign(op).Some? ==> (r <==> o.compareTo(a, b, o.fromSign(op).value) == Some(true))
  {
    match o.fromSign(op)
    case None => false
    case Some(c) =>
      match o.compareTo(a, b, c)
      case Some(res) => res
      case None => false
  }

  /** The version text a name is compared with: its version, then a space and its update when that is a value. */
  function NameVersion(n: N.CpeName): (r: string)
    ensures !n.update.Value? ==> r == n.version.ToString()
    ensures n.update.Value? ==> r == n.version.ToString() + " " + n.update.text
  {
    if n.update.Value? then n.version.ToString() + " " + n.update.ToString() else n.version.ToString()
  }

  /**
   * `match_version`: an ANY version matches everything and an NA version
   * nothing; otherwise the given version must equal the name's under the
   * library's "==".
   */
  function MatchVersion(n: N.CpeName, v: string, o: VersionOracle): (r: bool)
    ensures n.version.Any? ==> r
    ensures n.version.NA? ==> !r
    ensures n.version.Value? ==>
              (r <==> o.fromSign("==").Some? && o.compareTo(v, NameVersion(n), o.fromSign("==").value) == Some(true))
  {
    if n.version.Any? then true
    else if n.version.NA? then false
    else VersionCmp(v, NameVersion(n), "==", o)
  }

  /** `normalize_target_software`: "sw-product" when the target software is a value, else the product. */
  function NormalizeTargetSoftware(n: N.CpeName): (r: string)
    ensures n.targetSw.Value? ==> r == n.targetSw.text + "-" + n.product.ToString()
    ensures !n.targetSw.Value? ==> r == n.product.ToString()
  {
    match n.targetSw
    case Value(sw) => sw + "-" + n.product.ToString()
    case _ => n.product.ToString()
  }

  /** `match_product`: ANY matches everything, NA nothing, a value only its normalised name. */
  function MatchProduct(n: N.CpeName, product: string): (r: bool)
    ensures n.product.Any? ==> r
    ensures n.product.NA? ==> !r
    ensures n.product.Value? && !n.targetSw.Value? ==> (r <==> product == n.product.text)
    ensures n.product.Value? && n.targetSw.Value? ==> (r <==> product == n.targetSw.text + "-" + n.product.text)
  {
    if n.product.Any? then true
    else if n.product.NA? then false
    else product == NormalizeTargetSoftware(n)
  }

  /** A value product is matched by exactly one text; the product check is then a function of the name. */
  lemma MatchProductUnique(n: N.CpeName, p: string, q: string)
    requires n.product.Value? && MatchProduct(n, p) && MatchProduct(n, q)
    ensures p == q
  {
  }

  /** `Product`: the part (in its plain form), vendor and product of a name, as text. */
  datatype Product = Product(part: string, vendor: string, product: string)

  /** `Product::default`: three empty texts. */
  const DefaultProduct: Product := Product("", "", "")

  /** `Product::from`: the three leading attributes, each as Display writes it. */
  function ProductOf(n: N.CpeName): (r: Product)
    ensures r.part == n.part.ToString(false)
    ensures r.vendor == n.vendor.ToString() && r.product == n.product.ToString()
  {
    Product(n.part.ToString(false), n.vendor.ToString(), n.product.ToString())
  }

  /** Two bindable names with the same product record agree on part, vendor and product. */
  lemma ProductOfInjective(n: N.CpeName, m: N.CpeName)
    requires N.Printable(n.vendor) && N.Printable(m.vendor) && N.Printable(n.product) && N.Printable(m.product)
    requires ProductOf(n) == ProductOf(m)
    ensures n.part == m.part && n.vendor == m.vendor && n.product == m.product
  {
    P.FromStrToString(n.part, false);
    P.FromStrToString(m.part, false);
    C.FromStrToString(n.vendor, n.vendor.ToString());
    C.FromStrToString(m.vendor, m.vendor.ToString());
    C.FromStrToString(n.product, n.product.ToString());
    C.FromStrToString(m.product, m.product.ToString());
  }
}
