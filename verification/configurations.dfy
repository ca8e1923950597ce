/**
 * Applicability configurations: trees of AND/OR nodes whose leaves are CPE
 * match criteria. Both crates evaluate the tree the same way; only the leaf
 * differs.
 */
module ConfigurationNodes {
  import opened Wrappers
  import M = CpeMatch

  /** A node's logical operator; a node without one is OR. */
  datatype Operator = And | Or

  const DefaultOperator: Operator := Or

  /**
   * A configuration node: its operator, the `negate` flag (which evaluation
   * ignores), its child nodes and its leaf criteria.
   */
  datatype Node<Leaf> = Node(operator: Operator, negate: bool, children: seq<Node<Leaf>>, cpeMatch: seq<Leaf>)

  /** The four optional bounds of a criterion's version range. */
  datatype VersionBounds = VersionBounds(startIncluding: Option<string>, startExcluding: Option<string>,
                                         endIncluding: Option<string>, endExcluding: Option<string>)

  /** `has_version_range`: at least one bound is present. */
  function HasVersionRange(b: VersionBounds): (r: bool)
    ensures !r <==> b == VersionBounds(None, None, None, None)
  {
    b.startIncluding.Some? || b.startExcluding.Some? || b.endIncluding.Some? || b.endExcluding.Some?
  }

  /** One bound: absent, or the version compares with it under `op`. */
  predicate BoundHolds(bound: Option<string>, ver: string, op: string, o: M.VersionOracle) {
    bound.None? || M.VersionCmp(ver, bound.value, op, o)
  }

  /**
   * `match_version_range`: the bounds are tried in the order start-including
   * (">="), start-excluding (">"), end-including ("<="), end-excluding ("<"),
   * and the first that fails answers false; it is true exactly when every
   * present bound holds, so with no bounds at all it is true.
   */
  function MatchVersionRange(b: VersionBounds, ver: string, o: M.VersionOracle): (r: bool)
    ensures r <==> BoundHolds(b.startIncluding, ver, ">=", o) && BoundHolds(b.startExcluding, ver, ">", o)
                   && BoundHolds(b.endIncluding, ver, "<=", o) && BoundHolds(b.endExcluding, ver, "<", o)
    ensures !HasVersionRange(b) ==> r
  {
    if b.startIncluding.Some? && !M.VersionCmp(ver, b.startIncluding.value, ">=", o) then false
    else if b.startExcluding.Some? && !M.VersionCmp(ver, b.startExcluding.value, ">", o) then false
    else if b.endIncluding.Some? && !M.VersionCmp(ver, b.endIncluding.value, "<=", o) then false
    else if b.endExcluding.Some? && !M.VersionCmp(ver, b.endExcluding.value, "<", o) then false
    else true
  }

  /** The OR loop over leaves from position `i`: true at the first leaf that matches. */
  function AnyLeaf<Leaf>(ms: seq<Leaf>, i: nat, leaf: Leaf -> bool): bool
    requires i <= |ms|
    decreases |ms| - i
  {
    if i == |ms| then false else if leaf(ms[i]) then true else AnyLeaf(ms, i + 1, leaf)
  }

  /** The AND loop over leaves from position `i`: false at the first leaf that does not match. */
  function AllLeaf<Leaf>(ms: seq<Leaf>, i: nat, leaf: Leaf -> bool): bool
    requires i <= |ms|
    decreases |ms| - i
  {
    if i == |ms| then true else if !leaf(ms[i]) then false else AllLeaf(ms, i + 1, leaf)
  }

  /**
   * `Node::is_match`: a node with criteria evaluates them under its
   * operator and never looks at its children; a node without criteria
   * evaluates its children instead. An empty OR is false, an empty AND true.
   */
  function IsMatch<Leaf>(n: Node<Leaf>, leaf: Leaf -> bool): bool
    decreases n, |n.children| + 1
  {
    if |n.cpeMatch| > 0 then
      match n.operator
      case Or => AnyLeaf(n.cpeMatch, 0, leaf)
      case And => AllLeaf(n.cpeMatch, 0, leaf)
    else
      match n.operator
      case Or => AnyChild(n, 0, leaf)
      case And => AllChild(n, 0, leaf)
  }

  /** The OR loop over the children of `n` from position `i`. */
  function AnyChild<Leaf>(n: Node<Leaf>, i: nat, leaf: Leaf -> bool): bool
    requires i <= |n.children|
    decreases n, |n.children| - i
  {
    if i == |n.children| then false
    else if IsMatch(n.children[i], leaf) then true
    else AnyChild(n, i + 1, leaf)
  }

  /** The AND loop over the children of `n` from position `i`. */
  function AllChild<Leaf>(n: Node<Leaf>, i: nat, leaf: Leaf -> bool): bool
    requires i <= |n.children|
    decreases n, |n.children| - i
  {
    if i == |n.children| then true
    else if !IsMatch(n.children[i], leaf) then false
    else AllChild(n, i + 1, leaf)
  }

  /**
   * What a node means: under OR some, under AND every one of its criteria
   * matches, or, when it has none, of its children holds.
   */
  predicate Holds<Leaf>(n: Node<Leaf>, leaf: Leaf -> bool)
    decreases n
  {
    if |n.cpeMatch| > 0 then
      if n.operator == Or then exists i :: 0 <= i < |n.cpeMatch| && leaf(n.cpeMatch[i])
      else forall i :: 0 <= i < |n.cpeMatch| ==> leaf(n.cpeMatch[i])
    else
      if n.operator == Or then exists i :: 0 <= i < |n.children| && Holds(n.children[i], leaf)
      else forall i :: 0 <= i < |n.children| ==> Holds(n.children[i], leaf)
  }

  lemma {:induction false} AnyLeafExists<Leaf>(ms: seq<Leaf>, i: nat, leaf: Leaf -> bool)
    requires i <= |ms|
    ensures AnyLeaf(ms, i, leaf) <==> exists j :: i <= j < |ms| && leaf(ms[j])
    decreases |ms| - i
  {
    if i < |ms| {
      AnyLeafExists(ms, i + 1, leaf);
    }
  }

  lemma {:induction false} AllLeafForall<Leaf>(ms: seq<Leaf>, i: nat, leaf: Leaf -> bool)
    requires i <= |ms|
    ensures AllLeaf(ms, i, leaf) <==> forall j :: i <= j < |ms| ==> leaf(ms[j])
    decreases |ms| - i
  {
    if i < |ms| {
      AllLeafForall(ms, i + 1, leaf);
    }
  }

  /** The loops compute the meaning: `Node::is_match` is exactly `Holds`. */
  lemma {:induction false} IsMatchHolds<Leaf>(n: Node<Leaf>, leaf: Leaf -> bool)
    ensures IsMatch(n, leaf) == Holds(n, leaf)
    decreases n, |n.children| + 1
  {
    if |n.cpeMatch| > 0 {
      AnyLeafExists(n.cpeMatch, 0, leaf);
      AllLeafForall(n.cpeMatch, 0, leaf);
    } else {
      AnyChildExists(n, 0, leaf);
      AllChildForall(n, 0, leaf);
    }
  }

  lemma {:induction false} AnyChildExists<Leaf>(n: Node<Leaf>, i: nat, leaf: Leaf -> bool)
    requires i <= |n.children|
    ensures AnyChild(n, i, leaf) <==> exists j :: i <= j < |n.children| && Holds(n.children[j], leaf)
    decreases n, |n.children| - i
  {
    if i < |n.children| {
      IsMatchHolds(n.children[i], leaf);
      AnyChildExists(n, i + 1, leaf);
    }
  }

  lemma {:induction false} AllChildForall<Leaf>(n: Node<Leaf>, i: nat, leaf: Leaf -> bool)
    requires i <= |n.children|
    ensures AllChild(n, i, leaf) <==> forall j :: i <= j < |n.children| ==> Holds(n.children[j], leaf)
    decreases n, |n.children| - i
  {
    if i < |n.children| {
      IsMatchHolds(n.children[i], leaf);
      AllChildForall(n, i + 1, leaf);
    }
  }

  /** `negate` does not change the outcome, and criteria hide the children. */
  lemma IsMatchIgnores<Leaf>(n: Node<Leaf>, leaf: Leaf -> bool, negate: bool, children: seq<Node<Leaf>>)
    requires |n.cpeMatch| > 0
    ensures IsMatch(n.(negate := negate, children := children), leaf) == IsMatch(n, leaf)
  {
  }
}

/** The nvd crate's configurations: each criterion keeps its CPE name as unparsed text. */
module NvdConfigurations {
  import opened Wrappers
  import C = CpeComponent
  import N = CpeName
  import CpeErrors
  import M = CpeMatch
  import opened ConfigurationNodes

  /** A criterion's status; a criterion without one is Active. */
  datatype MatchStatus = Active | Inactive

  const DefaultStatus: MatchStatus := Active

  /** One dictionary name a criterion stands for. */
  datatype Matches = Matches(cpeName: string, cpeNameId: string)

  /**
   * A CPE match criterion: whether it names the vulnerable product (rather
   * than its environment), the CPE name text, the version bounds, its status,
   * the dictionary names it matches and its identifier.
   */
  datatype Match = Match(vulnerable: bool, cpe23Uri: string, bounds: VersionBounds, status: MatchStatus,
                         matches: seq<Matches>, matchCriteriaId: Option<string>)

  /** The node trees of one CVE. */
  datatype Configurations = Configurations(dataVersion: string, nodes: seq<Node<Match>>)

  /** `is_vulnerable`: the flag, or else any version bound at all. */
  function IsVulnerable(m: Match): (r: bool)
    ensures r <==> m.vulnerable || HasVersionRange(m.bounds)
    ensures !m.vulnerable && m.bounds == VersionBounds(None, None, None, None) ==> !r
  {
    if m.vulnerable then true
    else m.bounds.startIncluding.Some? || m.bounds.startExcluding.Some?
         || m.bounds.endIncluding.Some? || m.bounds.endExcluding.Some?
  }

  /**
   * `Match::is_match`: false when the name text does not parse or its product
   * does not match; otherwise the range decides when there is one, and the
   * name's own version when there is not.
   */
  function IsMatch(m: Match, product: string, version: string, isTag: string -> bool, o: M.VersionOracle): (r: bool)
    ensures N.FromUri(m.cpe23Uri, isTag).Failure? ==> !r
    ensures N.FromUri(m.cpe23Uri, isTag).Success? && !M.MatchProduct(N.FromUri(m.cpe23Uri, isTag).value, product) ==> !r
    ensures r ==> M.MatchProduct(N.FromUri(m.cpe23Uri, isTag).value, product)
    ensures N.FromUri(m.cpe23Uri, isTag).Success? && M.MatchProduct(N.FromUri(m.cpe23Uri, isTag).value, product) ==>
              (r <==> if HasVersionRange(m.bounds) then MatchVersionRange(m.bounds, version, o)
                      else M.MatchVersion(N.FromUri(m.cpe23Uri, isTag).value, version, o))
  {
    match N.FromUri(m.cpe23Uri, isTag)
    case Failure(_) => false
    case Success(name) =>
      if M.MatchProduct(name, product) then
        if HasVersionRange(m.bounds) then MatchVersionRange(m.bounds, version, o)
        else M.MatchVersion(name, version, o)
      else false
  }

  /** `Node::is_match` with this crate's criteria as leaves; it means `Holds`. */
  function NodeIsMatch(n: Node<Match>, product: string, version: string, isTag: string -> bool, o: M.VersionOracle): (r: bool)
    ensures r == Holds(n, (m: Match) => IsMatch(m, product, version, isTag, o))
  {
    var leaf := (m: Match) => IsMatch(m, product, version, isTag, o);
    IsMatchHolds(n, leaf);
    ConfigurationNodes.IsMatch(n, leaf)
  }

  /** `Match::product`: the product record of the parsed name, or the empty one when it does not parse. */
  function ProductOfMatch(m: Match, isTag: string -> bool): (r: M.Product)
    ensures N.FromUri(m.cpe23Uri, isTag).Success? ==> r == M.ProductOf(N.FromUri(m.cpe23Uri, isTag).value)
    ensures N.FromUri(m.cpe23Uri, isTag).Failure? ==> r == M.DefaultProduct
  {
    match N.FromUri(m.cpe23Uri, isTag)
    case Success(name) => M.ProductOf(name)
    case Failure(_) => M.DefaultProduct
  }

  /** The products of the vulnerable criteria of one node, not of its children. */
  function OwnProducts(n: Node<Match>, isTag: string -> bool): set<M.Product> {
    set i | 0 <= i < |n.cpeMatch| && IsVulnerable(n.cpeMatch[i]) :: ProductOfMatch(n.cpeMatch[i], isTag)
  }

  /** `Node::vendor_product`: the node's own vulnerable products, then its children's, as a set. */
  function VendorProduct(n: Node<Match>, isTag: string -> bool): set<M.Product>
    decreases n, |n.children| + 1
  {
    OwnProducts(n, isTag) + ChildProducts(n, 0, isTag)
  }

  /** The products of the children of `n` from position `i`. */
  function ChildProducts(n: Node<Match>, i: nat, isTag: string -> bool): set<M.Product>
    requires i <= |n.children|
    decreases n, |n.children| - i
  {
    if i == |n.children| then {} else VendorProduct(n.children[i], isTag) + ChildProducts(n, i + 1, isTag)
  }

  /** `m` is a criterion of `n` or of one of its descendants. */
  predicate Under(m: Match, n: Node<Match>)
    decreases n
  {
    m in n.cpeMatch || exists i :: 0 <= i < |n.children| && Under(m, n.children[i])
  }

  /** Some vulnerable criterion in the tree of `n` names product `p`. */
  ghost predicate Reports(n: Node<Match>, isTag: string -> bool, p: M.Product) {
    exists m :: Under(m, n) && IsVulnerable(m) && ProductOfMatch(m, isTag) == p
  }

  /**
   * A product is reported for a node exactly when some vulnerable criterion
   * anywhere in the node's tree names it; criteria for the environment
   * contribute nothing.
   */
  lemma {:induction false} VendorProductCharacterised(n: Node<Match>, isTag: string -> bool, p: M.Product)
    ensures p in VendorProduct(n, isTag) <==> Reports(n, isTag, p)
    decreases n, |n.children| + 1
  {
    ChildProductsCharacterised(n, 0, isTag, p);
    if p in OwnProducts(n, isTag) {
      var i :| 0 <= i < |n.cpeMatch| && IsVulnerable(n.cpeMatch[i]) && ProductOfMatch(n.cpeMatch[i], isTag) == p;
      assert Under(n.cpeMatch[i], n);
    }
    if p in ChildProducts(n, 0, isTag) {
      var j :| 0 <= j < |n.children| && Reports(n.children[j], isTag, p);
      var m :| Under(m, n.children[j]) && IsVulnerable(m) && ProductOfMatch(m, isTag) == p;
      assert Under(m, n);
    }
    if Reports(n, isTag, p) {
      var m :| Under(m, n) && IsVulnerable(m) && ProductOfMatch(m, isTag) == p;
      if m in n.cpeMatch {
        var i :| 0 <= i < |n.cpeMatch| && n.cpeMatch[i] == m;
        assert p in OwnProducts(n, isTag);
      } else {
        var j :| 0 <= j < |n.children| && Under(m, n.children[j]);
        assert Reports(n.children[j], isTag, p);
      }
    }
  }

  lemma {:induction false} ChildProductsCharacterised(n: Node<Match>, i: nat, isTag: string -> bool, p: M.Product)
    requires i <= |n.children|
    ensures p in ChildProducts(n, i, isTag) <==> exists j :: i <= j < |n.children| && Reports(n.children[j], isTag, p)
    decreases n, |n.children| - i
  {
    if i < |n.children| {
      VendorProductCharacterised(n.children[i], isTag, p);
      ChildProductsCharacterised(n, i + 1, isTag, p);
      if p in ChildProducts(n, i, isTag) {
        if p !in VendorProduct(n.children[i], isTag) {
          var j :| i + 1 <= j < |n.children| && Reports(n.children[j], isTag, p);
          assert i <= j;
        }
      }
      if exists j :: i <= j < |n.children| && Reports(n.children[j], isTag, p) {
        var j :| i <= j < |n.children| && Reports(n.children[j], isTag, p);
        if j > i {
          assert p in ChildProducts(n, i + 1, isTag);
        }
      }
    }
  }

  /** The sum of the multisets of the node products over `nodes`. */
  function ProductBag(nodes: seq<Node<Match>>, isTag: string -> bool): multiset<M.Product> {
    if nodes == [] then multiset{}
    else multiset(VendorProduct(nodes[0], isTag)) + ProductBag(nodes[1..], isTag)
  }

  /**
   * `unique_vendor_product` as written: each node's products are a set, but
   * the per-node sets are chained into one list, so a product two nodes
   * share appears twice. The list order follows hash-set iteration and is not
   * modelled: the result is the list as a multiset.
   */
  function UniqueVendorProductAsWritten(c: Configurations, isTag: string -> bool): (r: multiset<M.Product>)
    ensures forall p :: p in r <==> exists i :: 0 <= i < |c.nodes| && p in VendorProduct(c.nodes[i], isTag)
  {
    ProductBagMembers(c.nodes, isTag);
    ProductBag(c.nodes, isTag)
  }

  lemma ProductBagMembers(nodes: seq<Node<Match>>, isTag: string -> bool)
    ensures forall p :: p in ProductBag(nodes, isTag) <==> exists i :: 0 <= i < |nodes| && p in VendorProduct(nodes[i], isTag)
  {
    forall p ensures p in ProductBag(nodes, isTag) <==> exists i :: 0 <= i < |nodes| && p in VendorProduct(nodes[i], isTag) {
      ProductBagMember(nodes, isTag, p);
    }
  }

  /** A product is in the bag exactly when some node reports it. */
  lemma {:induction false} ProductBagMember(nodes: seq<Node<Match>>, isTag: string -> bool, p: M.Product)
    ensures p in ProductBag(nodes, isTag) <==> exists i :: 0 <= i < |nodes| && p in VendorProduct(nodes[i], isTag)
  {
    if nodes != [] {
      var rest := nodes[1..];
      ProductBagMember(rest, isTag, p);
      assert ProductBag(nodes, isTag) == multiset(VendorProduct(nodes[0], isTag)) + ProductBag(rest, isTag);
      if p in ProductBag(nodes, isTag) && p !in VendorProduct(nodes[0], isTag) {
        var i :| 0 <= i < |rest| && p in VendorProduct(rest[i], isTag);
        assert rest[i] == nodes[i + 1];
      }
      if exists i :: 0 <= i < |nodes| && p in VendorProduct(nodes[i], isTag) {
        var i :| 0 <= i < |nodes| && p in VendorProduct(nodes[i], isTag);
        if i > 0 {
          assert rest[i - 1] == nodes[i];
        }
      }
    }
  }

  /** Two copies of a node report each of its products twice. */
  lemma UniqueVendorProductDuplicates(n: Node<Match>, isTag: string -> bool, p: M.Product)
    requires p in VendorProduct(n, isTag)
    ensures UniqueVendorProductAsWritten(Configurations("4.0", [n, n]), isTag)[p] == 2
  {
    var s := multiset(VendorProduct(n, isTag));
    assert [n, n][1..] == [n];
    assert [n][1..] == [];
    assert ProductBag([n], isTag) == s;
    assert ProductBag([n, n], isTag) == s + s;
    assert s[p] == 1;
  }

  /**
   * `unique_vendor_product` as its name promises: the union of the node
   * products, each product once.
   */
  function UniqueVendorProduct(c: Configurations, isTag: string -> bool): (r: set<M.Product>)
    ensures forall p :: p in r <==> exists i :: 0 <= i < |c.nodes| && p in VendorProduct(c.nodes[i], isTag)
    ensures forall p :: p in r <==> p in UniqueVendorProductAsWritten(c, isTag)
  {
    var r := set p | p in UniqueVendorProductAsWritten(c, isTag);
    r
  }

  /**
   * The pieces of `get_version_range`'s text: start version and operator, the
   * name's version, end operator and version, each possibly missing.
   */
  datatype VersionRange = VersionRange(vStart: Option<string>, opStart: Option<string>, version: Option<string>,
                                       opEnd: Option<string>, vEnd: Option<string>)

  /** The text of an optional piece, empty when it is missing. */
  function OrEmpty(s: Option<string>): string {
    if s.Some? then s.value else []
  }

  /**
   * The pieces, with `pinned` deciding when a parsed version earns a "="
   * operator: the name's version when the text parses; "=" for a pinned
   * version; then a start bound overrides it with ">=" or, when excluding,
   * ">"; and an end bound sets "<=" or, when excluding, "<".
   */
  function RangeOf(m: Match, parsed: Result<N.CpeName, CpeErrors.CpeError>, pinned: C.Component -> bool): (r: VersionRange)
    ensures r.version.Some? <==> parsed.Success?
    ensures r.version.Some? ==> r.version.value == parsed.value.version.ToString()
    ensures m.bounds.startExcluding.Some? ==> r.opStart == Some(">") && r.vStart == m.bounds.startExcluding
    ensures m.bounds.startExcluding.None? && m.bounds.startIncluding.Some? ==>
              r.opStart == Some(">=") && r.vStart == m.bounds.startIncluding
    ensures m.bounds.startExcluding.None? && m.bounds.startIncluding.None? ==>
              r.vStart.None? && (r.opStart.Some? <==> r.version.Some? && pinned(parsed.value.version))
              && (r.opStart.Some? ==> r.opStart.value == "=")
    ensures m.bounds.endExcluding.Some? ==> r.opEnd == Some("<") && r.vEnd == m.bounds.endExcluding
    ensures m.bounds.endExcluding.None? && m.bounds.endIncluding.Some? ==>
              r.opEnd == Some("<=") && r.vEnd == m.bounds.endIncluding
    ensures m.bounds.endExcluding.None? && m.bounds.endIncluding.None? ==> r.opEnd.None? && r.vEnd.None?
  {
    var version := if parsed.Success? then Some(parsed.value.version.ToString()) else None;
    var op0 := if parsed.Success? && pinned(parsed.value.version) then Some("=") else None;
    var b := m.bounds;
    var (opStart, vStart) :=
      if b.startExcluding.Some? then (Some(">"), b.startExcluding)
      else if b.startIncluding.Some? then (Some(">="), b.startIncluding)
      else (op0, None);
    var (opEnd, vEnd) :=
      if b.endExcluding.Some? then (Some("<"), b.endExcluding)
      else if b.endIncluding.Some? then (Some("<="), b.endIncluding)
      else (None, None);
    VersionRange(vStart, opStart, version, opEnd, vEnd)
  }

  /**
   * The text: without start and end versions, the operator, a space and the
   * version; otherwise start version and operator, a space, the version, a
   * space, and end operator and version.
   */
  function Format(v: VersionRange): (r: string)
    ensures v.vStart.None? && v.vEnd.None? ==> r == OrEmpty(v.opStart) + " " + OrEmpty(v.version)
    ensures |r| > |OrEmpty(v.vStart)| + |OrEmpty(v.opStart)|
    ensures v.vStart.Some? || v.vEnd.Some? ==>
              r[..|OrEmpty(v.vStart)| + |OrEmpty(v.opStart)|] == OrEmpty(v.vStart) + OrEmpty(v.opStart)
  {
    if v.vStart.None? && v.vEnd.None? then OrEmpty(v.opStart) + " " + OrEmpty(v.version)
    else OrEmpty(v.vStart) + OrEmpty(v.opStart) + " " + OrEmpty(v.version) + " " + OrEmpty(v.opEnd) + OrEmpty(v.vEnd)
  }

  /**
   * The test `get_version_range` applies for "=": the version matches
   * neither "*" nor "-". A parsed "-" is NA, which matches nothing, so NA
   * versions are pinned too.
   */
  function PinnedAsWritten(c: C.Component): (r: bool)
    ensures r <==> c.NA? || (c.Value? && c.text != "*" && c.text != "-")
  {
    !(c.Matches("*") || c.Matches("-"))
  }

  /** The intended test: only a concrete version value is pinned. */
  function Pinned(c: C.Component): (r: bool)
    ensures r <==> !c.Any? && !c.NA? && c.ToString() != "*" && c.ToString() != "-"
  {
    c.Value? && c.text != "*" && c.text != "-"
  }

  /** `get_version_range` as written: without bounds, "=" leads exactly when the version is pinned by the test as written. */
  function GetVersionRangeAsWritten(m: Match, isTag: string -> bool): (r: string)
    ensures !HasVersionRange(m.bounds) ==>
              |r| > 0 && (r[0] == '=' <==> N.FromUri(m.cpe23Uri, isTag).Success?
                                           && PinnedAsWritten(N.FromUri(m.cpe23Uri, isTag).value.version))
  {
    Format(RangeOf(m, N.FromUri(m.cpe23Uri, isTag), PinnedAsWritten))
  }

  /**
   * `get_version_range` with the intended test: without bounds, "=" leads
   * exactly when the name parses and its version is a concrete value.
   */
  function GetVersionRange(m: Match, isTag: string -> bool): (r: string)
    ensures !HasVersionRange(m.bounds) ==>
              |r| > 0 && (r[0] == '=' <==> N.FromUri(m.cpe23Uri, isTag).Success?
                                           && N.FromUri(m.cpe23Uri, isTag).value.version.Value?
                                           && N.FromUri(m.cpe23Uri, isTag).value.version.text !in {"*", "-"})
  {
    Format(RangeOf(m, N.FromUri(m.cpe23Uri, isTag), Pinned))
  }

  /**
   * With no bounds, a name whose version is "-" (parsed as NA) is reported as
   * pinned to "= -" by the code as written, while the intended text is " -".
   */
  lemma GetVersionRangeNotApplicable(m: Match, isTag: string -> bool)
    requires m.bounds == VersionBounds(None, None, None, None)
    requires N.FromUri(m.cpe23Uri, isTag).Success? && N.FromUri(m.cpe23Uri, isTag).value.version.NA?
    ensures GetVersionRangeAsWritten(m, isTag) == "= -"
    ensures GetVersionRange(m, isTag) == " -"
  {
    NotApplicableRange(m, N.FromUri(m.cpe23Uri, isTag));
  }

  /** The same, for any parse result whose version is NA. */
  lemma NotApplicableRange(m: Match, parsed: Result<N.CpeName, CpeErrors.CpeError>)
    requires m.bounds == VersionBounds(None, None, None, None)
    requires parsed.Success? && parsed.value.version.NA?
    ensures Format(RangeOf(m, parsed, PinnedAsWritten)) == "= -"
    ensures Format(RangeOf(m, parsed, Pinned)) == " -"
  {
    var version := parsed.value.version;
    assert version.ToString() == "-";
    assert PinnedAsWritten(version) && !Pinned(version);
    assert RangeOf(m, parsed, PinnedAsWritten) == VersionRange(None, Some("="), Some("-"), None, None);
    assert RangeOf(m, parsed, Pinned) == VersionRange(None, None, Some("-"), None, None);
  }
}

/**
 * The legacy crate's configurations: each criterion holds an already parsed
 * name, so matching cannot fail on the name text.
 */
module LegacyConfigurations {
  import opened Wrappers
  import N = CpeName
  import M = CpeMatch
  import Nvd = NvdConfigurations
  import opened ConfigurationNodes

  /** A legacy criterion: the vulnerable flag, the parsed name and the version bounds. */
  datatype LegacyMatch = LegacyMatch(vulnerable: bool, cpe23Uri: N.CpeName, bounds: VersionBounds)

  /** `Match::is_match`: the product must match; then the range decides if there is one, else the name's version. */
  function IsMatch(m: LegacyMatch, product: string, version: string, o: M.VersionOracle): (r: bool)
    ensures r ==> M.MatchProduct(m.cpe23Uri, product)
    ensures M.MatchProduct(m.cpe23Uri, product) && HasVersionRange(m.bounds) ==> (r <==> MatchVersionRange(m.bounds, version, o))
    ensures M.MatchProduct(m.cpe23Uri, product) && !HasVersionRange(m.bounds) ==> (r <==> M.MatchVersion(m.cpe23Uri, version, o))
  {
    if M.MatchProduct(m.cpe23Uri, product) then
      if HasVersionRange(m.bounds) then MatchVersionRange(m.bounds, version, o)
      else M.MatchVersion(m.cpe23Uri, version, o)
    else false
  }

  /** `Node::is_match` with legacy criteria as leaves; it means `Holds`. */
  function NodeIsMatch(n: Node<LegacyMatch>, product: string, version: string, o: M.VersionOracle): (r: bool)
    ensures r == Holds(n, (m: LegacyMatch) => IsMatch(m, product, version, o))
  {
    var leaf := (m: LegacyMatch) => IsMatch(m, product, version, o);
    IsMatchHolds(n, leaf);
    ConfigurationNodes.IsMatch(n, leaf)
  }

  /**
   * The two crates agree: an nvd criterion whose text parses matches exactly
   * when the legacy criterion holding the parsed name does.
   */
  lemma AgreesWithNvd(m: Nvd.Match, product: string, version: string, isTag: string -> bool, o: M.VersionOracle)
    requires N.FromUri(m.cpe23Uri, isTag).Success?
    ensures Nvd.IsMatch(m, product, version, isTag, o)
            == IsMatch(LegacyMatch(m.vulnerable, N.FromUri(m.cpe23Uri, isTag).value, m.bounds), product, version, o)
  {
  }
}
