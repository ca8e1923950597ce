/** The sort key of a list query: a field name, optionally led by '-' for descending order. */
module Order {
  import W = Wrappers
  import opened Text

  /** The direction; ascending by default. */
  datatype OrderBy = Asc | Desc {
    /** Display: nothing for Asc, "-" for Desc. */
    function ToString(): string {
      match this
      case Asc => ""
      case Desc => "-"
    }
  }

  const DefaultOrderBy: OrderBy := Asc

  /** A field name and a direction. */
  datatype OrderMap = OrderMap(name: string, order: OrderBy) {
    /** Display: the direction's mark, then the name. */
    function ToString(): string {
      order.ToString() + name
    }
  }

  /**
   * `OrderMap::from_str` as written: a leading '-' gives Desc; the name is the
   * text after the '-', and without one the fallback of the prefix strip is
   * the empty name, so "name" reads as an ascending sort by "".
   */
  function FromStrAsWritten(s: string): (r: OrderMap)
    ensures StartsWith(s, "-") ==> r == OrderMap(s[1..], Desc)
    ensures !StartsWith(s, "-") ==> r == OrderMap([], Asc)
  {
    var order := if StartsWith(s, "-") then Desc else Asc;
    var name := match StripPrefix(s, "-") case Some(n) => n case None => [];
    OrderMap(name, order)
  }

  /** As written, reading back a map's text restores it only for Desc maps and the unnamed Asc map. */
  lemma FromStrAsWrittenRoundTrip(m: OrderMap)
    ensures FromStrAsWritten(m.ToString()) == m <==> (m.order == Desc || m.name == [])
  {
    if m.order == Desc {
      assert m.ToString()[1..] == m.name;
    } else if m.name != [] && StartsWith(m.name, "-") {
      assert FromStrAsWritten(m.ToString()).order == Desc;
    }
  }

  /** The text "name" reads back as an unnamed ascending map. */
  lemma FromStrAsWrittenLosesName()
    ensures FromStrAsWritten("name") == OrderMap([], Asc)
  {
    assert "name"[0] != '-';
  }

  /** `from_str` as intended: without a leading '-' the whole text is the name. */
  function FromStr(s: string): (r: OrderMap)
    ensures r.ToString() == s
    ensures r.order == Desc <==> StartsWith(s, "-")
  {
    match StripPrefix(s, "-")
    case Some(n) => OrderMap(n, Desc)
    case None => OrderMap(s, Asc)
  }

  /**
   * The intended reading restores every map except an ascending one whose
   * name itself starts with '-', which prints like a descending one.
   */
  lemma FromStrRoundTrip(m: OrderMap)
    ensures FromStr(m.ToString()) == m <==> !(m.order == Asc && StartsWith(m.name, "-"))
  {
    if m.order == Desc {
      assert m.ToString()[1..] == m.name;
    }
  }

  /** `order_serde::serialize`: absent stays absent, a map becomes its text. */
  function Serialize(v: W.Option<OrderMap>): (r: W.Option<string>)
    ensures r.None? <==> v.None?
  {
    match v
    case None => W.None
    case Some(m) => W.Some(m.ToString())
  }

  /**
   * `order_serde::deserialize` as written: absent stays absent and text is read
   * with `FromStrAsWritten`, so reading cannot fail but an ascending key's name
   * is lost; the text survives exactly when it starts with '-' or is empty.
   */
  function Deserialize(t: W.Option<string>): (r: W.Option<OrderMap>)
    ensures r.None? <==> t.None?
    ensures t.Some? && StartsWith(t.value, "-") ==> r == W.Some(OrderMap(t.value[1..], Desc))
    ensures t.Some? && !StartsWith(t.value, "-") ==> r == W.Some(OrderMap([], Asc))
    ensures t.Some? ==> (r.value.ToString() == t.value <==> StartsWith(t.value, "-") || t.value == [])
  {
    match t
    case None => W.None
    case Some(s) => W.Some(FromStrAsWritten(s))
  }

  /**
   * As written, text survives a read and a write only when it is absent, empty
   * or starts with '-', and a map survives a write and a read only when it is
   * absent, descending or unnamed.
   */
  lemma SerdeRoundTripAsWritten(t: W.Option<string>, v: W.Option<OrderMap>)
    ensures Serialize(Deserialize(t)) == t <==> t.None? || StartsWith(t.value, "-") || t.value == []
    ensures Deserialize(Serialize(v)) == v <==> v.None? || v.value.order == Desc || v.value.name == []
  {
    if v.Some? {
      FromStrAsWrittenRoundTrip(v.value);
    }
  }

  /** The stored key "name" comes back from a read and a write as the empty key. */
  lemma SerdeLosesName()
    ensures Deserialize(W.Some("name")) == W.Some(OrderMap([], Asc))
    ensures Serialize(Deserialize(W.Some("name"))) == W.Some("")
  {
    FromStrAsWrittenLosesName();
  }

  /** The deserialiser as intended: text is read with the corrected `FromStr`, and its Display is the text. */
  function DeserializeIntended(t: W.Option<string>): (r: W.Option<OrderMap>)
    ensures r.None? <==> t.None?
    ensures t.Some? ==> r.value.ToString() == t.value
  {
    match t
    case None => W.None
    case Some(s) => W.Some(FromStr(s))
  }

  /** With the intended reader text survives a read and a write unchanged; maps survive the other way round as `FromStrRoundTrip` says. */
  lemma SerdeRoundTrip(t: W.Option<string>, v: W.Option<OrderMap>)
    ensures Serialize(DeserializeIntended(t)) == t
    ensures v.Some? && !(v.value.order == Asc && StartsWith(v.value.name, "-")) ==> DeserializeIntended(Serialize(v)) == v
    ensures v.None? ==> DeserializeIntended(Serialize(v)) == v
  {
    if v.Some? {
      FromStrRoundTrip(v.value);
    }
  }
}
