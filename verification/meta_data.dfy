/** Free-form metadata attached to records, and the transparent value wrapper. */
module MetaData {
  import W = Wrappers

  /** One named group: either a map of string pairs or a set of strings, per name. */
  datatype MetaData = HashMap(maps: map<string, map<string, string>>) | HashSet(sets: map<string, set<string>>)

  /** `MetaData::default`: the set variant with no names. */
  const Default: MetaData := HashSet(map[])

  /** `from_hashmap`: the map variant holding `hm` under `name` only. */
  function FromHashmap(name: string, hm: map<string, string>): (r: MetaData)
    ensures r.HashMap? && r.maps.Keys == {name}
  {
    HashMap(map[name := hm])
  }

  /** `from_hashset`: the set variant holding `hs` under `name` only. */
  function FromHashset(name: string, hs: set<string>): (r: MetaData)
    ensures r.HashSet? && r.sets.Keys == {name}
  {
    HashSet(map[name := hs])
  }

  /** `get_hashmap`: the map under `key`, only in the map variant. */
  function GetHashmap(md: MetaData, key: string): (r: W.Option<map<string, string>>)
    ensures r.Some? <==> md.HashMap? && key in md.maps
    ensures r.Some? ==> r.value == md.maps[key]
  {
    match md
    case HashMap(m) => if key in m then W.Some(m[key]) else W.None
    case HashSet(_) => W.None
  }

  /** `get_hashset`: the set under `key`, only in the set variant. */
  function GetHashset(md: MetaData, key: string): (r: W.Option<set<string>>)
    ensures r.Some? <==> md.HashSet? && key in md.sets
    ensures r.Some? ==> r.value == md.sets[key]
  {
    match md
    case HashMap(_) => W.None
    case HashSet(s) => if key in s then W.Some(s[key]) else W.None
  }

  /** A map stored under a name is found under that name and no other, and never as a set. */
  lemma HashmapRoundTrip(name: string, hm: map<string, string>, other: string)
    ensures GetHashmap(FromHashmap(name, hm), name) == W.Some(hm)
    ensures GetHashset(FromHashmap(name, hm), name) == W.None
    ensures other != name ==> GetHashmap(FromHashmap(name, hm), other) == W.None
  {
  }

  /** A set stored under a name is found under that name and no other, and never as a map. */
  lemma HashsetRoundTrip(name: string, hs: set<string>, other: string)
    ensures GetHashset(FromHashset(name, hs), name) == W.Some(hs)
    ensures GetHashmap(FromHashset(name, hs), name) == W.None
    ensures other != name ==> GetHashset(FromHashset(name, hs), other) == W.None
  {
  }

  /** The default holds nothing under any name. */
  lemma DefaultEmpty(key: string)
    ensures GetHashset(Default, key) == W.None && GetHashmap(Default, key) == W.None
  {
  }

  /** `AnyValue`: a transparent wrapper around one value. */
  datatype AnyValue<T> = AnyValue(inner: T)

  /** `AnyValue::new`. */
  function New<T>(t: T): (r: AnyValue<T>)
    ensures Deref(r) == t
  {
    AnyValue(t)
  }

  /** `Deref`: the wrapped value. */
  function Deref<T>(a: AnyValue<T>): T {
    a.inner
  }

  /** Wrapping what a wrapper holds gives the same wrapper back. */
  lemma NewDeref<T>(a: AnyValue<T>)
    ensures New(Deref(a)) == a
  {
  }

  /** `AnyValue::default`, given the wrapped type's default. */
  function DefaultValue<T>(typeDefault: T): (r: AnyValue<T>)
    ensures Deref(r) == typeDefault
  {
    AnyValue(typeDefault)
  }
}
