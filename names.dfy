/**
 * Index resolution against the string pool (`getString`, `getUri`,
 * `getLocalName`) and qualified names against the namespace map (`getQName`).
 */
module Names {
  import opened Wrappers
  import opened Jvm

  const COLON: CodeUnit := 0x3A

  /** The namespace map: URI to prefix. Like the `HashMap` it models, null keys and values are allowed. */
  type PrefixMap = map<JString, JString>

  /**
   * `getString(index)`: null for a negative index, the pool's string for an
   * index inside the pool, and an out-of-bounds failure past its end.
   * `getLocalName` is this same lookup.
   */
  function GetString(pool: seq<Units>, index: int): (r: Outcome<JString>)
    ensures r.Ok? <==> index < |pool|
    ensures r.Err? ==> r.error == PoolIndexOutOfBounds
    ensures r.Ok? ==> (r.value == None <==> index < 0)
    ensures r.Ok? && 0 <= index ==> r.value == Some(pool[index])
  {
    if index < 0 then Ok(None)
    else if index < |pool| then Ok(Some(pool[index]))
    else Err(PoolIndexOutOfBounds)
  }

  /** `getUri(index)`: as `GetString`, with null replaced by the empty string. */
  function GetUri(pool: seq<Units>, index: int): (r: Outcome<Units>)
    ensures r.Ok? <==> index < |pool|
    ensures r.Err? ==> r.error == PoolIndexOutOfBounds
    ensures r.Ok? ==> r.value == if index < 0 then [] else pool[index]
  {
    var s :- GetString(pool, index);
    Ok(if s.None? then [] else s.value)
  }

  /** `Map.get`: the value stored for `key`, or null when there is none. */
  function Lookup(mapping: PrefixMap, key: JString): JString {
    if key in mapping then mapping[key] else None
  }

  /**
   * `getQName(uri, localName)`: the bare local name when the URI is empty,
   * otherwise the URI's prefix, a colon and the local name, each rendered
   * the way string concatenation renders it (a missing prefix reads "null").
   */
  function QName(mapping: PrefixMap, uri: Units, localName: JString): (r: JString)
    ensures uri == [] ==> r == localName
    ensures uri != [] ==> r.Some?
  {
    if uri == [] then localName
    else Some(Show(Lookup(mapping, Some(uri))) + [COLON] + Show(localName))
  }

  /** The index of the first colon of `s`, or `|s|` when it has none. */
  function FirstColon(s: Units): (r: nat)
    ensures r <= |s|
    ensures r < |s| ==> s[r] == COLON
    ensures forall k | 0 <= k < r :: s[k] != COLON
  {
    if s == [] then 0
    else if s[0] == COLON then 0
    else 1 + FirstColon(s[1..])
  }

  /** Growing the pool at the end keeps every earlier lookup and makes each new entry its own index's string. */
  lemma GetStringExtends(pool: seq<Units>, pool': seq<Units>)
    requires pool <= pool'
    ensures forall j | j < |pool| :: GetString(pool', j) == GetString(pool, j)
    ensures forall k | |pool| <= k < |pool'| :: GetString(pool', k) == Ok(Some(pool'[k]))
  {
  }

  /**
   * A qualified name splits back at its first colon into the rendered prefix
   * and the rendered local name, whenever the prefix holds no colon.
   */
  lemma QNameSplits(mapping: PrefixMap, uri: Units, localName: JString)
    requires uri != []
    requires COLON !in Show(Lookup(mapping, Some(uri)))
    ensures var q := QName(mapping, uri, localName).value;
      var i := FirstColon(q);
      i < |q| && q[..i] == Show(Lookup(mapping, Some(uri))) && q[i + 1..] == Show(localName)
  {
    var p := Show(Lookup(mapping, Some(uri)));
    var q := QName(mapping, uri, localName).value;
    assert q == p + [COLON] + Show(localName);
    assert q[|p|] == COLON;
    assert forall k | 0 <= k < |p| :: q[k] == p[k];
  }
}
