/**
 * Key namespacing: the logical key a caller names becomes the physical store key
 * `<namespace>:<key>` when a namespace is configured and the request enables it.
 */
module KeyNamespace {
  import opened CacheTypes
  import opened JavaSemantics

  /** The delimiter between namespace and key. */
  const Delimiter: string := ":"

  /** Whether a namespace prefix is put in front of keys at all. */
  predicate Applies(ns: string, enabled: bool) {
    |ns| > 0 && enabled
  }

  /** The configured namespace: the property value with surrounding blanks trimmed. */
  function NamespaceFromConfig(raw: string): (ns: string)
    ensures |ns| <= |raw|
    ensures |ns| > 0 ==> !IsTrimmed(ns[0]) && !IsTrimmed(ns[|ns| - 1])
  {
    Trim(raw)
  }

  /**
   * addNamespace: prefix the namespace and the delimiter when the namespace is
   * non-empty and the flag is set; the key is returned unchanged otherwise.
   */
  function AddNamespace(ns: string, key: string, enabled: bool): (r: string)
    ensures Applies(ns, enabled) ==> |r| == |ns| + 1 + |key| && StartsWith(r, ns + Delimiter) && r[|ns| + 1..] == key
    ensures !Applies(ns, enabled) ==> r == key
  {
    if Applies(ns, enabled) then ns + Delimiter + key else key
  }

  /** The logical key behind a physical key in namespace `ns`, if it carries the prefix. */
  function StripNamespace(ns: string, physical: string): (r: Option<string>)
    ensures r.Some? ==> |r.value| + |ns| + 1 == |physical|
  {
    if |ns| > 0 && StartsWith(physical, ns + Delimiter) then Some(physical[|ns| + 1..]) else None
  }

  /** Stripping the namespace recovers the key that was namespaced. */
  lemma NamespaceRoundTrip(ns: string, key: string)
    requires |ns| > 0
    ensures StripNamespace(ns, AddNamespace(ns, key, true)) == Some(key)
  {
    var physical := AddNamespace(ns, key, true);
    assert physical[..|ns| + 1] == ns + Delimiter;
  }

  /** Distinct keys stay distinct under the same namespace setting. */
  lemma NamespaceInjective(ns: string, k1: string, k2: string, enabled: bool)
    requires AddNamespace(ns, k1, enabled) == AddNamespace(ns, k2, enabled)
    ensures k1 == k2
  {
    if Applies(ns, enabled) {
      assert k1 == AddNamespace(ns, k1, enabled)[|ns| + 1..];
    }
  }

  /**
   * Namespacing is not idempotent: applying it a second time changes the key.
   * This is why every operation must apply it exactly once.
   */
  lemma NamespaceTwiceDiffers(ns: string, key: string)
    requires |ns| > 0
    ensures AddNamespace(ns, AddNamespace(ns, key, true), true) != AddNamespace(ns, key, true)
  {
    var once := AddNamespace(ns, key, true);
    assert |AddNamespace(ns, once, true)| == |once| + |ns| + 1;
  }

  /** With namespace "ns": "k" becomes "ns:k" with the flag and stays "k" without it. */
  lemma NamespaceExample()
    ensures AddNamespace("ns", "k", true) == "ns:k"
    ensures AddNamespace("ns", "k", false) == "k"
    ensures AddNamespace("", "k", true) == "k"
  {
  }

  /**
   * addNamespace applied to a key that may be null: Java string concatenation
   * writes a null key as the four letters "null".
   */
  function AddNamespaceNullable(ns: string, key: Option<string>, enabled: bool): (r: Option<string>)
    ensures key.Some? ==> r == Some(AddNamespace(ns, key.value, enabled))
    ensures key.None? && Applies(ns, enabled) ==> r == Some(AddNamespace(ns, "null", true))
    ensures key.None? && !Applies(ns, enabled) ==> r.None?
  {
    match key
    case Some(k) => Some(AddNamespace(ns, k, enabled))
    case None => if Applies(ns, enabled) then Some(ns + Delimiter + "null") else None
  }

  /**
   * The pattern a regex scan sends: namespaced unless the optional flag is
   * present and false.
   */
  function ScanPattern(ns: string, regex: string, flag: Option<bool>): (r: string)
    ensures flag != Some(false) ==> r == AddNamespace(ns, regex, true)
    ensures flag == Some(false) ==> r == regex
  {
    if (flag.Some? && flag.value == true) || flag.None? then AddNamespace(ns, regex, true) else regex
  }
}
