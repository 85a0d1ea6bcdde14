/** net/http.Header and the "Name: Value" field syntax the cache accepts. */
module Headers {
  import opened Wrappers
  import opened GoStrings

  /** A header multimap: each name holds its values in the order they were
      added. Names are stored exactly as given: the canonicalisation that
      http.Header.Add applies to names is not modelled (identity). */
  type Header = map<string, seq<string>>

  /** http.Header.Add: appends value to the values under name and touches
      no other name. */
  function Add(h: Header, name: string, value: string): (r: Header)
    ensures r.Keys == h.Keys + {name}
    ensures r[name] == (if name in h then h[name] else []) + [value]
    ensures forall k :: k in h && k != name ==> r[k] == h[k]
  {
    h[name := (if name in h then h[name] else []) + [value]]
  }

  /** A field is accepted exactly when it holds one ':'. */
  predicate WellFormed(field: string)
  {
    Count(field, ':') == 1
  }

  /** strings.Split(field, ":") must give exactly two pieces; the result is
      the trimmed text before the colon and the trimmed text after it. */
  function ParseField(field: string): (r: Option<(string, string)>)
    ensures r.Some? <==> WellFormed(field)
    ensures r.Some? ==>
      var parts := Split(field, ':');
      && |parts| == 2
      && field == parts[0] + ":" + parts[1]
      && ':' !in parts[0] && ':' !in parts[1]
      && r.value == (TrimSpace(parts[0]), TrimSpace(parts[1]))
  {
    var parts := Split(field, ':');
    SplitCount(field, ':');
    if |parts| != 2 then None
    else
      SplitInTwo(field, ':');
      Some((TrimSpace(parts[0]), TrimSpace(parts[1])))
  }
}
