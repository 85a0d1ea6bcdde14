/** cmd_request.go: the request descriptor of the older revision, whose
    headers are a name-to-value map, and its cache identity. Go visits a
    map in an unspecified order that may change from one loop to the next;
    the model makes that order an explicit argument. */
module LegacyRequest {
  import opened GoTime

  datatype CmdRequest = CmdRequest(
    httpMethod: string,
    url: string,
    body: string,
    headers: map<string, string>,
    ttl: Int64)

  /** order is one way `range` can visit m: every key exactly once. */
  predicate IsKeyOrder(order: seq<string>, m: map<string, string>)
  {
    && (forall i, j :: 0 <= i < j < |order| ==> order[i] != order[j])
    && (forall k :: k in m ==> k in order)
    && (forall i :: 0 <= i < |order| ==> order[i] in m)
  }

  /** The text one header contributes: key + ":" + value. */
  function Field(m: map<string, string>, key: string): string
    requires key in m
  {
    key + ":" + m[key]
  }

  /** The fields of the keys in order, one after another. */
  function Serialize(m: map<string, string>, order: seq<string>): string
    requires forall i :: 0 <= i < |order| ==> order[i] in m
  {
    if |order| == 0 then ""
    else Serialize(m, order[..|order| - 1]) + Field(m, order[|order| - 1])
  }

  /** The string that Hash feeds to xxhash when range visits the headers
      in the given order. */
  function PreImage(r: CmdRequest, order: seq<string>): string
    requires IsKeyOrder(order, r.headers)
  {
    r.httpMethod + r.url + r.body + Serialize(r.headers, order)
  }

  /** CmdRequest.Hash: one `for key, val := range r.Headers` loop that
      appends key+":"+val, then xxhash (here `hash`) of
      Method+Url+Body+headers. */
  method Hash(r: CmdRequest, order: seq<string>, hash: string -> UInt64) returns (id: UInt64)
    requires IsKeyOrder(order, r.headers)
    ensures id == hash(PreImage(r, order))
  {
    var headers := "";
    var i := 0;
    while i < |order|
      invariant 0 <= i <= |order|
      invariant headers == Serialize(r.headers, order[..i])
    {
      assert order[..i + 1][..i] == order[..i];
      var key := order[i];
      headers := headers + key + ":" + r.headers[key];
      i := i + 1;
    }
    assert order[..i] == order;
    id := hash(r.httpMethod + r.url + r.body + headers);
  }

  /** Total length of the fields of the keys in `keys`, independent of any
      order. */
  ghost function FieldsLength(m: map<string, string>, keys: set<string>): nat
    requires keys <= m.Keys
    decreases keys
  {
    if keys == {} then 0
    else
      var k :| k in keys;
      |Field(m, k)| + FieldsLength(m, keys - {k})
  }

  /** Any key can be taken out first. */
  lemma {:induction false} FieldsLengthRemove(m: map<string, string>, keys: set<string>, k: string)
    requires keys <= m.Keys && k in keys
    ensures FieldsLength(m, keys) == |Field(m, k)| + FieldsLength(m, keys - {k})
    decreases keys
  {
    var j :| j in keys && FieldsLength(m, keys) == |Field(m, j)| + FieldsLength(m, keys - {j});
    if j != k {
      FieldsLengthRemove(m, keys - {j}, k);
      FieldsLengthRemove(m, keys - {k}, j);
      assert keys - {j} - {k} == keys - {k} - {j};
    }
  }

  /** The serialization of distinct keys has the length of their fields. */
  lemma {:induction false} SerializeLength(m: map<string, string>, order: seq<string>)
    requires forall i :: 0 <= i < |order| ==> order[i] in m
    requires forall i, j :: 0 <= i < j < |order| ==> order[i] != order[j]
    ensures |Serialize(m, order)| == FieldsLength(m, set k | k in order)
  {
    if |order| > 0 {
      var pre, last := order[..|order| - 1], order[|order| - 1];
      SerializeLength(m, pre);
      var keys := set k | k in order;
      assert (set k | k in pre) == keys - {last} by {
        assert forall i :: 0 <= i < |pre| ==> pre[i] == order[i];
      }
      FieldsLengthRemove(m, keys, last);
    }
  }

  /** Whatever order range takes, the pre-image starts with
      Method+Url+Body and has the length of those three plus key, ':' and
      value for every header. */
  lemma PreImageShape(r: CmdRequest, order: seq<string>)
    requires IsKeyOrder(order, r.headers)
    ensures |PreImage(r, order)| ==
      |r.httpMethod| + |r.url| + |r.body| + FieldsLength(r.headers, r.headers.Keys)
    ensures PreImage(r, order)[..|r.httpMethod + r.url + r.body|] == r.httpMethod + r.url + r.body
  {
    SerializeLength(r.headers, order);
    assert (set k | k in order) == r.headers.Keys;
  }

  /** With at most one header every visiting order gives the same
      pre-image: the request determines its id. */
  lemma PreImageUniqueForOneHeader(r: CmdRequest, o1: seq<string>, o2: seq<string>)
    requires IsKeyOrder(o1, r.headers) && IsKeyOrder(o2, r.headers)
    requires |r.headers| <= 1
    ensures PreImage(r, o1) == PreImage(r, o2)
  {
    OrderOfSmallMap(r.headers, o1);
    OrderOfSmallMap(r.headers, o2);
  }

  /** A map with no key is visited as [], one with one key k as [k]. */
  lemma OrderOfSmallMap(m: map<string, string>, order: seq<string>)
    requires IsKeyOrder(order, m) && |m| <= 1
    ensures |m| == 0 ==> order == []
    ensures |m| == 1 ==> exists k :: k in m && order == [k]
  {
    DistinctLength(order);
    assert (set k | k in order) == m.Keys;
    if |m| == 1 {
      assert order == [order[0]];
    }
  }

  /** A visiting order has one position per key. */
  lemma {:induction false} DistinctLength(order: seq<string>)
    requires forall i, j :: 0 <= i < j < |order| ==> order[i] != order[j]
    ensures |set k | k in order| == |order|
  {
    if |order| > 0 {
      var pre, last := order[..|order| - 1], order[|order| - 1];
      DistinctLength(pre);
      assert forall i :: 0 <= i < |pre| ==> pre[i] == order[i];
      assert (set k | k in order) == (set k | k in pre) + {last};
      assert last !in (set k | k in pre);
    }
  }

  /** With two headers the visiting order shows in the pre-image: the same
      request can hash to two different ids. */
  lemma OrderChangesPreImage()
    ensures var r := CmdRequest("GET", "http://x/", "", map["a" := "1", "b" := "2"], 5);
            && IsKeyOrder(["a", "b"], r.headers) && IsKeyOrder(["b", "a"], r.headers)
            && PreImage(r, ["a", "b"]) != PreImage(r, ["b", "a"])
  {
    var r := CmdRequest("GET", "http://x/", "", map["a" := "1", "b" := "2"], 5);
    assert ["a", "b"][..1] == ["a"];
    assert ["b", "a"][..1] == ["b"];
    assert Serialize(r.headers, ["a", "b"]) == Serialize(r.headers, ["a"]) + "b:2";
    assert Serialize(r.headers, ["a"]) == "a:1";
    assert Serialize(r.headers, ["b", "a"]) == Serialize(r.headers, ["b"]) + "a:1";
    assert Serialize(r.headers, ["b"]) == "b:2";
    assert PreImage(r, ["a", "b"])[12] != PreImage(r, ["b", "a"])[12];
  }
}
